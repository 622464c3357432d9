/** What a request names: the words of its request line, the target its answer is
    routed to, and the one input on which routing crashes.
 */
module Naming {
  import opened Bytes
  import opened Message
  import opened RequestMachine
  import opened ResponseMachine
  import opened Connection
  import opened Chunking
  import RoundTrip
  import WholeRequests

  /** Method and resource of a request: those stored, or, as long as the request
      line has not been read, those of the first line pending or arriving. */
  function WordsOf(v: RequestValue, data: string): (string, string) {
    if v.status != HandleInit then (v.requestMethod, v.resource)
    else
      match CutLine(v.recvMsg + data)
      case None => (v.requestMethod, v.resource)
      case Some((line, _)) => (RequestLine(line).0, RequestLine(line).1)
  }

  /** A request line of a GET or PUT needs a second word. */
  predicate NamesResource(words: (string, string)) {
    words.0 == "GET" || words.0 == "PUT" ==> words.1 != ""
  }

  predicate Worded(v: RequestValue) {
    NamesResource((v.requestMethod, v.resource))
  }

  /** The target of an answered request. */
  function AnswerTarget(words: (string, string)): string {
    if words.0 == "POST" then REDIRECT else words.1
  }

  /** The methods that are ever answered. */
  predicate Answerable(words: (string, string)) {
    words.0 == "GET" || words.0 == "POST" || words.0 == "PUT"
  }

  // ---------------------------------------------------------------- one settling

  lemma StepWords(m: Machine, canOpen: bool)
    requires Step(m, canOpen).Next?
    ensures var m1 := Step(m, canOpen).m;
      && m1.req.status != HandleInit && m1.req.status != HandleError
      && (m1.req.requestMethod, m1.req.resource) == WordsOf(m.req, "")
      && (Done(m1) ==> m1.target == AnswerTarget(WordsOf(m.req, "")) && Answerable(WordsOf(m.req, "")))
  {
    EmptyConcat(m.req.recvMsg);
    match m.req.status {
      case HandleInit =>
      case HandleHead => HeadWords(m);
      case HandleBody => BodyWords(m, canOpen);
      case _ =>
    }
  }

  lemma HeadWords(m: Machine)
    requires m.req.status == HandleHead && StepHead(m).Next?
    ensures var v := StepHead(m).m.req;
      && v.status != HandleInit && v.status != HandleComplete && v.status != HandleError
      && v.requestMethod == m.req.requestMethod && v.resource == m.req.resource
  {
    hide Advances, CutLine;
  }

  lemma BodyWords(m: Machine, canOpen: bool)
    requires m.req.status == HandleBody && StepBody(m, canOpen).Next?
    ensures var m1 := StepBody(m, canOpen).m;
      && m1.req.status != HandleInit && m1.req.status != HandleError
      && m1.req.requestMethod == m.req.requestMethod && m1.req.resource == m.req.resource
      && (Done(m1) ==>
            && m1.target == AnswerTarget((m.req.requestMethod, m.req.resource))
            && Answerable((m.req.requestMethod, m.req.resource)))
  {
    hide Advances, CutLine, LineFileName, IsMultipart;
  }

  /** Settling reads the words off the request line and keeps them; a completed
      request has the target that they name, and so has a PUT in its body. */
  lemma {:induction false} SettleWords(m: Machine, canOpen: bool)
    requires Settle(m, canOpen).Settled? && !Done(m)
    ensures var x := Settle(m, canOpen).m;
      && (x.req.requestMethod, x.req.resource) == WordsOf(m.req, "")
      && (Done(x) || PutBody(x.req) ==>
            x.target == AnswerTarget(WordsOf(m.req, "")) && Answerable(WordsOf(m.req, "")))
    decreases 16 - Rank(m), |m.req.recvMsg|
  {
    hide Settle, Step, CutLine;
    SettleMove(m, canOpen);
    if Step(m, canOpen).Next? {
      var m1 := Step(m, canOpen).m;
      StepWords(m, canOpen);
      if Done(m1) {
        DoneIsStuck(m1, canOpen);
        SettleMove(m1, canOpen);
      } else {
        SettleWords(m1, canOpen);
      }
    } else {
      StuckWords(m, canOpen);
    }
  }

  lemma DoneIsStuck(m: Machine, canOpen: bool)
    requires Done(m)
    ensures Step(m, canOpen) == Stuck
  {
  }

  lemma StuckWords(m: Machine, canOpen: bool)
    requires Step(m, canOpen) == Stuck
    ensures (m.req.requestMethod, m.req.resource) == WordsOf(m.req, "")
    ensures PutBody(m.req) ==> m.target == m.req.resource
  {
    EmptyConcat(m.req.recvMsg);
  }

  // ---------------------------------------------------------------- one receive run

  /** More data does not change a line that has arrived. */
  lemma WordsAppend(v: RequestValue, data: string, more: string)
    ensures WordsOf(v, data) == WordsOf(v, data + more)
      || (v.status == HandleInit && CutLine(v.recvMsg + data).None?)
  {
    if CutLine(v.recvMsg + data).Some? {
      CutLineAppend(v.recvMsg + data, more);
      Associative(v.recvMsg, data, more);
    }
  }

  /** What the receive loop makes of the words on offer: it stores them, or still
      has none; and an answer has the target that they name. */
  lemma LoopWords(m: Machine, input: seq<RecvResult>, canOpen: bool)
    requires !Done(m) && RecvLoop(m, input, canOpen).Received?
    ensures var r := RecvLoop(m, input, canOpen);
      var words := WordsOf(m.req, DataOf(input));
      && ((r.m.req.requestMethod, r.m.req.resource) == words
          || (r.m.req.requestMethod, r.m.req.resource) == (m.req.requestMethod, m.req.resource))
      && (r.ending == Answered ==>
            && (r.m.req.requestMethod, r.m.req.resource) == words
            && r.m.target == AnswerTarget(words) && Answerable(words)
            && (Done(r.m) || PutBody(r.m.req)))
  {
    hide Settle, Step, RecvLoop, ReadBy, WordsOf, AnswerTarget;
    if input == [] || !input[0].Data? {
      NoDataNoMove(m, input, canOpen);
    } else {
      var bytes := ReadBy(m, input, canOpen);
      LoopReads(m, input, canOpen);
      var unread := DataOf(input)[|bytes|..];
      assert DataOf(input) == bytes + unread;
      SettleWords(Receive(m, bytes), canOpen);
      ReceivedWords(m, bytes);
      WordsAppend(m.req, bytes, unread);
      var x := Settle(Receive(m, bytes), canOpen).m;
      if m.req.status == HandleInit && CutLine(m.req.recvMsg + bytes).None? {
        NoLineNoAnswer(m, bytes, canOpen);
      }
    }
  }

  lemma NoDataNoMove(m: Machine, input: seq<RecvResult>, canOpen: bool)
    requires input == [] || !input[0].Data?
    ensures var r := RecvLoop(m, input, canOpen);
      && r.Received? && r.ending != Answered
      && r.m.req.requestMethod == m.req.requestMethod && r.m.req.resource == m.req.resource
  {
  }

  lemma ReceivedWords(m: Machine, b: string)
    ensures WordsOf(Receive(m, b).req, "") == WordsOf(m.req, b)
  {
    EmptyConcat(m.req.recvMsg + b);
  }

  lemma NoLineNoAnswer(m: Machine, b: string, canOpen: bool)
    requires m.req.status == HandleInit && CutLine(m.req.recvMsg + b).None?
    ensures Settle(Receive(m, b), canOpen) == Settled(Receive(m, b)) && !Resting(Receive(m, b), canOpen)
    ensures WordsOf(m.req, b) == (m.req.requestMethod, m.req.resource)
  {
    SettleMove(Receive(m, b), canOpen);
  }

  // ---------------------------------------------------------------- the crash

  /** The exact condition under which an answered request crashes the send handler:
      it is a GET or a PUT whose request line has no second word. */
  lemma AnswerCrashIff(c: Conn, files: Files, input: seq<RecvResult>, canOpen: bool,
                       page: string, results: seq<SendResult>)
    requires ValidConn(c) && ResponseOf(c).status == HandleInit
    requires RecvLoop(MachineOf(c, files), input, canOpen).Received?
    requires RecvLoop(MachineOf(c, files), input, canOpen).ending == Answered
    ensures var p := RecvPass(c, files, input, canOpen);
      && p.Passed? && ValidConn(p.c) && p.c.interest == ReadWrite
      && (SendPass(p.c, p.files, page, results).Crashed? <==>
            !(NamesResource(WordsOf(RequestOf(c), DataOf(input)))))
  {
    hide Settle, Step, RecvLoop, WordsOf, SendPass;
    var m := MachineOf(c, files);
    var r := RecvLoop(m, input, canOpen);
    LoopWords(m, input, canOpen);
    RecvPassValid(c, files, input, canOpen);
    var p := RecvPass(c, files, input, canOpen);
    assert r.m.target == "" <==> !NamesResource(WordsOf(RequestOf(c), DataOf(input)));
    assert p.c.resp == Some(ResponseOf(c).(target := r.m.target));
    SendCrashIff(p.c, p.files, page, results);
  }

  /** The input that shows it: a request line `GET` and an empty header block are
      accepted and answered, and the send run behind it crashes. */
  lemma EmptyResourceCrashes(c: Conn, files: Files, page: string, results: seq<SendResult>)
    requires c.req.None? && c.resp.None?
    ensures var p := RecvPass(c, files, [Data("GET" + CRLF + CRLF)], true);
      p.Passed? && p.c.interest == ReadWrite && ValidConn(p.c) && SendPass(p.c, p.files, page, results).Crashed?
  {
    hide Settle, Step, RecvPass, SendPass, RecvLoop, WordsOf, RequestLine, CutLine, NamesResource, ValidConn;
    var stream := "GET" + CRLF + CRLF;
    BareGetCompletes(files);
    BareGetAnswers(c, files);
    AnswerCrashIff(c, files, [Data(stream)], true, page, results);
    HealthyOne(stream);
    CutGetLine();
    GetLine();
    NoSecondWord();
  }

  lemma BareGetCompletes(files: Files)
    ensures var o := Settle(Receive(Machine(FRESH_REQUEST, "", files), "GET" + CRLF + CRLF), true);
      o.Settled? && Done(o.m)
  {
    hide Settle, Step;
    var stream := "GET" + CRLF + CRLF;
    GetLine();
    RoundTrip.StartBack("GET", "GET", "", "", [], "", "", files, true);
    assert stream == "GET" + CRLF + (RoundTrip.PrintFields([]) + CRLF + "");
    EmptyConcat(stream);
    var m1 := Machine(RoundTrip.HeadRequest("GET", "", "", [], ""), "", files);
    WholeRequests.GetCompletes(m1);
  }

  lemma BareGetAnswers(c: Conn, files: Files)
    requires c.req.None? && c.resp.None?
    requires var o := Settle(Receive(Machine(FRESH_REQUEST, "", files), "GET" + CRLF + CRLF), true);
      o.Settled? && Done(o.m)
    ensures var r := RecvLoop(MachineOf(c, files), [Data("GET" + CRLF + CRLF)], true);
      r.Received? && r.ending == Answered
    ensures ValidConn(c) && ResponseOf(c).status == HandleInit
  {
    hide Settle, Step, RecvLoop;
    FreshIsStuck("", files, true);
    HealthyOne("GET" + CRLF + CRLF);
    LoopSettles(MachineOf(c, files), [Data("GET" + CRLF + CRLF)]);
  }

  lemma GetLine()
    ensures RequestLine("GET" + CRLF) == ("GET", "", "")
  {
    ReadWordOf("GET", CRLF);
    assert SkipSpaces(CRLF) == "";
  }

  lemma NoSecondWord()
    requires RequestLine("GET" + CRLF) == ("GET", "", "")
    requires CutLine("GET" + CRLF + CRLF) == Some(("GET" + CRLF, CRLF))
    ensures !NamesResource(WordsOf(FRESH_REQUEST, "GET" + CRLF + CRLF))
  {
    EmptyConcat("GET" + CRLF + CRLF);
  }

  lemma CutGetLine()
    ensures CutLine("GET" + CRLF + CRLF) == Some(("GET" + CRLF, CRLF))
  {
    RoundTrip.CutPrinted("GET", CRLF);
  }
}
