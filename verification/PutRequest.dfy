/** PUT requests (event/myevent.cpp, lines 230-237 and 327-348). The receiver
    answers in every run that reads something once the head is complete, and keeps
    the request; the sender stores whatever the buffer holds when it routes. So what
    a PUT stores is what has been read by then, over any number of receive runs.
 */
module PutRequest {
  import opened Bytes
  import opened Message
  import opened RequestMachine
  import opened ResponseMachine
  import opened Connection
  import opened Chunking
  import opened RoundTrip
  import opened WholeRequests
  import opened KeepAlive

  /** A connection whose PUT has been answered with what is pending in `v`. */
  function PutAnswered(c: Conn, v: RequestValue): Conn {
    c.(req := Some(v), resp := Some(ResponseOf(c).(target := v.resource)), interest := ReadWrite)
  }

  function Grown(v: RequestValue, b: string): RequestValue {
    v.(recvMsg := v.recvMsg + b)
  }

  /** Healthy passes, the last of which reads something. */
  predicate EndInData(passes: seq<seq<RecvResult>>) {
    && passes != [] && BeginsWithData(passes[|passes| - 1])
    && forall i | 0 <= i < |passes| :: Healthy(passes[i])
  }

  // ---------------------------------------------------------------- receiving

  /** The bytes that runs read in the body phase: each takes one call and stops. */
  function FirstBytes(passes: seq<seq<RecvResult>>): string {
    if passes == [] then ""
    else (if BeginsWithData(passes[0]) then passes[0][0].bytes else "") + FirstBytes(passes[1..])
  }

  /** The bytes that successive runs read. */
  function ReadAll(c: Conn, files: Files, passes: seq<seq<RecvResult>>): string
    decreases |passes|
  {
    if passes == [] then ""
    else
      ReadBy(MachineOf(c, files), passes[0], true)
      + match RecvPass(c.(interest := Disarmed), files, passes[0], true)
        case Crashed => ""
        case Passed(c1, files1) => ReadAll(c1, files1, passes[1..])
  }

  /** One run in the body phase. */
  lemma PutPass(c: Conn, files: Files, input: seq<RecvResult>)
    requires PutBody(RequestOf(c)) && Healthy(input)
    ensures var v := RequestOf(c);
      RecvPass(c.(interest := Disarmed), files, input, true) == Passed(
        if BeginsWithData(input) then PutAnswered(c, Grown(v, input[0].bytes))
        else c.(req := Some(v), interest := ReadOnly), files)
    ensures ReadBy(MachineOf(c, files), input, true) == if BeginsWithData(input) then input[0].bytes else ""
  {
    hide Settle;
    if BeginsWithData(input) {
      PutSettles(Receive(MachineOf(c, files), input[0].bytes), true);
    }
  }

  /** Any number of runs in the body phase: the buffer grows by what they read. */
  lemma {:induction false} PutMore(c: Conn, files: Files, passes: seq<seq<RecvResult>>)
    requires PutBody(RequestOf(c)) && EndInData(passes)
    ensures RecvAll(c, files, passes) == Passed(PutAnswered(c, Grown(RequestOf(c), FirstBytes(passes))), files)
    ensures ReadAll(c, files, passes) == FirstBytes(passes)
    decreases |passes|
  {
    hide RecvPass, ReadBy;
    var v := RequestOf(c);
    assert Healthy(passes[0]);
    PutPass(c, files, passes[0]);
    var b := if BeginsWithData(passes[0]) then passes[0][0].bytes else "";
    EmptyConcat(b);
    EmptyConcat(v.recvMsg);
    if |passes| > 1 {
      var c1 := RecvPass(c.(interest := Disarmed), files, passes[0], true).c;
      PutMore(c1, files, passes[1..]);
      Associative(v.recvMsg, b, FirstBytes(passes[1..]));
    }
  }

  /** Any number of runs, from the first byte of the head on: if the machine settles
      in a PUT body on the bytes they read, they answer with exactly what those
      bytes leave pending. */
  lemma {:induction false} PutReads(c: Conn, files: Files, passes: seq<seq<RecvResult>>, x: Machine)
    requires Open(MachineOf(c, files)) && EndInData(passes)
    requires Settle(Receive(MachineOf(c, files), ReadAll(c, files, passes)), true) == Settled(x) && PutBody(x.req)
    ensures RecvAll(c, files, passes) == Passed(PutAnswered(c, x.req), x.files)
    decreases |passes|
  {
    hide Settle, Step, RecvPass, RecvLoop, ReadBy, FirstBytes, EndsEarly;
    var m, input := MachineOf(c, files), passes[0];
    assert Healthy(input);
    var r := ReadBy(m, input, true);
    var rest := match RecvPass(c.(interest := Disarmed), files, input, true)
      case Crashed => ""
      case Passed(c1, files1) => ReadAll(c1, files1, passes[1..]);
    assert ReadAll(c, files, passes) == r + rest;
    OpenIsNotResting(m);
    LoopReads(m, input, true);
    NeverLost(m, input);
    ReceiveTwice(m, r, rest);
    SettleAppend(Receive(m, r), rest, true);
    var x1 := Settle(Receive(m, r), true).m;
    OpenIsNotResting(x1);
    if Resting(x1, true) {
      RestingPrefix(m, r, rest);
      assert PutBody(x1.req);
      PutBegins(c, files, input, x1);
      if |passes| > 1 {
        PutMore(PutAnswered(c, x1.req), x1.files, passes[1..]);
      } else {
        EmptyConcat(x1.req.recvMsg);
      }
    } else {
      NotYet(m, input);
      PassWaits(c, files, input);
      if |passes| == 1 {
        EmptyConcat(r);
        assert false;
      }
      PutReads(c.(req := Some(x1.req), interest := ReadOnly), x1.files, passes[1..], x);
    }
  }

  /** The run that completes the head of a PUT. */
  lemma PutBegins(c: Conn, files: Files, input: seq<RecvResult>, x: Machine)
    requires Open(MachineOf(c, files)) && Healthy(input)
    requires Settle(Receive(MachineOf(c, files), ReadBy(MachineOf(c, files), input, true)), true) == Settled(x)
    requires PutBody(x.req)
    ensures RecvPass(c.(interest := Disarmed), files, input, true) == Passed(PutAnswered(c, x.req), x.files)
  {
    hide Settle, Step, RecvLoop, ReadBy;
    var m := MachineOf(c, files);
    OpenIsNotResting(m);
    LoopReads(m, input, true);
    NeverLost(m, input);
    SettledIsStuck(Receive(m, ReadBy(m, input, true)));
    StuckPutNames(x);
  }

  lemma StuckPutNames(x: Machine)
    requires PutBody(x.req) && Step(x, true) == Stuck
    ensures x.target == x.req.resource
  {
  }

  lemma NotYet(m: Machine, input: seq<RecvResult>)
    requires Healthy(input) && Step(m, true) == Stuck && !Resting(m, true)
    requires var o := Settle(Receive(m, ReadBy(m, input, true)), true); o.Settled? && !Resting(o.m, true)
    ensures ReadBy(m, input, true) == DataOf(input)
  {
    hide Settle, Step, RecvLoop, ReadBy;
    LoopReads(m, input, true);
    NeverLost(m, input);
  }

  // ---------------------------------------------------------------- one PUT, printed

  predicate ProperPut(name: string, v: string, fields: seq<Field>) {
    name != "" && Words("PUT", "/put/" + name, v) && Printable(fields) && Accepted(fields)
  }

  function PutHead(name: string, v: string, fields: seq<Field>): string {
    PrintHead("PUT", "/put/" + name, v, fields)
  }

  /** The request entry of a PUT that has `pending` in its buffer. */
  function PutEntry(name: string, v: string, fields: seq<Field>, pending: string): RequestValue {
    HeadRequest("PUT", "/put/" + name, v, fields, pending)
  }

  lemma PutHeadBack(name: string, v: string, fields: seq<Field>, a: string, target: string, files: Files)
    requires ProperPut(name, v, fields)
    ensures Settle(Receive(Machine(FRESH_REQUEST, target, files), PutHead(name, v, fields) + a), true)
      == Settled(Machine(PutEntry(name, v, fields, a), "/put/" + name, files))
    ensures PutBody(PutEntry(name, v, fields, a)) && PutEntry(name, v, fields, a).resource == "/put/" + name
    ensures PutEntry(name, v, fields, a).recvMsg == a
  {
    hide Settle, Step, PrintHead, WithFields, NoSpace;
    var u := "/put/" + name;
    HeadBack("PUT", u, v, fields, a, target, files, true);
    FreshReceives(PrintHead("PUT", u, v, fields) + a, target, files);
    HeadStatus("PUT", u, v, fields, a);
    PutSettles(Machine(HeadRequest("PUT", u, v, fields, a), target, files), true);
  }

  lemma PutTarget(name: string)
    requires name != ""
    ensures SplitTarget("/put/" + name) == OpNamed("put", name)
  {
    SplitPrinted("put", name);
    assert "/put/" + name == "/" + "put" + "/" + name;
  }

  /** The send run that routes a PUT stores the buffer. */
  lemma PutStores(c: Conn, files: Files, name: string, page: string, results: seq<SendResult>)
    requires ValidConn(c) && c.resp == Some(FRESH_RESPONSE.(target := "/put/" + name)) && name != ""
    ensures var q := SendPass(c.(interest := Disarmed), files, page, results);
      q.Passed? && q.files == files[name := RequestOf(c).recvMsg]
  {
    hide SendLoop, OkHead;
    PutTarget(name);
  }

  /** What a PUT stores, over any number of receive runs before the send run that
      routes it: exactly the body bytes they have read. So the file is a given body
      if and only if the runs have read the head and that body, no less and no more. */
  lemma PutStoresWhatWasRead(name: string, v: string, fields: seq<Field>, c: Conn, files: Files,
                             passes: seq<seq<RecvResult>>, a: string, body: string,
                             page: string, results: seq<SendResult>)
    requires Idle(c) && ProperPut(name, v, fields) && EndInData(passes)
    requires ReadAll(c, files, passes) == PutHead(name, v, fields) + a
    ensures var p := RecvAll(c, files, passes);
      && p == Passed(PutAnswered(c, PutEntry(name, v, fields, a)), files) && ValidConn(p.c)
      && var q := SendPass(p.c.(interest := Disarmed), files, page, results);
      && q.Passed? && q.files == files[name := a]
      && (q.files == files[name := body] <==> ReadAll(c, files, passes) == PutHead(name, v, fields) + body)
  {
    hide Settle, Step, RecvAll, ReadAll, SendPass, PutEntry, PutHead, ProperPut;
    FreshIsOpen(c, files);
    PutHeadBack(name, v, fields, a, "", files);
    var x := Machine(PutEntry(name, v, fields, a), "/put/" + name, files);
    PutReads(c, files, passes, x);
    assert name != "" by { ProperName(name, v, fields); }
    PutStores(PutAnswered(c, x.req), files, name, page, results);
    SameTail(PutHead(name, v, fields), a, body);
    assert files[name := a][name] == a && files[name := body][name] == body;
  }

  lemma ProperName(name: string, v: string, fields: seq<Field>)
    requires ProperPut(name, v, fields)
    ensures name != ""
  {
  }

  lemma SameTail(head: string, a: string, b: string)
    ensures head + a == head + b <==> a == b
  {
    assert (head + a)[|head|..] == a && (head + b)[|head|..] == b;
  }

  // ---------------------------------------------------------------- round after round

  /** A PUT that has been answered and still stands: bytes to come are appended. */
  predicate Standing(c: Conn, name: string) {
    && name != "" && ValidConn(c) && NoResponse(c)
    && PutBody(RequestOf(c)) && RequestOf(c).resource == "/put/" + name
  }

  /** An answered PUT is stored and replied to; behind a complete reply it stands. */
  lemma AnsweredPut(c: Conn, v: RequestValue, files: Files, name: string, page: string, turns: seq<seq<SendResult>>)
    requires ValidConn(c) && NoResponse(c) && name != "" && PutBody(v) && v.resource == "/put/" + name
    requires forall i | 0 <= i < |turns| :: Undisturbed(turns[i])
    ensures var reply := (PUT_HEAD, files[name := v.recvMsg]);
      var c1 := PutAnswered(c, v);
      && ValidConn(c1)
      && var q := SendTurns(c1, files, page, turns);
      && q.Passed? && ValidConn(q.c)
      && (Replying(q.c, v, q.files, page, c.wire, reply) || Finished(q.c, v, q.files, c.wire, reply))
      && (Finished(q.c, v, q.files, c.wire, reply) ==> Standing(q.c, name))
  {
    hide SendTurns, Underway;
    PutTarget(name);
    var c1 := PutAnswered(c, v);
    var reply := (PUT_HEAD, files[name := v.recvMsg]);
    assert Routing(c1, v, files, page, c.wire, reply);
    SendTurnsReply(c1, files, page, turns, v, c.wire, reply);
  }

  /** The first round of a PUT, from an idle connection on. */
  lemma PutFirst(name: string, v: string, fields: seq<Field>, c: Conn, files: Files, a: string, e: Exchange)
    requires Idle(c) && ProperPut(name, v, fields) && EndInData(e.passes)
    requires ReadAll(c, files, e.passes) == PutHead(name, v, fields) + a
    requires forall i | 0 <= i < |e.turns| :: Undisturbed(e.turns[i])
    ensures var x, reply := PutEntry(name, v, fields, a), (PUT_HEAD, files[name := a]);
      var p := RecvAll(c, files, e.passes);
      && p == Passed(PutAnswered(c, x), files) && ValidConn(p.c)
      && var q := SendTurns(p.c, files, e.page, e.turns);
      && q.Passed?
      && (Replying(q.c, x, q.files, e.page, c.wire, reply) || Finished(q.c, x, q.files, c.wire, reply))
      && (Finished(q.c, x, q.files, c.wire, reply) ==> Standing(q.c, name))
  {
    hide Settle, Step, RecvAll, ReadAll, SendTurns, PutEntry, PutHead, ProperPut, Standing, Finished, Replying;
    PutHeadBack(name, v, fields, a, "", files);
    PutStoresWhatWasRead(name, v, fields, c, files, e.passes, a, a, "", []);
    ProperName(name, v, fields);
    AnsweredPut(c, PutEntry(name, v, fields, a), files, name, e.page, e.turns);
  }

  /** One more round on a standing PUT: the file is overwritten with the longer
      buffer, another response goes out, and when it is complete the PUT stands as
      before. */
  lemma PutAgain(c: Conn, files: Files, name: string, e: Exchange)
    requires Standing(c, name) && EndInData(e.passes)
    requires forall i | 0 <= i < |e.turns| :: Undisturbed(e.turns[i])
    ensures var v := Grown(RequestOf(c), FirstBytes(e.passes));
      var reply := (PUT_HEAD, files[name := v.recvMsg]);
      var p := RecvAll(c, files, e.passes);
      && p == Passed(PutAnswered(c, v), files) && ValidConn(p.c)
      && var q := SendTurns(p.c, files, e.page, e.turns);
      && q.Passed? && ValidConn(q.c)
      && (Replying(q.c, v, q.files, e.page, c.wire, reply) || Finished(q.c, v, q.files, c.wire, reply))
      && (Finished(q.c, v, q.files, c.wire, reply) ==> Standing(q.c, name))
  {
    hide RecvAll, SendTurns, Finished, Replying;
    PutMore(c, files, e.passes);
    AnsweredPut(c, Grown(RequestOf(c), FirstBytes(e.passes)), files, name, e.page, e.turns);
  }

  /** The bytes that a list of rounds reads. */
  function RoundBytes(es: seq<Exchange>): string {
    if es == [] then "" else FirstBytes(es[0].passes) + RoundBytes(es[1..])
  }

  function Repeated(s: string, n: nat): string {
    if n == 0 then "" else s + Repeated(s, n - 1)
  }

  /** Round after round on a standing PUT: behind `n` complete rounds the wire has
      gained `n` responses, and the file is all that has been read so far. */
  lemma {:induction false} PutRounds(c: Conn, files: Files, name: string, es: seq<Exchange>)
    requires Standing(c, name)
    requires forall i | 0 <= i < |es| :: EndInData(es[i].passes)
    requires forall i | 0 <= i < |es| :: forall j | 0 <= j < |es[i].turns| :: Undisturbed(es[i].turns[j])
    ensures var s := Serve(c, files, es);
      && s.Served? && s.done <= |es|
      && (s.done == |es| ==>
            && Standing(s.c, name)
            && s.c.wire == c.wire + Repeated(PUT_HEAD, |es|)
            && RequestOf(s.c) == Grown(RequestOf(c), RoundBytes(es))
            && (es != [] ==> s.files == files[name := RequestOf(s.c).recvMsg]))
    decreases |es|
  {
    hide RecvAll, SendTurns, Standing, EndInData, FirstBytes;
    if es == [] {
      EmptyConcat(c.wire);
      EmptyConcat(RequestOf(c).recvMsg);
    } else {
      var e := es[0];
      PutAgain(c, files, name, e);
      assert ValidConn(c) by { StandingIsValid(c, name); }
      var v := Grown(RequestOf(c), FirstBytes(e.passes));
      var reply := (PUT_HEAD, files[name := v.recvMsg]);
      var p := RecvAll(c, files, e.passes);
      var q := SendTurns(p.c, files, e.page, e.turns);
      if Finished(q.c, v, q.files, c.wire, reply) {
        PutRounds(q.c, q.files, name, es[1..]);
        ServeGoesOn(c, files, es);
        Associative(c.wire, PUT_HEAD, Repeated(PUT_HEAD, |es| - 1));
        Associative(RequestOf(c).recvMsg, FirstBytes(e.passes), RoundBytes(es[1..]));
      } else {
        PartOfReply(q.c, v, q.files, e.page, c.wire, reply);
        ServeGoesOn(c, files, es);
      }
    }
  }

  lemma StandingIsValid(c: Conn, name: string)
    requires Standing(c, name)
    ensures ValidConn(c)
  {
  }
}
