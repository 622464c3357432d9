/** Receive runs on given bytes, one for each branch of the receiver that does not
    lead to a whole request: what the entries of the connection are afterwards.
 */
module Branches {
  import opened Bytes
  import opened Message
  import opened RequestMachine
  import opened Connection
  import opened Chunking
  import opened RoundTrip
  import opened WholeRequests
  import opened RequestText
  import Faults

  // ---------------------------------------------------------------- peers that go away

  /** The results of `recv` calls that return bytes, and one that returns none. */
  predicate EndsIn(input: seq<RecvResult>, last: RecvResult) {
    input != [] && input[|input| - 1] == last && !last.Data?
    && forall i | 0 <= i < |input| - 1 :: input[i].Data?
  }

  /** The loop reaches the call that returns no bytes, unless the request is answered
      or its file does not open before. */
  lemma {:induction false} LoopReaches(m: Machine, input: seq<RecvResult>, last: RecvResult, canOpen: bool)
    requires EndsIn(input, last) && Step(m, canOpen) == Stuck && !Resting(m, canOpen)
    requires var o := Settle(Receive(m, DataOf(input)), canOpen); o.Settled? && !Resting(o.m, canOpen)
    ensures var x := Settle(Receive(m, DataOf(input)), canOpen).m;
      RecvLoop(m, input, canOpen) ==
        if last.RecvAgain? then Received(x, Waiting) else Received(x.(req := x.req.(status := HandleError)), Lost)
    decreases |input|
  {
    hide Settle, Step, EndingOf, Receive;
    if |input| == 1 {
      ReceiveTwice(m, "", "");
      SettleMove(m, canOpen);
    } else {
      var b, rest := input[0].bytes, DataOf(input[1..]);
      ReceiveTwice(m, b, rest);
      SettleAppend(Receive(m, b), rest, canOpen);
      var m1 := Settle(Receive(m, b), canOpen).m;
      SettledStuck(Receive(m, b), canOpen);
      if Resting(m1, canOpen) {
        RestingStays(m1, rest, canOpen);
        RestingReceives(m1, rest, canOpen);
        assert false;
      }
      LoopReaches(m1, input[1..], last, canOpen);
    }
  }

  lemma SettledStuck(m: Machine, canOpen: bool)
    requires Settle(m, canOpen).Settled?
    ensures Step(Settle(m, canOpen).m, canOpen) == Stuck
  {
  }

  lemma RestingReceives(m: Machine, b: string, canOpen: bool)
    requires Resting(m, canOpen)
    ensures Resting(Receive(m, b), canOpen)
  {
  }

  /** How a receive run ends that does not answer: EAGAIN keeps the request and arms
      the connection for reading; end of stream or another error drops the request
      and closes the connection, and leaves the response entry where it is. */
  lemma RunEnds(c: Conn, files: Files, input: seq<RecvResult>, last: RecvResult, canOpen: bool)
    requires EndsIn(input, last)
    requires Step(MachineOf(c, files), canOpen) == Stuck && !Resting(MachineOf(c, files), canOpen)
    requires RequestOf(c).status != HandleError
    requires var o := Settle(Receive(MachineOf(c, files), DataOf(input)), canOpen);
      o.Settled? && !Resting(o.m, canOpen)
    ensures var x := Settle(Receive(MachineOf(c, files), DataOf(input)), canOpen).m;
      RecvPass(c, files, input, canOpen) == Passed(
        if last.RecvAgain? then c.(req := Some(x.req), interest := ReadOnly)
        else c.(req := None, interest := Closed), x.files)
  {
    hide Settle, Step, RecvLoop;
    var m := MachineOf(c, files);
    LoopReaches(m, input, last, canOpen);
    NeverFailsItself(Receive(m, DataOf(input)), canOpen);
  }

  lemma {:induction false} NeverFailsItself(m: Machine, canOpen: bool)
    requires Settle(m, canOpen).Settled? && m.req.status != HandleError
    ensures Settle(m, canOpen).m.req.status != HandleError
    decreases 16 - Rank(m), |m.req.recvMsg|
  {
    hide Settle;
    SettleMove(m, canOpen);
    if Step(m, canOpen).Next? {
      MoveDoesNotFail(m, canOpen);
      NeverFailsItself(Step(m, canOpen).m, canOpen);
    }
  }

  lemma MoveDoesNotFail(m: Machine, canOpen: bool)
    requires Step(m, canOpen).Next?
    ensures Step(m, canOpen).m.req.status != HandleError
  {
    hide StepInit, StepHead, StepBody;
  }

  // ---------------------------------------------------------------- printed heads

  /** A receive run on a printed head and what follows it. */
  lemma HeadRun(m: string, u: string, v: string, fields: seq<Field>, body: string, c: Conn, files: Files, x: Machine)
    requires Words(m, u, v) && Printable(fields) && Accepted(fields) && RequestOf(c) == FRESH_REQUEST
    requires Settle(Machine(HeadRequest(m, u, v, fields, body), ResponseOf(c).target, files), true) == Settled(x)
    requires Done(x) || !Resting(x, true)
    ensures var p := RecvPass(c.(interest := Disarmed), files, [Data(PrintHead(m, u, v, fields) + body)], true);
      p == if Done(x) then Passed(AnsweredWith(c, x.target), x.files)
           else Passed(c.(req := Some(x.req), interest := ReadOnly), x.files)
  {
    hide Settle, Step, RecvLoop, RecvPass, PrintHead, HeadRequest, NoSpace;
    var stream := PrintHead(m, u, v, fields) + body;
    HeadBack(m, u, v, fields, body, ResponseOf(c).target, files, true);
    FreshReceives(stream, ResponseOf(c).target, files);
    FreshIsOpen(c, files);
    HealthyOne(stream);
    if Done(x) {
      PassAnswers(c, files, [Data(stream)]);
    } else {
      PassWaits(c, files, [Data(stream)]);
    }
  }

  /** A POST that is no multipart form is answered with the redirect as soon as its
      head is complete; its body is dropped with it. */
  lemma PlainPostRedirects(u: string, v: string, fields: seq<Field>, body: string, c: Conn, files: Files)
    requires Words("POST", u, v) && Printable(fields) && Accepted(fields) && RequestOf(c) == FRESH_REQUEST
    requires LastOf(Assignments(fields), "Content-Type") != Some("multipart/form-data")
    ensures RecvPass(c.(interest := Disarmed), files, [Data(PrintHead("POST", u, v, fields) + body)], true)
      == Passed(AnsweredWith(c, "/redirect"), files)
  {
    hide Settle, RecvPass, PrintHead, NoSpace;
    HeadBack("POST", u, v, fields, body, ResponseOf(c).target, files, true);
    var m := Machine(HeadRequest("POST", u, v, fields, body), ResponseOf(c).target, files);
    SettleMove(m, true);
    SettleMove(Complete(m, REDIRECT), true);
    HeadRun("POST", u, v, fields, body, c, files, Complete(m, REDIRECT));
  }

  /** An upload whose first body line is not the opening delimiter is answered with
      the redirect; nothing is stored. */
  lemma WrongDelimiterRedirects(u: string, v: string, fields: seq<Field>, boundary: string, line: string, rest: string,
                                c: Conn, files: Files)
    requires Words("POST", u, v) && Printable(fields) && Accepted(fields) && RequestOf(c) == FRESH_REQUEST
    requires Declares(fields, boundary) && '\n' !in line && line != "--" + boundary
    ensures RecvPass(c.(interest := Disarmed), files,
                     [Data(PrintHead("POST", u, v, fields) + (line + "\r\n" + rest))], true)
      == Passed(AnsweredWith(c, "/redirect"), files)
  {
    hide Settle, RecvPass, PrintHead, NoSpace, CutLine;
    var body := line + "\r\n" + rest;
    HeadBack("POST", u, v, fields, body, ResponseOf(c).target, files, true);
    var m := Machine(HeadRequest("POST", u, v, fields, body), ResponseOf(c).target, files);
    CutPrinted(line, rest);
    assert (line + CRLF)[..|line + CRLF| - 2] == line;
    assert Step(m, true) == Next(Complete(m, REDIRECT));
    SettleMove(m, true);
    SettleMove(Complete(m, REDIRECT), true);
    HeadRun("POST", u, v, fields, body, c, files, Complete(m, REDIRECT));
  }

  /** A method other than GET, POST and PUT is never answered: everything behind the
      head stays pending. */
  lemma OtherMethodWaits(m: string, u: string, v: string, fields: seq<Field>, body: string, c: Conn, files: Files)
    requires Words(m, u, v) && Printable(fields) && Accepted(fields) && RequestOf(c) == FRESH_REQUEST
    requires m != "GET" && m != "POST" && m != "PUT"
    ensures var p := RecvPass(c.(interest := Disarmed), files, [Data(PrintHead(m, u, v, fields) + body)], true);
      && p == Passed(c.(req := Some(HeadRequest(m, u, v, fields, body)), interest := ReadOnly), files)
      && p.c.req.value.recvMsg == body
  {
    hide Settle, RecvPass, PrintHead, NoSpace;
    HeadBack(m, u, v, fields, body, ResponseOf(c).target, files, true);
    var x := Machine(HeadRequest(m, u, v, fields, body), ResponseOf(c).target, files);
    HeadStatus(m, u, v, fields, body);
    SettleMove(x, true);
    HeadRun(m, u, v, fields, body, c, files, x);
  }

  /** A boundary parameter without the space before it: the name loses its first
      byte, no boundary is known, and the first complete line of the body crashes the
      receive run. */
  lemma TightBoundaryCrashes(u: string, v: string, b: string, line: string, rest: string,
                             c: Conn, files: Files, canOpen: bool)
    requires RequestOf(c) == FRESH_REQUEST && Words("POST", u, v) && '\n' !in b && '\n' !in line
    ensures var head := "POST" + " " + u + " " + v + "\r\n"
                        + ("Content-Type" + ": " + ("multipart/form-data" + ";boundary=" + b) + "\r\n") + "\r\n";
      RecvPass(c, files, [Data(head + (line + "\r\n" + rest))], canOpen) == Crashed
  {
    hide RecvPass, NoSpace;
    var value := "multipart/form-data" + ";boundary=" + b;
    TightField(b);
    Faults.NoBoundaryCrashes(u, v, [("Content-Type", value)], line, rest, c, files, canOpen);
    OneFieldHead(u, v, ("Content-Type", value));
  }

  lemma OneFieldHead(u: string, v: string, f: Field)
    ensures PrintHead("POST", u, v, [f])
      == "POST" + " " + u + " " + v + "\r\n" + (f.0 + ": " + f.1 + "\r\n") + "\r\n"
  {
    assert [f][1..] == [];
    EmptyConcat(PrintField(f));
    assert PrintFields([f]) == PrintField(f);
  }

  /** What the tight parameter is stored as. */
  lemma TightField(b: string)
    requires '\n' !in b
    ensures var fields := [("Content-Type", "multipart/form-data" + ";boundary=" + b)];
      && Printable(fields) && Accepted(fields)
      && Assignments(fields) == [("Content-Type", "multipart/form-data"), ("oundary", b)]
      && LastOf(Assignments(fields), CONTENT_TYPE) == Some(MULTIPART)
      && LastOf(Assignments(fields), BOUNDARY).None?
  {
    hide Effect;
    var value := "multipart/form-data" + ";boundary=" + b;
    TightParts(b);
    TypeByPosition(value, 19);
    var stored := [("Content-Type", "multipart/form-data"), ("oundary", b)];
    assert Effect("Content-Type", value) == Assign(stored);
    var fields: seq<Field> := [("Content-Type", value)];
    assert fields[1..] == [] && stored + [] == stored;
    assert Printable(fields) by { Faults.TypeIsName(); }
    LastOfTwo(stored[0], stored[1]);
  }

  lemma TightParts(b: string)
    requires '\n' !in b
    ensures var value := "multipart/form-data" + ";boundary=" + b;
      && value[..19] == "multipart/form-data" && value[19] == ';' && '\n' !in value
      && (forall k | 0 <= k < 19 :: value[k] != ';')
      && value[21..28] == "oundary" && value[28] == '=' && value[29..] == b
      && (forall k | 19 <= k < 28 :: value[k] != '=')
  {
  }

  lemma LastOfTwo(a: Field, b: Field)
    requires a.0 == CONTENT_TYPE && a.1 == MULTIPART && b.0 == "oundary"
    ensures LastOf([a, b], CONTENT_TYPE) == Some(MULTIPART) && LastOf([a, b], BOUNDARY).None?
  {
    var fields := [a, b];
    assert |"oundary"| == 7 && |BOUNDARY| == 8 && |CONTENT_TYPE| == 12;
    assert fields[..1] == [a] && [a][..0] == [];
    assert LastOf(fields, BOUNDARY) == LastOf([a], BOUNDARY);
    assert LastOf(fields, CONTENT_TYPE) == LastOf([a], CONTENT_TYPE);
  }
}
