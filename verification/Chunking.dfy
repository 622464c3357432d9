/** Chunks, `recv` calls and handler runs: what a connection ends in depends on
    the bytes its receiver has read and not on how they were cut. The lemmas speak
    about the receive loop and about any number of runs of it.
 */
module Chunking {
  import opened Bytes
  import opened Message
  import opened RequestMachine
  import opened Connection

  predicate Done(m: Machine) {
    m.req.status == HandleComplete
  }

  /** The receive loop ends here whatever else could be read. */
  predicate Resting(m: Machine, canOpen: bool) {
    EndingOf(m.req, canOpen).Some?
  }

  lemma RestingStays(m: Machine, b: string, canOpen: bool)
    requires Resting(m, canOpen) && Step(m, canOpen) == Stuck
    ensures Settle(Receive(m, b), canOpen) == Settled(Receive(m, b))
  {
    hide StepInit, StepHead, StepBeginFlag, StepFileHead;
    assert Step(Receive(m, b), canOpen) == Stuck;
    SettleMove(Receive(m, b), canOpen);
  }

  lemma ReceiveTwice(m: Machine, a: string, b: string)
    ensures Receive(Receive(m, a), b) == Receive(m, a + b)
    ensures Receive(m, "") == m
  {
    Associative(m.req.recvMsg, a, b);
    EmptyConcat(m.req.recvMsg);
  }

  // ---------------------------------------------------------------- one run of the loop

  /** `recv` calls that fail only with EAGAIN. */
  predicate Healthy(input: seq<RecvResult>) {
    forall i | 0 <= i < |input| :: input[i].Data? || input[i].RecvAgain?
  }

  predicate BeginsWithData(input: seq<RecvResult>) {
    input != [] && input[0].Data?
  }

  /** The bytes on offer: those before the first call that returns none. */
  function DataOf(input: seq<RecvResult>): string {
    if input == [] || !input[0].Data? then "" else input[0].bytes + DataOf(input[1..])
  }

  /** The bytes the loop reads: it leaves in the socket what lies behind the call
      that ends it. */
  function ReadBy(m: Machine, input: seq<RecvResult>, canOpen: bool): string
    decreases |input|
  {
    if input == [] || !input[0].Data? then ""
    else
      match Settle(Receive(m, input[0].bytes), canOpen)
      case Faulted => input[0].bytes
      case Settled(m1) =>
        if Resting(m1, canOpen) then input[0].bytes else input[0].bytes + ReadBy(m1, input[1..], canOpen)
  }

  /** What the loop leaves when it has read `bytes`. */
  predicate Leaves(m: Machine, bytes: string, r: Received, canOpen: bool) {
    match Settle(Receive(m, bytes), canOpen)
    case Faulted => r == RecvCrashed
    case Settled(x) =>
      && r.Received?
      && match r.ending
         case Waiting => r.m == x
         case Lost => r.m == x.(req := x.req.(status := HandleError))
         case _ => r.m == x && EndingOf(x.req, canOpen) == Some(r.ending)
  }

  /** For any results of the calls, with the file opening or not, the loop ends in
      the state in which the machine settles on the bytes read, whatever their cut.
      It leaves bytes unread only when it answers or cannot open the file. */
  lemma {:induction false} LoopReads(m: Machine, input: seq<RecvResult>, canOpen: bool)
    requires Step(m, canOpen) == Stuck || BeginsWithData(input)
    ensures var r := RecvLoop(m, input, canOpen);
      && Leaves(m, ReadBy(m, input, canOpen), r, canOpen)
      && ReadBy(m, input, canOpen) <= DataOf(input)
      && (r.Received? && (r.ending == Waiting || r.ending == Lost) ==> ReadBy(m, input, canOpen) == DataOf(input))
      && (r.Received? && (r.ending == Waiting || r.ending == Lost) ==>
            (Resting(m, canOpen) && !BeginsWithData(input))
            || !Resting(Settle(Receive(m, ReadBy(m, input, canOpen)), canOpen).m, canOpen))
    decreases |input|
  {
    hide Settle, Step, EndingOf, Receive;
    ReceiveTwice(m, "", "");
    SettleMove(m, canOpen);
    if input != [] && input[0].Data? {
      var b := input[0].bytes;
      if Settle(Receive(m, b), canOpen).Settled? {
        var m1 := Settle(Receive(m, b), canOpen).m;
        if !Resting(m1, canOpen) {
          var rest := ReadBy(m1, input[1..], canOpen);
          LoopReads(m1, input[1..], canOpen);
          ReceiveTwice(m, b, rest);
          SettleAppend(Receive(m, b), rest, canOpen);
        }
      }
    }
  }

  /** A run crashes exactly when the machine faults on the bytes on offer. */
  lemma LoopCrashIff(m: Machine, input: seq<RecvResult>, canOpen: bool)
    requires Step(m, canOpen) == Stuck || BeginsWithData(input)
    ensures RecvLoop(m, input, canOpen).RecvCrashed? <==> Settle(Receive(m, DataOf(input)), canOpen) == Faulted
  {
    hide Settle, Step, EndingOf, RecvLoop, ReadBy, Receive;
    var bytes := ReadBy(m, input, canOpen);
    LoopReads(m, input, canOpen);
    var unread := DataOf(input)[|bytes|..];
    assert bytes + unread == DataOf(input);
    ReceiveTwice(m, bytes, unread);
    SettleAppend(Receive(m, bytes), unread, canOpen);
    var o := Settle(Receive(m, bytes), canOpen);
    if o.Settled? && Resting(o.m, canOpen) {
      RestingStays(o.m, unread, canOpen);
    }
  }

  /** When the upload file does not open, the loop stops behind the first call in
      the content phase: what is pending then does depend on the cut. */
  lemma UnopenedReadsOneCall(m: Machine, b: string, more: seq<RecvResult>)
    requires SavingFile(m.req)
    ensures RecvLoop(m, [Data(b)] + more, false) == Received(Receive(m, b), Unopened)
  {
    hide StepInit, StepHead, StepBeginFlag, StepFileHead;
    SettleMove(Receive(m, b), false);
  }

  predicate SameButPending(a: Machine, b: Machine) {
    a.(req := a.req.(recvMsg := "")) == b.(req := b.req.(recvMsg := ""))
  }

  lemma PendingDiffers(m: Machine, b: string)
    ensures SameButPending(m, Receive(m, b)) && EndingOf(Receive(m, b).req, true) == EndingOf(m.req, true)
  {
  }

  /** A run on a healthy socket against settling once on all bytes on offer: the
      same, but for the bytes left unread behind an answer. */
  lemma LoopSettles(m: Machine, input: seq<RecvResult>)
    requires Healthy(input) && Step(m, true) == Stuck && !Resting(m, true)
    ensures match Settle(Receive(m, DataOf(input)), true)
      case Faulted => RecvLoop(m, input, true) == RecvCrashed
      case Settled(x) =>
        var r := RecvLoop(m, input, true);
        && r.Received?
        && if Resting(x, true) then EndingOf(x.req, true) == Some(r.ending) && SameButPending(r.m, x)
           else r == Received(x, Waiting)
  {
    hide Settle, Step, EndingOf, RecvLoop, ReadBy, Receive, SameButPending;
    var bytes := ReadBy(m, input, true);
    LoopReads(m, input, true);
    NeverLost(m, input);
    LoopCrashIff(m, input, true);
    var unread := DataOf(input)[|bytes|..];
    assert bytes + unread == DataOf(input);
    ReceiveTwice(m, bytes, unread);
    SettleAppend(Receive(m, bytes), unread, true);
    var o := Settle(Receive(m, bytes), true);
    if o.Settled? && Resting(o.m, true) {
      RestingStays(o.m, unread, true);
      PendingDiffers(o.m, unread);
    }
  }

  lemma {:induction false} NeverLost(m: Machine, input: seq<RecvResult>)
    requires Healthy(input)
    ensures RecvLoop(m, input, true) != RecvCrashed ==> RecvLoop(m, input, true).ending != Lost
    decreases |input|
  {
    hide Settle, Receive;
    if input != [] && input[0].Data? && Settle(Receive(m, input[0].bytes), true).Settled? {
      NeverLost(Settle(Receive(m, input[0].bytes), true).m, input[1..]);
    }
  }

  // ---------------------------------------------------------------- any number of runs

  /** Receive passes one after the other, each on its own delivery. The file opens. */
  function RecvAll(c: Conn, files: Files, passes: seq<seq<RecvResult>>): Pass
    decreases |passes|
  {
    if passes == [] then Passed(c, files)
    else
      match RecvPass(c.(interest := Disarmed), files, passes[0], true)
      case Crashed => Crashed
      case Passed(c1, files1) => RecvAll(c1, files1, passes[1..])
  }

  function AllData(passes: seq<seq<RecvResult>>): string {
    if passes == [] then "" else DataOf(passes[0]) + AllData(passes[1..])
  }

  /** A machine between two passes: it takes more input and has not been answered. */
  predicate Open(m: Machine) {
    && Step(m, true) == Stuck
    && m.req.status != HandleComplete && m.req.status != HandleError
    && !PutBody(m.req)
  }

  /** A connection whose request has been answered with this target. */
  function AnsweredWith(c: Conn, target: string): Conn {
    c.(req := None, resp := Some(ResponseOf(c).(target := target)), interest := ReadWrite)
  }

  /** A connection behind the run that answers: a completed request is erased, a
      PUT stays. */
  function AnsweredAs(c: Conn, x: Machine): Conn {
    if Done(x) then AnsweredWith(c, x.target) else AnsweredWith(c, x.target).(req := Some(x.req))
  }

  /** A way to receive `stream`: healthy passes that offer it piece by piece, the
      last piece not empty. */
  predicate Cuts(passes: seq<seq<RecvResult>>, stream: string) {
    && passes != [] && DataOf(passes[|passes| - 1]) != "" && AllData(passes) == stream
    && forall i | 0 <= i < |passes| :: Healthy(passes[i])
  }

  /** The first `n` bytes answer the request: they complete it, or end the head of a PUT. */
  predicate AnsweredAt(m: Machine, stream: string, n: nat)
    requires n <= |stream|
  {
    var o := Settle(Receive(m, stream[..n]), true);
    o.Settled? && Resting(o.m, true)
  }

  /** A proper prefix of the stream answers the request. */
  ghost predicate EndsEarly(m: Machine, stream: string) {
    exists n: nat | n < |stream| :: AnsweredAt(m, stream, n)
  }

  /** Only completion and PUT set the response target; failure is never a move. */
  lemma {:induction false} SettleKeepsTarget(m: Machine)
    requires Settle(m, true).Settled?
    ensures var x := Settle(m, true).m; !Done(x) && !PutBody(x.req) ==> x.target == m.target
    ensures var x := Settle(m, true).m; x.req.status == HandleError ==> m.req.status == HandleError
    decreases 16 - Rank(m), |m.req.recvMsg|
  {
    hide Settle;
    SettleMove(m, true);
    if Step(m, true).Next? {
      StepKeepsTarget(m);
      var m1 := Step(m, true).m;
      if Done(m1) {
        SettleMove(m1, true);
      } else if PutBody(m1.req) {
        PutSettles(m1, true);
      }
      SettleKeepsTarget(m1);
    }
  }

  lemma StepKeepsTarget(m: Machine)
    requires Step(m, true).Next?
    ensures var m1 := Step(m, true).m; Done(m1) || PutBody(m1.req) || m1.target == m.target
    ensures Step(m, true).m.req.status != HandleError
  {
  }

  /** A PUT in its body phase names its resource and then stays. */
  lemma PutSettles(m: Machine, canOpen: bool)
    requires PutBody(m.req)
    ensures Settle(m, canOpen) == Settled(m.(target := m.req.resource))
  {
    hide Settle, StepInit, StepHead, StepBeginFlag, StepFileHead, StepFileContent;
    var m1 := m.(target := m.req.resource);
    SettleMove(m, canOpen);
    SettleMove(m1, canOpen);
  }

  lemma OpenIsNotResting(m: Machine)
    ensures Resting(m, true) <==> Done(m) || PutBody(m.req)
    ensures Open(m) ==> Step(m, true) == Stuck && !Resting(m, true)
  {
  }

  /** One pass on the way: the request is incomplete behind it. */
  lemma PassWaits(c: Conn, files: Files, input: seq<RecvResult>)
    requires Open(MachineOf(c, files)) && Healthy(input)
    requires var o := Settle(Receive(MachineOf(c, files), DataOf(input)), true); o.Settled? && !Resting(o.m, true)
    ensures var x := Settle(Receive(MachineOf(c, files), DataOf(input)), true).m;
      var c1 := c.(req := Some(x.req), interest := ReadOnly);
      && RecvPass(c.(interest := Disarmed), files, input, true) == Passed(c1, x.files)
      && MachineOf(c1, x.files) == x && Open(x)
  {
    hide Settle, Step, RecvLoop;
    var m := MachineOf(c, files);
    OpenIsNotResting(m);
    LoopSettles(m, input);
    SettleKeepsTarget(Receive(m, DataOf(input)));
    OpenIsNotResting(Settle(Receive(m, DataOf(input)), true).m);
  }

  /** The pass that completes the request. */
  lemma PassAnswers(c: Conn, files: Files, input: seq<RecvResult>)
    requires Open(MachineOf(c, files)) && Healthy(input)
    requires var o := Settle(Receive(MachineOf(c, files), DataOf(input)), true); o.Settled? && Done(o.m)
    ensures var x := Settle(Receive(MachineOf(c, files), DataOf(input)), true).m;
      RecvPass(c.(interest := Disarmed), files, input, true) == Passed(AnsweredAs(c, x), x.files)
  {
    hide Settle, Step, RecvLoop;
    var m := MachineOf(c, files);
    OpenIsNotResting(m);
    LoopSettles(m, input);
  }

  /** The pass that ends the head of a PUT with its last byte. */
  lemma PassAnswersPut(c: Conn, files: Files, input: seq<RecvResult>)
    requires Open(MachineOf(c, files)) && Healthy(input)
    requires !EndsEarly(MachineOf(c, files), DataOf(input))
    requires var o := Settle(Receive(MachineOf(c, files), DataOf(input)), true); o.Settled? && PutBody(o.m.req)
    ensures var x := Settle(Receive(MachineOf(c, files), DataOf(input)), true).m;
      RecvPass(c.(interest := Disarmed), files, input, true) == Passed(AnsweredAs(c, x), x.files)
  {
    hide Settle, Step, RecvLoop, ReadBy;
    var m, bytes := MachineOf(c, files), ReadBy(MachineOf(c, files), input, true);
    OpenIsNotResting(m);
    LoopSettles(m, input);
    LoopReads(m, input, true);
    assert DataOf(input)[..|bytes|] == bytes;
    assert |bytes| < |DataOf(input)| ==> AnsweredAt(m, DataOf(input), |bytes|);
    assert DataOf(input)[..|DataOf(input)|] == DataOf(input);
  }

  lemma PassCrashes(c: Conn, files: Files, input: seq<RecvResult>)
    requires Open(MachineOf(c, files)) && Healthy(input)
    ensures RecvPass(c.(interest := Disarmed), files, input, true) == Crashed <==>
      Settle(Receive(MachineOf(c, files), DataOf(input)), true) == Faulted
  {
    hide Settle, Step, RecvLoop;
    LoopCrashIff(MachineOf(c, files), input, true);
  }

  /** A prefix that ends the request ends it for the whole stream too. */
  lemma RestingPrefix(m: Machine, d: string, rest: string)
    requires var o := Settle(Receive(m, d), true); o.Settled? && Resting(o.m, true)
    ensures Settle(Receive(m, d + rest), true) == Settled(Receive(Settle(Receive(m, d), true).m, rest))
  {
    hide Settle, Step;
    ReceiveTwice(m, d, rest);
    SettleAppend(Receive(m, d), rest, true);
    RestingStays(Settle(Receive(m, d), true).m, rest, true);
  }

  lemma EarlyLater(m: Machine, x: Machine, d: string, rest: string)
    requires Settle(Receive(m, d), true) == Settled(x)
    ensures EndsEarly(x, rest) ==> EndsEarly(m, d + rest)
  {
    hide Settle, Step;
    if EndsEarly(x, rest) {
      var n: nat :| n < |rest| && AnsweredAt(x, rest, n);
      assert (d + rest)[..|d| + n] == d + rest[..n];
      ReceiveTwice(m, d, rest[..n]);
      SettleAppend(Receive(m, d), rest[..n], true);
      assert AnsweredAt(m, d + rest, |d| + n);
    }
  }

  lemma {:induction false} LastDataCounts(passes: seq<seq<RecvResult>>)
    requires passes != [] && DataOf(passes[|passes| - 1]) != ""
    ensures AllData(passes) != ""
    decreases |passes|
  {
    if |passes| > 1 {
      LastDataCounts(passes[1..]);
    }
  }

  lemma CutsTail(passes: seq<seq<RecvResult>>)
    requires |passes| > 1
    ensures Cuts(passes, AllData(passes)) ==>
      Cuts(passes[1..], AllData(passes[1..])) && AllData(passes[1..]) != ""
  {
    if Cuts(passes, AllData(passes)) {
      LastDataCounts(passes[1..]);
    }
  }

  lemma EarlyAt(m: Machine, d: string, rest: string)
    requires rest != "" && Settle(Receive(m, d), true).Settled? && Resting(Settle(Receive(m, d), true).m, true)
    ensures EndsEarly(m, d + rest)
  {
    hide Settle;
    assert (d + rest)[..|d|] == d;
    assert AnsweredAt(m, d + rest, |d|);
  }

  lemma AnswerForgets(c: Conn, v: Option<RequestValue>, i: Interest)
    ensures forall x :: AnsweredAs(c.(req := v, interest := i), x) == AnsweredAs(c, x)
  {
  }

  /** Chunk independence over any number of handler runs, each with any number of
      `recv` calls: while the stream leaves the request incomplete, the connection
      holds the request in which the machine settles on the stream, pending bytes
      included; if the machine faults on the stream, so does the server; and if the
      stream answers the request with its last byte (it completes it, or ends the head
      of a PUT), the connection is armed for writing with the target it names. */
  lemma {:induction false} ChunkIndependence(c: Conn, files: Files, passes: seq<seq<RecvResult>>)
    requires Open(MachineOf(c, files)) && passes != []
    requires forall i | 0 <= i < |passes| :: Healthy(passes[i])
    ensures var m, stream := MachineOf(c, files), AllData(passes);
      match Settle(Receive(m, stream), true)
      case Faulted => RecvAll(c, files, passes) == Crashed
      case Settled(x) =>
        && (!Done(x) && !PutBody(x.req) ==>
              RecvAll(c, files, passes) == Passed(c.(req := Some(x.req), interest := ReadOnly), x.files))
        && (Resting(x, true) && Cuts(passes, stream) && !EndsEarly(m, stream) ==>
              RecvAll(c, files, passes) == Passed(AnsweredAs(c, x), x.files))
    decreases |passes|
  {
    hide Settle, Step, RecvPass, EndsEarly, AnsweredAs, Cuts;
    var m := MachineOf(c, files);
    var d, rest := DataOf(passes[0]), AllData(passes[1..]);
    var o := Settle(Receive(m, d), true);
    assert Healthy(passes[0]);
    PassCrashes(c, files, passes[0]);
    ReceiveTwice(m, d, rest);
    SettleAppend(Receive(m, d), rest, true);
    if o.Settled? {
      OpenIsNotResting(o.m);
      if Resting(o.m, true) {
        RestingPrefix(m, d, rest);
        if |passes| == 1 {
          EmptyConcat(d);
          if Done(o.m) {
            PassAnswers(c, files, passes[0]);
          } else if !EndsEarly(m, d) {
            PassAnswersPut(c, files, passes[0]);
          }
        } else if Cuts(passes, d + rest) {
          CutsTail(passes);
          EarlyAt(m, d, rest);
        }
      } else {
        PassWaits(c, files, passes[0]);
        EarlyLater(m, o.m, d, rest);
        if |passes| > 1 {
          CutsTail(passes);
          AnswerForgets(c, Some(o.m.req), ReadOnly);
          ChunkIndependence(c.(req := Some(o.m.req), interest := ReadOnly), o.m.files, passes[1..]);
        } else {
          EmptyConcat(d);
        }
      }
    }
  }

  lemma {:induction false} HealthyOne(b: string)
    ensures Healthy([Data(b)]) && DataOf([Data(b)]) == b
  {
    assert [Data(b)][1..] == [];
    EmptyConcat(b);
  }

  lemma OnePiece(stream: string)
    requires stream != ""
    ensures Cuts([[Data(stream)]], stream)
  {
    HealthyOne(stream);
    assert [[Data(stream)]][1..] == [];
    EmptyConcat(stream);
  }

  lemma TwoPieces(a: string, b: string)
    requires b != ""
    ensures Cuts([[Data(a)], [Data(b)]], a + b)
  {
    HealthyOne(a);
    OnePiece(b);
    assert [[Data(a)], [Data(b)]][1..] == [[Data(b)]];
  }

  /** The same state, however the stream is cut. */
  ghost predicate Independent(c: Conn, files: Files, stream: string) {
    forall passes | Cuts(passes, stream) :: RecvAll(c, files, passes) == RecvAll(c, files, [[Data(stream)]])
  }

  /** A request that is complete before the stream ends depends on the cut: with
      the last byte in a run of its own that byte opens a new request, which disarms
      the answer; in one piece it is dropped with the completed one. */
  lemma EarlyEndMatters(c: Conn, files: Files, stream: string)
    requires Open(MachineOf(c, files)) && EndsEarly(MachineOf(c, files), stream)
    requires var o := Settle(Receive(MachineOf(c, files), stream), true); o.Settled? ==> Done(o.m)
    ensures var n := |stream| - 1;
      var passes := [[Data(stream[..n])], [Data(stream[n..])]];
      && Cuts(passes, stream)
      && RecvAll(c, files, passes) != RecvAll(c, files, [[Data(stream)]])
  {
    hide Settle, Step, RecvPass;
    var m := MachineOf(c, files);
    var a, b := stream[..|stream| - 1], stream[|stream| - 1..];
    BeforeLast(m, stream);
    TwoPieces(a, b);
    HealthyOne(a);
    HealthyOne(stream);
    PassAnswers(c, files, [Data(a)]);
    PassAnswers(c, files, [Data(stream)]);
    var x := Settle(Receive(m, a), true).m;
    OneByteWaits(AnsweredWith(c, x.target), x.files, b);
    RecvOne(c, files, [Data(stream)]);
    RecvOne(AnsweredWith(c, x.target), x.files, [Data(b)]);
    assert [[Data(a)], [Data(b)]][1..] == [[Data(b)]];
  }

  /** A PUT whose head is complete before the stream ends depends on the cut: with
      the last byte in a call of its own the run ends before it reads that byte. */
  lemma EarlyPutMatters(c: Conn, files: Files, stream: string)
    requires Open(MachineOf(c, files)) && EndsEarly(MachineOf(c, files), stream)
    requires var o := Settle(Receive(MachineOf(c, files), stream), true); o.Settled? && PutBody(o.m.req)
    ensures var n := |stream| - 1;
      var passes := [[Data(stream[..n]), Data(stream[n..])]];
      && Cuts(passes, stream)
      && RecvAll(c, files, passes) != RecvAll(c, files, [[Data(stream)]])
  {
    hide Settle, Step;
    var m := MachineOf(c, files);
    var a, b := stream[..|stream| - 1], stream[|stream| - 1..];
    BeforeLast(m, stream);
    TwoCalls(a, b);
    RecvOne(c, files, [Data(a), Data(b)]);
    RecvOne(c, files, [Data(stream)]);
  }

  /** A stream that ends early is answered before its last byte. */
  lemma BeforeLast(m: Machine, stream: string)
    requires EndsEarly(m, stream)
    ensures var a, b := stream[..|stream| - 1], stream[|stream| - 1..];
      var o := Settle(Receive(m, a), true);
      && a + b == stream && |b| == 1
      && o.Settled? && Resting(o.m, true)
      && Settle(Receive(m, stream), true) == Settled(Receive(o.m, b))
  {
    hide Settle, Step;
    var n := |stream| - 1;
    var k: nat :| k < |stream| && AnsweredAt(m, stream, k);
    AnsweredFrom(m, stream, k, n);
    assert stream[..n] + stream[n..] == stream;
    RestingPrefix(m, stream[..n], stream[n..]);
  }

  lemma TwoCalls(a: string, b: string)
    requires b != ""
    ensures Cuts([[Data(a), Data(b)]], a + b)
  {
    var input: seq<RecvResult> := [Data(a), Data(b)];
    HealthyOne(b);
    assert input[1..] == [Data(b)];
    var passes: seq<seq<RecvResult>> := [input];
    assert passes[1..] == [];
    EmptyConcat(a + b);
  }

  lemma RecvOne(c: Conn, files: Files, input: seq<RecvResult>)
    ensures RecvAll(c, files, [input]) == RecvPass(c.(interest := Disarmed), files, input, true)
  {
    assert [input][1..] == [];
  }

  lemma AnsweredFrom(m: Machine, stream: string, k: nat, n: nat)
    requires k <= n <= |stream| && AnsweredAt(m, stream, k)
    ensures AnsweredAt(m, stream, n)
  {
    hide Settle, Step;
    assert stream[..n] == stream[..k] + stream[k..n];
    RestingPrefix(m, stream[..k], stream[k..n]);
  }

  /** One byte is never a request. */
  lemma OneByteWaits(c: Conn, files: Files, b: string)
    requires c.req.None? && |b| == 1
    ensures var p := RecvPass(c.(interest := Disarmed), files, [Data(b)], true);
      p.Passed? && p.c.req.Some?
  {
    hide RecvLoop;
    var m := MachineOf(c, files);
    FreshIsStuck(m.target, files, true);
    EmptyConcat(b);
    assert CutLine(b).None?;
    assert Step(Receive(m, b), true) == Stuck;
    SettleMove(Receive(m, b), true);
    HealthyOne(b);
    LoopSettles(m, [Data(b)]);
  }

  /** The exact condition of chunk independence: the state a stream leaves does not
      depend on its cut if and only if no proper prefix of it answers the request. */
  lemma IndependentIff(c: Conn, files: Files, stream: string)
    requires Open(MachineOf(c, files)) && stream != ""
    ensures Independent(c, files, stream) <==> !EndsEarly(MachineOf(c, files), stream)
  {
    hide Settle, Step, RecvAll, EndsEarly;
    var m := MachineOf(c, files);
    OnePiece(stream);
    if EndsEarly(m, stream) {
      BeforeLast(m, stream);
      OpenIsNotResting(Settle(Receive(m, stream), true).m);
      if Done(Settle(Receive(m, stream), true).m) {
        EarlyEndMatters(c, files, stream);
      } else {
        EarlyPutMatters(c, files, stream);
      }
    } else {
      forall passes | Cuts(passes, stream)
        ensures RecvAll(c, files, passes) == RecvAll(c, files, [[Data(stream)]])
      {
        ChunkIndependence(c, files, passes);
        ChunkIndependence(c, files, [[Data(stream)]]);
        AnyOutcome(m, stream);
      }
    }
  }

  lemma AnyOutcome(m: Machine, stream: string)
    ensures var o := Settle(Receive(m, stream), true);
      o.Settled? ==> Resting(o.m, true) || (!Done(o.m) && !PutBody(o.m.req))
  {
  }
}
