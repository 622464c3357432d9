/** Short writes and hard errors to the byte: what a send run does when its calls
    report how many bytes they have taken.
 */
module ExactSends {
  import opened Bytes
  import opened Message
  import opened RequestMachine
  import opened ResponseMachine
  import opened Connection

  /** How many bytes of head and body have gone out. */
  function Offset(r: ResponseValue): nat {
    if r.status == HandleHead then r.cursor else |r.head| + r.cursor
  }

  /** Each call takes at least one byte and no more than it was offered: the rest of
      the head, or behind it the rest of the body. */
  predicate Fits(head: nat, body: nat, from: nat, counts: seq<nat>)
    decreases |counts|
  {
    counts == []
    || (0 < counts[0]
        && from + counts[0] <= (if from < head then head else head + body)
        && Fits(head, body, from + counts[0], counts[1..]))
  }

  function Sum(counts: seq<nat>): nat {
    if counts == [] then 0 else counts[0] + Sum(counts[1..])
  }

  function Calls(counts: seq<nat>): seq<SendResult> {
    if counts == [] then [] else [Sent(counts[0])] + Calls(counts[1..])
  }

  /** The response with `q` bytes of head and body gone out. */
  function Resumed(r: ResponseValue, q: nat): ResponseValue {
    if q < |r.head| then r.(status := HandleHead, cursor := q)
    else r.(status := HandleBody, cursor := q - |r.head|)
  }

  /** There is more to send, or at least one more call to make: an empty page or
      file takes a call of its own. */
  predicate More(r: ResponseValue, q: nat) {
    q < |r.head| + |r.Body()| || (q == |r.head| + |r.Body()| && r.Body() == "" && r.bodyType != EmptyType)
  }

  lemma {:induction false} FitsInside(head: nat, body: nat, from: nat, counts: seq<nat>)
    requires from <= head + body && Fits(head, body, from, counts)
    ensures from + Sum(counts) <= head + body
    decreases |counts|
  {
    if counts != [] {
      FitsInside(head, body, from + counts[0], counts[1..]);
    }
  }

  predicate Active(r: ResponseValue) {
    Sendable(r) && (r.status == HandleHead || r.status == HandleBody)
  }

  /** One call that takes `n` bytes moves the response by `n`. */
  lemma OneCall(r: ResponseValue, n: nat)
    requires Active(r) && 0 < n
    requires Offset(r) + n <= if Offset(r) < |r.head| then |r.head| else |r.head| + |r.Body()|
    ensures Offers(r) && Count(r, n) == n
    ensures var p := Offset(r);
      && Piece(r, n) == (r.head + r.Body())[p..p + n]
      && After(r, n) ==
        if p + n == |r.head| + |r.Body()| && p >= |r.head| then r.(status := HandleComplete, cursor := 0)
        else Resumed(r, p + n)
  {
    var whole := r.head + r.Body();
    if r.status == HandleHead {
      assert whole[r.cursor..r.cursor + n] == r.head[r.cursor..r.cursor + n];
    } else {
      var p := |r.head| + r.cursor;
      assert whole[p..p + n] == r.Body()[r.cursor..r.cursor + n];
    }
  }

  /** What the loop leaves when its calls have taken these bytes and `tail` says how
      it ends: with the calls used up, EAGAIN, or another error. */
  function Ended(r: ResponseValue, q: nat, tail: seq<SendResult>): Sending
    requires Offset(r) <= q <= |r.head| + |r.Body()|
  {
    var out := (r.head + r.Body())[Offset(r)..q];
    if More(r, q) then Sending(Resumed(r, q), out, tail != [] && tail[0].SendFailed?)
    else Sending(r.(status := HandleComplete, cursor := 0), out, false)
  }

  lemma OffsetInside(r: ResponseValue)
    requires Active(r)
    ensures Offset(r) <= |r.head| + |r.Body()| && Sendable(r)
  {
  }

  lemma NoCallsLeft(r: ResponseValue, tail: seq<SendResult>)
    requires Active(r) && (tail == [] || !tail[0].Sent?)
    ensures Offset(r) <= |r.head| + |r.Body()|
    ensures SendLoop(r, tail) == Ended(r, Offset(r), tail)
  {
    OffsetInside(r);
    SendLoopStops(r, tail);
    var p := Offset(r);
    assert (r.head + r.Body())[p..p] == "";
  }

  lemma CompleteStops(r: ResponseValue, tail: seq<SendResult>)
    requires Sendable(r) && r.status == HandleComplete
    ensures SendLoop(r, tail) == Sending(r, "", false)
  {
  }

  lemma ResumedTwice(r: ResponseValue, p: nat, q: nat)
    requires Active(r) && p <= |r.head| + |r.Body()| && (p == |r.head| + |r.Body()| ==> r.Body() == "")
    ensures var r1 := Resumed(r, p);
      && Active(r1) && Offset(r1) == p && Resumed(r1, q) == Resumed(r, q) && More(r1, q) == More(r, q)
      && r1.head == r.head && r1.Body() == r.Body()
      && r1.(status := HandleComplete, cursor := 0) == r.(status := HandleComplete, cursor := 0)
  {
  }

  lemma Slices(s: string, p: nat, m: nat, q: nat)
    requires p <= m <= q <= |s|
    ensures s[p..m] + s[m..q] == s[p..q]
  {
  }

  /** The first call of a list, and the loop behind it. */
  lemma FirstCall(r: ResponseValue, counts: seq<nat>, tail: seq<SendResult>)
    requires Active(r) && counts != [] && Fits(|r.head|, |r.Body()|, Offset(r), counts)
    ensures var p, n := Offset(r), counts[0];
      var r1 := if p + n == |r.head| + |r.Body()| && p >= |r.head| then r.(status := HandleComplete, cursor := 0)
                else Resumed(r, p + n);
      && Sendable(r) && Sendable(r1) && p + n <= |r.head| + |r.Body()|
      && var rest := SendLoop(r1, Calls(counts[1..]) + tail);
      SendLoop(r, Calls(counts) + tail)
        == Sending(rest.r, (r.head + r.Body())[p..p + n] + rest.out, rest.failed)
  {
    hide SendLoop, Count, Piece, After, Sendable, Resumed, Offers, Active, Offset, Fits;
    OffsetInside(r);
    FirstFits(|r.head|, |r.Body()|, Offset(r), counts);
    SplitCalls(counts, tail);
    OneCall(r, counts[0]);
    SendLoopTurn(r, Calls(counts) + tail);
  }

  lemma FirstFits(head: nat, body: nat, from: nat, counts: seq<nat>)
    requires counts != [] && Fits(head, body, from, counts)
    ensures 0 < counts[0] && from + counts[0] <= (if from < head then head else head + body)
  {
  }

  lemma SplitCalls(counts: seq<nat>, tail: seq<SendResult>)
    requires counts != []
    ensures var results := Calls(counts) + tail;
      results != [] && results[0] == Sent(counts[0]) && results[1..] == Calls(counts[1..]) + tail
  {
    var first, later := [Sent(counts[0])], Calls(counts[1..]);
    assert Calls(counts) == first + later;
    hide Calls;
    Regrouped(first, later, tail);
  }

  lemma Regrouped(a: seq<SendResult>, b: seq<SendResult>, c: seq<SendResult>)
    requires |a| == 1
    ensures (a + b + c)[0] == a[0] && (a + b + c)[1..] == b + c
  {
  }

  lemma EndedLater(r: ResponseValue, m: nat, q: nat, tail: seq<SendResult>)
    requires Active(r) && Offset(r) <= m <= q <= |r.head| + |r.Body()|
    requires m == |r.head| + |r.Body()| ==> r.Body() == ""
    ensures Offset(Resumed(r, m)) == m && Resumed(r, m).head == r.head && Resumed(r, m).Body() == r.Body()
    ensures var e := Ended(Resumed(r, m), q, tail);
      Ended(r, q, tail) == Sending(e.r, (r.head + r.Body())[Offset(r)..m] + e.out, e.failed)
  {
    ResumedTwice(r, m, q);
    Slices(r.head + r.Body(), Offset(r), m, q);
  }

  lemma OverAtEnd(r: ResponseValue, n: nat, rest: seq<SendResult>, tail: seq<SendResult>)
    requires Active(r) && 0 < n && Offset(r) >= |r.head| && Offset(r) + n == |r.head| + |r.Body()|
    ensures var r1 := r.(status := HandleComplete, cursor := 0);
      var out := (r.head + r.Body())[Offset(r)..Offset(r) + n];
      && Sendable(r1) && SendLoop(r1, rest) == Sending(r1, "", false)
      && Ended(r, Offset(r) + n, tail) == Sending(r1, out + "", false)
  {
    var r1 := r.(status := HandleComplete, cursor := 0);
    CompleteStops(r1, rest);
    EmptyConcat((r.head + r.Body())[Offset(r)..Offset(r) + n]);
  }

  /** The loop to the byte: calls that report how much of what they were offered
      they have taken put exactly that many bytes on the wire, those behind the
      bytes already there, and leave the response that much further. */
  lemma {:induction false} SendLoopExact(r: ResponseValue, counts: seq<nat>, tail: seq<SendResult>)
    requires Active(r) && Fits(|r.head|, |r.Body()|, Offset(r), counts)
    requires tail == [] || !tail[0].Sent?
    ensures Offset(r) + Sum(counts) <= |r.head| + |r.Body()|
    ensures SendLoop(r, Calls(counts) + tail) == Ended(r, Offset(r) + Sum(counts), tail)
    decreases |counts|
  {
    hide SendLoop, Count, Piece, After, Offers, Sendable, Active, Ended, Resumed;
    OffsetInside(r);
    FitsInside(|r.head|, |r.Body()|, Offset(r), counts);
    if counts == [] {
      assert Calls(counts) + tail == tail;
      NoCallsLeft(r, tail);
    } else {
      var p, n := Offset(r), counts[0];
      var whole := r.head + r.Body();
      var rest := Calls(counts[1..]) + tail;
      FirstCall(r, counts, tail);
      var q := p + Sum(counts);
      if p + n == |whole| && p >= |r.head| {
        LastCall(|r.head|, |r.Body()|, p + n, counts[1..]);
        OverAtEnd(r, n, rest, tail);
      } else {
        ResumedTwice(r, p + n, q);
        SendLoopExact(Resumed(r, p + n), counts[1..], tail);
        EndedLater(r, p + n, q, tail);
      }
    }
  }

  /** Behind the last byte no call fits. */
  lemma LastCall(head: nat, body: nat, from: nat, counts: seq<nat>)
    requires from == head + body && Fits(head, body, from, counts)
    ensures counts == []
  {
  }

  // ---------------------------------------------------------------- one send run

  /** A send run to the byte, for a response under way: its calls take these bytes,
      and then they are used up, or one reports EAGAIN, or one fails. The wire gains
      exactly the bytes taken. If more is to be sent, the response stands exactly
      behind them, the connection is armed for both, and the request entry is marked
      if and only if a call failed; otherwise the response is over. */
  lemma SendPassExact(c: Conn, files: Files, page: string, counts: seq<nat>, tail: seq<SendResult>)
    requires ValidConn(c) && c.resp.Some? && Active(c.resp.value)
    requires var r := c.resp.value; Fits(|r.head|, |r.Body()|, Offset(r), counts)
    requires tail == [] || !tail[0].Sent?
    ensures var r := c.resp.value;
      var p, q := Offset(r), Offset(r) + Sum(counts);
      && q <= |r.head| + |r.Body()|
      && var wire := c.wire + (r.head + r.Body())[p..q];
      SendPass(c, files, page, Calls(counts) + tail) == Passed(
        if !More(r, q) then c.(wire := wire, resp := Some(FRESH_RESPONSE), interest := ReadOnly)
        else if tail != [] && tail[0].SendFailed? then
          c.(wire := wire, resp := Some(Resumed(r, q)), interest := ReadWrite,
             req := Some(RequestOf(c).(status := HandleError)))
        else c.(wire := wire, resp := Some(Resumed(r, q)), interest := ReadWrite), files)
  {
    hide SendLoop, Fits;
    SendLoopExact(c.resp.value, counts, tail);
  }

  /** A response routed in this run is sent as one that was already there. */
  lemma RoutedIsSent(c: Conn, files: Files, page: string, results: seq<SendResult>)
    requires ValidConn(c) && c.resp.Some? && c.resp.value.status == HandleInit
    requires Route(c.resp.value, files, page, RequestOf(c).recvMsg).Ready?
    ensures var x := Route(c.resp.value, files, page, RequestOf(c).recvMsg);
      var c1 := c.(resp := Some(x.r), req := if IsPut(c.resp.value) then Some(RequestOf(c)) else c.req);
      && ValidConn(c1) && Active(x.r) && Offset(x.r) == 0
      && SendPass(c, files, page, results) == SendPass(c1, x.files, page, results)
  {
    hide SendLoop, Route;
    var r := c.resp.value;
    RouteSendable(r, files, page, RequestOf(c).recvMsg);
    var x := Route(r, files, page, RequestOf(c).recvMsg);
    var c1 := c.(resp := Some(x.r), req := if IsPut(r) then Some(RequestOf(c)) else c.req);
    assert SendPass(c1, x.files, page, results) == Transmit(c1, x.r, x.files, results);
    ReplacedResponse(if IsPut(r) then c.(req := Some(RequestOf(c))) else c, x.r, x.files, results);
  }

  lemma ReplacedResponse(c: Conn, r: ResponseValue, files: Files, results: seq<SendResult>)
    requires Sendable(r)
    ensures Transmit(c.(resp := Some(r)), r, files, results) == Transmit(c, r, files, results)
  {
    hide SendLoop;
  }

  /** A hard send error before the response is complete marks the request entry, and
      nothing else does; whatever the next receive run reads, it closes the
      connection. */
  lemma HardErrorCloses(c: Conn, files: Files, page: string, counts: seq<nat>, tail: seq<SendResult>,
                        input: seq<RecvResult>, canOpen: bool)
    requires ValidConn(c) && c.resp.Some? && Active(c.resp.value) && RequestOf(c).status != HandleError
    requires var r := c.resp.value;
      Fits(|r.head|, |r.Body()|, Offset(r), counts) && More(r, Offset(r) + Sum(counts))
    requires tail == [] || !tail[0].Sent?
    ensures var p := SendPass(c, files, page, Calls(counts) + tail);
      && p.Passed? && p.c.interest == ReadWrite
      && (RequestOf(p.c).status == HandleError <==> tail != [] && tail[0] == SendFailed)
      && (tail != [] && tail[0] == SendFailed ==>
            var p1 := RecvPass(p.c.(interest := Disarmed), p.files, input, canOpen);
            p1.Passed? && p1.c.interest == Closed && p1.c.req.None? && p1.c.resp == p.c.resp)
  {
    hide RecvPass, SendPass, Fits, Active;
    SendPassExact(c, files, page, counts, tail);
    var p := SendPass(c, files, page, Calls(counts) + tail);
    if tail != [] && tail[0] == SendFailed {
      FailedRequestCloses(p.c.(interest := Disarmed), p.files, input, canOpen);
    }
  }
}
