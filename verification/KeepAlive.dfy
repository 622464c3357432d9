/** One kept-alive connection whose client waits for each response: requests in
    any number of receive passes, responses in any number of send passes, and
    the k-th response on the wire belongs to the k-th request.
 */
module KeepAlive {
  import opened Bytes
  import opened Message
  import opened RequestMachine
  import opened ResponseMachine
  import opened Connection
  import opened Chunking
  import opened WholeRequests

  predicate NoResponse(c: Conn) {
    ResponseOf(c) == FRESH_RESPONSE
  }

  /** Between two requests. */
  predicate Idle(c: Conn) {
    RequestOf(c) == FRESH_REQUEST && NoResponse(c)
  }

  // ---------------------------------------------------------------- sending one response

  /** What the server owes for a target: all bytes of the response, and the
      directory afterwards. `page` is the list of files as rendered for this
      response, `pending` what a PUT request has in its buffer. */
  function Reply(target: string, files: Files, page: string, pending: string): (string, Files) {
    match SplitTarget(target)
    case OpNamed(op, name) =>
      if op == "downl" && name in files then (DownloadHead(|files[name]|) + files[name], files)
      else if op == "del" then (ListReply(page), files - {name})
      else if op == "put" then (PUT_HEAD, files[name := pending])
      else (REDIRECT_HEAD, files)
    case OpList => (ListReply(page), files)
    case _ => (REDIRECT_HEAD, files)
  }

  function ListReply(page: string): string {
    ListHead(|page|) + page
  }

  /** No `send` call fails with anything but EAGAIN. */
  predicate Undisturbed(results: seq<SendResult>) {
    forall i | 0 <= i < |results| :: !results[i].SendFailed?
  }

  /** Send passes one after the other, each on its own delivery, as long as the
      connection is armed for writing. */
  function SendTurns(c: Conn, files: Files, page: string, turns: seq<seq<SendResult>>): Pass
    requires ValidConn(c)
    decreases |turns|
  {
    if turns == [] || c.interest != ReadWrite then Passed(c, files)
    else
      var c0 := c.(interest := Disarmed);
      match SendPass(c0, files, page, turns[0])
      case Crashed => Crashed
      case Passed(c1, files1) =>
        SendPassValid(c0, files, page, turns[0]);
        SendTurns(c1, files1, page, turns[1..])
  }

  /** A response still to be routed, on a connection whose request entry reads as
      `v` and whose wire held `wire`. */
  predicate Routing(c: Conn, v: RequestValue, files: Files, page: string, wire: string, reply: (string, Files)) {
    && RequestOf(c) == v && c.interest == ReadWrite && c.wire == wire
    && c.resp.Some? && c.resp.value.target != "" && c.resp.value == FRESH_RESPONSE.(target := c.resp.value.target)
    && Reply(c.resp.value.target, files, page, v.recvMsg) == reply
  }

  /** A response whose head and body are the reply, sent up to its cursor. */
  predicate Underway(c: Conn, v: RequestValue, files: Files, wire: string, reply: (string, Files)) {
    && RequestOf(c) == v && c.interest == ReadWrite && files == reply.1
    && c.resp.Some? && Halfway(c.resp.value, c.wire, wire, reply.0)
  }

  predicate Halfway(r: ResponseValue, now: string, wire: string, reply: string) {
    && ValidResponse(r) && (r.status == HandleHead || r.status == HandleBody)
    && r.head + r.Body() == reply
    && now == wire + Progress(r)
  }

  /** The whole reply has gone out. */
  predicate Finished(c: Conn, v: RequestValue, files: Files, wire: string, reply: (string, Files)) {
    && RequestOf(c) == v && NoResponse(c) && c.interest == ReadOnly
    && files == reply.1 && c.wire == wire + reply.0
  }

  predicate Replying(c: Conn, v: RequestValue, files: Files, page: string, wire: string, reply: (string, Files)) {
    Routing(c, v, files, page, wire, reply) || Underway(c, v, files, wire, reply)
  }

  /** Sending goes on from where it stands. */
  lemma TransmitGoesOn(c: Conn, r: ResponseValue, files: Files, results: seq<SendResult>,
                       v: RequestValue, wire: string, reply: (string, Files))
    requires RequestOf(c) == v && files == reply.1 && Undisturbed(results)
    requires Halfway(r, c.wire, wire, reply.0)
    ensures var p := Transmit(c, r, files, results);
      p.Passed? && (Underway(p.c, v, p.files, wire, reply) || Finished(p.c, v, p.files, wire, reply))
  {
    hide SendLoop, Progress;
    var o := SendLoop(r, results);
    SendLoopExtends(r, results);
    NeverFails(r, results);
    Associative(wire, Progress(r), o.out);
    if o.r.status == HandleComplete {
      CompleteProgress(o.r);
    }
  }

  lemma CompleteProgress(r: ResponseValue)
    requires Sendable(r) && r.status == HandleComplete
    ensures Progress(r) == r.head + r.Body()
  {
  }

  lemma {:induction false} NeverFails(r: ResponseValue, results: seq<SendResult>)
    requires Sendable(r) && Undisturbed(results)
    ensures !SendLoop(r, results).failed
    decreases |results|
  {
    if Offers(r) && results != [] && results[0].Sent? {
      SendLoopTurn(r, results);
      NeverFails(After(r, Count(r, results[0].n)), results[1..]);
    }
  }

  lemma RedirectReply(files: Files, page: string, pending: string)
    ensures Reply("/redirect", files, page, pending) == (REDIRECT_HEAD, files)
    ensures Reply("/", files, page, pending) == (ListReply(page), files)
  {
    RedirectSplits();
  }

  /** Routing builds the reply, or passes on to a target with the same reply. */
  lemma RouteReplies(r: ResponseValue, files: Files, page: string, pending: string)
    requires r.target != "" && r == FRESH_RESPONSE.(target := r.target)
    ensures var reply := Reply(r.target, files, page, pending);
      match Route(r, files, page, pending)
      case RouteFault => false
      case Reroute(target, files1) => target != "" && Reply(target, files1, page, pending) == reply
      case Ready(r1, files1) => r1.head + r1.Body() == reply.0 && files1 == reply.1
  {
    hide OkHead, MessageHeader, StatusLine, SlashIndex;
    EmptyConcat(REDIRECT_HEAD);
    EmptyConcat(PUT_HEAD);
    EmptyConcat(page);
    match SplitTarget(r.target) {
      case OpFault =>
      case OpList =>
      case OpRedirect =>
      case OpNamed(op, name) =>
        RedirectReply(files, page, pending);
        RedirectReply(files - {name}, page, pending);
    }
  }

  /** One send pass. */
  lemma SendTurn(c: Conn, files: Files, page: string, results: seq<SendResult>,
                 v: RequestValue, wire: string, reply: (string, Files))
    requires ValidConn(c) && Replying(c, v, files, page, wire, reply) && Undisturbed(results)
    ensures var p := SendPass(c.(interest := Disarmed), files, page, results);
      p.Passed? && (Replying(p.c, v, p.files, page, wire, reply) || Finished(p.c, v, p.files, wire, reply))
  {
    hide Route, Transmit, Reply;
    var r := c.resp.value;
    var c0 := c.(interest := Disarmed);
    if Routing(c, v, files, page, wire, reply) {
      RouteReplies(r, files, page, v.recvMsg);
      var x := Route(r, files, page, v.recvMsg);
      if x.Ready? {
        RouteSendable(r, files, page, v.recvMsg);
        var c1 := if IsPut(r) then c0.(req := Some(RequestOf(c0))) else c0;
        EmptyConcat(wire);
        assert Halfway(x.r, c1.wire, wire, reply.0);
        TransmitGoesOn(c1, x.r, x.files, results, v, wire, reply);
      }
    } else {
      TransmitGoesOn(c0, r, files, results, v, wire, reply);
    }
  }

  /** Over any number of send passes the wire gains a prefix of the reply, and
      all of it once the response is complete. */
  lemma {:induction false} SendTurnsReply(c: Conn, files: Files, page: string, turns: seq<seq<SendResult>>,
                                          v: RequestValue, wire: string, reply: (string, Files))
    requires ValidConn(c) && Replying(c, v, files, page, wire, reply)
    requires forall i | 0 <= i < |turns| :: Undisturbed(turns[i])
    ensures var p := SendTurns(c, files, page, turns);
      && p.Passed? && ValidConn(p.c)
      && (Replying(p.c, v, p.files, page, wire, reply) || Finished(p.c, v, p.files, wire, reply))
    decreases |turns|
  {
    hide SendPass, ValidConn;
    if turns != [] {
      var c0 := c.(interest := Disarmed);
      DisarmedValid(c);
      assert Undisturbed(turns[0]);
      SendTurn(c, files, page, turns[0], v, wire, reply);
      SendPassValid(c0, files, page, turns[0]);
      var p := SendPass(c0, files, page, turns[0]);
      if Replying(p.c, v, p.files, page, wire, reply) {
        SendTurnsReply(p.c, p.files, page, turns[1..], v, wire, reply);
      }
    }
  }

  lemma DisarmedValid(c: Conn)
    requires ValidConn(c)
    ensures ValidConn(c.(interest := Disarmed))
  {
  }

  /** What a connection shows while its reply is going out. */
  lemma PartOfReply(c: Conn, v: RequestValue, files: Files, page: string, wire: string, reply: (string, Files))
    requires Replying(c, v, files, page, wire, reply)
    ensures wire <= c.wire <= wire + reply.0
    ensures c.interest == ReadWrite
  {
    if Underway(c, v, files, wire, reply) {
      var r := c.resp.value;
      assert Progress(r) <= r.head + r.Body();
    }
  }

  // ---------------------------------------------------------------- exchange after exchange

  /** One request as it arrives, the send calls of its response, and the list of
      files as rendered for it. */
  datatype Exchange = Exchange(passes: seq<seq<RecvResult>>, turns: seq<seq<SendResult>>, page: string)

  datatype Service = Broken | Served(done: nat, c: Conn, files: Files)

  /** The client sends a request only when the response before it is complete. */
  function Serve(c: Conn, files: Files, es: seq<Exchange>): Service
    requires ValidConn(c)
    decreases |es|
  {
    if es == [] then Served(0, c, files)
    else
      match RecvAll(c, files, es[0].passes)
      case Crashed => Broken
      case Passed(c1, files1) =>
        if !ValidConn(c1) then Broken
        else
          match SendTurns(c1, files1, es[0].page, es[0].turns)
          case Crashed => Broken
          case Passed(c2, files2) =>
            if c2.interest != ReadOnly then Served(0, c2, files2)
            else if !ValidConn(c2) then Broken
            else
              match Serve(c2, files2, es[1..])
              case Broken => Broken
              case Served(done, c3, files3) => Served(done + 1, c3, files3)
  }

  /** The request of an exchange, read in one piece. */
  function Read(e: Exchange, files: Files): Machine {
    match Settle(Receive(Machine(FRESH_REQUEST, "", files), AllData(e.passes)), true)
    case Settled(x) => x
    case Faulted => Machine(FRESH_REQUEST, "", files)
  }

  function ReplyTo(e: Exchange, files: Files): (string, Files) {
    Reply(Read(e, files).target, Read(e, files).files, e.page, "")
  }

  /** The replies to a list of requests, in order. */
  function Replies(es: seq<Exchange>, files: Files): seq<string>
    decreases |es|
  {
    if es == [] then [] else [ReplyTo(es[0], files).0] + Replies(es[1..], ReplyTo(es[0], files).1)
  }

  /** The directory after a list of requests. */
  function FilesAfter(es: seq<Exchange>, files: Files): Files
    decreases |es|
  {
    if es == [] then files else FilesAfter(es[1..], ReplyTo(es[0], files).1)
  }

  /** One whole request with a target, on a healthy connection. */
  ghost predicate Sound(e: Exchange, files: Files) {
    && Cuts(e.passes, AllData(e.passes))
    && (forall i | 0 <= i < |e.turns| :: Undisturbed(e.turns[i]))
    && Whole(Machine(FRESH_REQUEST, "", files), AllData(e.passes)) && Read(e, files).target != ""
  }

  ghost predicate AllSound(es: seq<Exchange>, files: Files)
    decreases |es|
  {
    es == [] || (Sound(es[0], files) && AllSound(es[1..], ReplyTo(es[0], files).1))
  }

  lemma OneExchange(c: Conn, files: Files, e: Exchange)
    requires Idle(c) && ValidConn(c) && Sound(e, files)
    ensures var p := RecvAll(c, files, e.passes);
      && p.Passed? && ValidConn(p.c)
      && var q := SendTurns(p.c, p.files, e.page, e.turns);
      && q.Passed? && ValidConn(q.c)
      && (Replying(q.c, FRESH_REQUEST, q.files, e.page, c.wire, ReplyTo(e, files))
          || Finished(q.c, FRESH_REQUEST, q.files, c.wire, ReplyTo(e, files)))
  {
    hide Settle, RecvAll, SendTurns, Reply, EndsEarly;
    FreshIsOpen(c, files);
    ChunkIndependence(c, files, e.passes);
    var p := RecvAll(c, files, e.passes);
    assert Replying(p.c, FRESH_REQUEST, p.files, e.page, c.wire, ReplyTo(e, files));
    SendTurnsReply(p.c, p.files, e.page, e.turns, FRESH_REQUEST, c.wire, ReplyTo(e, files));
  }

  /** The wire holds the replies to the completed exchanges, each in full and in
      the order of the requests, followed by a part of the next one. When nothing
      is left to send it holds exactly the replies to all requests, the directory
      is the one that the requests produce, and the connection is idle again. */
  predicate Matched(s: Service, wire: string, replies: seq<string>, after: Files) {
    && s.Served? && s.done <= |replies|
    && (s.done == |replies| ==> s.c.wire == wire + Concat(replies) && s.files == after && Idle(s.c))
    && (s.done < |replies| ==>
          && wire + Concat(replies[..s.done]) <= s.c.wire <= wire + (Concat(replies[..s.done]) + replies[s.done])
          && s.c.interest == ReadWrite)
  }

  lemma MatchedLater(s: Service, wire: string, reply: string, rest: seq<string>, after: Files)
    requires Matched(s, wire + reply, rest, after)
    ensures Matched(s.(done := s.done + 1), wire, [reply] + rest, after)
  {
    var all := [reply] + rest;
    assert all[1..] == rest;
    Associative(wire, reply, Concat(rest));
    var head := rest[..s.done];
    assert all[..s.done + 1] == [reply] + head;
    assert ([reply] + head)[1..] == head;
    Associative(wire, reply, Concat(head));
    if s.done < |rest| {
      assert all[s.done + 1] == rest[s.done];
      Associative(reply, Concat(head), rest[s.done]);
      Associative(wire, reply, Concat(head) + rest[s.done]);
    }
  }

  lemma MatchedNow(c: Conn, files: Files, wire: string, reply: string, rest: seq<string>, after: Files)
    requires wire <= c.wire <= wire + reply && c.interest == ReadWrite
    ensures Matched(Served(0, c, files), wire, [reply] + rest, after)
  {
    var all := [reply] + rest;
    assert all[..0] == [];
    EmptyConcat(wire);
    EmptyConcat(reply);
  }

  /** Request/response matching: on a kept-alive connection whose client waits
      for each response, the k-th reply on the wire belongs to the k-th request,
      for any chunking of the requests and any schedule of the sends. */
  lemma {:induction false} KeepAliveMatching(c: Conn, files: Files, es: seq<Exchange>)
    requires Idle(c) && ValidConn(c) && AllSound(es, files)
    ensures |Replies(es, files)| == |es|
    ensures Matched(Serve(c, files, es), c.wire, Replies(es, files), FilesAfter(es, files))
    decreases |es|
  {
    hide Sound, ReplyTo, Replying, Finished, RecvAll, SendTurns;
    if es == [] {
      EmptyConcat(c.wire);
    } else {
      var reply := ReplyTo(es[0], files);
      var rest := Replies(es[1..], reply.1);
      OneExchange(c, files, es[0]);
      var p := RecvAll(c, files, es[0].passes);
      var q := SendTurns(p.c, p.files, es[0].page, es[0].turns);
      if Finished(q.c, FRESH_REQUEST, q.files, c.wire, reply) {
        FinishedIsIdle(q.c, q.files, c.wire, reply);
        KeepAliveMatching(q.c, q.files, es[1..]);
        ServeGoesOn(c, files, es);
        MatchedLater(Serve(q.c, q.files, es[1..]), c.wire, reply.0, rest, FilesAfter(es[1..], reply.1));
      } else {
        PartOfReply(q.c, FRESH_REQUEST, q.files, es[0].page, c.wire, reply);
        ServeGoesOn(c, files, es);
        RepliesCount(es[1..], reply.1);
        MatchedNow(q.c, q.files, c.wire, reply.0, rest, FilesAfter(es, files));
      }
    }
  }

  lemma FinishedIsIdle(c: Conn, files: Files, wire: string, reply: (string, Files))
    requires Finished(c, FRESH_REQUEST, files, wire, reply)
    ensures Idle(c) && ValidConn(c) && c.interest == ReadOnly && files == reply.1 && c.wire == wire + reply.0
  {
  }

  lemma {:induction false} RepliesCount(es: seq<Exchange>, files: Files)
    ensures |Replies(es, files)| == |es|
    decreases |es|
  {
    hide ReplyTo;
    if es != [] {
      RepliesCount(es[1..], ReplyTo(es[0], files).1);
    }
  }

  /** Serving a list of exchanges: the first one, then the rest if it is complete. */
  lemma ServeGoesOn(c: Conn, files: Files, es: seq<Exchange>)
    requires ValidConn(c) && es != []
    requires var p := RecvAll(c, files, es[0].passes);
      && p.Passed? && ValidConn(p.c)
      && var q := SendTurns(p.c, p.files, es[0].page, es[0].turns);
      q.Passed? && (q.c.interest == ReadOnly ==> ValidConn(q.c) && Serve(q.c, q.files, es[1..]).Served?)
    ensures var p := RecvAll(c, files, es[0].passes);
      var q := SendTurns(p.c, p.files, es[0].page, es[0].turns);
      Serve(c, files, es) ==
        if q.c.interest == ReadOnly then
          var s := Serve(q.c, q.files, es[1..]);
          s.(done := s.done + 1)
        else Served(0, q.c, q.files)
  {
    hide RecvAll, SendTurns;
  }

  // ---------------------------------------------------------------- GETs and uploads

  /** What a printed request is owed. */
  function Owed(a: Ask, files: Files, page: string): (string, Files) {
    Reply(TargetOf(a), FilesBehind(a, files), page, "")
  }

  function AllOwed(asks: seq<Ask>, es: seq<Exchange>, files: Files): seq<string>
    requires |asks| == |es|
    decreases |asks|
  {
    if asks == [] then []
    else [Owed(asks[0], files, es[0].page).0] + AllOwed(asks[1..], es[1..], Owed(asks[0], files, es[0].page).1)
  }

  function FilesOwed(asks: seq<Ask>, es: seq<Exchange>, files: Files): Files
    requires |asks| == |es|
    decreases |asks|
  {
    if asks == [] then files else FilesOwed(asks[1..], es[1..], Owed(asks[0], files, es[0].page).1)
  }

  /** An upload is answered with the redirect and has appended its content. */
  lemma UploadOwed(a: Ask, files: Files, page: string)
    requires a.Upload?
    ensures Owed(a, files, page) == (REDIRECT_HEAD, FilesBehind(a, files))
  {
    RedirectReply(FilesBehind(a, files), page, "");
  }

  lemma {:induction false} UploadsOwed(asks: seq<Ask>, es: seq<Exchange>, files: Files)
    requires |asks| == |es|
    ensures |AllOwed(asks, es, files)| == |asks|
    ensures forall i | 0 <= i < |asks| && asks[i].Upload? :: AllOwed(asks, es, files)[i] == REDIRECT_HEAD
    decreases |asks|
  {
    hide Owed;
    if asks != [] {
      var owed := Owed(asks[0], files, es[0].page);
      UploadsOwed(asks[1..], es[1..], owed.1);
      if asks[0].Upload? {
        UploadOwed(asks[0], files, es[0].page);
      }
    }
  }

  /** An exchange that delivers `a`, on a healthy connection. */
  predicate Delivers(e: Exchange, a: Ask) {
    Cuts(e.passes, Printed(a)) && forall i | 0 <= i < |e.turns| :: Undisturbed(e.turns[i])
  }

  lemma AskIsSound(a: Ask, e: Exchange, files: Files)
    requires Proper(a) && Intact(a) && Delivers(e, a)
    ensures Sound(e, files) && ReplyTo(e, files) == Owed(a, files, e.page)
  {
    hide Settle, Reply, Printed, EndsEarly;
    if a.Get? {
      GetIsWhole(a, "", files);
    } else {
      UploadIsWhole(a, "", files);
    }
    NamesTarget(a);
  }

  lemma NamesTarget(a: Ask)
    requires Proper(a)
    ensures TargetOf(a) != ""
  {
  }

  /** The same for GETs and uploads as a client prints them: whatever the chunks
      and the send schedule, the replies on the wire are, in order, the list, the
      file, or the redirect that each request is owed on the files its
      predecessors have left behind; an upload is always owed the redirect. */
  lemma GetsAndUploads(c: Conn, files: Files, asks: seq<Ask>, es: seq<Exchange>)
    requires Idle(c) && ValidConn(c) && |asks| == |es|
    requires forall i | 0 <= i < |asks| :: Proper(asks[i]) && Intact(asks[i]) && Delivers(es[i], asks[i])
    ensures |AllOwed(asks, es, files)| == |asks|
    ensures forall i | 0 <= i < |asks| && asks[i].Upload? :: AllOwed(asks, es, files)[i] == REDIRECT_HEAD
    ensures Matched(Serve(c, files, es), c.wire, AllOwed(asks, es, files), FilesOwed(asks, es, files))
  {
    UploadsOwed(asks, es, files);
    AsksAreSound(files, asks, es);
    KeepAliveMatching(c, files, es);
  }

  lemma {:induction false} AsksAreSound(files: Files, asks: seq<Ask>, es: seq<Exchange>)
    requires |asks| == |es|
    requires forall i | 0 <= i < |asks| :: Proper(asks[i]) && Intact(asks[i]) && Delivers(es[i], asks[i])
    ensures AllSound(es, files)
    ensures Replies(es, files) == AllOwed(asks, es, files)
    ensures FilesAfter(es, files) == FilesOwed(asks, es, files)
    decreases |asks|
  {
    hide Proper, Intact, Sound, ReplyTo, Owed;
    if asks != [] {
      AskIsSound(asks[0], es[0], files);
      AsksAreSound(ReplyTo(es[0], files).1, asks[1..], es[1..]);
    }
  }
}
