/** The reactor as a whole: epoll reports, the main thread that turns them into
    events, the thread pool, and handlers that run on the shared maps. A handler
    is one atomic step at the moment its worker runs it; the pool's own steps
    interleave freely.
 */
module Server {
  import opened Bytes
  import opened Message
  import opened RequestMachine
  import opened ResponseMachine
  import opened Connection
  import opened Naming
  import opened Chunking
  import TP = ThreadPool

  datatype Event = AcceptEvent | RecvEvent(fd: int) | SendEvent(fd: int)

  /** One entry of the array that epoll_wait fills. */
  datatype Report = ListenReady | ClientReady(fd: int, readable: bool, writable: bool)

  /** The event the main thread builds for a report: readable wins over
      writable, and a report with neither yields none. */
  function EventFor(r: Report): Option<Event> {
    match r
    case ListenReady => Some(AcceptEvent)
    case ClientReady(fd, readable, writable) =>
      if readable then Some(RecvEvent(fd)) else if writable then Some(SendEvent(fd)) else None
  }

  datatype Server = Server(
    pool: TP.Pool<Event>,
    batch: seq<Report>,
    conns: map<int, Conn>,
    files: Files,
    crashed: bool)

  /** What the world contributes to one handler run. */
  datatype Turn = AcceptTurn(newFd: int)
                | AcceptFails
                | RecvTurn(input: seq<RecvResult>, canOpen: bool)
                | SendTurn(page: string, results: seq<SendResult>)

  datatype Action = PollListen
                  | PollClient(fd: int, readable: bool, writable: bool)
                  | Dispatch
                  | Produce
                  | Work(w: nat)
                  | Handle(w: nat, turn: Turn)

  const NEW_CONN := Conn(None, None, ReadOnly, "")

  predicate Armed(c: Conn) {
    c.interest == ReadOnly || c.interest == ReadWrite
  }

  /** One handler run on one connection. */
  function RunTurn(c: Conn, files: Files, turn: Turn): Pass
    requires ValidConn(c) && (turn.RecvTurn? || turn.SendTurn?)
  {
    if turn.RecvTurn? then RecvPass(c, files, turn.input, turn.canOpen)
    else SendPass(c, files, turn.page, turn.results)
  }

  predicate Fits(e: Event, turn: Turn) {
    match e
    case AcceptEvent => turn.AcceptTurn? || turn.AcceptFails?
    case RecvEvent(_) => turn.RecvTurn?
    case SendEvent(_) => turn.SendTurn?
  }

  /** The worker's event, run to its end. */
  function HandleEvent(s: Server, e: Event, turn: Turn): Option<Server> {
    if !Fits(e, turn) then None
    else if e.AcceptEvent? then
      if turn.AcceptFails? then Some(s)
      else if turn.newFd in s.conns then None
      else Some(s.(conns := s.conns[turn.newFd := NEW_CONN]))
    else if e.fd !in s.conns || !ValidConn(s.conns[e.fd]) then None
    else
      match RunTurn(s.conns[e.fd], s.files, turn)
      case Crashed => Some(s.(crashed := true))
      case Passed(c, files) => Some(s.(conns := s.conns[e.fd := c], files := files))
  }

  /** One step of the server; None when it is not possible now. */
  function Apply(s: Server, a: Action): Option<Server> {
    if s.crashed then None
    else match a
      case PollListen => Some(s.(batch := s.batch + [ListenReady]))
      case PollClient(fd, readable, writable) =>
        if fd !in s.conns || !Armed(s.conns[fd]) || (writable && s.conns[fd].interest != ReadWrite) then None
        else Some(s.(batch := s.batch + [ClientReady(fd, readable, writable)],
                     conns := s.conns[fd := s.conns[fd].(interest := Disarmed)]))
      case Dispatch =>
        if s.batch == [] || !s.pool.producer.Idle? then None
        else
          (match EventFor(s.batch[0])
           case None => Some(s.(batch := s.batch[1..]))
           case Some(e) => Some(s.(batch := s.batch[1..], pool := TP.BeginAppend(s.pool, e).value)))
      case Produce =>
        (match TP.ProducerStep(s.pool) case None => None case Some(p) => Some(s.(pool := p)))
      case Work(w) =>
        if w >= |s.pool.workers| || s.pool.workers[w].Handling? then None
        else (match TP.WorkerStep(s.pool, w) case None => None case Some(p) => Some(s.(pool := p)))
      case Handle(w, turn) =>
        if w >= |s.pool.workers| || !s.pool.workers[w].Handling? then None
        else HandleEvent(s.(pool := TP.WorkerStep(s.pool, w).value), s.pool.workers[w].event, turn)
  }

  // ---------------------------------------------------------------- events in flight

  function ReportEvents(batch: seq<Report>): multiset<Event> {
    if batch == [] then multiset{}
    else
      (match EventFor(batch[0]) case Some(e) => multiset{e} case None => multiset{}) + ReportEvents(batch[1..])
  }

  function ProducerHand(pc: TP.ProducerPc<Event>): multiset<Event> {
    if pc.WantLock? || pc.HasLock? then multiset{pc.event} else multiset{}
  }

  /** Events inside the pool whose handler has not run. */
  function PoolEvents(p: TP.Pool<Event>): multiset<Event> {
    ProducerHand(p.producer) + multiset(p.queue) + TP.InHand(p.workers)
  }

  /** Every event that has been reported and whose handler has not run. */
  function Outstanding(s: Server): multiset<Event> {
    ReportEvents(s.batch) + PoolEvents(s.pool)
  }

  lemma {:induction false} ReportEventsAppend(batch: seq<Report>, r: Report)
    ensures ReportEvents(batch + [r]) == ReportEvents(batch) + ReportEvents([r])
  {
    if batch == [] {
      assert batch + [r] == [r];
    } else {
      assert (batch + [r])[1..] == batch[1..] + [r];
      ReportEventsAppend(batch[1..], r);
    }
  }

  /** Moving one event from one place to another. */
  lemma Relocated(a: multiset<Event>, b: multiset<Event>, c: multiset<Event>, x: multiset<Event>)
    ensures a + (b + x) + c == a + x + b + c
    ensures a + b + (c + x) == a + (x + b) + c
    ensures multiset{} + (b + x) + c == x + b + c
    ensures a + b + c + x == a + b + (c + x)
  {
  }

  lemma ProducerStepKeepsEvents(p: TP.Pool<Event>)
    requires TP.ProducerStep(p).Some?
    ensures PoolEvents(TP.ProducerStep(p).value) == PoolEvents(p)
  {
    hide TP.InHand;
    if p.producer.HasLock? {
      var e := p.producer.event;
      assert multiset(p.queue + [e]) == multiset(p.queue) + multiset{e};
      Relocated(multiset{}, multiset(p.queue), TP.InHand(p.workers), multiset{e});
    }
  }

  /** What a worker step does to the events in the workers' hands. */
  lemma HandStep(p: TP.Pool<Event>, w: nat)
    requires w < |p.workers| && TP.WorkerStep(p, w).Some?
    ensures var p1 := TP.WorkerStep(p, w).value;
      if p.workers[w].Holding? && p.queue != [] then
        TP.InHand(p1.workers) == TP.InHand(p.workers) + multiset{p.queue[0]}
      else if p.workers[w].Handling? then
        TP.InHand(p1.workers) + multiset{p.workers[w].event} == TP.InHand(p.workers)
      else TP.InHand(p1.workers) == TP.InHand(p.workers)
  {
    hide TP.InHand;
    var p1 := TP.WorkerStep(p, w).value;
    var before, after := p.workers[w], p1.workers[w];
    TP.InHandUpdate(p.workers, w, after);
    var i, i1 := TP.InHand(p.workers), TP.InHand(p1.workers);
    if TP.Hand(before) == TP.Hand(after) {
      TP.Cancelled(i1, i, TP.Hand(before));
    } else if before.Holding? {
      assert i1 == i1 + TP.Hand(before);
    } else {
      assert i == i + TP.Hand(after);
    }
  }

  /** A pop moves the front event from the queue to a hand; a finish takes one out. */
  lemma PoppedEvents(hand: multiset<Event>, q: seq<Event>, i: multiset<Event>)
    requires q != []
    ensures hand + multiset(q[1..]) + (i + multiset{q[0]}) == hand + multiset(q) + i
  {
    assert q == [q[0]] + q[1..];
    assert multiset(q) == multiset{q[0]} + multiset(q[1..]);
    Relocated(hand, multiset(q[1..]), i, multiset{q[0]});
  }

  lemma WorkerStepEvents(p: TP.Pool<Event>, w: nat)
    requires w < |p.workers| && TP.WorkerStep(p, w).Some?
    ensures var p1 := TP.WorkerStep(p, w).value;
      if p.workers[w].Handling? then PoolEvents(p1) + multiset{p.workers[w].event} == PoolEvents(p)
      else PoolEvents(p1) == PoolEvents(p)
  {
    HandStep(p, w);
    QueueStep(p, w);
    hide TP.InHand, TP.WorkerStep, ProducerHand;
    var p1 := TP.WorkerStep(p, w).value;
    if p.workers[w].Holding? && p.queue != [] {
      PoppedEvents(ProducerHand(p.producer), p.queue, TP.InHand(p.workers));
    } else if p.workers[w].Handling? {
      Relocated(ProducerHand(p.producer), multiset(p.queue), TP.InHand(p1.workers), multiset{p.workers[w].event});
    }
  }

  lemma QueueStep(p: TP.Pool<Event>, w: nat)
    requires w < |p.workers| && TP.WorkerStep(p, w).Some?
    ensures var p1 := TP.WorkerStep(p, w).value;
      && p1.producer == p.producer
      && p1.queue == if p.workers[w].Holding? && p.queue != [] then p.queue[1..] else p.queue
  {
  }

  // ---------------------------------------------------------------- invariants

  function OpenBit(conns: map<int, Conn>, fd: int): nat {
    if fd in conns && conns[fd].interest != Closed then 1 else 0
  }

  function ArmedBit(conns: map<int, Conn>, fd: int): nat {
    if fd in conns && Armed(conns[fd]) then 1 else 0
  }

  /** The ways in which a connection can be about to be served: armed in epoll,
      or an event for it reported and its handler not yet run. */
  function Tokens(events: multiset<Event>, conns: map<int, Conn>, fd: int): nat {
    events[RecvEvent(fd)] + events[SendEvent(fd)] + ArmedBit(conns, fd)
  }

  /** One-shot: an open connection has at most one token, any other none. */
  ghost predicate TokenInv(events: multiset<Event>, conns: map<int, Conn>) {
    forall fd :: Tokens(events, conns, fd) <= OpenBit(conns, fd)
  }

  predicate GoodConn(c: Conn) {
    ValidConn(c) && ValidRequest(RequestOf(c))
  }

  predicate ConnsInv(conns: map<int, Conn>) {
    forall fd | fd in conns :: GoodConn(conns[fd])
  }

  /** There is a response to send and, when `named` is asked for, a target to route it to. */
  predicate HasReply(c: Conn, named: bool) {
    c.resp.Some? && (named && c.resp.value.status == HandleInit ==> c.resp.value.target != "")
  }

  /** Wherever a send event can come from or is on its way, there is a response to send. */
  predicate ReplyInv(events: multiset<Event>, conns: map<int, Conn>, named: bool) {
    forall fd | fd in conns ::
      conns[fd].interest == ReadWrite || SendEvent(fd) in events ==> HasReply(conns[fd], named)
  }

  /** When `named` is asked for: no GET or PUT in the middle of being received
      leaves its resource empty. */
  predicate WordedInv(conns: map<int, Conn>, named: bool) {
    forall fd | fd in conns :: named ==> Worded(RequestOf(conns[fd]))
  }

  ghost predicate Inv(s: Server, named: bool) {
    && TP.Inv(s.pool)
    && TokenInv(Outstanding(s), s.conns)
    && ConnsInv(s.conns)
    && ReplyInv(Outstanding(s), s.conns, named)
    && WordedInv(s.conns, named)
  }

  // ------------------------------------------------ what a handler leaves behind

  lemma {:induction false} RecvLoopValid(m: Machine, input: seq<RecvResult>, canOpen: bool)
    requires ValidRequest(m.req) && RecvLoop(m, input, canOpen).Received?
    ensures ValidRequest(RecvLoop(m, input, canOpen).m.req)
    decreases |input|
  {
    hide Settle;
    if input != [] && input[0].Data? {
      SettleKeepsValid(Receive(m, input[0].bytes), canOpen);
      var m1 := Settle(Receive(m, input[0].bytes), canOpen).m;
      if RecvLoop(m, input, canOpen) == RecvLoop(m1, input[1..], canOpen) {
        RecvLoopValid(m1, input[1..], canOpen);
      }
    }
  }

  lemma SendPassRequest(c: Conn, files: Files, page: string, results: seq<SendResult>)
    requires GoodConn(c) && SendPass(c, files, page, results).Passed?
    ensures var v := RequestOf(SendPass(c, files, page, results).c);
      ValidRequest(v) && (Worded(RequestOf(c)) ==> Worded(v))
  {
    hide SendLoop, Route;
  }

  /** The request line that this run reads, if it reads one and it is that of a GET
      or PUT, has a second word. This can be told from the bytes on offer. */
  predicate NamedTurn(c: Conn, turn: Turn) {
    turn.RecvTurn? ==> NamesResource(WordsOf(RequestOf(c), DataOf(turn.input)))
  }

  /** After a handler run the connection is in order again, and if it is armed
      for writing it has a response. */
  lemma TurnGood(c: Conn, files: Files, turn: Turn, named: bool)
    requires GoodConn(c) && (turn.RecvTurn? || turn.SendTurn?) && RunTurn(c, files, turn).Passed?
    requires named ==> Worded(RequestOf(c)) && NamedTurn(c, turn)
    ensures var c1 := RunTurn(c, files, turn).c;
      && GoodConn(c1)
      && (c1.interest == ReadWrite && c.interest == Disarmed ==> HasReply(c1, named))
      && (named ==> Worded(RequestOf(c1)))
  {
    if turn.RecvTurn? {
      RecvPassValid(c, files, turn.input, turn.canOpen);
      RecvLoopValid(MachineOf(c, files), turn.input, turn.canOpen);
      LoopWords(MachineOf(c, files), turn.input, turn.canOpen);
      RecvNamed(c, files, turn.input, turn.canOpen);
    } else {
      SendPassValid(c, files, turn.page, turn.results);
      SendPassRequest(c, files, turn.page, turn.results);
    }
  }

  lemma RecvNamed(c: Conn, files: Files, input: seq<RecvResult>, canOpen: bool)
    requires GoodConn(c) && RecvPass(c, files, input, canOpen).Passed?
    ensures var c1 := RecvPass(c, files, input, canOpen).c;
      var words := WordsOf(RequestOf(c), DataOf(input));
      && (c1.interest == ReadWrite && c.interest == Disarmed ==>
            && c1.resp.Some?
            && (NamesResource(words) ==> c1.resp.value.target != ""))
      && (Worded(RequestOf(c)) && NamesResource(words) ==> Worded(RequestOf(c1)))
  {
    hide RecvLoop, WordsOf, Settle, ValidResponse, ValidRequest;
    LoopWords(MachineOf(c, files), input, canOpen);
  }

  /** If this step runs a receive handler, what it reads names its resource. */
  predicate Named(s: Server, a: Action) {
    && a.Handle? && a.w < |s.pool.workers| && s.pool.workers[a.w].Handling?
    && s.pool.workers[a.w].event.RecvEvent? && s.pool.workers[a.w].event.fd in s.conns
    ==> NamedTurn(s.conns[s.pool.workers[a.w].event.fd], a.turn)
  }

  predicate AllNamed(s: Server, actions: seq<Action>)
    decreases |actions|
  {
    actions == [] ||
    (Named(s, actions[0]) && (Apply(s, actions[0]).Some? ==> AllNamed(Apply(s, actions[0]).value, actions[1..])))
  }

  // ---------------------------------------------------------------- what a step does to the events in flight

  /** The events that a report brings. */
  function ReportedBy(r: Report): multiset<Event> {
    match EventFor(r) case Some(e) => multiset{e} case None => multiset{}
  }

  /** The events that a step brings in. */
  function Brought(a: Action): multiset<Event> {
    match a
    case PollListen => ReportedBy(ListenReady)
    case PollClient(fd, readable, writable) => ReportedBy(ClientReady(fd, readable, writable))
    case _ => multiset{}
  }

  /** The event that a step runs the handler of. */
  function HandledBy(s: Server, a: Action): multiset<Event> {
    if a.Handle? && a.w < |s.pool.workers| && s.pool.workers[a.w].Handling?
    then multiset{s.pool.workers[a.w].event} else multiset{}
  }

  lemma PollEvents(s: Server, r: Report)
    ensures ReportEvents(s.batch + [r]) + PoolEvents(s.pool) == Outstanding(s) + ReportedBy(r)
  {
    hide PoolEvents, ReportedBy;
    ReportEventsAppend(s.batch, r);
    var more := ReportedBy(r);
    assert ReportEvents([r]) == more by { OneReport(r); }
    var a, b := ReportEvents(s.batch), PoolEvents(s.pool);
    assert a + more + b == a + b + more;
  }

  lemma OneReport(r: Report)
    ensures ReportEvents([r]) == ReportedBy(r)
  {
    assert [r][1..] == [];
    assert ReportedBy(r) + multiset{} == ReportedBy(r);
  }

  lemma DispatchEvents(s: Server)
    requires Apply(s, Dispatch).Some?
    ensures Outstanding(Apply(s, Dispatch).value) == Outstanding(s)
  {
    hide *;
    var s1 := Apply(s, Dispatch).value;
    DispatchStep(s);
    var rest, x := ReportEvents(s.batch[1..]), ReportedBy(s.batch[0]);
    FirstReport(s.batch);
    BegunEvents(s.pool, s.batch[0]);
    HandedOver(rest, x, multiset(s.pool.queue), TP.InHand(s.pool.workers));
    SumOfEvents(s);
    SumOfEvents(s1);
  }

  lemma SumOfEvents(s: Server)
    ensures Outstanding(s) == ReportEvents(s.batch) + PoolEvents(s.pool)
  {
  }

  lemma DispatchStep(s: Server)
    requires Apply(s, Dispatch).Some?
    ensures var s1 := Apply(s, Dispatch).value;
      && s.batch != [] && s.pool.producer.Idle? && s1.batch == s.batch[1..]
      && s1.pool == Begun(s.pool, s.batch[0])
      && PoolEvents(s.pool) == multiset{} + multiset(s.pool.queue) + TP.InHand(s.pool.workers)
  {
  }

  /** The pool when the main thread has read a report. */
  function Begun(p: TP.Pool<Event>, r: Report): TP.Pool<Event>
    requires p.producer.Idle?
  {
    match EventFor(r) case Some(e) => TP.BeginAppend(p, e).value case None => p
  }

  lemma FirstReport(batch: seq<Report>)
    requires batch != []
    ensures ReportEvents(batch) == ReportedBy(batch[0]) + ReportEvents(batch[1..])
  {
  }

  lemma BegunEvents(p: TP.Pool<Event>, r: Report)
    requires p.producer.Idle?
    ensures var q, i := multiset(p.queue), TP.InHand(p.workers);
      PoolEvents(Begun(p, r)) == ReportedBy(r) + q + i
  {
    hide TP.InHand;
  }

  lemma HandedOver(rest: multiset<Event>, x: multiset<Event>, q: multiset<Event>, i: multiset<Event>)
    ensures rest + (x + q + i) == x + rest + (multiset{} + q + i)
  {
    assert multiset{} + q + i == q + i;
  }

  lemma HandleEvents(s: Server, w: nat, turn: Turn)
    requires Apply(s, Handle(w, turn)).Some? && !Apply(s, Handle(w, turn)).value.crashed
    ensures Outstanding(s) == Outstanding(Apply(s, Handle(w, turn)).value) + multiset{s.pool.workers[w].event}
  {
    hide PoolEvents, ReportEvents, RunTurn;
    var s1 := Apply(s, Handle(w, turn)).value;
    var e := s.pool.workers[w].event;
    WorkerStepEvents(s.pool, w);
    var a, b := ReportEvents(s.batch), PoolEvents(s1.pool);
    assert a + (b + multiset{e}) == a + b + multiset{e};
  }

  /** Every step accounts for the events in flight: reports bring them, handlers
      finish them, everything else moves them about. */
  lemma StepEvents(s: Server, a: Action)
    requires Apply(s, a).Some? && !Apply(s, a).value.crashed
    ensures Outstanding(Apply(s, a).value) + HandledBy(s, a) == Outstanding(s) + Brought(a)
  {
    hide PoolEvents, ReportEvents, RunTurn, TP.ProducerStep, TP.WorkerStep, ReportedBy;
    match a {
      case PollListen => PollEvents(s, ListenReady);
      case PollClient(fd, readable, writable) => PollEvents(s, ClientReady(fd, readable, writable));
      case Dispatch => DispatchEvents(s);
      case Produce => ProducerStepKeepsEvents(s.pool);
      case Work(w) => WorkerStepEvents(s.pool, w);
      case Handle(w, turn) => HandleEvents(s, w, turn);
    }
    assert Outstanding(s) + multiset{} == Outstanding(s);
    assert Outstanding(Apply(s, a).value) + multiset{} == Outstanding(Apply(s, a).value);
  }

  // ---------------------------------------------------------------- steps keep the invariant

  /** Steps that only move events about. */
  lemma SameEventsInv(s: Server, s1: Server, named: bool)
    requires Inv(s, named) && TP.Inv(s1.pool) && s1.conns == s.conns && Outstanding(s1) == Outstanding(s)
    ensures Inv(s1, named)
  {
  }

  lemma PollListenInv(s: Server, named: bool)
    requires Inv(s, named)
    ensures Inv(s.(batch := s.batch + [ListenReady]), named)
  {
    hide TP.Inv, PoolEvents;
    var s1 := s.(batch := s.batch + [ListenReady]);
    PollEvents(s, ListenReady);
    assert Outstanding(s1) == Outstanding(s) + multiset{AcceptEvent};
    assert forall fd :: Outstanding(s1)[RecvEvent(fd)] == Outstanding(s)[RecvEvent(fd)];
    assert forall fd :: Outstanding(s1)[SendEvent(fd)] == Outstanding(s)[SendEvent(fd)];
    forall fd ensures Tokens(Outstanding(s1), s1.conns, fd) <= OpenBit(s1.conns, fd) {
      assert Tokens(Outstanding(s), s.conns, fd) <= OpenBit(s.conns, fd);
    }
    forall fd | fd in s.conns && (s.conns[fd].interest == ReadWrite || SendEvent(fd) in Outstanding(s1))
      ensures HasReply(s.conns[fd], named)
    {
      assert SendEvent(fd) in Outstanding(s1) ==> SendEvent(fd) in Outstanding(s);
    }
  }

  /** Delivery takes the token out of epoll and puts it into an event, or loses it. */
  lemma DeliveredInv(events: multiset<Event>, more: multiset<Event>, conns: map<int, Conn>, fd: int, named: bool)
    requires TokenInv(events, conns) && ConnsInv(conns) && ReplyInv(events, conns, named)
    requires fd in conns && Armed(conns[fd])
    requires more == multiset{} || more == multiset{RecvEvent(fd)} ||
             (more == multiset{SendEvent(fd)} && conns[fd].interest == ReadWrite)
    ensures var conns1 := conns[fd := conns[fd].(interest := Disarmed)];
      TokenInv(events + more, conns1) && ConnsInv(conns1) && ReplyInv(events + more, conns1, named)
  {
    var conns1 := conns[fd := conns[fd].(interest := Disarmed)];
    forall g ensures Tokens(events + more, conns1, g) <= OpenBit(conns1, g) {
      assert Tokens(events, conns, g) <= OpenBit(conns, g);
    }
    forall g | g in conns1 && (conns1[g].interest == ReadWrite || SendEvent(g) in events + more)
      ensures HasReply(conns1[g], named)
    {
      assert SendEvent(g) in events + more ==> SendEvent(g) in events || (g == fd && conns[fd].interest == ReadWrite);
    }
    assert GoodConn(conns[fd]);
    assert GoodConn(conns1[fd]);
  }

  lemma PollClientInv(s: Server, fd: int, readable: bool, writable: bool, named: bool)
    requires Inv(s, named) && Apply(s, PollClient(fd, readable, writable)).Some?
    ensures Inv(Apply(s, PollClient(fd, readable, writable)).value, named)
  {
    hide TP.Inv, PoolEvents, TokenInv, ReplyInv, ConnsInv;
    var s1 := Apply(s, PollClient(fd, readable, writable)).value;
    var r := ClientReady(fd, readable, writable);
    PollEvents(s, r);
    assert Outstanding(s1) == Outstanding(s) + ReportedBy(r);
    DeliveredInv(Outstanding(s), ReportedBy(r), s.conns, fd, named);
  }

  lemma DispatchInv(s: Server, named: bool)
    requires Inv(s, named) && Apply(s, Dispatch).Some?
    ensures Inv(Apply(s, Dispatch).value, named)
  {
    hide TP.Inv, Outstanding;
    DispatchEvents(s);
    if EventFor(s.batch[0]).Some? {
      TP.BeginAppendInv(s.pool, EventFor(s.batch[0]).value);
    }
    SameEventsInv(s, Apply(s, Dispatch).value, named);
  }

  lemma PoolStepInv(s: Server, a: Action, named: bool)
    requires Inv(s, named) && (a.Produce? || a.Work?) && Apply(s, a).Some?
    ensures Inv(Apply(s, a).value, named)
  {
    hide TP.Inv, PoolEvents, TP.ProducerStep, TP.WorkerStep;
    if a.Produce? {
      TP.ProducerStepInv(s.pool);
      ProducerStepKeepsEvents(s.pool);
    } else {
      TP.WorkerStepInv(s.pool, a.w);
      WorkerStepEvents(s.pool, a.w);
    }
    SameEventsInv(s, Apply(s, a).value, named);
  }

  /** A handler takes its event out and leaves its connection in any interest. */
  lemma ServedInv(events: multiset<Event>, e: Event, conns: map<int, Conn>, c: Conn, named: bool)
    requires e.RecvEvent? || e.SendEvent?
    requires TokenInv(events + multiset{e}, conns) && ConnsInv(conns) && ReplyInv(events + multiset{e}, conns, named)
    requires e.fd in conns && GoodConn(c) && (c.interest == ReadWrite ==> HasReply(c, named))
    ensures var conns1 := conns[e.fd := c];
      TokenInv(events, conns1) && ConnsInv(conns1) && ReplyInv(events, conns1, named)
  {
    var all := events + multiset{e};
    var conns1 := conns[e.fd := c];
    assert Tokens(all, conns, e.fd) <= OpenBit(conns, e.fd);
    assert all[e] >= 1;
    assert events[RecvEvent(e.fd)] == 0 && events[SendEvent(e.fd)] == 0;
    forall g ensures Tokens(events, conns1, g) <= OpenBit(conns1, g) {
      assert Tokens(all, conns, g) <= OpenBit(conns, g);
    }
    forall g | g in conns1 && (conns1[g].interest == ReadWrite || SendEvent(g) in events)
      ensures HasReply(conns1[g], named)
    {
      assert SendEvent(g) in events ==> SendEvent(g) in all && g != e.fd;
    }
  }

  /** An event that is being handled holds the token of its connection: the
      connection is open and disarmed, and no other event for it is around. */
  lemma HandledHoldsToken(s: Server, w: nat, named: bool)
    requires Inv(s, named) && w < |s.pool.workers| && s.pool.workers[w].Handling?
    ensures var e := s.pool.workers[w].event;
      && e in Outstanding(s)
      && (!e.AcceptEvent? ==>
        && e.fd in s.conns && s.conns[e.fd].interest == Disarmed && GoodConn(s.conns[e.fd])
        && Outstanding(s)[RecvEvent(e.fd)] + Outstanding(s)[SendEvent(e.fd)] == 1
        && (e.SendEvent? ==> HasReply(s.conns[e.fd], named)))
  {
    hide TP.Inv, TP.InHand;
    var e := s.pool.workers[w].event;
    WorkerStepEvents(s.pool, w);
    assert PoolEvents(s.pool)[e] >= 1;
    if !e.AcceptEvent? {
      assert Tokens(Outstanding(s), s.conns, e.fd) <= OpenBit(s.conns, e.fd);
    }
  }

  lemma AcceptedInv(events: multiset<Event>, conns: map<int, Conn>, fd: int, named: bool)
    requires TokenInv(events + multiset{AcceptEvent}, conns) && ConnsInv(conns)
    requires ReplyInv(events + multiset{AcceptEvent}, conns, named) && fd !in conns
    ensures TokenInv(events, conns) && ReplyInv(events, conns, named)
    ensures var conns1 := conns[fd := NEW_CONN];
      TokenInv(events, conns1) && ConnsInv(conns1) && ReplyInv(events, conns1, named)
  {
    var all := events + multiset{AcceptEvent};
    var conns1 := conns[fd := NEW_CONN];
    forall g
      ensures Tokens(events, conns, g) <= OpenBit(conns, g) && Tokens(events, conns1, g) <= OpenBit(conns1, g)
    {
      assert Tokens(all, conns, g) <= OpenBit(conns, g);
    }
    forall g | g in conns1 && (conns1[g].interest == ReadWrite || SendEvent(g) in events)
      ensures HasReply(conns1[g], named)
    {
      assert SendEvent(g) in events ==> SendEvent(g) in all;
      assert Tokens(all, conns, g) <= OpenBit(conns, g);
    }
    assert ReplyInv(events, conns, named) by {
      assert forall g :: SendEvent(g) in events ==> SendEvent(g) in all;
    }
    assert GoodConn(NEW_CONN);
  }

  lemma AcceptFailedInv(events: multiset<Event>, conns: map<int, Conn>, named: bool)
    requires TokenInv(events + multiset{AcceptEvent}, conns) && ReplyInv(events + multiset{AcceptEvent}, conns, named)
    ensures TokenInv(events, conns) && ReplyInv(events, conns, named)
  {
    var all := events + multiset{AcceptEvent};
    forall g ensures Tokens(events, conns, g) <= OpenBit(conns, g) {
      assert Tokens(all, conns, g) <= OpenBit(conns, g);
    }
    assert forall g :: SendEvent(g) in events ==> SendEvent(g) in all;
  }

  lemma HandleInv(s: Server, w: nat, turn: Turn, named: bool)
    requires named ==> Named(s, Handle(w, turn))
    requires Inv(s, named) && Apply(s, Handle(w, turn)).Some? && !Apply(s, Handle(w, turn)).value.crashed
    ensures Inv(Apply(s, Handle(w, turn)).value, named)
  {
    hide TP.Inv, PoolEvents, ReportEvents, TokenInv, ReplyInv, ConnsInv, RunTurn;
    var s1 := Apply(s, Handle(w, turn)).value;
    var e := s.pool.workers[w].event;
    TP.WorkerStepInv(s.pool, w);
    HandleEvents(s, w, turn);
    HandledHoldsToken(s, w, named);
    if e.AcceptEvent? {
      if turn.AcceptTurn? {
        AcceptedInv(Outstanding(s1), s.conns, turn.newFd, named);
      } else {
        AcceptFailedInv(Outstanding(s1), s.conns, named);
      }
    } else {
      TurnGood(s.conns[e.fd], s.files, turn, named);
      ServedInv(Outstanding(s1), e, s.conns, s1.conns[e.fd], named);
    }
  }

  /** Every step keeps the invariant. */
  lemma ApplyInv(s: Server, a: Action, named: bool)
    requires named ==> Named(s, a)
    requires Inv(s, named) && Apply(s, a).Some? && !Apply(s, a).value.crashed
    ensures Inv(Apply(s, a).value, named)
  {
    hide Inv;
    match a {
      case PollListen => PollListenInv(s, named);
      case PollClient(fd, readable, writable) => PollClientInv(s, fd, readable, writable, named);
      case Dispatch => DispatchInv(s, named);
      case Produce => PoolStepInv(s, a, named);
      case Work(w) => PoolStepInv(s, a, named);
      case Handle(w, turn) => HandleInv(s, w, turn, named);
    }
  }

  /** A run: every action was possible when it was taken. */
  function Run(s: Server, actions: seq<Action>): Option<Server>
    decreases |actions|
  {
    if actions == [] then Some(s)
    else
      match Apply(s, actions[0])
      case None => None
      case Some(s1) => Run(s1, actions[1..])
  }

  function Start(threads: nat, files: Files): Server {
    Server(TP.FreshPool(threads), [], map[], files, false)
  }

  lemma StartInv(threads: nat, files: Files, named: bool)
    ensures Inv(Start(threads, files), named)
  {
    TP.FreshPoolInv<Event>(threads);
    TP.RestingWorkers(TP.FreshPool<Event>(threads).workers);
    assert Outstanding(Start(threads, files)) == multiset{};
  }

  lemma {:induction false} RunInv(s: Server, actions: seq<Action>, named: bool)
    requires named ==> AllNamed(s, actions)
    requires Inv(s, named) && Run(s, actions).Some? && !Run(s, actions).value.crashed
    ensures Inv(Run(s, actions).value, named)
    decreases |actions|
  {
    hide Inv, Apply;
    if actions != [] {
      var s1 := Apply(s, actions[0]).value;
      if s1.crashed {
        CrashIsFinal(s1, actions[1..]);
      }
      ApplyInv(s, actions[0], named);
      RunInv(s1, actions[1..], named);
    }
  }

  lemma CrashIsFinal(s: Server, actions: seq<Action>)
    requires s.crashed && Run(s, actions).Some?
    ensures actions == [] && Run(s, actions).value == s
  {
  }

  /** One-shot delivery, in every reachable state: for each connection, at most
      one of {armed in epoll, reported, queued or in a thread's hands, being
      handled} holds, and none once it is closed. */
  lemma OneShotToken(threads: nat, files: Files, actions: seq<Action>, fd: int)
    requires Run(Start(threads, files), actions).Some? && !Run(Start(threads, files), actions).value.crashed
    ensures var s := Run(Start(threads, files), actions).value;
      && Tokens(Outstanding(s), s.conns, fd) <= 1
      && (fd !in s.conns || s.conns[fd].interest == Closed ==> Tokens(Outstanding(s), s.conns, fd) == 0)
  {
    StartInv(threads, files, false);
    RunInv(Start(threads, files), actions, false);
    var s := Run(Start(threads, files), actions).value;
    hide Run, TP.Inv;
    assert Tokens(Outstanding(s), s.conns, fd) <= OpenBit(s.conns, fd);
  }

  /** In every reachable state, wherever a send event is on its way (reported, in
      the main thread's hands, queued, taken or being handled), its connection is
      open and disarmed and has a response entry, so the handler's guard for a
      missing response never fires; and if every request line read names a
      resource, that response has a target or is past routing. */
  lemma ResponsePresent(threads: nat, files: Files, actions: seq<Action>, fd: int, named: bool)
    requires Run(Start(threads, files), actions).Some? && !Run(Start(threads, files), actions).value.crashed
    requires named ==> AllNamed(Start(threads, files), actions)
    requires SendEvent(fd) in Outstanding(Run(Start(threads, files), actions).value)
    ensures var s := Run(Start(threads, files), actions).value;
      && fd in s.conns && s.conns[fd].interest == Disarmed && s.conns[fd].resp.Some?
      && (named ==> s.conns[fd].resp.value.status != HandleInit || s.conns[fd].resp.value.target != "")
  {
    StartInv(threads, files, named);
    RunInv(Start(threads, files), actions, named);
    hide *;
    SendOnItsWay(Run(Start(threads, files), actions).value, fd, named);
  }

  lemma SendOnItsWay(s: Server, fd: int, named: bool)
    requires Inv(s, named) && SendEvent(fd) in Outstanding(s)
    ensures fd in s.conns && s.conns[fd].interest == Disarmed && s.conns[fd].resp.Some?
    ensures named ==> s.conns[fd].resp.value.status != HandleInit || s.conns[fd].resp.value.target != ""
  {
    hide TP.Inv, ConnsInv, Outstanding, WordedInv;
    var events := Outstanding(s);
    assert events[SendEvent(fd)] >= 1;
    assert Tokens(events, s.conns, fd) <= OpenBit(s.conns, fd);
    assert HasReply(s.conns[fd], named);
  }

  /** As long as the request line of every GET and PUT that is read has a second
      word, no send handler crashes, in any reachable state and under any
      interleaving. */
  lemma SendNeverCrashes(threads: nat, files: Files, actions: seq<Action>, w: nat,
                         page: string, results: seq<SendResult>)
    requires Run(Start(threads, files), actions).Some? && !Run(Start(threads, files), actions).value.crashed
    requires AllNamed(Start(threads, files), actions)
    requires var s := Run(Start(threads, files), actions).value;
      w < |s.pool.workers| && s.pool.workers[w].Handling? && s.pool.workers[w].event.SendEvent?
    ensures var s := Run(Start(threads, files), actions).value;
      var fd := s.pool.workers[w].event.fd;
      fd in s.conns && ValidConn(s.conns[fd]) && SendPass(s.conns[fd], s.files, page, results).Passed?
  {
    StartInv(threads, files, true);
    RunInv(Start(threads, files), actions, true);
    var s := Run(Start(threads, files), actions).value;
    HandledHoldsToken(s, w, true);
    SendCrashIff(s.conns[s.pool.workers[w].event.fd], s.files, page, results);
  }
}
