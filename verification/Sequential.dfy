/** The sequential server: one worker, one connection, every report read, queued,
    taken and handled before the next. Its runs are what connection isolation
    compares with.
 */
module Sequential {
  import opened Bytes
  import opened ResponseMachine
  import opened Connection
  import opened Naming
  import opened Server
  import opened Isolation
  import TP = ThreadPool

  // ---------------------------------------------------------------- one event through the pool

  predicate QuietPool(p: TP.Pool<Event>) {
    p.queue == [] && p.sem == 0 && p.owner.Free? && p.producer.Idle? && p.workers == [TP.Waiting]
  }

  predicate BusyPool(p: TP.Pool<Event>, e: Event) {
    p.queue == [] && p.sem == 0 && p.owner.Free? && p.producer.Idle? && p.workers == [TP.Handling(e)]
  }

  /** appendEvent from lock to post, then one worker from wait to unlock. */
  const POOL_STEPS: seq<Action> := [Produce, Produce, Produce, Produce, Work(0), Work(0), Work(0), Work(0)]

  predicate PoolMoves(p: TP.Pool<Event>, a: Action, p1: TP.Pool<Event>) {
    (a == Produce && TP.ProducerStep(p) == Some(p1))
    || (a == Work(0) && |p.workers| == 1 && !p.workers[0].Handling? && TP.WorkerStep(p, 0) == Some(p1))
  }

  lemma PoolMove(s: Server, a: Action, p1: TP.Pool<Event>, rest: seq<Action>)
    requires !s.crashed && PoolMoves(s.pool, a, p1)
    ensures Run(s, [a] + rest) == Run(s.(pool := p1), rest)
  {
    hide TP.ProducerStep, TP.WorkerStep;
    assert ([a] + rest)[1..] == rest;
  }

  /** The producer's half of the way. */
  lemma Appended(s: Server, e: Event, rest: seq<Action>)
    requires !s.crashed && s.pool.producer == TP.WantLock(e) && s.pool.owner.Free?
    ensures Run(s, [Produce, Produce, Produce, Produce] + rest) == Run(s.(pool :=
      s.pool.(queue := s.pool.queue + [e], appended := s.pool.appended + [e],
              sem := s.pool.sem + 1, producer := TP.Idle)), rest)
  {
    hide Run;
    var p := s.pool;
    var p1 := p.(owner := TP.ByProducer, producer := TP.HasLock(e));
    var p2 := p1.(queue := p1.queue + [e], appended := p1.appended + [e], producer := TP.Pushed);
    var p3 := p2.(owner := TP.Free, producer := TP.Released);
    var p4 := p3.(sem := p3.sem + 1, producer := TP.Idle);
    PoolMove(s, Produce, p1, [Produce, Produce, Produce] + rest);
    PoolMove(s.(pool := p1), Produce, p2, [Produce, Produce] + rest);
    PoolMove(s.(pool := p2), Produce, p3, [Produce] + rest);
    PoolMove(s.(pool := p3), Produce, p4, rest);
    FourTimes(Produce, rest);
  }

  lemma FourTimes(a: Action, rest: seq<Action>)
    ensures [a, a, a, a] + rest == [a] + ([a, a, a] + rest)
    ensures [a, a, a] + rest == [a] + ([a, a] + rest)
    ensures [a, a] + rest == [a] + ([a] + rest)
  {
  }

  lemma OnlyWorker(p: TP.Pool<Event>, pc: TP.WorkerPc<Event>)
    requires |p.workers| == 1
    ensures p.workers[0 := pc] == [pc]
  {
  }

  /** The worker's half. */
  lemma Taken(s: Server, e: Event, rest: seq<Action>)
    requires !s.crashed && s.pool.workers == [TP.Waiting] && s.pool.owner.Free? && s.pool.sem > 0
    requires s.pool.queue != [] && s.pool.queue[0] == e
    ensures Run(s, [Work(0), Work(0), Work(0), Work(0)] + rest) == Run(s.(pool :=
      s.pool.(queue := s.pool.queue[1..], dequeued := s.pool.dequeued + [e], sem := s.pool.sem - 1,
              workers := [TP.Handling(e)])), rest)
  {
    hide Run;
    var p := s.pool;
    OnlyWorker(p, TP.Woken);
    var p1 := p.(sem := p.sem - 1, workers := [TP.Woken]);
    var p2 := p1.(owner := TP.ByWorker(0), workers := [TP.Holding]);
    var p3 := p2.(queue := p2.queue[1..], dequeued := p2.dequeued + [e], workers := [TP.Popped(e)]);
    var p4 := p3.(owner := TP.Free, workers := [TP.Handling(e)]);
    OnlyWorker(p1, TP.Holding);
    OnlyWorker(p2, TP.Popped(e));
    OnlyWorker(p3, TP.Handling(e));
    PoolMove(s, Work(0), p1, [Work(0), Work(0), Work(0)] + rest);
    PoolMove(s.(pool := p1), Work(0), p2, [Work(0), Work(0)] + rest);
    PoolMove(s.(pool := p2), Work(0), p3, [Work(0)] + rest);
    PoolMove(s.(pool := p3), Work(0), p4, rest);
    FourTimes(Work(0), rest);
  }

  /** The pool behind that way. */
  function Through(p: TP.Pool<Event>, e: Event): TP.Pool<Event> {
    p.(appended := p.appended + [e], dequeued := p.dequeued + [e], workers := [TP.Handling(e)])
  }

  /** One report, from the batch into the worker's hands. */
  lemma ThroughPool(s: Server, r: Report, e: Event, rest: seq<Action>)
    requires !s.crashed && s.batch == [r] && EventFor(r) == Some(e) && QuietPool(s.pool)
    ensures Run(s, [Dispatch] + (POOL_STEPS + rest)) == Run(s.(batch := [], pool := Through(s.pool, e)), rest)
    ensures BusyPool(Through(s.pool, e), e)
  {
    var steps := POOL_STEPS + rest;
    assert ([Dispatch] + steps)[1..] == steps;
    var s1 := s.(batch := [], pool := s.pool.(producer := TP.WantLock(e)));
    assert Apply(s, Dispatch) == Some(s1) by { assert s.batch[1..] == []; }
    hide Apply;
    var worker := [Work(0), Work(0), Work(0), Work(0)];
    assert steps == [Produce, Produce, Produce, Produce] + (worker + rest);
    Appended(s1, e, worker + rest);
    var p2 := s1.pool.(queue := [e], appended := s.pool.appended + [e], sem := 1, producer := TP.Idle);
    assert s1.pool.queue + [e] == [e];
    Taken(s1.(pool := p2), e, rest);
    assert [e][1..] == [];
  }

  // ---------------------------------------------------------------- the sequential runs

  /** Nothing is reported, queued or being handled. */
  predicate Quiet(s: Server, conns: map<int, Conn>, files: Files) {
    !s.crashed && s.batch == [] && QuietPool(s.pool) && s.conns == conns && s.files == files
  }

  function AcceptActions(fd: int): seq<Action> {
    [PollListen] + ([Dispatch] + (POOL_STEPS + [Handle(0, AcceptTurn(fd))]))
  }

  /** Delivery and handling of one run. */
  function TurnActions(fd: int, turn: Turn): seq<Action> {
    [PollClient(fd, turn.RecvTurn?, turn.SendTurn?)] + ([Dispatch] + (POOL_STEPS + [Handle(0, turn)]))
  }

  function AllTurns(fd: int, turns: seq<Turn>): seq<Action> {
    if turns == [] then [] else TurnActions(fd, turns[0]) + AllTurns(fd, turns[1..])
  }

  /** The run of the sequential server that accepts one connection and gives it these turns. */
  function SequentialRun(fd: int, turns: seq<Turn>): seq<Action> {
    AcceptActions(fd) + AllTurns(fd, turns)
  }

  lemma {:induction false} RunAppend(s: Server, a: seq<Action>, b: seq<Action>)
    requires Run(s, a).Some?
    ensures Run(s, a + b) == Run(Run(s, a).value, b)
    decreases |a|
  {
    hide Apply;
    if a == [] {
      assert a + b == b;
    } else {
      assert (a + b)[1..] == a[1..] + b;
      RunAppend(Apply(s, a[0]).value, a[1..], b);
    }
  }

  lemma RunLast(s: Server, a: Action)
    ensures Run(s, [a]) == Apply(s, a)
  {
    assert [a][1..] == [];
  }

  lemma AcceptRuns(files: Files, fd: int)
    ensures var o := Run(Start(1, files), AcceptActions(fd));
      o.Some? && Quiet(o.value, map[fd := NEW_CONN], files)
  {
    var s0 := Start(1, files);
    var s1 := s0.(batch := [ListenReady]);
    var rest := [Handle(0, AcceptTurn(fd))];
    assert Apply(s0, PollListen) == Some(s1) by { assert [] + [ListenReady] == [ListenReady]; }
    assert AcceptActions(fd)[1..] == [Dispatch] + (POOL_STEPS + rest);
    assert s0.pool.workers == [TP.Waiting];
    ThroughPool(s1, ListenReady, AcceptEvent, rest);
    var s2 := s1.(batch := [], pool := Through(s1.pool, AcceptEvent));
    RunLast(s2, Handle(0, AcceptTurn(fd)));
  }

  /** The sequential server with the event of a turn in its worker's hands. */
  function OnDelivery(s: Server, fd: int, c: Conn, e: Event): Server {
    s.(batch := [], conns := map[fd := c.(interest := Disarmed)], pool := Through(s.pool, e))
  }

  lemma Delivered(s: Server, fd: int, c: Conn, files: Files, turn: Turn, e: Event)
    requires Quiet(s, map[fd := c], files) && Deliverable(c, turn)
    requires e == if turn.RecvTurn? then RecvEvent(fd) else SendEvent(fd)
    ensures Run(s, TurnActions(fd, turn)) == Run(OnDelivery(s, fd, c, e), [Handle(0, turn)])
    ensures BusyPool(Through(s.pool, e), e)
  {
    hide RunTurn;
    var r := ClientReady(fd, turn.RecvTurn?, turn.SendTurn?);
    var c0 := c.(interest := Disarmed);
    var s1 := s.(batch := [r], conns := map[fd := c0]);
    var poll := PollClient(fd, turn.RecvTurn?, turn.SendTurn?);
    assert Apply(s, poll) == Some(s1) by {
      assert [] + [r] == [r];
      assert s.conns[fd := c0] == map[fd := c0];
    }
    var rest := [Handle(0, turn)];
    assert TurnActions(fd, turn)[1..] == [Dispatch] + (POOL_STEPS + rest);
    ThroughPool(s1, r, e, rest);
  }

  /** One turn on the sequential server. */
  lemma TurnRuns(s: Server, fd: int, c: Conn, files: Files, turn: Turn)
    requires Quiet(s, map[fd := c], files) && ValidConn(c) && Deliverable(c, turn)
    requires RunTurn(c.(interest := Disarmed), files, turn).Passed?
    ensures var x := RunTurn(c.(interest := Disarmed), files, turn);
      var o := Run(s, TurnActions(fd, turn));
      o.Some? && Quiet(o.value, map[fd := x.c], x.files)
  {
    hide RunTurn, TurnActions;
    var e := if turn.RecvTurn? then RecvEvent(fd) else SendEvent(fd);
    Delivered(s, fd, c, files, turn, e);
    var s2 := OnDelivery(s, fd, c, e);
    RunLast(s2, Handle(0, turn));
    HandleRuns(s2, fd, c.(interest := Disarmed), turn, e);
  }

  lemma HandleRuns(s: Server, fd: int, c: Conn, turn: Turn, e: Event)
    requires !s.crashed && s.batch == [] && BusyPool(s.pool, e) && s.conns == map[fd := c] && ValidConn(c)
    requires (turn.RecvTurn? && e == RecvEvent(fd)) || (turn.SendTurn? && e == SendEvent(fd))
    requires RunTurn(c, s.files, turn).Passed?
    ensures var x := RunTurn(c, s.files, turn);
      Apply(s, Handle(0, turn)).Some? && Quiet(Apply(s, Handle(0, turn)).value, map[fd := x.c], x.files)
  {
    hide RunTurn;
    var x := RunTurn(c, s.files, turn);
    assert s.conns[fd := x.c] == map[fd := x.c];
    assert [TP.Handling(e)][0 := TP.Waiting] == [TP.Waiting];
  }

  lemma {:induction false} TurnsRun(s: Server, fd: int, c: Conn, files: Files, turns: seq<Turn>)
    requires Quiet(s, map[fd := c], files) && Alone(c, files, turns).Some?
    ensures var (c1, files1) := Alone(c, files, turns).value;
      var o := Run(s, AllTurns(fd, turns));
      o.Some? && Quiet(o.value, map[fd := c1], files1)
    decreases |turns|
  {
    hide RunTurn, Quiet, TurnActions;
    if turns != [] {
      TurnRuns(s, fd, c, files, turns[0]);
      var x := RunTurn(c.(interest := Disarmed), files, turns[0]);
      var s1 := Run(s, TurnActions(fd, turns[0])).value;
      TurnsRun(s1, fd, x.c, x.files, turns[1..]);
      RunAppend(s, TurnActions(fd, turns[0]), AllTurns(fd, turns[1..]));
    }
  }

  /** Connection isolation against a run of the server itself. Take any run of the
      server with any number of workers and connections, and a connection that has
      just been accepted in it. If the file names it uses are used by no other
      connection from then on, then the run of a server with one worker and this
      connection only, with the same handler turns one after the other, ends with
      the same parse state, response state and wire bytes, and with the same files
      under those names. */
  lemma ConnectionIsolation(threads: nat, files: Files, before: seq<Action>, after: seq<Action>,
                            fd: int, own: set<string>)
    requires Run(Start(threads, files), before).Some? && !Run(Start(threads, files), before).value.crashed
    requires var s := Run(Start(threads, files), before).value;
      && fd in s.conns && s.conns[fd] == NEW_CONN
      && Run(s, after).Some? && !Run(s, after).value.crashed && AllRespect(s, after, fd, own)
    ensures var s := Run(Start(threads, files), before).value;
      var s1 := Run(s, after).value;
      var alone := Run(Start(1, s.files), SequentialRun(fd, TurnsOf(s, after, fd)));
      && alone.Some? && !alone.value.crashed && alone.value.conns.Keys == {fd}
      && fd in s1.conns
      && s1.conns[fd].(interest := Disarmed) == alone.value.conns[fd].(interest := Disarmed)
      && Agree(s1.files, alone.value.files, own)
  {
    hide Run, AllRespect, TurnsOf, Inv, Agree, Outstanding, AcceptActions, AllTurns, Alone;
    StartInv(threads, files, false);
    RunInv(Start(threads, files), before, false);
    var s := Run(Start(threads, files), before).value;
    var turns := TurnsOf(s, after, fd);
    ArmedIsLinked(s, fd);
    AgreesWithItself(s.files, own);
    IsolationFrom(s, after, fd, own, NEW_CONN, s.files);
    AcceptRuns(s.files, fd);
    var s0 := Run(Start(1, s.files), AcceptActions(fd)).value;
    TurnsRun(s0, fd, NEW_CONN, s.files, turns);
    RunAppend(Start(1, s.files), AcceptActions(fd), AllTurns(fd, turns));
  }

  /** The input that takes the server down: one connection sends a request line
      without a resource, and the send handler of its answer crashes. */
  lemma EmptyResourceRun(files: Files, fd: int, page: string, results: seq<SendResult>)
    ensures var bare, answer := RecvTurn([Data("GET" + CRLF + CRLF)], true), SendTurn(page, results);
      var o := Run(Start(1, files), SequentialRun(fd, [bare]) + TurnActions(fd, answer));
      o.Some? && o.value.crashed
  {
    hide Run, RunTurn, Quiet, AcceptActions, TurnActions;
    var bare, answer := RecvTurn([Data("GET" + CRLF + CRLF)], true), SendTurn(page, results);
    EmptyResourceCrashes(NEW_CONN.(interest := Disarmed), files, page, results);
    var p := BareAnswer(files);
    AcceptRuns(files, fd);
    var s0 := Run(Start(1, files), AcceptActions(fd)).value;
    BareAlone(files);
    TurnsRun(s0, fd, NEW_CONN, files, [bare]);
    RunAppend(Start(1, files), AcceptActions(fd), AllTurns(fd, [bare]));
    var s1 := Run(Start(1, files), SequentialRun(fd, [bare])).value;
    RunAppend(Start(1, files), SequentialRun(fd, [bare]), TurnActions(fd, answer));
    BareSendCrashes(files, page, results);
    CrashRuns(s1, fd, p.c, p.files, answer);
  }

  /** The connection behind the bare request. */
  function BareAnswer(files: Files): Pass {
    RecvPass(NEW_CONN.(interest := Disarmed), files, [Data("GET" + CRLF + CRLF)], true)
  }

  lemma BareAlone(files: Files)
    ensures var p := BareAnswer(files);
      && p.Passed? && p.c.interest == ReadWrite && ValidConn(p.c)
      && Alone(NEW_CONN, files, [RecvTurn([Data("GET" + CRLF + CRLF)], true)]) == Some((p.c, p.files))
  {
    hide RecvPass, SendPass;
    EmptyResourceCrashes(NEW_CONN.(interest := Disarmed), files, "", []);
    var turn := RecvTurn([Data("GET" + CRLF + CRLF)], true);
    assert [turn][1..] == [];
  }

  lemma BareSendCrashes(files: Files, page: string, results: seq<SendResult>)
    requires BareAnswer(files).Passed? && ValidConn(BareAnswer(files).c)
    ensures var p := BareAnswer(files);
      RunTurn(p.c.(interest := Disarmed), p.files, SendTurn(page, results)).Crashed?
  {
    hide RecvPass, SendPass;
    EmptyResourceCrashes(NEW_CONN.(interest := Disarmed), files, page, results);
    var p := BareAnswer(files);
    SendCrashIff(p.c, p.files, page, results);
    SendCrashIff(p.c.(interest := Disarmed), p.files, page, results);
  }

  lemma CrashRuns(s: Server, fd: int, c: Conn, files: Files, turn: Turn)
    requires Quiet(s, map[fd := c], files) && ValidConn(c) && Deliverable(c, turn)
    requires RunTurn(c.(interest := Disarmed), files, turn).Crashed?
    ensures var o := Run(s, TurnActions(fd, turn)); o.Some? && o.value.crashed
  {
    hide RunTurn;
    var e := if turn.RecvTurn? then RecvEvent(fd) else SendEvent(fd);
    Delivered(s, fd, c, files, turn, e);
    var s2 := OnDelivery(s, fd, c, e);
    RunLast(s2, Handle(0, turn));
  }
}
