/** Open connections that nothing will wake again. One-shot delivery gives each
    connection at most one token; here it is said exactly when it has none.
 */
module LostConnections {
  import opened Bytes
  import opened Message
  import opened RequestMachine
  import opened Connection
  import opened Chunking
  import opened WholeRequests
  import opened RoundTrip
  import opened Server
  import opened Isolation
  import opened Sequential
  import Scanner
  import TP = ThreadPool

  // ---------------------------------------------------------------- one handler run

  /** The upload file does not open, and the bytes on offer reach the content phase. */
  predicate Unopenable(m: Machine, input: seq<RecvResult>, canOpen: bool) {
    && !canOpen && BeginsWithData(input)
    && var o := Settle(Receive(m, DataOf(input)), canOpen);
       o.Settled? && SavingFile(o.m.req)
  }

  lemma LoopUnopenedIff(m: Machine, input: seq<RecvResult>, canOpen: bool)
    ensures var r := RecvLoop(m, input, canOpen);
      (r.Received? && r.ending == Unopened) <==> Unopenable(m, input, canOpen)
  {
    hide Settle, Step, RecvLoop, ReadBy, Receive;
    if BeginsWithData(input) {
      var bytes := ReadBy(m, input, canOpen);
      LoopReads(m, input, canOpen);
      LoopCrashIff(m, input, canOpen);
      var unread := DataOf(input)[|bytes|..];
      assert bytes + unread == DataOf(input);
      ReceiveTwice(m, bytes, unread);
      SettleAppend(Receive(m, bytes), unread, canOpen);
      var o := Settle(Receive(m, bytes), canOpen);
      if o.Settled? && Resting(o.m, canOpen) {
        RestingStays(o.m, unread, canOpen);
        SavingOrNot(o.m, unread);
      }
    } else {
      NoDataNotUnopened(m, input, canOpen);
    }
  }

  lemma SavingOrNot(m: Machine, b: string)
    ensures SavingFile(Receive(m, b).req) <==> SavingFile(m.req)
  {
  }

  lemma NoDataNotUnopened(m: Machine, input: seq<RecvResult>, canOpen: bool)
    requires !BeginsWithData(input)
    ensures RecvLoop(m, input, canOpen).Received? && RecvLoop(m, input, canOpen).ending != Unopened
  {
  }

  predicate UnopenedTurn(c: Conn, files: Files, turn: Turn) {
    turn.RecvTurn? && Unopenable(MachineOf(c, files), turn.input, turn.canOpen)
  }

  /** A handler run leaves its connection disarmed if and only if it is a receive
      run that reaches the content phase of an upload whose file does not open;
      every other run arms it again or closes it. */
  lemma TurnDisarmsIff(c: Conn, files: Files, turn: Turn)
    requires GoodConn(c) && c.interest == Disarmed && (turn.RecvTurn? || turn.SendTurn?)
    requires turn.SendTurn? ==> c.resp.Some?
    requires RunTurn(c, files, turn).Passed?
    ensures RunTurn(c, files, turn).c.interest == Disarmed <==> UnopenedTurn(c, files, turn)
  {
    if turn.RecvTurn? {
      RecvDisarmsIff(c, files, turn.input, turn.canOpen);
    } else {
      hide SendPass;
      SendPassValid(c, files, turn.page, turn.results);
    }
  }

  lemma RecvDisarmsIff(c: Conn, files: Files, input: seq<RecvResult>, canOpen: bool)
    requires c.interest == Disarmed && RecvPass(c, files, input, canOpen).Passed?
    ensures RecvPass(c, files, input, canOpen).c.interest == Disarmed <==>
      Unopenable(MachineOf(c, files), input, canOpen)
  {
    hide Settle, Step, RecvLoop, ReadBy, Unopenable;
    var m := MachineOf(c, files);
    LoopUnopenedIff(m, input, canOpen);
    UnopenedIsSaving(m, input, canOpen);
  }

  lemma {:induction false} UnopenedIsSaving(m: Machine, input: seq<RecvResult>, canOpen: bool)
    requires RecvLoop(m, input, canOpen).Received?
    ensures var r := RecvLoop(m, input, canOpen);
      && (r.ending == Unopened ==> r.m.req.status == HandleBody)
      && (r.ending == Lost ==> r.m.req.status == HandleError)
    decreases |input|
  {
    hide Settle, Receive;
    if BeginsWithData(input) {
      var m1 := Settle(Receive(m, input[0].bytes), canOpen).m;
      if !Resting(m1, canOpen) {
        UnopenedIsSaving(m1, input[1..], canOpen);
      }
    }
  }

  // ---------------------------------------------------------------- the server

  /** Open, not armed, and nothing on its way. */
  predicate Stranded(s: Server, fd: int) {
    fd in s.conns && s.conns[fd].interest == Disarmed && Tokens(Outstanding(s), s.conns, fd) == 0
  }

  /** This step loses connection `fd`: a report with neither flag, or a receive run
      that cannot open the upload file. */
  predicate Loses(s: Server, a: Action, fd: int) {
    a == PollClient(fd, false, false)
    || (IsTurnOf(s, a, fd) && fd in s.conns && UnopenedTurn(s.conns[fd], s.files, a.turn))
  }

  function EventsFor(s: Server, fd: int): nat {
    Outstanding(s)[RecvEvent(fd)] + Outstanding(s)[SendEvent(fd)]
  }

  lemma StrandedMeans(s: Server, fd: int)
    requires TokenInv(Outstanding(s), s.conns)
    ensures Stranded(s, fd) <==> fd in s.conns && s.conns[fd].interest == Disarmed && EventsFor(s, fd) == 0
    ensures Stranded(s, fd) <==> Tokens(Outstanding(s), s.conns, fd) != OpenBit(s.conns, fd)
  {
    hide Outstanding;
    assert Tokens(Outstanding(s), s.conns, fd) <= OpenBit(s.conns, fd);
  }

  /** How the events of one connection change in a step. */
  lemma EventsStep(s: Server, a: Action, fd: int)
    requires Apply(s, a).Some? && !Apply(s, a).value.crashed
    ensures EventsFor(Apply(s, a).value, fd) + (if IsTurnOf(s, a, fd) then 1 else 0)
      == EventsFor(s, fd) + (if a.PollClient? && a.fd == fd && (a.readable || a.writable) then 1 else 0)
  {
    hide Outstanding, RunTurn, TP.ProducerStep, TP.WorkerStep;
    StepEvents(s, a);
    var s1 := Apply(s, a).value;
    var before, after := Outstanding(s) + Brought(a), Outstanding(s1) + HandledBy(s, a);
    assert before[RecvEvent(fd)] == after[RecvEvent(fd)] && before[SendEvent(fd)] == after[SendEvent(fd)];
    BroughtFor(a, fd);
    HandledFor(s, a, fd);
  }

  lemma BroughtFor(a: Action, fd: int)
    ensures Brought(a)[RecvEvent(fd)] + Brought(a)[SendEvent(fd)]
      == if a.PollClient? && a.fd == fd && (a.readable || a.writable) then 1 else 0
  {
  }

  lemma HandledFor(s: Server, a: Action, fd: int)
    ensures HandledBy(s, a)[RecvEvent(fd)] + HandledBy(s, a)[SendEvent(fd)] == if IsTurnOf(s, a, fd) then 1 else 0
  {
  }

  /** What a step does to the entry of one connection. */
  lemma ConnStep(s: Server, a: Action, fd: int)
    requires Apply(s, a).Some? && !Apply(s, a).value.crashed
    ensures var s1 := Apply(s, a).value;
      if a.PollClient? && a.fd == fd then
        fd in s.conns && Armed(s.conns[fd]) && fd in s1.conns && s1.conns[fd].interest == Disarmed
      else if IsTurnOf(s, a, fd) then
        && fd in s.conns && ValidConn(s.conns[fd]) && (a.turn.RecvTurn? || a.turn.SendTurn?)
        && (a.turn.SendTurn? <==> s.pool.workers[a.w].event.SendEvent?)
        && RunTurn(s.conns[fd], s.files, a.turn).Passed?
        && fd in s1.conns && s1.conns[fd] == RunTurn(s.conns[fd], s.files, a.turn).c
      else
        (fd in s.conns && fd in s1.conns && s1.conns[fd] == s.conns[fd])
        || (fd !in s.conns && (fd in s1.conns ==> s1.conns[fd] == NEW_CONN))
  {
    hide RunTurn, TP.ProducerStep, TP.WorkerStep, ValidConn;
  }

  /** A step loses a connection, or keeps it lost, exactly as said; no step finds it again. */
  lemma StrandedStep(s: Server, a: Action, fd: int)
    requires Inv(s, false) && Apply(s, a).Some? && !Apply(s, a).value.crashed
    ensures Stranded(Apply(s, a).value, fd) <==> Stranded(s, fd) || Loses(s, a, fd)
  {
    hide Apply, Outstanding, TP.Inv, RunTurn, UnopenedTurn, ReplyInv, WordedInv;
    var s1 := Apply(s, a).value;
    ApplyInv(s, a, false);
    StrandedMeans(s, fd);
    StrandedMeans(s1, fd);
    EventsStep(s, a, fd);
    ConnStep(s, a, fd);
    if a.PollClient? && a.fd == fd {
      assert Tokens(Outstanding(s), s.conns, fd) <= OpenBit(s.conns, fd);
    } else if IsTurnOf(s, a, fd) {
      HandledHoldsToken(s, a.w, false);
      TurnDisarmsIff(s.conns[fd], s.files, a.turn);
    } else if fd !in s.conns {
      assert Tokens(Outstanding(s), s.conns, fd) <= OpenBit(s.conns, fd);
    }
  }

  /** Some step of the run loses connection `fd`. */
  predicate SomeLoss(s: Server, actions: seq<Action>, fd: int)
    decreases |actions|
  {
    actions != []
    && (Loses(s, actions[0], fd)
        || (Apply(s, actions[0]).Some? && SomeLoss(Apply(s, actions[0]).value, actions[1..], fd)))
  }

  lemma {:induction false} StrandedAlong(s: Server, actions: seq<Action>, fd: int)
    requires Inv(s, false) && Run(s, actions).Some? && !Run(s, actions).value.crashed
    ensures Stranded(Run(s, actions).value, fd) <==> Stranded(s, fd) || SomeLoss(s, actions, fd)
    decreases |actions|
  {
    hide Inv, Apply, Stranded, Loses;
    if actions != [] {
      var s1 := Apply(s, actions[0]).value;
      if s1.crashed {
        CrashIsFinal(s1, actions[1..]);
      }
      ApplyInv(s, actions[0], false);
      StrandedStep(s, actions[0], fd);
      StrandedAlong(s1, actions[1..], fd);
    }
  }

  /** No connection is lost, but for two causes: in every reachable state, an open
      connection has exactly one token (armed in epoll, or one event on its way), and
      a closed one none, if and only if no step of the run was a report for it with
      neither flag or a receive run for it that could not open its upload file. */
  lemma TokenKeptIff(threads: nat, files: Files, actions: seq<Action>, fd: int)
    requires Run(Start(threads, files), actions).Some? && !Run(Start(threads, files), actions).value.crashed
    ensures var s := Run(Start(threads, files), actions).value;
      Tokens(Outstanding(s), s.conns, fd) == OpenBit(s.conns, fd) <==> !SomeLoss(Start(threads, files), actions, fd)
  {
    hide Run, Apply, SomeLoss, TP.Inv;
    StartInv(threads, files, false);
    RunInv(Start(threads, files), actions, false);
    StrandedAlong(Start(threads, files), actions, fd);
    StrandedMeans(Run(Start(threads, files), actions).value, fd);
    assert fd !in Start(threads, files).conns;
  }

  /** A lost connection stays lost: no run wakes it. */
  lemma StrandedForever(s: Server, actions: seq<Action>, fd: int)
    requires Inv(s, false) && Stranded(s, fd) && Run(s, actions).Some? && !Run(s, actions).value.crashed
    ensures Stranded(Run(s, actions).value, fd)
  {
    StrandedAlong(s, actions, fd);
  }

  // ---------------------------------------------------------------- the inputs

  /** An upload in its content phase whose file does not open: any byte loses it. */
  lemma ByteLoses(c: Conn, files: Files, b: string)
    requires SavingFile(RequestOf(c)) && c.interest == Disarmed
    ensures RecvPass(c, files, [Data(b)], false) ==
      Passed(c.(req := Some(RequestOf(c).(recvMsg := RequestOf(c).recvMsg + b))), files)
  {
    hide RecvLoop;
    UnopenedReadsOneCall(MachineOf(c, files), b, []);
    assert [Data(b)] + [] == [Data(b)];
  }

  /** A printed upload whose file does not open reaches the content phase. */
  lemma UploadReachesContent(a: Ask, target: string, files: Files)
    requires a.Upload? && Proper(a)
    ensures var o := Settle(Receive(Machine(FRESH_REQUEST, target, files), Printed(a)), false);
      o.Settled? && SavingFile(o.m.req)
  {
    hide Settle;
    var body := UploadBody(a.boundary, a.part, a.content);
    var rest := a.content + Scanner.Terminator(a.boundary);
    FreshReceives(Printed(a), target, files);
    HeadBack("POST", a.u, a.v, a.fields, body, target, files, false);
    var m0 := Machine(HeadRequest("POST", a.u, a.v, a.fields, body), target, files);
    OpeningBack(m0, a.boundary, PrintPart(a.part) + rest, false);
    var m1 := m0.(req := m0.req.(fileStatus := FileHead, recvMsg := PrintPart(a.part) + rest));
    PartHeadBack(m1, a.part, rest, false);
    var m2 := m1.(req := m1.req.(fileStatus := FileContent, fileName := WithoutSpaces(a.part.name), recvMsg := rest));
    SettleMove(m2, false);
  }

  /** The run that shows it: a client connects and sends any printed upload whose
      file does not open; its connection is open and lost. */
  lemma UnopenedUploadRun(a: Ask, files: Files, fd: int)
    requires a.Upload? && Proper(a)
    ensures var o := Run(Start(1, files), SequentialRun(fd, [RecvTurn([Data(Printed(a))], false)]));
      o.Some? && !o.value.crashed && Stranded(o.value, fd)
  {
    hide Run, RunTurn, AcceptActions, TurnActions, UnopenedTurn, Quiet;
    var turn := RecvTurn([Data(Printed(a))], false);
    UploadTurn(a, files);
    var x := RunTurn(NEW_CONN.(interest := Disarmed), files, turn);
    AcceptRuns(files, fd);
    var s0 := Run(Start(1, files), AcceptActions(fd)).value;
    OneTurnAlone(NEW_CONN, files, turn);
    TurnsRun(s0, fd, NEW_CONN, files, [turn]);
    RunAppend(Start(1, files), AcceptActions(fd), AllTurns(fd, [turn]));
    TurnDisarmsIff(NEW_CONN.(interest := Disarmed), files, turn);
    QuietIsStranded(Run(s0, AllTurns(fd, [turn])).value, fd, x.c, x.files);
  }

  lemma UploadTurn(a: Ask, files: Files)
    requires a.Upload? && Proper(a)
    ensures var turn, c := RecvTurn([Data(Printed(a))], false), NEW_CONN.(interest := Disarmed);
      GoodConn(c) && RunTurn(c, files, turn).Passed? && UnopenedTurn(c, files, turn)
  {
    hide Settle, Step, RecvLoop, Printed, Proper;
    var c := NEW_CONN.(interest := Disarmed);
    UploadReachesContent(a, "", files);
    HealthyOne(Printed(a));
    FreshIsStuck("", files, false);
    LoopCrashIff(MachineOf(c, files), [Data(Printed(a))], false);
  }

  lemma OneTurnAlone(c: Conn, files: Files, turn: Turn)
    requires ValidConn(c) && Deliverable(c, turn) && RunTurn(c.(interest := Disarmed), files, turn).Passed?
    ensures var x := RunTurn(c.(interest := Disarmed), files, turn);
      Alone(c, files, [turn]) == Some((x.c, x.files))
  {
    hide RunTurn;
    assert [turn][1..] == [];
  }

  lemma QuietIsStranded(s: Server, fd: int, c: Conn, files: Files)
    requires Quiet(s, map[fd := c], files) && c.interest == Disarmed
    ensures Stranded(s, fd) && !s.crashed
  {
    TP.RestingWorkers(s.pool.workers);
    assert Outstanding(s) == multiset{};
  }
}
