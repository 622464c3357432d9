/** Connection isolation: when connections use disjoint file names, what one of
    them sees and does under any interleaving is what it sees and does alone on
    a sequential server.
 */
module Isolation {
  import opened Bytes
  import opened Message
  import opened RequestMachine
  import opened ResponseMachine
  import opened Connection
  import opened Server
  import TP = ThreadPool
  import Scanner

  /** Two stores that hold the same files under the names in `own`. */
  predicate Agree(a: Files, b: Files, own: set<string>) {
    forall n | n in own :: (n in a <==> n in b) && (n in a ==> a[n] == b[n])
  }

  lemma AgreesWithItself(files: Files, own: set<string>)
    ensures Agree(files, files, own)
  {
  }

  // ---------------------------------------------------------------- receiving

  /** The request has a file open, under this name. */
  predicate UsesFile(v: RequestValue) {
    v.fileStatus == FileContent || v.fileStatus == FileComplete
  }

  function On(m: Machine, files: Files): Machine {
    m.(files := files)
  }

  /** A machine and its counterpart on another store. */
  predicate Twin(a: Machine, b: Machine, own: set<string>) {
    a.req == b.req && a.target == b.target && Agree(a.files, b.files, own)
  }

  function Moved(r: Move, files: Files): Move {
    match r case Stuck => Stuck case Fault => Fault case Next(m1) => Next(On(m1, files))
  }

  /** What holds of a move that does not look at the store. */
  predicate Blind(m: Machine, files: Files, r: Move, r1: Move) {
    r1 == Moved(r, files) && (r.Next? ==> r.m.files == m.files)
  }

  lemma InitBlind(m: Machine, files: Files)
    requires m.req.status == HandleInit
    ensures Blind(m, files, StepInit(m), StepInit(On(m, files)))
  {
    hide CutLine, WithRequestLine, Advances;
  }

  lemma HeadBlind(m: Machine, files: Files)
    requires m.req.status == HandleHead
    ensures Blind(m, files, StepHead(m), StepHead(On(m, files)))
  {
    hide CutLine, AddHeader, IsMultipart, Advances;
  }

  lemma BeginFlagBlind(m: Machine, files: Files)
    requires m.req.status == HandleBody && m.req.requestMethod == "POST" && m.req.fileStatus == FileBeginFlag
    ensures Blind(m, files, StepBeginFlag(m), StepBeginFlag(On(m, files)))
  {
    hide CutLine, Advances;
  }

  lemma FileHeadBlind(m: Machine, files: Files)
    requires m.req.status == HandleBody && m.req.requestMethod == "POST" && m.req.fileStatus == FileHead
    ensures Blind(m, files, StepFileHead(m), StepFileHead(On(m, files)))
  {
    hide CutLine, LineFileName, Advances;
  }

  lemma BodyBlind(m: Machine, files: Files, canOpen: bool)
    requires m.req.status == HandleBody && m.req.fileStatus != FileContent
    ensures Blind(m, files, StepBody(m, canOpen), StepBody(On(m, files), canOpen))
  {
    hide StepBeginFlag, StepFileHead, StepFileContent, IsMultipart, Advances;
    if m.req.requestMethod == "POST" {
      match m.req.fileStatus {
        case FileBeginFlag => BeginFlagBlind(m, files);
        case FileHead => FileHeadBlind(m, files);
        case _ =>
      }
    }
  }

  /** A move outside the content phase does not look at the store. */
  lemma StepElsewhere(m: Machine, files: Files, canOpen: bool)
    requires !(m.req.status == HandleBody && m.req.fileStatus == FileContent)
    ensures Blind(m, files, Step(m, canOpen), Step(On(m, files), canOpen))
  {
    hide StepInit, StepHead, StepBody, Advances;
    match m.req.status {
      case HandleInit => InitBlind(m, files);
      case HandleHead => HeadBlind(m, files);
      case HandleBody => BodyBlind(m, files, canOpen);
      case _ =>
    }
  }

  /** In the content phase a move looks at and changes one file only. */
  lemma StepContent(m: Machine, files: Files, own: set<string>, canOpen: bool)
    requires m.req.status == HandleBody && m.req.fileStatus == FileContent
    requires Agree(m.files, files, own) && m.req.fileName in own
    ensures match Step(m, canOpen)
      case Stuck => Step(On(m, files), canOpen) == Stuck
      case Fault => Step(On(m, files), canOpen) == Fault
      case Next(m1) => Step(On(m, files), canOpen).Next? && Twin(m1, Step(On(m, files), canOpen).m, own)
  {
    hide IsMultipart, Scanner.ScanStep, Scanner.Terminator, Advances;
    assert m.req.fileName in m.files <==> m.req.fileName in files;
  }

  lemma ContentKeepsOthers(m: Machine, own: set<string>, canOpen: bool)
    requires m.req.status == HandleBody && m.req.fileStatus == FileContent
    requires Step(m, canOpen).Next? && m.req.fileName !in own
    ensures Agree(m.files, Step(m, canOpen).m.files, own)
  {
    hide IsMultipart, Scanner.ScanStep, Scanner.Terminator, Advances;
  }

  lemma StepKeepsOthers(m: Machine, own: set<string>, canOpen: bool)
    requires Step(m, canOpen).Next? && NameOut(m.req, own)
    ensures Agree(m.files, Step(m, canOpen).m.files, own)
  {
    hide Step;
    if m.req.status == HandleBody && m.req.fileStatus == FileContent {
      ContentKeepsOthers(m, own, canOpen);
    } else {
      StepElsewhere(m, m.files, canOpen);
    }
  }

  /** The name of the file in use is settled once it is open. */
  lemma StepKeepsName(m: Machine, canOpen: bool)
    requires ValidRequest(m.req) && UsesFile(m.req) && Step(m, canOpen).Next?
    ensures UsesFile(Step(m, canOpen).m.req) && Step(m, canOpen).m.req.fileName == m.req.fileName
  {
    hide Advances, CutLine, LineFileName, AddHeader, IsMultipart, Scanner.ScanStep, Scanner.Terminator;
  }

  lemma {:induction false} SettleKeepsName(m: Machine, canOpen: bool)
    requires ValidRequest(m.req) && UsesFile(m.req) && Settle(m, canOpen).Settled?
    ensures UsesFile(Settle(m, canOpen).m.req) && Settle(m, canOpen).m.req.fileName == m.req.fileName
    decreases 16 - Rank(m), |m.req.recvMsg|
  {
    if Step(m, canOpen).Next? {
      StepKeepsName(m, canOpen);
      StepKeepsValid(m, canOpen);
      SettleKeepsName(Step(m, canOpen).m, canOpen);
    }
  }

  predicate NameIn(v: RequestValue, own: set<string>) {
    UsesFile(v) ==> v.fileName in own
  }

  predicate NameOut(v: RequestValue, own: set<string>) {
    UsesFile(v) ==> v.fileName !in own
  }

  /** Settling on a store that agrees on the names used ends in a twin. */
  lemma {:induction false} SettleTwin(m: Machine, files: Files, own: set<string>, canOpen: bool)
    requires ValidRequest(m.req) && Agree(m.files, files, own)
    requires Settle(m, canOpen).Settled? && NameIn(Settle(m, canOpen).m.req, own)
    ensures Settle(On(m, files), canOpen).Settled?
    ensures Twin(Settle(m, canOpen).m, Settle(On(m, files), canOpen).m, own)
    decreases 16 - Rank(m), |m.req.recvMsg|
  {
    if UsesFile(m.req) {
      SettleKeepsName(m, canOpen);
    }
    if m.req.status == HandleBody && m.req.fileStatus == FileContent {
      StepContent(m, files, own, canOpen);
    } else {
      StepElsewhere(m, files, canOpen);
    }
    if Step(m, canOpen).Next? {
      StepKeepsValid(m, canOpen);
      var m1 := Step(m, canOpen).m;
      var b1 := Step(On(m, files), canOpen).m;
      assert b1 == On(m1, b1.files);
      SettleTwin(m1, b1.files, own, canOpen);
    }
  }

  /** Settling leaves the files of other names alone. */
  lemma {:induction false} SettleOutside(m: Machine, own: set<string>, canOpen: bool)
    requires ValidRequest(m.req)
    requires Settle(m, canOpen).Settled? && NameOut(Settle(m, canOpen).m.req, own)
    ensures Agree(m.files, Settle(m, canOpen).m.files, own)
    decreases 16 - Rank(m), |m.req.recvMsg|
  {
    if Step(m, canOpen).Next? {
      if UsesFile(m.req) {
        SettleKeepsName(m, canOpen);
      }
      StepKeepsOthers(m, own, canOpen);
      StepKeepsValid(m, canOpen);
      SettleOutside(Step(m, canOpen).m, own, canOpen);
    }
  }

  /** The names a receive pass has open when it ends. */
  function RecvNames(c: Conn, files: Files, input: seq<RecvResult>, canOpen: bool): set<string> {
    match RecvLoop(MachineOf(c, files), input, canOpen)
    case RecvCrashed => {}
    case Received(m, _) => if UsesFile(m.req) then {m.req.fileName} else {}
  }

  lemma {:induction false} RecvLoopKeepsName(m: Machine, input: seq<RecvResult>, canOpen: bool)
    requires ValidRequest(m.req) && UsesFile(m.req) && RecvLoop(m, input, canOpen).Received?
    ensures var v := RecvLoop(m, input, canOpen).m.req; UsesFile(v) && v.fileName == m.req.fileName
    decreases |input|
  {
    hide Settle;
    if input != [] && input[0].Data? {
      var m1 := Settle(Receive(m, input[0].bytes), canOpen).m;
      SettleKeepsName(Receive(m, input[0].bytes), canOpen);
      SettleKeepsValid(Receive(m, input[0].bytes), canOpen);
      if RecvLoop(m, input, canOpen) == RecvLoop(m1, input[1..], canOpen) {
        RecvLoopKeepsName(m1, input[1..], canOpen);
      }
    }
  }

  lemma {:induction false} RecvLoopTwin(m: Machine, files: Files, own: set<string>,
                                        input: seq<RecvResult>, canOpen: bool)
    requires ValidRequest(m.req) && Agree(m.files, files, own)
    requires RecvLoop(m, input, canOpen).Received? && NameIn(RecvLoop(m, input, canOpen).m.req, own)
    ensures var a, b := RecvLoop(m, input, canOpen), RecvLoop(On(m, files), input, canOpen);
      b.Received? && b.ending == a.ending && Twin(a.m, b.m, own)
    decreases |input|
  {
    hide Settle;
    if input != [] && input[0].Data? {
      var x := Receive(m, input[0].bytes);
      var m1 := Settle(x, canOpen).m;
      SettleKeepsValid(x, canOpen);
      if UsesFile(m1.req) && RecvLoop(m, input, canOpen) == RecvLoop(m1, input[1..], canOpen) {
        RecvLoopKeepsName(m1, input[1..], canOpen);
      }
      assert NameIn(m1.req, own);
      assert Receive(On(m, files), input[0].bytes) == On(x, files);
      SettleTwin(x, files, own, canOpen);
      var b1 := Settle(On(x, files), canOpen).m;
      assert b1 == On(m1, b1.files);
      if RecvLoop(m, input, canOpen) == RecvLoop(m1, input[1..], canOpen) {
        RecvLoopTwin(m1, b1.files, own, input[1..], canOpen);
      }
    }
  }

  lemma {:induction false} RecvLoopOutside(m: Machine, own: set<string>, input: seq<RecvResult>, canOpen: bool)
    requires ValidRequest(m.req)
    requires RecvLoop(m, input, canOpen).Received? && NameOut(RecvLoop(m, input, canOpen).m.req, own)
    ensures Agree(m.files, RecvLoop(m, input, canOpen).m.files, own)
    decreases |input|
  {
    hide Settle;
    if input != [] && input[0].Data? {
      var x := Receive(m, input[0].bytes);
      var m1 := Settle(x, canOpen).m;
      SettleKeepsValid(x, canOpen);
      if UsesFile(m1.req) && RecvLoop(m, input, canOpen) == RecvLoop(m1, input[1..], canOpen) {
        RecvLoopKeepsName(m1, input[1..], canOpen);
      }
      assert NameOut(m1.req, own);
      SettleOutside(x, own, canOpen);
      if RecvLoop(m, input, canOpen) == RecvLoop(m1, input[1..], canOpen) {
        RecvLoopOutside(m1, own, input[1..], canOpen);
      }
    }
  }

  // ---------------------------------------------------------------- sending

  /** The names that routing a target looks at or changes. */
  function RouteNames(target: string): set<string> {
    match SplitTarget(target)
    case OpNamed(op, name) => if op == "downl" || op == "del" || op == "put" then {name} else {}
    case _ => {}
  }

  function SendNames(c: Conn): set<string> {
    if c.resp.Some? && c.resp.value.status == HandleInit then RouteNames(c.resp.value.target) else {}
  }

  lemma RouteTwin(r: ResponseValue, a: Files, b: Files, own: set<string>, page: string, pending: string)
    requires Agree(a, b, own) && RouteNames(r.target) <= own
    ensures match (Route(r, a, page, pending), Route(r, b, page, pending))
      case (RouteFault, RouteFault) => true
      case (Reroute(t, a1), Reroute(t1, b1)) => t == t1 && Agree(a1, b1, own)
      case (Ready(r1, a1), Ready(r2, b1)) => r1 == r2 && Agree(a1, b1, own)
      case _ => false
  {
    hide ListHead, DownloadHead, ReadyWith;
    var op := SplitTarget(r.target);
    if op.OpNamed? && (op.op == "downl" || op.op == "del" || op.op == "put") {
      assert op.name in own;
    }
  }

  lemma RouteOutside(r: ResponseValue, a: Files, own: set<string>, page: string, pending: string)
    requires RouteNames(r.target) !! own
    ensures Route(r, a, page, pending).Reroute? ==> Agree(a, Route(r, a, page, pending).files, own)
    ensures Route(r, a, page, pending).Ready? ==> Agree(a, Route(r, a, page, pending).files, own)
  {
    hide ListHead, DownloadHead, ReadyWith;
    var op := SplitTarget(r.target);
    if op.OpNamed? && (op.op == "downl" || op.op == "del" || op.op == "put") {
      assert op.name in RouteNames(r.target);
    }
  }

  // ---------------------------------------------------------------- one handler run

  function TurnNames(c: Conn, files: Files, turn: Turn): set<string> {
    if turn.RecvTurn? then RecvNames(c, files, turn.input, turn.canOpen)
    else if turn.SendTurn? then SendNames(c)
    else {}
  }

  predicate SamePass(a: Pass, b: Pass, own: set<string>) {
    a.Passed? && b.Passed? && a.c == b.c && Agree(a.files, b.files, own)
  }

  lemma TransmitTwin(c: Conn, r: ResponseValue, a: Files, b: Files, results: seq<SendResult>, own: set<string>)
    requires Sendable(r) && Agree(a, b, own)
    ensures SamePass(Transmit(c, r, a, results), Transmit(c, r, b, results), own)
  {
    hide SendLoop;
  }

  lemma SendTwin(c: Conn, a: Files, b: Files, own: set<string>, page: string, results: seq<SendResult>)
    requires ValidConn(c) && Agree(a, b, own) && SendNames(c) <= own && SendPass(c, a, page, results).Passed?
    ensures SamePass(SendPass(c, a, page, results), SendPass(c, b, page, results), own)
  {
    hide Route, Transmit, RouteNames;
    if c.resp.Some? {
      var r := c.resp.value;
      if r.status == HandleInit {
        var pending := RequestOf(c).recvMsg;
        RouteTwin(r, a, b, own, page, pending);
        if Route(r, a, page, pending).Ready? {
          RouteSendable(r, a, page, pending);
          var c1 := if IsPut(r) then c.(req := Some(RequestOf(c))) else c;
          TransmitTwin(c1, Route(r, a, page, pending).r, Route(r, a, page, pending).files,
                       Route(r, b, page, pending).files, results, own);
        }
      } else {
        TransmitTwin(c, r, a, b, results, own);
      }
    }
  }

  /** A handler run that uses only `own` names does the same on any store that
      agrees with this one under those names. */
  lemma TurnTwin(c: Conn, a: Files, b: Files, own: set<string>, turn: Turn)
    requires GoodConn(c) && (turn.RecvTurn? || turn.SendTurn?) && Agree(a, b, own)
    requires RunTurn(c, a, turn).Passed? && TurnNames(c, a, turn) <= own
    ensures SamePass(RunTurn(c, a, turn), RunTurn(c, b, turn), own)
  {
    if turn.RecvTurn? {
      hide RecvLoop;
      var m := MachineOf(c, a);
      var x := RecvLoop(m, turn.input, turn.canOpen);
      assert UsesFile(x.m.req) ==> x.m.req.fileName in TurnNames(c, a, turn);
      RecvLoopTwin(m, b, own, turn.input, turn.canOpen);
      assert On(m, b) == MachineOf(c, b);
    } else {
      SendTwin(c, a, b, own, turn.page, turn.results);
    }
  }

  /** A handler run that uses no `own` name leaves the files under them alone. */
  lemma TurnOutside(c: Conn, a: Files, own: set<string>, turn: Turn)
    requires GoodConn(c) && (turn.RecvTurn? || turn.SendTurn?)
    requires RunTurn(c, a, turn).Passed? && TurnNames(c, a, turn) !! own
    ensures Agree(a, RunTurn(c, a, turn).files, own)
  {
    if turn.RecvTurn? {
      hide RecvLoop;
      var m := MachineOf(c, a);
      var x := RecvLoop(m, turn.input, turn.canOpen);
      assert UsesFile(x.m.req) ==> x.m.req.fileName in TurnNames(c, a, turn);
      RecvLoopOutside(m, own, turn.input, turn.canOpen);
    } else if c.resp.Some? && c.resp.value.status == HandleInit {
      hide Route, RouteNames, SendLoop;
      RouteOutside(c.resp.value, a, own, turn.page, RequestOf(c).recvMsg);
    }
  }

  // ---------------------------------------------------------------- whole runs

  /** This step runs a handler for connection `fd`. */
  predicate IsTurnOf(s: Server, a: Action, fd: int) {
    && a.Handle? && a.w < |s.pool.workers| && s.pool.workers[a.w].Handling?
    && var e := s.pool.workers[a.w].event;
       (e.RecvEvent? || e.SendEvent?) && e.fd == fd
  }

  /** Names are partitioned: the handlers of `fd` keep to `own`, all others keep out of it. */
  ghost predicate Respects(s: Server, a: Action, fd: int, own: set<string>) {
    forall g | g in s.conns && IsTurnOf(s, a, g) ::
      if g == fd then TurnNames(s.conns[g], s.files, a.turn) <= own
      else TurnNames(s.conns[g], s.files, a.turn) !! own
  }

  ghost predicate AllRespect(s: Server, actions: seq<Action>, fd: int, own: set<string>)
    decreases |actions|
  {
    actions == [] ||
    (Respects(s, actions[0], fd, own)
     && (Apply(s, actions[0]).Some? ==> AllRespect(Apply(s, actions[0]).value, actions[1..], fd, own)))
  }

  /** The handler runs of one connection in a run of the whole server. */
  function TurnsOf(s: Server, actions: seq<Action>, fd: int): seq<Turn>
    decreases |actions|
  {
    if actions == [] || Apply(s, actions[0]).None? then []
    else (if IsTurnOf(s, actions[0], fd) then [actions[0].turn] else [])
         + TurnsOf(Apply(s, actions[0]).value, actions[1..], fd)
  }

  /** What epoll and the main thread let through: a receive run for an armed
      connection, a send run for one armed for writing. */
  predicate Deliverable(c: Conn, turn: Turn) {
    (turn.RecvTurn? && Armed(c)) || (turn.SendTurn? && c.interest == ReadWrite)
  }

  /** The handler runs of one connection, each delivered and finished before the next. */
  function Alone(c: Conn, files: Files, turns: seq<Turn>): Option<(Conn, Files)>
    decreases |turns|
  {
    if turns == [] then Some((c, files))
    else if !ValidConn(c) || !Deliverable(c, turns[0]) then None
    else
      match RunTurn(c.(interest := Disarmed), files, turns[0])
      case Crashed => None
      case Passed(c1, files1) => Alone(c1, files1, turns[1..])
  }

  /** Connection `fd` of the server against its counterpart alone: equal up to a
      delivery that is on its way, and only what could be delivered is. */
  predicate Linked(s: Server, fd: int, c: Conn) {
    && fd in s.conns
    && s.conns[fd].(interest := Disarmed) == c.(interest := Disarmed)
    && (s.conns[fd].interest == Disarmed || s.conns[fd] == c)
    && (RecvEvent(fd) in Outstanding(s) ==> Armed(c))
    && (SendEvent(fd) in Outstanding(s) ==> c.interest == ReadWrite)
  }

  /** An armed connection has no event on its way. */
  lemma ArmedIsLinked(s: Server, fd: int)
    requires Inv(s, false) && fd in s.conns && Armed(s.conns[fd])
    ensures Linked(s, fd, s.conns[fd])
  {
    hide TP.Inv, Outstanding, ConnsInv, ReplyInv, WordedInv;
    var events := Outstanding(s);
    assert Tokens(events, s.conns, fd) <= OpenBit(s.conns, fd);
    assert events[RecvEvent(fd)] == 0 && events[SendEvent(fd)] == 0;
  }

  /** A step that runs no handler for `fd` brings an event for it only by delivery. */
  lemma OtherEvents(s: Server, a: Action, fd: int, e: Event)
    requires Apply(s, a).Some? && !Apply(s, a).value.crashed
    requires e == RecvEvent(fd) || e == SendEvent(fd)
    requires e in Outstanding(Apply(s, a).value) && e !in Outstanding(s)
    ensures a.PollClient? && a.fd == fd && fd in s.conns && Armed(s.conns[fd])
    ensures e.SendEvent? ==> s.conns[fd].interest == ReadWrite
  {
    hide Outstanding, RunTurn, TP.ProducerStep, TP.WorkerStep;
    StepEvents(s, a);
    var s1 := Apply(s, a).value;
    assert (Outstanding(s1) + HandledBy(s, a))[e] == (Outstanding(s) + Brought(a))[e];
    assert e in Brought(a);
  }

  /** A step that runs no handler for `fd` changes nothing that `fd` depends on. */
  lemma OtherStep(s: Server, a: Action, fd: int, own: set<string>, c: Conn)
    requires Inv(s, false) && Linked(s, fd, c) && Apply(s, a).Some? && !Apply(s, a).value.crashed
    requires !IsTurnOf(s, a, fd) && Respects(s, a, fd, own)
    ensures Linked(Apply(s, a).value, fd, c) && Agree(s.files, Apply(s, a).value.files, own)
  {
    OtherConns(s, a, fd, own);
    hide Inv, Outstanding, Apply, Respects;
    var s1 := Apply(s, a).value;
    if RecvEvent(fd) in Outstanding(s1) && RecvEvent(fd) !in Outstanding(s) {
      OtherEvents(s, a, fd, RecvEvent(fd));
    }
    if SendEvent(fd) in Outstanding(s1) && SendEvent(fd) !in Outstanding(s) {
      OtherEvents(s, a, fd, SendEvent(fd));
    }
  }

  lemma OtherConns(s: Server, a: Action, fd: int, own: set<string>)
    requires Inv(s, false) && fd in s.conns && Apply(s, a).Some? && !Apply(s, a).value.crashed
    requires !IsTurnOf(s, a, fd) && Respects(s, a, fd, own)
    ensures var s1 := Apply(s, a).value;
      && fd in s1.conns
      && (s1.conns[fd] == s.conns[fd] || s1.conns[fd] == s.conns[fd].(interest := Disarmed))
      && Agree(s.files, s1.files, own)
  {
    hide TP.Inv, PoolEvents, ReportEvents, TokenInv, ReplyInv, RunTurn, TurnNames, TP.WorkerStep, TP.ProducerStep;
    if a.Handle? {
      var e := s.pool.workers[a.w].event;
      if e.RecvEvent? || e.SendEvent? {
        assert IsTurnOf(s, a, e.fd);
        assert GoodConn(s.conns[e.fd]);
        TurnOutside(s.conns[e.fd], s.files, own, a.turn);
      }
    }
  }

  /** A handler run of `fd` can be delivered to its counterpart and does the same to it. */
  lemma OwnStep(s: Server, a: Action, fd: int, own: set<string>, c: Conn, files: Files)
    requires Inv(s, false) && Linked(s, fd, c) && Apply(s, a).Some? && !Apply(s, a).value.crashed
    requires IsTurnOf(s, a, fd) && Respects(s, a, fd, own) && Agree(s.files, files, own)
    ensures var s1 := Apply(s, a).value;
      && ValidConn(c) && Deliverable(c, a.turn)
      && var x := RunTurn(c.(interest := Disarmed), files, a.turn);
         x.Passed? && Linked(s1, fd, x.c) && Agree(s1.files, x.files, own)
  {
    HandledHoldsToken(s, a.w, false);
    HandleEvents(s, a.w, a.turn);
    NoEventLeft(Outstanding(s), Outstanding(Apply(s, a).value), s.pool.workers[a.w].event, fd);
    hide TP.Inv, Outstanding, TokenInv, ReplyInv, RunTurn, TurnNames, TP.WorkerStep, TP.ProducerStep;
    TurnTwin(s.conns[fd], s.files, files, own, a.turn);
  }

  lemma NoEventLeft(before: multiset<Event>, after: multiset<Event>, e: Event, fd: int)
    requires before == after + multiset{e} && (e == RecvEvent(fd) || e == SendEvent(fd))
    requires before[RecvEvent(fd)] + before[SendEvent(fd)] == 1
    ensures RecvEvent(fd) !in after && SendEvent(fd) !in after
  {
    assert before[e] == after[e] + 1;
  }

  /** Connection isolation. Whatever the other connections do and however the
      threads interleave, connection `fd` ends with the parse state, the response
      state and the wire bytes with which it ends when its own handler runs are
      delivered and run one after the other; and so do the files it uses. */
  lemma {:induction false} IsolationFrom(s: Server, actions: seq<Action>, fd: int, own: set<string>,
                                         c: Conn, files: Files)
    requires Inv(s, false) && Linked(s, fd, c) && Agree(s.files, files, own)
    requires Run(s, actions).Some? && !Run(s, actions).value.crashed && AllRespect(s, actions, fd, own)
    ensures var s1 := Run(s, actions).value;
      var alone := Alone(c, files, TurnsOf(s, actions, fd));
      alone.Some? && Linked(s1, fd, alone.value.0) && Agree(s1.files, alone.value.1, own)
    decreases |actions|
  {
    hide Inv, Apply, RunTurn, Respects, Linked;
    if actions != [] {
      var a := actions[0];
      var s1 := Apply(s, a).value;
      if s1.crashed {
        CrashIsFinal(s1, actions[1..]);
      }
      ApplyInv(s, a, false);
      if IsTurnOf(s, a, fd) {
        OwnStep(s, a, fd, own, c, files);
        var x := RunTurn(c.(interest := Disarmed), files, a.turn);
        IsolationFrom(s1, actions[1..], fd, own, x.c, x.files);
        var rest := TurnsOf(s1, actions[1..], fd);
        assert TurnsOf(s, actions, fd) == [a.turn] + rest;
        assert ([a.turn] + rest)[1..] == rest;
      } else {
        OtherStep(s, a, fd, own, c);
        IsolationFrom(s1, actions[1..], fd, own, c, files);
        var rest := TurnsOf(s1, actions[1..], fd);
        assert [] + rest == rest;
      }
    }
  }
}
