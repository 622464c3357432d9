/** When the whole server goes down: exactly when a step runs a receive handler on
    bytes on which the request machine faults, or a send handler on an empty target.
 */
module Crashes {
  import opened Message
  import opened RequestMachine
  import opened ResponseMachine
  import opened Connection
  import opened Chunking
  import opened Server
  import TP = ThreadPool

  /** A receive run on bytes on which the machine faults. */
  predicate FaultingRun(c: Conn, files: Files, input: seq<RecvResult>, canOpen: bool) {
    BeginsWithData(input) && Settle(Receive(MachineOf(c, files), DataOf(input)), canOpen) == Faulted
  }

  /** A send run that has to route an empty target. */
  predicate RoutesNothing(c: Conn) {
    c.resp.Some? && c.resp.value.status == HandleInit && c.resp.value.target == ""
  }

  lemma RecvPassCrashIff(c: Conn, files: Files, input: seq<RecvResult>, canOpen: bool)
    ensures RecvPass(c, files, input, canOpen) == Crashed <==> FaultingRun(c, files, input, canOpen)
  {
    hide Settle, Step, Receive;
    if BeginsWithData(input) {
      LoopCrashIff(MachineOf(c, files), input, canOpen);
    }
  }

  /** This step is a receive run on bytes on which the machine faults. */
  predicate FaultingStep(s: Server, a: Action) {
    && a.Handle? && a.w < |s.pool.workers| && s.pool.workers[a.w].Handling?
    && var e := s.pool.workers[a.w].event;
       e.RecvEvent? && e.fd in s.conns && a.turn.RecvTurn?
       && FaultingRun(s.conns[e.fd], s.files, a.turn.input, a.turn.canOpen)
  }

  /** This step is a send run that has to route an empty target. */
  predicate TargetlessStep(s: Server, a: Action) {
    && a.Handle? && a.w < |s.pool.workers| && s.pool.workers[a.w].Handling?
    && var e := s.pool.workers[a.w].event;
       e.SendEvent? && e.fd in s.conns && RoutesNothing(s.conns[e.fd])
  }

  predicate CrashingStep(s: Server, a: Action) {
    FaultingStep(s, a) || TargetlessStep(s, a)
  }

  lemma StepCrashIff(s: Server, a: Action)
    requires Apply(s, a).Some?
    ensures Apply(s, a).value.crashed <==> CrashingStep(s, a)
  {
    hide RecvPass, SendPass, ValidConn, FaultingRun, TP.ProducerStep, TP.WorkerStep;
    if a.Handle? {
      var e := s.pool.workers[a.w].event;
      if e.RecvEvent? {
        RecvPassCrashIff(s.conns[e.fd], s.files, a.turn.input, a.turn.canOpen);
      } else if e.SendEvent? {
        SendCrashIff(s.conns[e.fd], s.files, a.turn.page, a.turn.results);
      }
    }
  }

  predicate SomeCrash(s: Server, actions: seq<Action>)
    decreases |actions|
  {
    actions != []
    && (CrashingStep(s, actions[0])
        || (Apply(s, actions[0]).Some? && SomeCrash(Apply(s, actions[0]).value, actions[1..])))
  }

  /** A run of the server ends crashed if and only if one of its steps is a crashing one. */
  lemma {:induction false} RunCrashIff(s: Server, actions: seq<Action>)
    requires !s.crashed && Run(s, actions).Some?
    ensures Run(s, actions).value.crashed <==> SomeCrash(s, actions)
    decreases |actions|
  {
    hide Apply, CrashingStep;
    if actions != [] {
      var s1 := Apply(s, actions[0]).value;
      StepCrashIff(s, actions[0]);
      if s1.crashed {
        CrashIsFinal(s1, actions[1..]);
      } else {
        RunCrashIff(s1, actions[1..]);
      }
    }
  }

  /** No step of the run is a receive run on bytes on which the machine faults. */
  predicate AllCalm(s: Server, actions: seq<Action>)
    decreases |actions|
  {
    actions == []
    || (!FaultingStep(s, actions[0])
        && (Apply(s, actions[0]).Some? ==> AllCalm(Apply(s, actions[0]).value, actions[1..])))
  }

  lemma CalmStep(s: Server, a: Action)
    requires Inv(s, true) && !FaultingStep(s, a) && Apply(s, a).Some?
    ensures !Apply(s, a).value.crashed
  {
    StepCrashIff(s, a);
    hide Apply, FaultingStep, TP.Inv, Outstanding, TokenInv, ReplyInv, ConnsInv, WordedInv;
    if a.Handle? && a.w < |s.pool.workers| && s.pool.workers[a.w].Handling? {
      HandledHoldsToken(s, a.w, true);
    }
  }

  lemma {:induction false} CalmRun(s: Server, actions: seq<Action>)
    requires !s.crashed && Inv(s, true) && AllNamed(s, actions) && AllCalm(s, actions) && Run(s, actions).Some?
    ensures !Run(s, actions).value.crashed
    decreases |actions|
  {
    hide Inv, Apply, Named, FaultingStep;
    if actions != [] {
      CalmStep(s, actions[0]);
      ApplyInv(s, actions[0], true);
      CalmRun(Apply(s, actions[0]).value, actions[1..]);
    }
  }

  /** The server never goes down in a run in which every GET and PUT line that is
      read has a second word and no receive run is on bytes on which the machine
      faults, whatever else the clients, the threads and the network do. */
  lemma NeverCrashes(threads: nat, files: Files, actions: seq<Action>)
    requires Run(Start(threads, files), actions).Some?
    requires AllNamed(Start(threads, files), actions) && AllCalm(Start(threads, files), actions)
    ensures !Run(Start(threads, files), actions).value.crashed
  {
    hide Run, AllNamed, AllCalm, Inv;
    StartInv(threads, files, true);
    CalmRun(Start(threads, files), actions);
  }

  /** In every reachable state, a send run leaves its connection armed and never
      takes the branch that closes it: no response is ever in the error status. */
  lemma SendNeverCloses(threads: nat, files: Files, actions: seq<Action>, w: nat,
                        page: string, results: seq<SendResult>)
    requires Run(Start(threads, files), actions).Some? && !Run(Start(threads, files), actions).value.crashed
    requires var s := Run(Start(threads, files), actions).value;
      w < |s.pool.workers| && s.pool.workers[w].Handling? && s.pool.workers[w].event.SendEvent?
    ensures var s := Run(Start(threads, files), actions).value;
      var fd := s.pool.workers[w].event.fd;
      && fd in s.conns && ValidConn(s.conns[fd])
      && s.conns[fd].resp.Some? && s.conns[fd].resp.value.status != HandleError
      && (SendPass(s.conns[fd], s.files, page, results).Passed? ==>
            Armed(SendPass(s.conns[fd], s.files, page, results).c))
  {
    hide Run, Inv, SendPass;
    StartInv(threads, files, false);
    RunInv(Start(threads, files), actions, false);
    var s := Run(Start(threads, files), actions).value;
    HandledHoldsToken(s, w, false);
    var c := s.conns[s.pool.workers[w].event.fd];
    if SendPass(c, s.files, page, results).Passed? {
      SendPassValid(c, s.files, page, results);
    }
  }
}
