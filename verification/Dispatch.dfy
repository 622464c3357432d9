/** fileserver/fileserver.cpp, the inner loop of waitEpoll: one pass over the
    reports of an epoll_wait call, with the event pointer that outlives each turn.
 */
module Dispatch {
  import opened Bytes
  import opened Server
  import TP = ThreadPool

  function EventsFor(r: Report): seq<Event> {
    match EventFor(r) case Some(e) => [e] case None => []
  }

  /** The events that a list of reports asks for, in order. */
  function EventsOf(reports: seq<Report>): seq<Event> {
    if reports == [] then [] else EventsFor(reports[0]) + EventsOf(reports[1..])
  }

  lemma JoinedEvents(a: seq<Event>, b: seq<Event>, c: seq<Event>)
    ensures a + b + c == a + (b + c)
    ensures a + [] == a && [] + a == a
  {
  }

  lemma {:induction false} EventsOfAppend(a: seq<Report>, r: Report)
    ensures EventsOf(a + [r]) == EventsOf(a) + EventsFor(r)
  {
    hide EventsFor;
    JoinedEvents(EventsFor(r), [], []);
    if a == [] {
      assert [r][1..] == [] && a + [r] == [r];
    } else {
      assert (a + [r])[1..] == a[1..] + [r];
      EventsOfAppend(a[1..], r);
      JoinedEvents(EventsFor(a[0]), EventsOf(a[1..]), EventsFor(r));
    }
  }

  /** Nothing reported is lost or doubled on the way to the pool: counted, the
      events are the ones that the server counts as outstanding for a batch. */
  lemma {:induction false} EventsOfCounted(reports: seq<Report>)
    ensures multiset(EventsOf(reports)) == ReportEvents(reports)
  {
    if reports != [] {
      EventsOfCounted(reports[1..]);
    }
  }

  /** What one report among many appends, spelled out: a client that can be read from
      gets a receive event, writable or not; one that can only be written to a send
      event; one that can do neither no event. */
  lemma EachReport(reports: seq<Report>, i: nat)
    requires i < |reports|
    ensures reports[i] == ListenReady ==> EventsOf(reports[..i]) + [AcceptEvent] <= EventsOf(reports)
    ensures forall fd, writable | reports[i] == ClientReady(fd, true, writable) ::
      EventsOf(reports[..i]) + [RecvEvent(fd)] <= EventsOf(reports)
    ensures forall fd | reports[i] == ClientReady(fd, false, true) ::
      EventsOf(reports[..i]) + [SendEvent(fd)] <= EventsOf(reports)
    ensures forall fd | reports[i] == ClientReady(fd, false, false) ::
      EventsOf(reports[..i + 1]) == EventsOf(reports[..i])
  {
    hide EventsOf;
    assert reports[..i + 1] == reports[..i] + [reports[i]];
    EventsOfAppend(reports[..i], reports[i]);
    assert reports == reports[..i + 1] + reports[i + 1..];
    EventsOfPrefix(reports[..i + 1], reports[i + 1..]);
    JoinedEvents(EventsOf(reports[..i]), [], []);
  }

  lemma {:induction false} EventsOfPrefix(a: seq<Report>, b: seq<Report>)
    ensures EventsOf(a) <= EventsOf(a + b)
  {
    hide EventsFor;
    if a != [] {
      assert (a + b)[1..] == a[1..] + b;
      EventsOfPrefix(a[1..], b);
    }
  }

  /** `appended` lists the arguments of the appendEvent calls so far. */
  class WebServer {
    var event: Option<Event>
    var appended: seq<Event>

    constructor ()
      ensures event.None? && appended == []
    {
      event, appended := None, [];
    }

    /** The loop over `resEvents`. The pointer is empty again after every turn,
        so a report that sets none appends none. */
    method DispatchReports(resEvents: seq<Report>)
      requires event.None?
      modifies this
      ensures event.None?
      ensures appended == old(appended) + EventsOf(resEvents)
      ensures forall i, fd, writable | 0 <= i < |resEvents| && resEvents[i] == ClientReady(fd, true, writable) ::
        old(appended) + (EventsOf(resEvents[..i]) + [RecvEvent(fd)]) <= appended
      ensures forall i, fd | 0 <= i < |resEvents| && resEvents[i] == ClientReady(fd, false, true) ::
        old(appended) + (EventsOf(resEvents[..i]) + [SendEvent(fd)]) <= appended
    {
      for i := 0 to |resEvents|
        invariant event.None?
        invariant appended == old(appended) + EventsOf(resEvents[..i])
      {
        match resEvents[i] {
          case ListenReady =>
            event := Some(AcceptEvent);
          case ClientReady(fd, readable, writable) =>
            if readable {
              event := Some(RecvEvent(fd));
            } else if writable {
              event := Some(SendEvent(fd));
            }
        }
        assert resEvents[..i + 1] == resEvents[..i] + [resEvents[i]];
        EventsOfAppend(resEvents[..i], resEvents[i]);
        if event.Some? {
          appended := appended + [event.value];
          event := None;
        }
      }
      assert resEvents[..|resEvents|] == resEvents;
      forall i | 0 <= i < |resEvents|
        ensures forall fd, writable | resEvents[i] == ClientReady(fd, true, writable) ::
          EventsOf(resEvents[..i]) + [RecvEvent(fd)] <= EventsOf(resEvents)
        ensures forall fd | resEvents[i] == ClientReady(fd, false, true) ::
          EventsOf(resEvents[..i]) + [SendEvent(fd)] <= EventsOf(resEvents)
      {
        EachReport(resEvents, i);
      }
    }
  }

  // ---------------------------------------------------------------- order, end to end

  function InProducer(pc: TP.ProducerPc<Event>): seq<Event> {
    if pc.WantLock? || pc.HasLock? then [pc.event] else []
  }

  /** Everything reported so far, from the first event appended to the last report waiting. */
  function Reported(s: Server): seq<Event> {
    s.pool.appended + (InProducer(s.pool.producer) + EventsOf(s.batch))
  }

  /** What one action adds to the reports. */
  function Polled(a: Action): seq<Event> {
    match a
    case PollListen => EventsFor(ListenReady)
    case PollClient(fd, readable, writable) => EventsFor(ClientReady(fd, readable, writable))
    case _ => []
  }

  function AllPolled(actions: seq<Action>): seq<Event> {
    if actions == [] then [] else Polled(actions[0]) + AllPolled(actions[1..])
  }

  lemma ReportAdded(s: Server, r: Report)
    ensures Reported(s.(batch := s.batch + [r])) == Reported(s) + EventsFor(r)
  {
    EventsOfAppend(s.batch, r);
    JoinedEvents(InProducer(s.pool.producer), EventsOf(s.batch), EventsFor(r));
    JoinedEvents(s.pool.appended, InProducer(s.pool.producer) + EventsOf(s.batch), EventsFor(r));
  }

  lemma ProducerKeepsOrder(p: TP.Pool<Event>)
    requires TP.ProducerStep(p).Some?
    ensures var p1 := TP.ProducerStep(p).value;
      p1.appended + InProducer(p1.producer) == p.appended + InProducer(p.producer)
  {
  }

  lemma WorkerKeepsOrder(p: TP.Pool<Event>, w: nat)
    requires w < |p.workers| && (p.workers[w].Handling? || TP.WorkerStep(p, w).Some?)
    ensures TP.WorkerStep(p, w).Some?
    ensures var p1 := TP.WorkerStep(p, w).value; p1.appended == p.appended && p1.producer == p.producer
  {
  }

  lemma StepKeepsOrder(s: Server, a: Action)
    requires Apply(s, a).Some?
    ensures Reported(Apply(s, a).value) == Reported(s) + Polled(a)
  {
    hide EventsFor, EventsOf, TP.ProducerStep, TP.WorkerStep, RunTurn;
    var s1 := Apply(s, a).value;
    JoinedEvents(Reported(s), [], []);
    match a
    case PollListen => ReportAdded(s, ListenReady);
    case PollClient(fd, readable, writable) => ReportAdded(s, ClientReady(fd, readable, writable));
    case Dispatch => DispatchKeepsOrder(s);
    case Produce =>
      ProducerKeepsOrder(s.pool);
      JoinedEvents(s.pool.appended, InProducer(s.pool.producer), EventsOf(s.batch));
      JoinedEvents(s1.pool.appended, InProducer(s1.pool.producer), EventsOf(s.batch));
    case Work(w) => WorkerKeepsOrder(s.pool, w);
    case Handle(w, turn) => WorkerKeepsOrder(s.pool, w);
  }

  lemma DispatchKeepsOrder(s: Server)
    requires Apply(s, Action.Dispatch).Some?
    ensures Reported(Apply(s, Action.Dispatch).value) == Reported(s)
  {
    hide TP.InHand;
    var rest := EventsOf(s.batch[1..]);
    assert EventsOf(s.batch) == EventsFor(s.batch[0]) + rest;
    JoinedEvents(EventsFor(s.batch[0]) + rest, [], []);
    JoinedEvents(rest, [], []);
    assert InProducer(s.pool.producer) == [];
    assert EventFor(s.batch[0]).Some? ==>
      InProducer(Apply(s, Action.Dispatch).value.pool.producer) == EventsFor(s.batch[0]);
  }

  /** First in, first out, end to end: in every reachable state, what workers
      have taken, then the queue, then the event in the main thread's hands, then
      the reports still to be read, are the events epoll reported, in its order. */
  lemma OrderKept(threads: nat, files: map<string, string>, actions: seq<Action>)
    requires Run(Start(threads, files), actions).Some? && !Run(Start(threads, files), actions).value.crashed
    ensures var s := Run(Start(threads, files), actions).value;
      s.pool.dequeued + s.pool.queue + (InProducer(s.pool.producer) + EventsOf(s.batch)) == AllPolled(actions)
  {
    hide Run, Apply, Inv;
    StartInv(threads, files, false);
    RunInv(Start(threads, files), actions, false);
    RunKeepsOrder(Start(threads, files), actions);
    JoinedEvents(AllPolled(actions), [], []);
    InvHasFifo(Run(Start(threads, files), actions).value);
  }

  lemma InvHasFifo(s: Server)
    requires Inv(s, false)
    ensures s.pool.appended == s.pool.dequeued + s.pool.queue
  {
  }

  lemma {:induction false} RunKeepsOrder(s: Server, actions: seq<Action>)
    requires Run(s, actions).Some?
    ensures Reported(Run(s, actions).value) == Reported(s) + AllPolled(actions)
    decreases |actions|
  {
    hide Apply, Reported, Polled;
    if actions == [] {
      JoinedEvents(Reported(s), [], []);
    } else {
      var s1 := Apply(s, actions[0]).value;
      StepKeepsOrder(s, actions[0]);
      RunKeepsOrder(s1, actions[1..]);
      JoinedEvents(Reported(s), Polled(actions[0]), AllPolled(actions[1..]));
    }
  }

  // ---------------------------------------------------------------- readable before writable

  /** A report of a client that can be read from puts a receive event on its way and
      no send event, whether or not it can be written to as well. */
  lemma ReadableIsReceived(s: Server, fd: int, writable: bool)
    requires Inv(s, false) && Apply(s, PollClient(fd, true, writable)).Some?
    ensures var events := Outstanding(Apply(s, PollClient(fd, true, writable)).value);
      events[RecvEvent(fd)] == 1 && events[SendEvent(fd)] == 0
  {
    hide Outstanding, TP.Inv;
    StepEvents(s, PollClient(fd, true, writable));
    assert Tokens(Outstanding(s), s.conns, fd) <= OpenBit(s.conns, fd);
    var s1 := Apply(s, PollClient(fd, true, writable)).value;
    assert Outstanding(s1) == Outstanding(s) + multiset{RecvEvent(fd)} by {
      assert Outstanding(s1) + multiset{} == Outstanding(s1);
    }
  }

  /** In every reachable state, a send event on its way was reported by a client that
      could be written to and not be read from. */
  lemma SendEventOrigin(threads: nat, files: map<string, string>, actions: seq<Action>, fd: int)
    requires Run(Start(threads, files), actions).Some? && !Run(Start(threads, files), actions).value.crashed
    requires SendEvent(fd) in Outstanding(Run(Start(threads, files), actions).value)
    ensures PollClient(fd, false, true) in actions
  {
    hide Run, Apply;
    NothingYet(threads, files);
    OriginAlong(Start(threads, files), actions, fd);
  }

  lemma NothingYet(threads: nat, files: map<string, string>)
    ensures Outstanding(Start(threads, files)) == multiset{}
  {
    TP.RestingWorkers(TP.FreshPool<Event>(threads).workers);
  }

  lemma {:induction false} OriginAlong(s: Server, actions: seq<Action>, fd: int)
    requires Run(s, actions).Some? && !Run(s, actions).value.crashed
    requires SendEvent(fd) in Outstanding(Run(s, actions).value) && SendEvent(fd) !in Outstanding(s)
    ensures PollClient(fd, false, true) in actions
    decreases |actions|
  {
    hide Apply, Outstanding;
    if actions != [] {
      var s1 := Apply(s, actions[0]).value;
      if s1.crashed {
        CrashIsFinal(s1, actions[1..]);
      }
      if SendEvent(fd) in Outstanding(s1) {
        OriginStep(s, actions[0], fd);
      } else {
        OriginAlong(s1, actions[1..], fd);
      }
    }
  }

  lemma OriginStep(s: Server, a: Action, fd: int)
    requires Apply(s, a).Some? && !Apply(s, a).value.crashed
    requires SendEvent(fd) in Outstanding(Apply(s, a).value) && SendEvent(fd) !in Outstanding(s)
    ensures a == PollClient(fd, false, true)
  {
    hide Apply, Outstanding;
    StepEvents(s, a);
    assert (Outstanding(Apply(s, a).value) + HandledBy(s, a))[SendEvent(fd)]
      == (Outstanding(s) + Brought(a))[SendEvent(fd)];
    assert SendEvent(fd) in Brought(a);
  }
}
