/** Request/response matching inside the whole server: one client that waits for
    each response, among any number of others, under any interleaving.
 */
module Clients {
  import opened Bytes
  import opened Message
  import opened RequestMachine
  import opened ResponseMachine
  import opened Connection
  import opened Chunking
  import opened KeepAlive
  import opened WholeRequests
  import opened Server
  import opened Isolation

  function RecvTurns(passes: seq<seq<RecvResult>>): seq<Turn> {
    if passes == [] then [] else [RecvTurn(passes[0], true)] + RecvTurns(passes[1..])
  }

  function SendTurnsOf(page: string, turns: seq<seq<SendResult>>): seq<Turn> {
    if turns == [] then [] else [SendTurn(page, turns[0])] + SendTurnsOf(page, turns[1..])
  }

  /** The handler runs of a client's exchanges, one exchange after the other. */
  function ClientTurns(es: seq<Exchange>): seq<Turn> {
    if es == [] then []
    else RecvTurns(es[0].passes) + (SendTurnsOf(es[0].page, es[0].turns) + ClientTurns(es[1..]))
  }

  /** The client begins an exchange only when the reply before it is complete. */
  predicate Waits(c: Conn, files: Files, es: seq<Exchange>) {
    ValidConn(c) && Serve(c, files, es).Served? && Serve(c, files, es).done + 1 >= |es|
  }

  lemma {:induction false} AloneAppend(c: Conn, files: Files, a: seq<Turn>, b: seq<Turn>)
    ensures Alone(c, files, a + b) ==
      if Alone(c, files, a).None? then None
      else Alone(Alone(c, files, a).value.0, Alone(c, files, a).value.1, b)
    decreases |a|
  {
    hide RunTurn, ValidConn;
    if a == [] {
      assert a + b == b;
    } else {
      assert (a + b)[1..] == a[1..] + b && (a + b)[0] == a[0];
      if ValidConn(c) && Deliverable(c, a[0]) {
        DisarmedValid(c);
        var x := RunTurn(c.(interest := Disarmed), files, a[0]);
        if x.Passed? {
          AloneAppend(x.c, x.files, a[1..], b);
        }
      }
    }
  }

  lemma {:induction false} AloneReceives(c: Conn, files: Files, passes: seq<seq<RecvResult>>)
    requires Alone(c, files, RecvTurns(passes)).Some?
    ensures var (c1, files1) := Alone(c, files, RecvTurns(passes)).value;
      RecvAll(c, files, passes) == Passed(c1, files1)
    decreases |passes|
  {
    hide RecvPass;
    if passes != [] {
      var turns := RecvTurns(passes);
      assert turns[0] == RecvTurn(passes[0], true) && turns[1..] == RecvTurns(passes[1..]);
      var x := RecvPass(c.(interest := Disarmed), files, passes[0], true);
      AloneReceives(x.c, x.files, passes[1..]);
    }
  }

  lemma {:induction false} AloneSends(c: Conn, files: Files, page: string, turns: seq<seq<SendResult>>)
    requires ValidConn(c) && Alone(c, files, SendTurnsOf(page, turns)).Some?
    ensures var (c1, files1) := Alone(c, files, SendTurnsOf(page, turns)).value;
      SendTurns(c, files, page, turns) == Passed(c1, files1)
    decreases |turns|
  {
    hide SendPass;
    if turns != [] {
      var all := SendTurnsOf(page, turns);
      assert all[0] == SendTurn(page, turns[0]) && all[1..] == SendTurnsOf(page, turns[1..]);
      var c0 := c.(interest := Disarmed);
      var x := SendPass(c0, files, page, turns[0]);
      SendPassValid(c0, files, page, turns[0]);
      AloneSends(x.c, x.files, page, turns[1..]);
    }
  }

  /** Alone, a waiting client is served as the keep-alive lemmas say. */
  lemma {:induction false} AloneServes(c: Conn, files: Files, es: seq<Exchange>)
    requires Waits(c, files, es) && Alone(c, files, ClientTurns(es)).Some?
    ensures var (c1, files1) := Alone(c, files, ClientTurns(es)).value;
      Serve(c, files, es).c == c1 && Serve(c, files, es).files == files1
    decreases |es|
  {
    hide Alone, RecvAll, SendTurns, ValidConn;
    if es == [] {
      AloneNothing(c, files);
    } else {
      var e := es[0];
      var sends := SendTurnsOf(e.page, e.turns);
      AloneAppend(c, files, RecvTurns(e.passes), sends + ClientTurns(es[1..]));
      AloneReceives(c, files, e.passes);
      var p := RecvAll(c, files, e.passes);
      AloneAppend(p.c, p.files, sends, ClientTurns(es[1..]));
      AloneSends(p.c, p.files, e.page, e.turns);
      var q := SendTurns(p.c, p.files, e.page, e.turns);
      if q.c.interest == ReadOnly {
        AloneServes(q.c, q.files, es[1..]);
      } else {
        assert es[1..] == [];
        AloneNothing(q.c, q.files);
      }
    }
  }

  lemma AloneNothing(c: Conn, files: Files)
    ensures Alone(c, files, []) == Some((c, files))
  {
  }

  /** The client's next request as far as it has arrived: it is still incomplete.
      Before that the reply to the one before must be complete. */
  predicate StillArriving(served: Service, count: nat, tail: seq<seq<RecvResult>>) {
    && served.Served? && served.done == count
    && (forall i | 0 <= i < |tail| :: Healthy(tail[i]))
    && Unfinished(served.files, AllData(tail))
  }

  predicate Unfinished(files: Files, stream: string) {
    var o := Settle(Receive(Machine(FRESH_REQUEST, "", files), stream), true);
    o.Settled? && !Resting(o.m, true)
  }

  /** The request entry that an incomplete request leaves. */
  function Arrived(files: Files, stream: string): RequestValue
    requires Unfinished(files, stream)
  {
    Settle(Receive(Machine(FRESH_REQUEST, "", files), stream), true).m.req
  }

  /** Alone, an idle connection that is receiving holds what has arrived. */
  lemma AloneArriving(c: Conn, files: Files, tail: seq<seq<RecvResult>>)
    requires Idle(c) && tail != [] && Unfinished(files, AllData(tail))
    requires forall i | 0 <= i < |tail| :: Healthy(tail[i])
    requires Alone(c, files, RecvTurns(tail)).Some?
    ensures var (c1, files1) := Alone(c, files, RecvTurns(tail)).value;
      c1.wire == c.wire && c1.req == Some(Arrived(files, AllData(tail)))
  {
    hide Settle, Step, RecvAll, Alone;
    FreshIsOpen(c, files);
    AloneReceives(c, files, tail);
    ChunkIndependence(c, files, tail);
    OpenIsNotResting(Settle(Receive(MachineOf(c, files), AllData(tail)), true).m);
  }

  /** Take any run of the server with any number of workers and connections, from a
      moment at which connection `fd` waits for its next request. If the handler
      runs that `fd` gets are those of a client that sends whole requests and waits
      for each reply, and possibly those of a next request that is still arriving,
      and no other connection uses its file names, then the wire of `fd` holds the
      replies to its requests, in order: each completed one in full, followed by a
      part of the next. A request still arriving leaves the wire as it is, and its
      entry is the one that its bytes so far describe. */
  lemma MatchingUnderInterleaving(threads: nat, files: Files, before: seq<Action>, after: seq<Action>,
                                  fd: int, own: set<string>, es: seq<Exchange>, tail: seq<seq<RecvResult>>)
    requires Run(Start(threads, files), before).Some? && !Run(Start(threads, files), before).value.crashed
    requires var s := Run(Start(threads, files), before).value;
      && fd in s.conns && Idle(s.conns[fd]) && s.conns[fd].interest == ReadOnly
      && Run(s, after).Some? && !Run(s, after).value.crashed && AllRespect(s, after, fd, own)
      && TurnsOf(s, after, fd) == ClientTurns(es) + RecvTurns(tail)
      && AllSound(es, s.files) && Waits(s.conns[fd], s.files, es)
      && (tail != [] ==> StillArriving(Serve(s.conns[fd], s.files, es), |es|, tail))
    ensures var s := Run(Start(threads, files), before).value;
      var s1 := Run(s, after).value;
      var served := Serve(s.conns[fd], s.files, es);
      && Matched(served, s.conns[fd].wire, Replies(es, s.files), FilesAfter(es, s.files))
      && fd in s1.conns && s1.conns[fd].wire == served.c.wire
      && (served.done == |es| ==> s1.conns[fd].wire == s.conns[fd].wire + Concat(Replies(es, s.files)))
      && (tail == [] ==> Agree(s1.files, served.files, own))
      && (tail != [] ==> s1.conns[fd].req == Some(Arrived(served.files, AllData(tail))))
  {
    hide Run, AllRespect, TurnsOf, Inv, Agree, Outstanding, Alone, ClientTurns, AllSound, Serve, Replies, Concat;
    hide Unfinished, Arrived;
    StartInv(threads, files, false);
    RunInv(Start(threads, files), before, false);
    var s := Run(Start(threads, files), before).value;
    var c := s.conns[fd];
    ArmedIsLinked(s, fd);
    AgreesWithItself(s.files, own);
    IsolationFrom(s, after, fd, own, c, s.files);
    AloneAppend(c, s.files, ClientTurns(es), RecvTurns(tail));
    AloneServes(c, s.files, es);
    KeepAliveMatching(c, s.files, es);
    var (c1, files1) := Alone(c, s.files, ClientTurns(es)).value;
    if tail == [] {
      AloneNothing(c1, files1);
    } else {
      AloneArriving(c1, files1, tail);
    }
  }
}
