/** The content phase of an upload inside the request machine: runs of saved
    bytes, and the state in which the machine settles.
 */
module Upload {
  import opened Bytes
  import opened Message
  import opened RequestMachine
  import opened Connection
  import opened Chunking
  import Scanner

  /** The machine is saving file content and the file is open. */
  predicate Saving(m: Machine) {
    && m.req.status == HandleBody && m.req.requestMethod == "POST" && IsMultipart(m.req)
    && m.req.fileStatus == FileContent && BOUNDARY in m.req.headers
    && m.req.fileName in m.files
  }

  function TerminatorOf(v: RequestValue): string
    requires BOUNDARY in v.headers
  {
    Scanner.Terminator(v.headers[BOUNDARY])
  }

  /** The first `n` pending bytes moved to the file. */
  function Saved(m: Machine, n: nat): Machine
    requires Saving(m) && n <= |m.req.recvMsg|
  {
    m.(req := m.req.(recvMsg := m.req.recvMsg[n..]),
       files := m.files[m.req.fileName := m.files[m.req.fileName] + m.req.recvMsg[..n]])
  }

  lemma SavedCompose(m: Machine, n: nat)
    requires Saving(m) && 0 < n <= |m.req.recvMsg|
    ensures Saved(Saved(m, 1), n - 1) == Saved(m, n)
  {
    var s := m.req.recvMsg;
    var f := m.files[m.req.fileName];
    assert s[1..][n - 1..] == s[n..];
    assert f + s[..1] + s[1..][..n - 1] == f + s[..n];
  }

  lemma SavedNothing(m: Machine)
    requires Saving(m)
    ensures Saved(m, 0) == m
  {
    assert m.req.recvMsg[0..] == m.req.recvMsg;
    assert m.files[m.req.fileName] + m.req.recvMsg[..0] == m.files[m.req.fileName];
  }

  /** Writing a whole run of decided bytes at once is as good as writing them one by one. */
  lemma {:induction false} SettleRun(m: Machine, n: nat)
    requires Saving(m) && n <= |m.req.recvMsg|
    requires forall j: nat | j < n :: Scanner.ScanStep(TerminatorOf(m.req), m.req.recvMsg[j..]) == Scanner.Keep
    ensures Settle(m, true) == Settle(Saved(m, n), true)
    decreases n
  {
    if n == 0 {
      SavedNothing(m);
    } else {
      var s := m.req.recvMsg;
      assert s[0..] == s;
      assert Step(m, true) == Next(Saved(m, 1));
      forall j: nat | j < n - 1
        ensures Scanner.ScanStep(TerminatorOf(m.req), s[1..][j..]) == Scanner.Keep
      {
        assert s[1..][j..] == s[j + 1..];
      }
      SettleRun(Saved(m, 1), n - 1);
      SavedCompose(m, n);
    }
  }

  /** Where the content phase settles: the bytes before the first terminator, or
      before the held-back tail, have been appended to the file, and the request
      is complete exactly when the terminator has arrived. */
  lemma SettleContent(m: Machine)
    requires Saving(m)
    ensures var k := Scanner.ScanLen(TerminatorOf(m.req), m.req.recvMsg);
      Settle(m, true) == Settled(
        if Scanner.ScanDone(TerminatorOf(m.req), m.req.recvMsg)
        then Complete(Saved(m, k).(req := Saved(m, k).req.(fileStatus := FileComplete)), REDIRECT)
        else Saved(m, k))
  {
    var t := TerminatorOf(m.req);
    var k := Scanner.ScanLen(t, m.req.recvMsg);
    SettleRun(m, k);
    var m1 := Saved(m, k);
    if Scanner.ScanDone(t, m.req.recvMsg) {
      var m2 := m1.(req := m1.req.(fileStatus := FileComplete));
      assert Step(m1, true) == Next(m2);
      assert Step(m2, true) == Next(Complete(m2, REDIRECT));
      assert Settle(Complete(m2, REDIRECT), true) == Settled(Complete(m2, REDIRECT));
      assert Settle(m2, true) == Settled(Complete(m2, REDIRECT));
    } else {
      assert Step(m1, true) == Stuck;
    }
  }

  /** The content phase over any number of handler runs and `recv` calls. With `s`
      the bytes pending or received: as long as `s` holds no terminator the file has
      gained `s` up to the first carriage return in its last |terminator| - 1 bytes,
      and the rest is pending; when `s` ends with its first terminator the request is
      answered and the file has gained what lies before it. */
  lemma ContentOverChunks(c: Conn, files: Files, passes: seq<seq<RecvResult>>)
    requires Saving(MachineOf(c, files)) && Open(MachineOf(c, files)) && Cuts(passes, AllData(passes))
    ensures var all := Receive(MachineOf(c, files), AllData(passes));
      var t, s := "\r\n--" + all.req.headers["boundary"] + "--\r\n", all.req.recvMsg;
      match Find(s, t)
      case None =>
        var x := Saved(all, Scanner.HoldBack(t, s));
        RecvAll(c, files, passes) == Passed(c.(req := Some(x.req), interest := ReadOnly), x.files)
      case Some(k) =>
        && k + |t| <= |s|
        && (k + |t| == |s| ==>
              RecvAll(c, files, passes) == Passed(AnsweredWith(c, REDIRECT), Saved(all, k).files))
  {
    hide Settle, Step, RecvAll, AnsweredWith, EndsEarly;
    hide Scanner.ScanLen, Scanner.ScanDone, Scanner.HoldBack, Scanner.Terminator;
    var m, stream := MachineOf(c, files), AllData(passes);
    var all := Receive(m, stream);
    var t, s := TerminatorOf(all.req), all.req.recvMsg;
    Scanner.TerminatorText(all.req.headers["boundary"]);
    ChunkIndependence(c, files, passes);
    SettleContent(all);
    Scanner.ScanFindsFirst(t, s);
    if Find(s, t).None? {
      Scanner.HoldBackClosedForm(t, s);
    } else if Find(s, t).value + |t| == |s| {
      EndsWithTerminator(m, stream);
    }
  }

  /** A stream that ends with its first terminator does not end early. */
  lemma EndsWithTerminator(m: Machine, stream: string)
    requires Saving(m)
    requires var s, t := m.req.recvMsg + stream, TerminatorOf(m.req);
      Find(s, t).Some? && Find(s, t).value + |t| == |s|
    ensures !EndsEarly(m, stream)
  {
    hide Settle, Scanner.ScanLen, Scanner.ScanDone, Scanner.Terminator;
    var t := TerminatorOf(m.req);
    forall n: nat | n < |stream| ensures !AnsweredAt(m, stream, n) {
      var part := m.req.recvMsg + stream[..n];
      SettleContent(Receive(m, stream[..n]));
      Scanner.ScanFindsFirst(t, part);
      assert part + stream[n..] == m.req.recvMsg + stream;
      if Find(part, t).Some? {
        FindAppend(part, stream[n..], t);
      }
    }
  }

  /** Opening creates the file, before any byte of content has arrived and whether or
      not any ever does. */
  lemma OpeningCreates(m: Machine)
    requires m.req.status == HandleBody && m.req.requestMethod == "POST" && IsMultipart(m.req)
    requires m.req.fileStatus == FileContent && m.req.fileName !in m.files
    ensures var m1 := m.(files := m.files[m.req.fileName := ""]);
      Settle(m, true) == Settle(m1, true) && (m.req.recvMsg == "" ==> Settle(m, true) == Settled(m1))
  {
    hide Settle;
    SettleMove(m, true);
    SettleMove(m.(files := m.files[m.req.fileName := ""]), true);
  }
}
