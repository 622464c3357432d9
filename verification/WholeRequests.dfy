/** Requests that end with the last byte of their stream: printed GETs, and
    printed uploads whose content survives. For these the chunks do not matter.
 */
module WholeRequests {
  import opened Bytes
  import opened Message
  import opened RequestMachine
  import opened Connection
  import opened Chunking
  import opened RoundTrip
  import Scanner

  /** `stream` is one whole request: it completes, and no proper prefix does. */
  ghost predicate Whole(m: Machine, stream: string) {
    var o := Settle(Receive(m, stream), true);
    o.Settled? && Done(o.m) && !EndsEarly(m, stream)
  }

  /** A request as a client prints it. */
  datatype Ask = Get(u: string, v: string, fields: seq<Field>)
               | Upload(u: string, v: string, fields: seq<Field>, boundary: string, part: PartHead, content: string)

  function Printed(a: Ask): string {
    match a
    case Get(u, v, fields) => PrintHead("GET", u, v, fields)
    case Upload(u, v, fields, boundary, part, content) => PrintUpload(u, v, fields, boundary, part, content)
  }

  /** Words and fields that print and read back; for an upload, also its part header. */
  predicate Proper(a: Ask) {
    && Printable(a.fields) && Accepted(a.fields)
    && match a
       case Get(u, v, _) => Words("GET", u, v)
       case Upload(u, v, fields, boundary, part, _) =>
         && Words("POST", u, v) && Declares(fields, boundary) && PrintablePart(part)
         && '\n' !in boundary && '\r' !in boundary
  }

  /** The content of an upload, followed by CRLF, does not hold the terminator. */
  predicate Intact(a: Ask) {
    a.Upload? ==> Find(a.content + "\r\n", "\r\n--" + a.boundary + "--\r\n").None?
  }

  function TargetOf(a: Ask): string {
    match a
    case Get(u, _, _) => u
    case Upload(_, _, _, _, _, _) => REDIRECT
  }

  /** The directory behind a request: an upload has appended its content. */
  function FilesBehind(a: Ask, files: Files): Files {
    match a
    case Get(_, _, _) => files
    case Upload(_, _, _, _, part, content) =>
      var name := WithoutSpaces(part.name);
      files[name := (if name in files then files[name] else "") + content]
  }

  lemma FreshReceives(stream: string, target: string, files: Files)
    ensures Receive(Machine(FRESH_REQUEST, target, files), stream)
      == Machine(FRESH_REQUEST.(recvMsg := stream), target, files)
  {
    EmptyConcat(stream);
  }

  // ---------------------------------------------------------------- GETs

  /** A request that completes with nothing left over is whole. */
  lemma NothingLeftIsWhole(m: Machine, stream: string, x: Machine)
    requires Settle(Receive(m, stream), true) == Settled(x) && Done(x) && x.req.recvMsg == ""
    ensures Whole(m, stream)
  {
    hide Settle;
    forall n: nat | n < |stream| ensures !AnsweredAt(m, stream, n) {
      if AnsweredAt(m, stream, n) {
        assert stream[..n] + stream[n..] == stream;
        SettledIsStuck(Receive(m, stream[..n]));
        RestingPrefix(m, stream[..n], stream[n..]);
      }
    }
  }

  lemma SettledIsStuck(m: Machine)
    requires Settle(m, true).Settled?
    ensures Step(Settle(m, true).m, true) == Stuck
  {
  }

  lemma GetCompletes(m: Machine)
    requires m.req.status == HandleBody && m.req.requestMethod == "GET"
    ensures Settle(m, true) == Settled(Complete(m, m.req.resource))
  {
    hide Settle;
    SettleMove(m, true);
    SettleMove(Complete(m, m.req.resource), true);
  }

  lemma HeadStatus(m: string, u: string, v: string, fields: seq<Field>, rest: string)
    ensures var r := HeadRequest(m, u, v, fields, rest);
      r.status == HandleBody && r.recvMsg == rest
  {
  }

  /** A printed GET is a whole request; its target is the resource. */
  lemma GetIsWhole(a: Ask, target: string, files: Files)
    requires a.Get? && Proper(a)
    ensures var m := Machine(FRESH_REQUEST, target, files);
      && Whole(m, Printed(a))
      && Settle(Receive(m, Printed(a)), true).m.target == a.u
      && Settle(Receive(m, Printed(a)), true).m.files == files
  {
    hide Settle, Step, Whole, PrintHead, WithFields, NoSpace;
    var stream := PrintHead("GET", a.u, a.v, a.fields);
    HeadBack("GET", a.u, a.v, a.fields, "", target, files, true);
    EmptyConcat(stream);
    FreshReceives(stream, target, files);
    var m1 := Machine(HeadRequest("GET", a.u, a.v, a.fields, ""), target, files);
    HeadStatus("GET", a.u, a.v, a.fields, "");
    GetCompletes(m1);
    NothingLeftIsWhole(Machine(FRESH_REQUEST, target, files), stream, Complete(m1, a.u));
  }

  // ---------------------------------------------------------------- uploads

  /** A completed upload still holds its terminator. */
  predicate HoldsTerminator(v: RequestValue) {
    v.fileStatus == FileComplete ==>
      v.status != HandleInit && v.status != HandleHead && BOUNDARY in v.headers
      && Scanner.Terminator(v.headers[BOUNDARY]) <= v.recvMsg
  }

  lemma ContentHoldsTerminator(m: Machine)
    requires m.req.status == HandleBody && m.req.requestMethod == "POST" && m.req.fileStatus == FileContent
    requires StepFileContent(m, true).Next?
    ensures HoldsTerminator(StepFileContent(m, true).m.req)
  {
    hide Advances, CutLine, AddHeader;
    var s := m.req.recvMsg;
    if s != "" && m.req.fileName in m.files {
      var t := Scanner.Terminator(if BOUNDARY in m.req.headers then m.req.headers[BOUNDARY] else "");
      assert Scanner.ScanStep(t, s) == Scanner.Found ==> t <= s && s[0] == '\r';
    }
  }

  lemma StepHoldsTerminator(m: Machine)
    requires HoldsTerminator(m.req) && Step(m, true).Next?
    ensures HoldsTerminator(Step(m, true).m.req)
  {
    hide Advances, CutLine, AddHeader, StepFileContent, IsMultipart, LineFileName, Scanner.Terminator;
    if m.req.status == HandleHead {
      hide StepBody;
      HeadHoldsTerminator(m);
    } else if m.req.status == HandleBody && m.req.requestMethod == "POST"
              && IsMultipart(m.req) && m.req.fileStatus == FileContent {
      ContentHoldsTerminator(m);
    }
  }

  lemma HeadHoldsTerminator(m: Machine)
    requires m.req.status == HandleHead && m.req.fileStatus != FileComplete && StepHead(m).Next?
    ensures StepHead(m).m.req.fileStatus != FileComplete
  {
  }

  lemma {:induction false} SettleHoldsTerminator(m: Machine)
    requires HoldsTerminator(m.req) && Settle(m, true).Settled?
    ensures HoldsTerminator(Settle(m, true).m.req)
    decreases 16 - Rank(m), |m.req.recvMsg|
  {
    if Step(m, true).Next? {
      StepHoldsTerminator(m);
      SettleHoldsTerminator(Step(m, true).m);
    }
  }

  /** A printed upload in one piece, on a connection without a request. */
  lemma UploadEnds(a: Ask, target: string, files: Files)
    requires a.Upload? && Proper(a)
    ensures var o := Settle(Receive(Machine(FRESH_REQUEST, target, files), Printed(a)), true);
      && o.Settled? && Done(o.m) && o.m.req.fileStatus == FileComplete
      && o.m.target == REDIRECT
      && BOUNDARY in o.m.req.headers && o.m.req.headers[BOUNDARY] == a.boundary
      && o.m.req.recvMsg == Unread(a.boundary, a.content)
      && o.m.files == UploadedFiles(files, WithoutSpaces(a.part.name), a.boundary, a.content)
  {
    hide Settle, PrintUpload, NoSpace, Scanner.Terminator, Accepted, Declares, PrintablePart;
    FreshReceives(Printed(a), target, files);
    UploadBack(a.u, a.v, a.fields, a.boundary, a.part, a.content, target, files);
  }

  /** A printed upload is a whole request exactly when its content survives the
      search for the terminator. */
  lemma UploadIsWhole(a: Ask, target: string, files: Files)
    requires a.Upload? && Proper(a)
    ensures var m := Machine(FRESH_REQUEST, target, files);
      var o := Settle(Receive(m, Printed(a)), true);
      && o.Settled? && o.m.target == REDIRECT
      && (Whole(m, Printed(a)) <==> Intact(a))
      && (o.m.files == FilesBehind(a, files) <==> Intact(a))
  {
    hide *;
    UploadEnds(a, target, files);
    StoredIff(a, files);
    if Intact(a) {
      IntactIsWhole(a, target, files);
    } else {
      CompletesEarly(a, target, files);
      EarlyIsNotWhole(Machine(FRESH_REQUEST, target, files), Printed(a));
    }
  }

  lemma EarlyIsNotWhole(m: Machine, stream: string)
    requires EndsEarly(m, stream)
    ensures !Whole(m, stream)
  {
  }

  /** The stored file gains exactly the content if and only if the content survives. */
  lemma StoredIff(a: Ask, files: Files)
    requires a.Upload? && Proper(a)
    ensures UploadedFiles(files, WithoutSpaces(a.part.name), a.boundary, a.content) == FilesBehind(a, files) <==>
      Intact(a)
  {
    hide Proper, Intact, Scanner.ScanLen, Scanner.Terminator, Find;
    var t := Scanner.Terminator(a.boundary);
    var k := Scanner.ScanLen(t, a.content + t);
    TerminatorArrives(a.boundary, a.content);
    IntactSurvives(a);
    KeptPart(a.content, t, k);
    var name := WithoutSpaces(a.part.name);
    var before := if name in files then files[name] else "";
    assert |before + a.content[..k]| == |before| + k && |before + a.content| == |before| + |a.content|;
    assert UploadedFiles(files, name, a.boundary, a.content)[name] == before + a.content[..k];
    assert FilesBehind(a, files)[name] == before + a.content;
  }

  lemma IntactSurvives(a: Ask)
    requires a.Upload? && Proper(a)
    ensures Intact(a) <==> Scanner.Survives(a.boundary, a.content)
  {
    Scanner.SurvivesIff(a.boundary, a.content);
  }

  lemma KeptPart(content: string, t: string, k: nat)
    requires k <= |content|
    ensures (content + t)[..k] == content[..k]
    ensures k == |content| ==> content[..k] == content && (content + t)[k..] == t
  {
  }

  lemma IntactIsWhole(a: Ask, target: string, files: Files)
    requires a.Upload? && Proper(a) && Intact(a)
    ensures Whole(Machine(FRESH_REQUEST, target, files), Printed(a))
  {
    hide Settle, Step, Proper, Printed, Scanner.Terminator, Scanner.ScanLen, UploadedFiles;
    var m := Machine(FRESH_REQUEST, target, files);
    var stream, t := Printed(a), Scanner.Terminator(a.boundary);
    UploadEnds(a, target, files);
    TerminatorArrives(a.boundary, a.content);
    IntactSurvives(a);
    KeptPart(a.content, t, Scanner.ScanLen(t, a.content + t));
    forall n: nat | n < |stream| ensures !AnsweredAt(m, stream, n) {
      if AnsweredAt(m, stream, n) {
        SettleHoldsTerminator(Receive(m, stream[..n]));
        assert stream[..n] + stream[n..] == stream;
        SettledIsStuck(Receive(m, stream[..n]));
        RestingPrefix(m, stream[..n], stream[n..]);
        assert false;
      }
    }
  }

  /** With a terminator inside, the upload up to that terminator is complete already. */
  lemma CompletesEarly(a: Ask, target: string, files: Files)
    requires a.Upload? && Proper(a) && !Intact(a)
    ensures EndsEarly(Machine(FRESH_REQUEST, target, files), Printed(a))
    ensures Scanner.ScanLen(Scanner.Terminator(a.boundary), a.content + Scanner.Terminator(a.boundary)) < |a.content|
  {
    hide Settle, PrintUpload, Proper, Scanner.Terminator, Scanner.ScanLen, Find, Scanner.Survives,
         UploadedFiles, Unread;
    TerminatorArrives(a.boundary, a.content);
    IntactSurvives(a);
    Scanner.NotSurviving(a.boundary, a.content);
    var k := Scanner.ScanLen(Scanner.Terminator(a.boundary), a.content + Scanner.Terminator(a.boundary));
    UploadPrefix(a, k);
    var n := |Printed(a)| - (|a.content| - k);
    StaysProper(a, a.content[..k]);
    UploadEnds(a.(content := a.content[..k]), target, files);
    assert AnsweredAt(Machine(FRESH_REQUEST, target, files), Printed(a), n);
  }

  lemma StaysProper(a: Ask, content: string)
    requires a.Upload? && Proper(a)
    ensures Proper(a.(content := content))
  {
  }

  /** Cutting an upload behind a terminator inside its content leaves an upload. */
  lemma UploadPrefix(a: Ask, k: nat)
    requires a.Upload? && k < |a.content|
    requires OccursAt(a.content + Scanner.Terminator(a.boundary), Scanner.Terminator(a.boundary), k)
    ensures var n := |Printed(a)| - (|a.content| - k);
      0 <= n < |Printed(a)| && Printed(a)[..n] == Printed(a.(content := a.content[..k]))
  {
    hide PrintHead, PrintPart, Scanner.Terminator;
    var t := Scanner.Terminator(a.boundary);
    var head := PrintHead("POST", a.u, a.v, a.fields) + ("--" + a.boundary + CRLF + PrintPart(a.part));
    UploadText(a);
    UploadText(a.(content := a.content[..k]));
    assert (a.content + t)[..k + |t|] == a.content[..k] + t;
    assert (head + (a.content + t))[..|head| + k + |t|] == head + (a.content + t)[..k + |t|];
  }

  lemma UploadText(a: Ask)
    requires a.Upload?
    ensures Printed(a) ==
      PrintHead("POST", a.u, a.v, a.fields) + ("--" + a.boundary + CRLF + PrintPart(a.part))
        + (a.content + Scanner.Terminator(a.boundary))
  {
    hide PrintHead, PrintPart, Scanner.Terminator;
    Scanner.TerminatorText(a.boundary);
    var c := a.content + Scanner.Terminator(a.boundary);
    Associative("--" + a.boundary + CRLF, PrintPart(a.part), c);
    Associative(PrintHead("POST", a.u, a.v, a.fields), "--" + a.boundary + CRLF + PrintPart(a.part), c);
  }

  // ---------------------------------------------------------------- over handler runs

  /** Received in any pieces over any number of handler runs, the upload is
      answered with the redirect and has appended exactly its content. */
  ghost predicate StoredWhole(a: Ask, c: Conn, files: Files)
    requires a.Upload?
  {
    forall passes | Cuts(passes, Printed(a)) ::
      RecvAll(c, files, passes) == Passed(AnsweredWith(c, REDIRECT), FilesBehind(a, files))
  }

  /** Upload round trip over the handler runs themselves: every way to receive a
      printed upload stores exactly its content, touches no other file and is
      answered with the redirect, if and only if the content followed by CRLF does
      not hold the terminator. */
  lemma UploadRoundTrip(a: Ask, c: Conn, files: Files)
    requires a.Upload? && Proper(a) && RequestOf(c) == FRESH_REQUEST
    ensures StoredWhole(a, c, files) <==> Intact(a)
  {
    hide Settle, Step, Proper, Printed, Intact, RecvAll, FilesBehind, AnsweredWith, EndsEarly;
    var m := MachineOf(c, files);
    UploadIsWhole(a, m.target, files);
    UploadEnds(a, m.target, files);
    FreshIsOpen(c, files);
    PrintedNotEmpty(a);
    if Intact(a) {
      forall passes | Cuts(passes, Printed(a))
        ensures RecvAll(c, files, passes) == Passed(AnsweredWith(c, REDIRECT), FilesBehind(a, files))
      {
        ChunkIndependence(c, files, passes);
      }
    } else {
      var one := [[Data(Printed(a))]];
      OnePiece(Printed(a));
      HealthyOne(Printed(a));
      RecvOne(c, files, [Data(Printed(a))]);
      PassAnswers(c, files, [Data(Printed(a))]);
      assert Cuts(one, Printed(a));
    }
  }

  lemma FreshIsOpen(c: Conn, files: Files)
    requires RequestOf(c) == FRESH_REQUEST
    ensures Open(MachineOf(c, files))
  {
    FreshIsStuck(ResponseOf(c).target, files, true);
  }

  lemma PrintedNotEmpty(a: Ask)
    ensures Printed(a) != ""
  {
    hide PrintFields, PrintPart, Scanner.Terminator;
    var m := if a.Get? then "GET" else "POST";
    assert |PrintHead(m, a.u, a.v, a.fields)| >= |CRLF|;
  }

  // ---------------------------------------------------------------- heads of incomplete requests

  /** What a header block has stored. */
  predicate SameHead(a: RequestValue, b: RequestValue) {
    && a.requestMethod == b.requestMethod && a.resource == b.resource && a.version == b.version
    && a.headers == b.headers && a.contentLength == b.contentLength
  }

  lemma BodyKeepsHead(m: Machine, canOpen: bool)
    requires m.req.status == HandleBody && StepBody(m, canOpen).Next?
    ensures var v := StepBody(m, canOpen).m.req;
      SameHead(v, m.req) && (v.status == HandleBody || v.status == HandleComplete)
  {
    hide Advances, CutLine, LineFileName, IsMultipart;
  }

  lemma {:induction false} SettleKeepsHead(m: Machine, canOpen: bool)
    requires (m.req.status == HandleBody || m.req.status == HandleComplete) && Settle(m, canOpen).Settled?
    ensures SameHead(Settle(m, canOpen).m.req, m.req)
    decreases 16 - Rank(m), |m.req.recvMsg|
  {
    hide Settle, StepBody;
    SettleMove(m, canOpen);
    if Step(m, canOpen).Next? {
      BodyKeepsHead(m, canOpen);
      SettleKeepsHead(Step(m, canOpen).m, canOpen);
    }
  }

  /** Header block round trip over any number of handler runs and `recv` calls: of a
      request that is still incomplete behind a printed head, the connection holds
      method, resource, version, the last-wins map and the announced length. */
  lemma HeadOverRuns(m: string, u: string, v: string, fields: seq<Field>, rest: string,
                     c: Conn, files: Files, passes: seq<seq<RecvResult>>)
    requires Words(m, u, v) && Printable(fields) && Accepted(fields) && RequestOf(c) == FRESH_REQUEST
    requires passes != [] && AllData(passes) == PrintHead(m, u, v, fields) + rest
    requires forall i | 0 <= i < |passes| :: Healthy(passes[i])
    requires var o := Settle(Receive(MachineOf(c, files), AllData(passes)), true); o.Settled? && !Resting(o.m, true)
    ensures var p := RecvAll(c, files, passes);
      && p.Passed? && p.c.req.Some? && p.c.interest == ReadOnly
      && var r := p.c.req.value;
      && (r.requestMethod, r.resource, r.version) == (m, u, v)
      && (forall key :: key in r.headers <==> LastOf(Assignments(fields), key).Some?)
      && (forall key | key in r.headers :: LastOf(Assignments(fields), key) == Some(r.headers[key]))
      && r.contentLength == LengthOf(0, fields)
  {
    hide Settle, Step, RecvAll, PrintHead, NoSpace, Assignments, LastOf;
    var target := ResponseOf(c).target;
    FreshIsOpen(c, files);
    ChunkIndependence(c, files, passes);
    OpenIsNotResting(Settle(Receive(MachineOf(c, files), AllData(passes)), true).m);
    FreshReceives(AllData(passes), target, files);
    HeadBack(m, u, v, fields, rest, target, files, true);
    HeadStatus(m, u, v, fields, rest);
    SettleKeepsHead(Machine(HeadRequest(m, u, v, fields, rest), target, files), true);
    LengthInHead(m, u, v, fields, rest);
  }

  lemma LengthInHead(m: string, u: string, v: string, fields: seq<Field>, rest: string)
    ensures HeadRequest(m, u, v, fields, rest).contentLength == LengthOf(0, fields)
  {
  }
}
