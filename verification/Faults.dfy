/** The streams on which the receiver crashes: a header line it cannot take apart,
    an upload without a boundary, a file name without its closing quote. A stream
    is read here as lines, independently of the machine.
 */
module Faults {
  import opened Bytes
  import opened Message
  import opened RequestMachine
  import opened Connection
  import opened Chunking
  import opened RoundTrip
  import Scanner
  import Upload

  /** The complete lines of a header block, without the empty one that ends it. */
  function BlockLines(s: string): seq<string>
    decreases |s|
  {
    match CutLine(s)
    case None => []
    case Some((line, rest)) => if line == CRLF then [] else [line] + BlockLines(rest)
  }

  /** The bytes behind the empty line, if it has arrived. */
  function BehindBlock(s: string): Option<string>
    decreases |s|
  {
    match CutLine(s)
    case None => None
    case Some((line, rest)) => if line == CRLF then Some(rest) else BehindBlock(rest)
  }

  /** A header line on which the parser throws or pops from an empty key. */
  predicate BadField(line: string) {
    LineEffect(line) == Malformed
  }

  /** A part header line that names a file without closing the quote. */
  predicate Unquoted(line: string) {
    LineFileName("", line).None?
  }

  predicate SomeBadField(lines: seq<string>) {
    exists i | 0 <= i < |lines| :: BadField(lines[i])
  }

  predicate SomeUnquoted(lines: seq<string>) {
    exists i | 0 <= i < |lines| :: Unquoted(lines[i])
  }

  /** The request behind its header lines. */
  function Stored(v: RequestValue, lines: seq<string>): RequestValue
    decreases |lines|
  {
    if lines == [] then v
    else match AddHeader(v, lines[0])
      case None => v
      case Some(v1) => Stored(v1, lines[1..])
  }

  /** The body of an upload whose opening line has arrived crashes the receiver: no
      boundary was declared, or the line is the delimiter and a name is not closed. */
  predicate BadBody(v: RequestValue, body: string) {
    v.requestMethod == "POST" && IsMultipart(v) && CutLine(body).Some?
    && var (line, rest) := CutLine(body).value;
       BOUNDARY !in v.headers
       || (line[..|line| - 2] == "--" + v.headers[BOUNDARY] && SomeUnquoted(BlockLines(rest)))
  }

  /** A stream that crashes the receiver. */
  predicate BadStream(s: string) {
    CutLine(s).Some?
    && var (line, rest) := CutLine(s).value;
       var lines := BlockLines(rest);
       SomeBadField(lines)
       || (BehindBlock(rest).Some?
           && BadBody(Stored(WithRequestLine(FRESH_REQUEST, line), lines), BehindBlock(rest).value))
  }

  // ---------------------------------------------------------------- what the lines mean

  /** A field line is bad exactly when it has no key, its Content-Length is no
      number that fits, or its Content-Type ends at its first semicolon. */
  lemma BadFieldIff(line: string)
    ensures BadField(line) <==>
      match HeaderFields(line)
      case None => true
      case Some((key, value)) =>
        (key == CONTENT_LENGTH && Stoll(value).None?)
        || (key == CONTENT_TYPE && IndexOf(value, ';') == Some(|value| - 1))
  {
  }

  /** A name is unclosed exactly when the line has no quote behind its opening one. */
  lemma UnquotedIff(line: string, soFar: string)
    ensures LineFileName(soFar, line).None? <==> Unquoted(line)
    ensures Unquoted(line) <==>
      Find(line, FILENAME).Some?
      && forall k | Find(line, FILENAME).value + |"filename=\""| <= k < |line| :: line[k] != '\"'
  {
    hide Find;
    if Find(line, FILENAME).Some? {
      var cut := Find(line, FILENAME).value + |"filename=\""|;
      var rest := if cut > |line| then "" else line[cut..];
      NoneIn(rest, '\"');
      forall k | cut <= k < |line| ensures line[k] == rest[k - cut] {
      }
    }
  }

  // ---------------------------------------------------------------- header blocks

  lemma HeadLine(m: Machine, canOpen: bool)
    requires m.req.status == HandleHead && CutLine(m.req.recvMsg).Some?
    ensures var (line, rest) := CutLine(m.req.recvMsg).value;
      var v := m.req.(recvMsg := rest);
      if line == CRLF then Settle(m, canOpen) == Settle(m.(req := EnterBody(v)), canOpen)
      else if BadField(line) then Settle(m, canOpen) == Faulted
      else
        && AddHeader(v, line).Some? && AddHeader(v, line).value.recvMsg == rest
        && AddHeader(v, line).value.status == HandleHead
        && Settle(m, canOpen) == Settle(m.(req := AddHeader(v, line).value), canOpen)
  {
    hide Settle, CutLine, LineEffect;
    SettleMove(m, canOpen);
  }

  /** A header block faults on its first bad line, and else leaves the request with
      its fields, in the body if the empty line has arrived. */
  lemma {:induction false} HeadBlock(m: Machine, canOpen: bool)
    requires m.req.status == HandleHead
    ensures var lines, behind := BlockLines(m.req.recvMsg), BehindBlock(m.req.recvMsg);
      if SomeBadField(lines) then Settle(m, canOpen) == Faulted
      else if behind.None? then Settle(m, canOpen).Settled?
      else Settle(m, canOpen) == Settle(m.(req := EnterBody(Stored(m.req, lines).(recvMsg := behind.value))), canOpen)
    decreases |m.req.recvMsg|
  {
    hide Settle, Step, BadField, AddHeader, EnterBody;
    var s := m.req.recvMsg;
    if CutLine(s).None? {
      HeadWaits(m, canOpen);
    } else {
      var (line, rest) := CutLine(s).value;
      HeadLine(m, canOpen);
      if line != CRLF {
        var lines := [line] + BlockLines(rest);
        assert lines[0] == line && lines[1..] == BlockLines(rest);
        if BadField(line) {
          assert BadField(lines[0]);
        } else {
          var v1 := AddHeader(m.req.(recvMsg := rest), line).value;
          HeadBlock(m.(req := v1), canOpen);
          FirstIsFine(lines);
          StoredPending(m.req, lines, rest);
        }
      }
    }
  }

  lemma HeadWaits(m: Machine, canOpen: bool)
    requires m.req.status == HandleHead && CutLine(m.req.recvMsg).None?
    ensures Settle(m, canOpen) == Settled(m)
  {
    SettleMove(m, canOpen);
  }

  lemma FirstIsFine(lines: seq<string>)
    requires lines != [] && !BadField(lines[0])
    ensures SomeBadField(lines) <==> SomeBadField(lines[1..])
  {
    hide BadField;
    if SomeBadField(lines) {
      var i :| 0 <= i < |lines| && BadField(lines[i]);
      assert lines[1..][i - 1] == lines[i];
    }
    if SomeBadField(lines[1..]) {
      var i :| 0 <= i < |lines[1..]| && BadField(lines[1..][i]);
      assert lines[i + 1] == lines[1..][i];
    }
  }

  /** The fields stored do not depend on what is pending. */
  lemma {:induction false} StoredPending(v: RequestValue, lines: seq<string>, rest: string)
    ensures Stored(v.(recvMsg := rest), lines) == Stored(v, lines).(recvMsg := rest)
    decreases |lines|
  {
    if lines != [] {
      ApplyKeepsBuffer(v, LineEffect(lines[0]), rest);
      if AddHeader(v, lines[0]).Some? {
        StoredPending(AddHeader(v, lines[0]).value, lines[1..], rest);
      }
    }
  }

  // ---------------------------------------------------------------- uploads

  predicate InPartHead(v: RequestValue) {
    v.status == HandleBody && v.requestMethod == "POST" && IsMultipart(v) && v.fileStatus == FileHead
    && BOUNDARY in v.headers
  }

  /** One line of a part header: the empty one enters the content phase, an unclosed
      name faults, and any other continues the file name with what it names. */
  lemma PartLine(m: Machine, canOpen: bool)
    requires InPartHead(m.req) && CutLine(m.req.recvMsg).Some?
    ensures var (line, rest) := CutLine(m.req.recvMsg).value;
      if line == CRLF then
        Settle(m, canOpen) == Settle(m.(req := m.req.(recvMsg := rest, fileStatus := FileContent)), canOpen)
      else if Unquoted(line) then Settle(m, canOpen) == Faulted
      else
        && LineFileName(m.req.fileName, line).Some?
        && Settle(m, canOpen) == Settle(m.(req := PartNamed(m.req, line, rest)), canOpen)
  {
    hide Settle, CutLine, LineFileName;
    var line := CutLine(m.req.recvMsg).value.0;
    UnquotedIff(line, m.req.fileName);
    SettleMove(m, canOpen);
  }

  function PartNamed(v: RequestValue, line: string, rest: string): RequestValue {
    v.(recvMsg := rest, fileName := match LineFileName(v.fileName, line) case Some(name) => name case None => "")
  }

  lemma {:induction false} PartBlock(m: Machine, canOpen: bool)
    requires InPartHead(m.req)
    ensures Settle(m, canOpen) == Faulted <==> SomeUnquoted(BlockLines(m.req.recvMsg))
    decreases |m.req.recvMsg|
  {
    hide Settle, Step, Unquoted;
    var s := m.req.recvMsg;
    if CutLine(s).None? {
      PartWaits(m, canOpen);
    } else {
      var (line, rest) := CutLine(s).value;
      PartLine(m, canOpen);
      if line == CRLF {
        ContentSettles(m.(req := m.req.(recvMsg := rest, fileStatus := FileContent)), canOpen);
      } else {
        var lines := [line] + BlockLines(rest);
        assert lines[0] == line && lines[1..] == BlockLines(rest);
        if Unquoted(line) {
          assert Unquoted(lines[0]);
        } else {
          PartBlock(m.(req := PartNamed(m.req, line, rest)), canOpen);
          FirstIsQuoted(lines);
        }
      }
    }
  }

  lemma PartWaits(m: Machine, canOpen: bool)
    requires InPartHead(m.req) && CutLine(m.req.recvMsg).None?
    ensures Settle(m, canOpen) == Settled(m)
  {
    SettleMove(m, canOpen);
  }

  lemma FirstIsQuoted(lines: seq<string>)
    requires lines != [] && !Unquoted(lines[0])
    ensures SomeUnquoted(lines) <==> SomeUnquoted(lines[1..])
  {
    hide Unquoted;
    if SomeUnquoted(lines) {
      var i :| 0 <= i < |lines| && Unquoted(lines[i]);
      assert lines[1..][i - 1] == lines[i];
    }
    if SomeUnquoted(lines[1..]) {
      var i :| 0 <= i < |lines[1..]| && Unquoted(lines[1..][i]);
      assert lines[i + 1] == lines[1..][i];
    }
  }

  /** With a boundary known the content phase never faults. */
  lemma ContentSettles(m: Machine, canOpen: bool)
    requires m.req.status == HandleBody && m.req.requestMethod == "POST" && IsMultipart(m.req)
    requires m.req.fileStatus == FileContent && BOUNDARY in m.req.headers
    ensures Settle(m, canOpen).Settled?
  {
    hide Settle, Scanner.ScanLen, Scanner.ScanDone, Scanner.Terminator;
    SettleMove(m, canOpen);
    if canOpen {
      if m.req.fileName in m.files {
        Upload.SettleContent(m);
      } else {
        Upload.SettleContent(m.(files := m.files[m.req.fileName := ""]));
      }
    }
  }

  /** The body phase behind a header block. */
  lemma BodyFaultIff(m: Machine, canOpen: bool)
    requires m.req.status == HandleBody && m.req.fileStatus == FileBeginFlag
    ensures Settle(m, canOpen) == Faulted <==> BadBody(m.req, m.req.recvMsg)
  {
    hide Settle, Step, CutLine, BlockLines, SomeUnquoted, IsMultipart;
    if m.req.requestMethod == "POST" && IsMultipart(m.req) {
      OpeningFaultIff(m, canOpen);
    } else {
      PlainBodySettles(m, canOpen);
    }
  }

  lemma PlainBodySettles(m: Machine, canOpen: bool)
    requires m.req.status == HandleBody && !(m.req.requestMethod == "POST" && IsMultipart(m.req))
    ensures Settle(m, canOpen).Settled?
  {
    hide Settle;
    if m.req.requestMethod == "PUT" {
      PutSettles(m, canOpen);
    } else {
      SettleMove(m, canOpen);
      SettleMove(Complete(m, if m.req.requestMethod == "GET" then m.req.resource else REDIRECT), canOpen);
    }
  }

  /** The opening line: no boundary, the delimiter, or something else. */
  lemma OpeningMove(m: Machine, canOpen: bool)
    requires m.req.status == HandleBody && m.req.fileStatus == FileBeginFlag
    requires m.req.requestMethod == "POST" && IsMultipart(m.req)
    ensures CutLine(m.req.recvMsg).None? ==> Settle(m, canOpen).Settled?
    ensures CutLine(m.req.recvMsg).Some? && BOUNDARY !in m.req.headers ==> Settle(m, canOpen) == Faulted
    ensures CutLine(m.req.recvMsg).Some? && BOUNDARY in m.req.headers ==>
      var (line, rest) := CutLine(m.req.recvMsg).value;
      if line[..|line| - 2] == "--" + m.req.headers[BOUNDARY]
      then Settle(m, canOpen) == Settle(m.(req := m.req.(recvMsg := rest, fileStatus := FileHead)), canOpen)
      else Settle(m, canOpen).Settled?
  {
    hide Settle, CutLine, IsMultipart;
    SettleMove(m, canOpen);
    SettleMove(Complete(m, REDIRECT), canOpen);
  }

  lemma OpeningFaultIff(m: Machine, canOpen: bool)
    requires m.req.status == HandleBody && m.req.fileStatus == FileBeginFlag
    requires m.req.requestMethod == "POST" && IsMultipart(m.req)
    ensures Settle(m, canOpen) == Faulted <==> BadBody(m.req, m.req.recvMsg)
  {
    hide Settle, Step, CutLine, BlockLines, SomeUnquoted, IsMultipart;
    OpeningMove(m, canOpen);
    if CutLine(m.req.recvMsg).Some? && BOUNDARY in m.req.headers {
      var rest := CutLine(m.req.recvMsg).value.1;
      InPart(m, rest);
      PartBlock(m.(req := m.req.(recvMsg := rest, fileStatus := FileHead)), canOpen);
    }
  }

  lemma InPart(m: Machine, rest: string)
    requires m.req.status == HandleBody && m.req.requestMethod == "POST" && IsMultipart(m.req)
    requires BOUNDARY in m.req.headers
    ensures InPartHead(m.req.(recvMsg := rest, fileStatus := FileHead))
  {
  }

  // ---------------------------------------------------------------- whole streams

  /** The machine faults exactly on the bad streams. */
  lemma StreamFaultIff(s: string, target: string, files: Files, canOpen: bool)
    ensures Settle(Receive(Machine(FRESH_REQUEST, target, files), s), canOpen) == Faulted <==> BadStream(s)
  {
    hide Settle, Step, CutLine, BlockLines, BehindBlock, SomeBadField, Stored, BadBody;
    EmptyConcat(s);
    var m := Receive(Machine(FRESH_REQUEST, target, files), s);
    FirstLineMove(m, canOpen);
    if CutLine(s).Some? {
      var (line, rest) := CutLine(s).value;
      var v := WithRequestLine(FRESH_REQUEST, line);
      var v0 := v.(recvMsg := rest, status := HandleHead);
      HeadBlock(m.(req := v0), canOpen);
      if !SomeBadField(BlockLines(rest)) && BehindBlock(rest).Some? {
        var body := BehindBlock(rest).value;
        StoredKeeps(v, BlockLines(rest), rest);
        var v1 := Stored(v0, BlockLines(rest)).(recvMsg := body);
        BodyFaultIff(m.(req := EnterBody(v1)), canOpen);
        BadBodyEntered(Stored(v, BlockLines(rest)), v1, body);
      }
    }
  }

  lemma FirstLineMove(m: Machine, canOpen: bool)
    requires m.req.status == HandleInit
    ensures match CutLine(m.req.recvMsg)
      case None => Settle(m, canOpen) == Settled(m)
      case Some((line, rest)) =>
        Settle(m, canOpen)
          == Settle(m.(req := WithRequestLine(m.req.(recvMsg := rest, status := HandleHead), line)), canOpen)
  {
    hide Settle, CutLine;
    SettleMove(m, canOpen);
  }

  /** The fields stored do not depend on the buffer and the status. */
  lemma {:induction false} StoredKeeps(v: RequestValue, lines: seq<string>, rest: string)
    requires v.fileStatus == FileBeginFlag
    ensures var a, b := Stored(v, lines), Stored(v.(recvMsg := rest, status := HandleHead), lines);
      a.headers == b.headers && a.requestMethod == b.requestMethod && b.fileStatus == FileBeginFlag
    decreases |lines|
  {
    if lines != [] && AddHeader(v, lines[0]).Some? {
      StoredKeeps(AddHeader(v, lines[0]).value, lines[1..], rest);
    }
  }

  lemma BadBodyEntered(a: RequestValue, b: RequestValue, body: string)
    requires a.headers == b.headers && a.requestMethod == b.requestMethod && b.recvMsg == body
    ensures BadBody(EnterBody(b), EnterBody(b).recvMsg) <==> BadBody(a, body)
  {
  }

  /** The exact condition under which a receive handler crashes on a connection
      without a request: the bytes on offer are a bad stream. */
  lemma RecvCrashIff(c: Conn, files: Files, input: seq<RecvResult>, canOpen: bool)
    requires RequestOf(c) == FRESH_REQUEST
    ensures RecvPass(c, files, input, canOpen) == Crashed <==> BadStream(DataOf(input))
  {
    hide Settle, Step, RecvLoop, BadStream;
    var m := MachineOf(c, files);
    FreshIsStuck(m.target, files, canOpen);
    LoopCrashIff(m, input, canOpen);
    StreamFaultIff(DataOf(input), m.target, files, canOpen);
  }

  /** The same over any number of runs: a stream that does not answer a request
      early crashes the server exactly when it is bad, however it is cut. */
  lemma RecvAllCrashIff(c: Conn, files: Files, passes: seq<seq<RecvResult>>)
    requires RequestOf(c) == FRESH_REQUEST && Cuts(passes, AllData(passes))
    requires !EndsEarly(MachineOf(c, files), AllData(passes))
    ensures RecvAll(c, files, passes) == Crashed <==> BadStream(AllData(passes))
  {
    hide Settle, Step, RecvAll, BadStream, EndsEarly;
    var m := MachineOf(c, files);
    FreshIsStuck(m.target, files, true);
    ChunkIndependence(c, files, passes);
    AnyOutcome(m, AllData(passes));
    StreamFaultIff(AllData(passes), m.target, files, true);
  }

  // ---------------------------------------------------------------- the inputs

  /** A header line of white space has no key: `GET`, CRLF, a space, CRLF. */
  lemma EmptyKeyCrashes(c: Conn, files: Files, canOpen: bool)
    requires RequestOf(c) == FRESH_REQUEST
    ensures RecvPass(c, files, [Data("GET" + CRLF + (" " + CRLF))], canOpen) == Crashed
  {
    hide RecvPass, CutLine, RequestLine, ReadWord;
    var stream := "GET" + CRLF + (" " + CRLF);
    CutPrinted("GET", " " + CRLF);
    CutPrinted(" ", "");
    EmptyConcat(" " + CRLF);
    NoKey();
    var lines := BlockLines(" " + CRLF);
    assert lines[0] == " " + CRLF && BadField(lines[0]);
    assert BadStream(stream);
    HealthyOne(stream);
    RecvCrashIff(c, files, [Data(stream)], canOpen);
  }

  lemma NoKey()
    ensures BadField(" " + CRLF) && " " + CRLF != CRLF
  {
    var s := " " + CRLF;
    assert s[1..] == CRLF && CRLF[1..] == "\n" && "\n"[1..] == "";
    assert SkipSpaces(s) == "";
  }

  /** The printed head of a multipart POST, with any body behind it. */
  lemma MultipartFaultIff(u: string, v: string, fields: seq<Field>, body: string,
                          target: string, files: Files, canOpen: bool)
    requires Words("POST", u, v) && Printable(fields) && Accepted(fields)
    requires LastOf(Assignments(fields), CONTENT_TYPE) == Some(MULTIPART)
    ensures var head := PrintHead("POST", u, v, fields);
      Settle(Receive(Machine(FRESH_REQUEST, target, files), head + body), canOpen) == Faulted <==>
        BadBody(HeadRequest("POST", u, v, fields, body), body)
    ensures forall b :: LastOf(Assignments(fields), BOUNDARY) == Some(b) ==>
      BOUNDARY in HeadRequest("POST", u, v, fields, body).headers
      && HeadRequest("POST", u, v, fields, body).headers[BOUNDARY] == b
    ensures LastOf(Assignments(fields), BOUNDARY).None? ==>
      BOUNDARY !in HeadRequest("POST", u, v, fields, body).headers
    ensures var r := HeadRequest("POST", u, v, fields, body); r.requestMethod == "POST" && IsMultipart(r)
  {
    hide Settle, Step, BadBody, PrintHead, NoSpace;
    HeadBack("POST", u, v, fields, body, target, files, canOpen);
    EmptyConcat(PrintHead("POST", u, v, fields) + body);
    var r := HeadRequest("POST", u, v, fields, body);
    BodyFaultIff(Machine(r, target, files), canOpen);
  }

  /** A multipart POST that declares no boundary crashes the server with the first
      complete line of its body. */
  lemma NoBoundaryCrashes(u: string, v: string, fields: seq<Field>, line: string, rest: string,
                          c: Conn, files: Files, canOpen: bool)
    requires RequestOf(c) == FRESH_REQUEST && '\n' !in line
    requires Words("POST", u, v) && Printable(fields) && Accepted(fields)
    requires LastOf(Assignments(fields), CONTENT_TYPE) == Some(MULTIPART)
    requires LastOf(Assignments(fields), BOUNDARY).None?
    ensures RecvPass(c, files, [Data(PrintHead("POST", u, v, fields) + (line + CRLF + rest))], canOpen) == Crashed
  {
    hide Settle, PrintHead, HeadRequest, CutLine, BlockLines, NoSpace, RecvPass, BadStream;
    var body := line + CRLF + rest;
    MultipartFaultIff(u, v, fields, body, ResponseOf(c).target, files, canOpen);
    CutPrinted(line, rest);
    StreamCrashes(c, files, PrintHead("POST", u, v, fields) + body, canOpen);
  }

  /** The simplest such POST: one field, `Content-Type: multipart/form-data`. */
  lemma BareMultipartCrashes(u: string, v: string, c: Conn, files: Files, canOpen: bool)
    requires RequestOf(c) == FRESH_REQUEST && Words("POST", u, v)
    ensures var head := PrintHead("POST", u, v, [(CONTENT_TYPE, MULTIPART)]);
      RecvPass(c, files, [Data(head + ("x" + CRLF + ""))], canOpen) == Crashed
  {
    hide RecvPass, PrintHead, NoSpace;
    BareMultipart();
    NoBoundaryCrashes(u, v, [(CONTENT_TYPE, MULTIPART)], "x", "", c, files, canOpen);
  }

  lemma BareMultipart()
    ensures var fields := [(CONTENT_TYPE, MULTIPART)];
      && Printable(fields) && Accepted(fields)
      && LastOf(Assignments(fields), CONTENT_TYPE) == Some(MULTIPART)
      && LastOf(Assignments(fields), BOUNDARY).None?
  {
    hide Effect, PrintableField;
    QuietType();
    PlainField((CONTENT_TYPE, MULTIPART), BOUNDARY);
  }

  lemma QuietType()
    ensures Effect(CONTENT_TYPE, MULTIPART) == Assign([(CONTENT_TYPE, MULTIPART)])
    ensures PrintableField((CONTENT_TYPE, MULTIPART)) && CONTENT_TYPE != BOUNDARY
  {
    hide Stoll, IndexOf, IndexFrom, ContentTypeEffect, NoSpace;
    NoSemicolon();
    WholeType(MULTIPART);
    TypeIsName();
    assert |CONTENT_TYPE| != |CONTENT_LENGTH| && |CONTENT_TYPE| != |BOUNDARY|;
  }

  lemma NoSemicolon()
    ensures IndexOf(MULTIPART, ';').None? && '\n' !in MULTIPART
  {
    hide IndexOf;
    forall k | 0 <= k < |MULTIPART| ensures MULTIPART[k] != ';' && MULTIPART[k] != '\n' {
    }
    NoneIn(MULTIPART, ';');
  }

  lemma NoneIn(s: string, c: char)
    ensures IndexOf(s, c).None? <==> forall k | 0 <= k < |s| :: s[k] != c
  {
    if IndexOf(s, c).Some? {
      assert s[IndexOf(s, c).value] == c;
    } else {
      forall k | 0 <= k < |s| ensures s[k] != c {
        assert s[k] == s[0..][k];
      }
    }
  }

  lemma WholeType(value: string)
    requires IndexOf(value, ';').None?
    ensures ContentTypeEffect(value) == Assign([(CONTENT_TYPE, value)])
  {
  }

  lemma TypeIsName()
    ensures NoSpace(CONTENT_TYPE)
  {
  }

  /** A field that is stored as it is. */
  lemma PlainField(f: Field, other: string)
    requires PrintableField(f) && Effect(f.0, f.1) == Assign([f]) && f.0 != other
    ensures Printable([f]) && Accepted([f])
    ensures LastOf(Assignments([f]), f.0) == Some(f.1) && LastOf(Assignments([f]), other).None?
  {
    hide Effect;
    assert [f][1..] == [] && Assignments([f]) == [f] + [];
    assert [f] + [] == [f] && [f][..0] == [];
  }

  /** An upload whose part header names a file and does not close the quote. */
  lemma UnclosedNameCrashes(u: string, v: string, fields: seq<Field>, boundary: string, line: string, rest: string,
                            c: Conn, files: Files, canOpen: bool)
    requires RequestOf(c) == FRESH_REQUEST
    requires Words("POST", u, v) && Printable(fields) && Accepted(fields) && Declares(fields, boundary)
    requires '\n' !in boundary && '\n' !in line && line != "" && Unquoted(line + CRLF)
    ensures RecvPass(c, files, [Data(PrintHead("POST", u, v, fields)
                                     + ("--" + boundary + CRLF + (line + CRLF + rest)))], canOpen) == Crashed
  {
    hide Settle, PrintHead, HeadRequest, CutLine, Unquoted, NoSpace, RecvPass, BadStream;
    var part := line + CRLF + rest;
    var body := "--" + boundary + CRLF + part;
    MultipartFaultIff(u, v, fields, body, ResponseOf(c).target, files, canOpen);
    var opening := "--" + boundary;
    CutPrinted(opening, part);
    assert (opening + CRLF)[..|opening + CRLF| - 2] == opening;
    CutPrinted(line, rest);
    assert |line + CRLF| > 2;
    assert BlockLines(part)[0] == line + CRLF;
    StreamCrashes(c, files, PrintHead("POST", u, v, fields) + body, canOpen);
  }

  lemma StreamCrashes(c: Conn, files: Files, stream: string, canOpen: bool)
    requires RequestOf(c) == FRESH_REQUEST
    requires Settle(Receive(Machine(FRESH_REQUEST, ResponseOf(c).target, files), stream), canOpen) == Faulted
    ensures RecvPass(c, files, [Data(stream)], canOpen) == Crashed
  {
    hide RecvLoop, Settle, Step;
    HealthyOne(stream);
    FreshIsStuck(ResponseOf(c).target, files, canOpen);
    LoopCrashIff(MachineOf(c, files), [Data(stream)], canOpen);
  }
}
