/** Printing a message and reading it back with the repository's own parser:
    header blocks, whole uploads, and the length line of every response head.
 */
module RoundTrip {
  import opened Bytes
  import opened Message
  import opened RequestMachine
  import ResponseMachine
  import Scanner
  import Upload

  type Field = (string, string)

  /** A name without white space, a value without line feed. */
  predicate PrintableField(f: Field) {
    NoSpace(f.0) && '\n' !in f.1
  }

  predicate Printable(fields: seq<Field>) {
    forall i | 0 <= i < |fields| :: PrintableField(fields[i])
  }

  function PrintField(f: Field): string {
    f.0 + ": " + f.1 + "\r\n"
  }

  function PrintFields(fields: seq<Field>): string {
    if fields == [] then "" else PrintField(fields[0]) + PrintFields(fields[1..])
  }

  function PrintRequestLine(m: string, u: string, v: string): string {
    m + " " + u + " " + v + "\r\n"
  }

  function PrintHead(m: string, u: string, v: string, fields: seq<Field>): string {
    PrintRequestLine(m, u, v) + PrintFields(fields) + CRLF
  }

  // ---------------------------------------------------------------- one line

  lemma RequestLineBack(m: string, u: string, v: string)
    requires m != "" && u != "" && v != "" && NoSpace(m) && NoSpace(u) && NoSpace(v)
    ensures RequestLine(PrintRequestLine(m, u, v)) == (m, u, v)
  {
    var r2 := " " + v + CRLF;
    var r1 := " " + u + r2;
    assert PrintRequestLine(m, u, v) == m + r1;
    ReadWordOf(m, r1);
    ReadWordOf(u, r2);
    ReadWordOf(v, CRLF);
  }

  lemma FirstLineOf(v: string)
    requires '\n' !in v
    ensures FirstLine(v + CRLF) == v
  {
    var s := v + CRLF;
    var i := |v| + 1;
    assert s[i] == '\n';
    forall k | 0 <= k < i ensures s[k] != '\n' {
      assert k < |v| ==> s[k] == v[k];
    }
    IndexFromIs(s, '\n', 0, i);
    assert s[..i] == v + "\r";
    assert (v + "\r")[..|v|] == v;
  }

  lemma HeaderFieldsBack(f: Field)
    requires PrintableField(f)
    ensures HeaderFields(PrintField(f)) == Some(f)
  {
    var word := f.0 + ":";
    var rest := " " + f.1 + CRLF;
    assert PrintField(f) == word + rest;
    ReadWordOf(word, rest);
    assert word[..|word| - 1] == f.0;
    assert rest[1..] == f.1 + CRLF;
    FirstLineOf(f.1);
  }

  lemma CutPrinted(text: string, rest: string)
    requires '\n' !in text
    ensures CutLine(text + CRLF + rest) == Some((text + CRLF, rest))
  {
    FindLineEnd(text, rest);
    var s := text + CRLF + rest;
    assert s[..|text| + 2] == text + CRLF;
    assert s[|text| + 2..] == rest;
  }

  lemma NoLineFeed(s: string)
    requires NoSpace(s)
    ensures '\n' !in s
  {
  }

  // ---------------------------------------------------------------- header blocks

  /** No field on which the parser throws. */
  predicate Accepted(fields: seq<Field>) {
    forall i | 0 <= i < |fields| :: Effect(fields[i].0, fields[i].1) != Malformed
  }

  /** The assignments to the header map that a list of fields makes, in order:
      Content-Length makes none, Content-Type may make two. */
  function Assignments(fields: seq<Field>): seq<Field> {
    if fields == [] then []
    else
      var e := Effect(fields[0].0, fields[0].1);
      (if e.Assign? then e.fields else []) + Assignments(fields[1..])
  }

  /** The last accepted Content-Length, or what was known before. */
  function LengthOf(n: int, fields: seq<Field>): int
    decreases |fields|
  {
    if fields == [] then n
    else
      var e := Effect(fields[0].0, fields[0].1);
      LengthOf(if e.Length? then e.n else n, fields[1..])
  }

  /** The last assignment to `key`. */
  function LastOf(fields: seq<Field>, key: string): Option<string> {
    if fields == [] then None
    else if fields[|fields| - 1].0 == key then Some(fields[|fields| - 1].1)
    else LastOf(fields[..|fields| - 1], key)
  }

  lemma {:induction false} AssignAllSplit(h: Headers, a: seq<Field>, b: seq<Field>)
    ensures AssignAll(h, a + b) == AssignAll(AssignAll(h, a), b)
    decreases |a|
  {
    if a == [] {
      assert a + b == b;
    } else {
      assert (a + b)[1..] == a[1..] + b;
      AssignAllSplit(h[a[0].0 := a[0].1], a[1..], b);
    }
  }

  /** A header map holds, for every key, the value assigned last. */
  lemma {:induction false} LastAssignmentWins(h: Headers, fields: seq<Field>, key: string)
    ensures key in AssignAll(h, fields) <==> LastOf(fields, key).Some? || key in h
    ensures key in AssignAll(h, fields) ==>
      AssignAll(h, fields)[key] == match LastOf(fields, key) case Some(v) => v case None => h[key]
    decreases |fields|
  {
    if fields != [] {
      var n := |fields| - 1;
      assert fields == fields[..n] + [fields[n]];
      AssignAllSplit(h, fields[..n], [fields[n]]);
      LastAssignmentWins(h, fields[..n], key);
      assert AssignAll(AssignAll(h, fields[..n]), [fields[n]]) == AssignAll(h, fields[..n])[fields[n].0 := fields[n].1];
    }
  }

  /** The request after the fields have been stored. */
  function WithFields(v: RequestValue, fields: seq<Field>): RequestValue {
    v.(headers := AssignAll(v.headers, Assignments(fields)), contentLength := LengthOf(v.contentLength, fields))
  }

  lemma FieldMove(m: Machine, f: Field, rest: string, canOpen: bool)
    requires m.req.status == HandleHead && PrintableField(f) && Effect(f.0, f.1) != Malformed
    requires m.req.recvMsg == PrintField(f) + rest
    ensures Step(m, canOpen) == Next(m.(req := WithFields(m.req, [f]).(recvMsg := rest)))
  {
    var text := f.0 + ": " + f.1;
    NoLineFeed(f.0);
    assert PrintField(f) == text + CRLF;
    CutPrinted(text, rest);
    HeaderFieldsBack(f);
    assert |text| >= 2;
    var e := Effect(f.0, f.1);
    assert Assignments([f]) == (if e.Assign? then e.fields else []) by {
      assert [f][1..] == [];
    }
    assert LengthOf(m.req.contentLength, [f]) == if e.Length? then e.n else m.req.contentLength by {
      assert [f][1..] == [];
    }
  }

  lemma WithFieldsSplit(v: RequestValue, f: Field, rest: seq<Field>)
    ensures WithFields(WithFields(v, [f]), rest) == WithFields(v, [f] + rest)
  {
    var e := Effect(f.0, f.1);
    assert [f][1..] == [] && ([f] + rest)[1..] == rest;
    var a := if e.Assign? then e.fields else [];
    assert Assignments([f]) == a + [] == a;
    assert ([f] + rest)[0] == f;
    assert Assignments([f] + rest) == a + Assignments(rest);
    AssignAllSplit(v.headers, a, Assignments(rest));
    assert LengthOf(v.contentLength, [f]) == if e.Length? then e.n else v.contentLength;
    assert LengthOf(v.contentLength, [f] + rest) == LengthOf(LengthOf(v.contentLength, [f]), rest);
  }

  lemma StillHead(v: RequestValue, f: Field, more: seq<Field>, tail: string, rest: string)
    ensures WithFields(v, [f]).status == v.status
    ensures WithFields(WithFields(v, [f]).(recvMsg := tail), more).(recvMsg := rest)
      == WithFields(WithFields(v, [f]), more).(recvMsg := rest)
  {
  }

  lemma HeadEnd(m: Machine, rest: string, canOpen: bool)
    requires m.req.status == HandleHead && m.req.recvMsg == "" + CRLF + rest
    ensures Settle(m, canOpen) == Settle(m.(req := EnterBody(WithFields(m.req, []).(recvMsg := rest))), canOpen)
  {
    hide Settle;
    CutPrinted("", rest);
    assert "" + CRLF == CRLF;
    assert WithFields(m.req, []) == m.req;
    SettleMove(m, canOpen);
  }

  /** Reading a printed header block stores every field and enters the body. */
  lemma {:induction false} HeadersBack(m: Machine, fields: seq<Field>, rest: string, canOpen: bool)
    requires m.req.status == HandleHead && Printable(fields) && Accepted(fields)
    requires m.req.recvMsg == PrintFields(fields) + CRLF + rest
    ensures Settle(m, canOpen)
      == Settle(m.(req := EnterBody(WithFields(m.req, fields).(recvMsg := rest))), canOpen)
    decreases |fields|
  {
    hide Settle, Step, WithFields, PrintField, Effect, PrintableField, EnterBody;
    if fields == [] {
      assert m.req.recvMsg == "" + CRLF + rest;
      HeadEnd(m, rest, canOpen);
    } else {
      var tail := PrintFields(fields[1..]) + CRLF + rest;
      assert m.req.recvMsg == PrintField(fields[0]) + tail;
      FieldMove(m, fields[0], tail, canOpen);
      SettleMove(m, canOpen);
      var m1 := m.(req := WithFields(m.req, [fields[0]]).(recvMsg := tail));
      StillHead(m.req, fields[0], fields[1..], tail, rest);
      HeadersBack(m1, fields[1..], rest, canOpen);
      assert fields == [fields[0]] + fields[1..];
      WithFieldsSplit(m.req, fields[0], fields[1..]);
    }
  }

  predicate Words(m: string, u: string, v: string) {
    m != "" && u != "" && v != "" && NoSpace(m) && NoSpace(u) && NoSpace(v)
  }

  /** The request a printed head describes, with the bytes behind the head pending. */
  function HeadRequest(m: string, u: string, v: string, fields: seq<Field>, rest: string): RequestValue {
    EnterBody(WithFields(FRESH_REQUEST.(requestMethod := m, resource := u, version := v, recvMsg := rest), fields))
  }

  /** Reading a start line with these words and a printed header block. */
  lemma StartBack(text: string, m: string, u: string, v: string, fields: seq<Field>, rest: string,
                  target: string, files: map<string, string>, canOpen: bool)
    requires '\n' !in text && RequestLine(text + CRLF) == (m, u, v)
    requires Printable(fields) && Accepted(fields)
    ensures Settle(Machine(FRESH_REQUEST.(recvMsg := text + CRLF + (PrintFields(fields) + CRLF + rest)),
                          target, files), canOpen)
      == Settle(Machine(HeadRequest(m, u, v, fields, rest), target, files), canOpen)
  {
    hide Settle;
    var tail := PrintFields(fields) + CRLF + rest;
    var m0 := Machine(FRESH_REQUEST.(recvMsg := text + CRLF + tail), target, files);
    CutPrinted(text, tail);
    var m1 := m0.(req := FRESH_REQUEST.(requestMethod := m, resource := u, version := v,
                                       status := HandleHead, recvMsg := tail));
    assert Step(m0, canOpen) == Next(m1);
    SettleMove(m0, canOpen);
    HeadersBack(m1, fields, rest, canOpen);
  }

  /** Header block round trip: a printed request line and any list of fields are
      read back as method, resource, version and the header map in which, for
      every key, the last assignment wins. */
  lemma HeadBack(m: string, u: string, v: string, fields: seq<Field>, rest: string,
                 target: string, files: map<string, string>, canOpen: bool)
    requires Words(m, u, v) && Printable(fields) && Accepted(fields)
    ensures Settle(Machine(FRESH_REQUEST.(recvMsg := PrintHead(m, u, v, fields) + rest), target, files), canOpen)
      == Settle(Machine(HeadRequest(m, u, v, fields, rest), target, files), canOpen)
    ensures var r := HeadRequest(m, u, v, fields, rest);
      && (r.requestMethod, r.resource, r.version) == (m, u, v)
      && (forall key :: key in r.headers <==> LastOf(Assignments(fields), key).Some?)
      && (forall key | key in r.headers :: LastOf(Assignments(fields), key) == Some(r.headers[key]))
  {
    hide Settle, NoSpace, PrintFields, Accepted, Printable, RequestLine;
    var text := m + " " + u + " " + v;
    assert PrintHead(m, u, v, fields) + rest == text + CRLF + (PrintFields(fields) + CRLF + rest);
    NoLineFeed(m);
    NoLineFeed(u);
    NoLineFeed(v);
    RequestLineBack(m, u, v);
    StartBack(text, m, u, v, fields, rest, target, files, canOpen);
    forall key
      ensures key in AssignAll(map[], Assignments(fields)) <==> LastOf(Assignments(fields), key).Some?
      ensures key in AssignAll(map[], Assignments(fields)) ==>
        LastOf(Assignments(fields), key) == Some(AssignAll(map[], Assignments(fields))[key])
    {
      LastAssignmentWins(map[], Assignments(fields), key);
    }
  }

  /** A Content-Type with one parameter stores the type and the parameter under
      its own name; Content-Length is kept as a number and not as a field. */
  lemma SpecialFields(kind: string, name: string, value: string, n: nat)
    requires ';' !in kind && '=' !in name
    ensures Effect("Content-Type", kind + "; " + name + "=" + value) == Assign([("Content-Type", kind), (name, value)])
    ensures Effect("Content-Length", ToString(n)) == if n <= 0x7FFF_FFFF_FFFF_FFFF then Length(n) else Malformed
  {
    ContentTypeBack(kind, name, value);
    StollOfToString(n);
  }

  lemma ContentTypeBack(kind: string, name: string, value: string)
    requires ';' !in kind && '=' !in name
    ensures ContentTypeEffect(kind + "; " + name + "=" + value) == Assign([(CONTENT_TYPE, kind), (name, value)])
  {
    var s := kind + "; " + name + "=" + value;
    var semi := |kind|;
    var e := semi + 2 + |name|;
    assert s[..semi] == kind && s[semi] == ';' && s[semi + 1] == ' ';
    assert s[e] == '=' && s[semi + 2..e] == name && s[e + 1..] == value;
    forall k | 0 <= k < semi ensures s[k] != ';' {
      assert s[k] == kind[k];
    }
    IndexFromIs(s, ';', 0, semi);
    forall k | semi <= k < e ensures s[k] != '=' {
      assert k >= semi + 2 ==> s[k] == name[k - semi - 2];
    }
    IndexFromIs(s, '=', semi, e);
  }

  // ---------------------------------------------------------------- uploads

  /** The header lines of a one-file part: plain lines around the one that names the file. */
  datatype PartHead = PartHead(before: seq<string>, lead: string, name: string, tail: string, after: seq<string>)

  function NameLine(p: PartHead): string {
    p.lead + "filename=\"" + p.name + "\"" + p.tail
  }

  predicate PlainLine(line: string) {
    line != "" && '\n' !in line && Find(line + "\r\n", "filename").None?
  }

  predicate PrintablePart(p: PartHead) {
    && (forall i | 0 <= i < |p.before| :: PlainLine(p.before[i]))
    && (forall i | 0 <= i < |p.after| :: PlainLine(p.after[i]))
    && '\n' !in NameLine(p)
    && '\"' !in p.name
    && Find(NameLine(p) + "\r\n", "filename") == Some(|p.lead|)
  }

  function PrintLines(lines: seq<string>): string {
    if lines == [] then "" else lines[0] + CRLF + PrintLines(lines[1..])
  }

  function PrintPart(p: PartHead): string {
    PrintLines(p.before) + (NameLine(p) + CRLF) + PrintLines(p.after) + CRLF
  }

  /** A whole upload: head, opening delimiter, part header, content, closing delimiter. */
  function PrintUpload(u: string, v: string, fields: seq<Field>, boundary: string,
                       p: PartHead, content: string): string {
    PrintHead("POST", u, v, fields) + UploadBody(boundary, p, content)
  }

  function UploadBody(boundary: string, p: PartHead, content: string): string {
    "--" + boundary + "\r\n" + (PrintPart(p) + (content + ("\r\n--" + boundary + "--\r\n")))
  }

  predicate ReadsPartHead(m: Machine) {
    && m.req.status == HandleBody && m.req.requestMethod == "POST" && IsMultipart(m.req)
    && m.req.fileStatus == FileHead
  }

  lemma {:induction false} PlainLinesBack(m: Machine, lines: seq<string>, rest: string, canOpen: bool)
    requires ReadsPartHead(m) && m.req.recvMsg == PrintLines(lines) + rest
    requires forall i | 0 <= i < |lines| :: PlainLine(lines[i])
    ensures Settle(m, canOpen) == Settle(m.(req := m.req.(recvMsg := rest)), canOpen)
    decreases |lines|
  {
    hide Settle;
    if lines == [] {
      assert m.req.recvMsg == rest;
    } else {
      var more := PrintLines(lines[1..]) + rest;
      assert PlainLine(lines[0]);
      assert m.req.recvMsg == lines[0] + CRLF + more;
      CutPrinted(lines[0], more);
      var m1 := m.(req := m.req.(recvMsg := more));
      assert lines[0] + CRLF != CRLF by { assert |lines[0] + CRLF| > 2; }
      assert Step(m, canOpen) == Next(m1);
      SettleMove(m, canOpen);
      PlainLinesBack(m1, lines[1..], rest, canOpen);
    }
  }

  lemma NameBack(p: PartHead)
    requires PrintablePart(p)
    ensures LineFileName("", NameLine(p) + CRLF) == Some(WithoutSpaces(p.name))
  {
    var line := NameLine(p) + CRLF;
    var cut := |p.lead| + |"filename=\""|;
    var rest := p.name + "\"" + p.tail + CRLF;
    assert line[cut..] == rest;
    forall k | 0 <= k < |p.name| ensures rest[k] != '\"' {
      assert rest[k] == p.name[k];
    }
    IndexFromIs(rest, '\"', 0, |p.name|);
    assert "" + rest[..|p.name|] == p.name;
  }

  lemma NameLineBack(m: Machine, p: PartHead, rest: string, canOpen: bool)
    requires ReadsPartHead(m) && PrintablePart(p)
    requires m.req.fileName == "" && m.req.recvMsg == NameLine(p) + CRLF + rest
    ensures Settle(m, canOpen) == Settle(m.(req := m.req.(fileName := WithoutSpaces(p.name), recvMsg := rest)), canOpen)
  {
    hide Settle;
    CutPrinted(NameLine(p), rest);
    NameBack(p);
    assert NameLine(p) + CRLF != CRLF by { assert |NameLine(p) + CRLF| > 2; }
    assert Step(m, canOpen) == Next(m.(req := m.req.(fileName := WithoutSpaces(p.name), recvMsg := rest)));
    SettleMove(m, canOpen);
  }

  lemma PartHeadEnd(m: Machine, rest: string, canOpen: bool)
    requires ReadsPartHead(m) && m.req.recvMsg == CRLF + rest
    ensures Settle(m, canOpen) == Settle(m.(req := m.req.(recvMsg := rest, fileStatus := FileContent)), canOpen)
  {
    hide Settle, LineFileName;
    EmptyConcat(CRLF);
    CutPrinted("", rest);
    SettleMove(m, canOpen);
  }

  /** Reading a printed part header finds the file name and enters the content phase. */
  lemma PartHeadBack(m: Machine, p: PartHead, rest: string, canOpen: bool)
    requires ReadsPartHead(m) && PrintablePart(p)
    requires m.req.fileName == "" && m.req.recvMsg == PrintPart(p) + rest
    ensures Settle(m, canOpen)
      == Settle(m.(req := m.req.(fileStatus := FileContent, fileName := WithoutSpaces(p.name),
                                 recvMsg := rest)), canOpen)
  {
    hide Settle, Step, PlainLine, LineFileName, NameLine;
    var r2 := CRLF + rest;
    var r1 := PrintLines(p.after) + r2;
    var r0 := NameLine(p) + CRLF + r1;
    assert m.req.recvMsg == PrintLines(p.before) + r0;
    PlainLinesBack(m, p.before, r0, canOpen);
    var m0 := m.(req := m.req.(recvMsg := r0));
    NameLineBack(m0, p, r1, canOpen);
    var m1 := m.(req := m.req.(fileName := WithoutSpaces(p.name), recvMsg := r1));
    PlainLinesBack(m1, p.after, r2, canOpen);
    PartHeadEnd(m1.(req := m1.req.(recvMsg := r2)), rest, canOpen);
  }

  lemma OpeningBack(m: Machine, boundary: string, rest: string, canOpen: bool)
    requires m.req.status == HandleBody && m.req.requestMethod == "POST" && IsMultipart(m.req)
    requires m.req.fileStatus == FileBeginFlag && '\n' !in boundary
    requires BOUNDARY in m.req.headers && m.req.headers[BOUNDARY] == boundary
    requires m.req.recvMsg == "--" + boundary + CRLF + rest
    ensures Settle(m, canOpen) == Settle(m.(req := m.req.(fileStatus := FileHead, recvMsg := rest)), canOpen)
  {
    hide Settle;
    var text := "--" + boundary;
    CutPrinted(text, rest);
    assert (text + CRLF)[..|text + CRLF| - 2] == text;
    assert Step(m, canOpen) == Next(m.(req := m.req.(fileStatus := FileHead, recvMsg := rest)));
    SettleMove(m, canOpen);
  }

  /** The fields declare a multipart body with this boundary (whatever else they say). */
  predicate Declares(fields: seq<Field>, boundary: string) {
    && LastOf(Assignments(fields), "Content-Type") == Some("multipart/form-data")
    && LastOf(Assignments(fields), "boundary") == Some(boundary)
  }

  /** The content up to the first closing delimiter in what is sent. */
  function Survivor(boundary: string, content: string): string {
    var sent := content + ("\r\n--" + boundary + "--\r\n");
    match Find(sent, "\r\n--" + boundary + "--\r\n") case Some(k) => sent[..k] case None => content
  }

  /** The bytes from that delimiter on; the machine leaves them in its buffer. */
  function Unread(boundary: string, content: string): string {
    var sent := content + ("\r\n--" + boundary + "--\r\n");
    match Find(sent, "\r\n--" + boundary + "--\r\n") case Some(k) => sent[k..] case None => ""
  }

  /** What an upload leaves behind. */
  function UploadedFiles(files: map<string, string>, name: string, boundary: string, content: string)
    : map<string, string> {
    files[name := (if name in files then files[name] else "") + Survivor(boundary, content)]
  }

  lemma TerminatorArrives(boundary: string, content: string)
    ensures Scanner.Terminator(boundary) == "\r\n--" + boundary + "--\r\n"
    ensures var t := Scanner.Terminator(boundary);
      var k := Scanner.ScanLen(t, content + t);
      && Scanner.ScanDone(t, content + t) && k <= |content|
      && Find(content + t, t) == Some(k)
      && Survivor(boundary, content) == (content + t)[..k] && Unread(boundary, content) == (content + t)[k..]
  {
    hide Scanner.ScanDone, Scanner.ScanLen, Find;
    ArrivesBehind(Scanner.Terminator(boundary), content);
  }

  lemma ArrivesBehind(t: string, content: string)
    requires t != "" && t[0] == '\r'
    ensures Scanner.ScanDone(t, content + t)
    ensures Find(content + t, t) == Some(Scanner.ScanLen(t, content + t))
    ensures Scanner.ScanLen(t, content + t) <= |content|
  {
    hide Scanner.ScanDone, Scanner.ScanLen, Find;
    var s := content + t;
    assert s[|content|..|content| + |t|] == t;
    FindAtMost(s, t, |content|);
    Scanner.ScanFindsFirst(t, s);
  }

  /** Reading a printed upload, in one piece. */
  lemma UploadBack(u: string, v: string, fields: seq<Field>, boundary: string, p: PartHead, content: string,
                   target: string, files: map<string, string>)
    requires Words("POST", u, v) && Printable(fields) && Accepted(fields) && Declares(fields, boundary)
    requires PrintablePart(p) && '\n' !in boundary
    ensures var stream := PrintUpload(u, v, fields, boundary, p, content);
      var o := Settle(Machine(FRESH_REQUEST.(recvMsg := stream), target, files), true);
      && o.Settled?
      && o.m.req.status == HandleComplete && o.m.req.fileStatus == FileComplete
      && o.m.req.fileName == WithoutSpaces(p.name)
      && o.m.target == REDIRECT
      && BOUNDARY in o.m.req.headers && o.m.req.headers[BOUNDARY] == boundary
      && o.m.req.recvMsg == Unread(boundary, content)
      && o.m.files == UploadedFiles(files, WithoutSpaces(p.name), boundary, content)
  {
    hide Settle;
    var stream := PrintUpload(u, v, fields, boundary, p, content);
    var body := UploadBody(boundary, p, content);
    HeadBack("POST", u, v, fields, body, target, files, true);
    var m0 := Machine(HeadRequest("POST", u, v, fields, body), target, files);
    var r1 := PrintPart(p) + (content + Scanner.Terminator(boundary));
    OpeningBack(m0, boundary, r1, true);
    var m1 := m0.(req := m0.req.(fileStatus := FileHead, recvMsg := r1));
    PartHeadBack(m1, p, content + Scanner.Terminator(boundary), true);
    var name := WithoutSpaces(p.name);
    var m2 := m1.(req := m1.req.(fileStatus := FileContent, fileName := name,
                                 recvMsg := content + Scanner.Terminator(boundary)));
    ContentBack(m2, boundary, content);
  }

  lemma ContentBack(m: Machine, boundary: string, content: string)
    requires m.req.status == HandleBody && m.req.requestMethod == "POST" && IsMultipart(m.req)
    requires m.req.fileStatus == FileContent
    requires BOUNDARY in m.req.headers && m.req.headers[BOUNDARY] == boundary
    requires m.req.recvMsg == content + Scanner.Terminator(boundary)
    ensures var o := Settle(m, true);
      && o.Settled?
      && o.m.req.status == HandleComplete && o.m.req.fileStatus == FileComplete
      && o.m.req.fileName == m.req.fileName && o.m.target == REDIRECT
      && o.m.req.headers == m.req.headers && o.m.req.recvMsg == Unread(boundary, content)
      && o.m.files == UploadedFiles(m.files, m.req.fileName, boundary, content)
  {
    hide Settle, Scanner.Terminator, Scanner.ScanDone, Scanner.ScanLen, Find;
    var name := m.req.fileName;
    var m1 := if name in m.files then m else m.(files := m.files[name := ""]);
    if name !in m.files {
      assert Step(m, true) == Next(m1);
      SettleMove(m, true);
    }
    TerminatorArrives(boundary, content);
    Upload.SettleContent(m1);
    var k := Scanner.ScanLen(Scanner.Terminator(boundary), m.req.recvMsg);
    assert m1.files[name] == if name in m.files then m.files[name] else "";
    assert Upload.Saved(m1, k).files == UploadedFiles(m.files, name, boundary, content);
  }
}
