/** Body framing (section 8.6 of RFC 9110): the Content-Length in every response
    head, read back by the repository's own header parser, is the number of body
    bytes the send machine emits.
 */
module Framing {
  import opened Bytes
  import opened Message
  import opened RequestMachine
  import opened RoundTrip
  import ResponseMachine

  const HTML_TYPE_VALUE := "text/html;charset=UTF-8"
  const FILE_TYPE_VALUE := "application/octet-stream"
  const KEEP_ALIVE: Field := ("Connection", "keep-alive")

  function LengthField(n: nat): Field { (CONTENT_LENGTH, ToString(n)) }

  function ListFields(n: nat): seq<Field> {
    [LengthField(n), (CONTENT_TYPE, HTML_TYPE_VALUE), KEEP_ALIVE]
  }

  function DownloadFields(n: nat): seq<Field> {
    [LengthField(n), (CONTENT_TYPE, FILE_TYPE_VALUE), ("Location", ToString(ResponseMachine.LastIndex(n))), KEEP_ALIVE]
  }

  function RedirectFields(): seq<Field> {
    [LengthField(0), (CONTENT_TYPE, HTML_TYPE_VALUE), ("Location", "/"), KEEP_ALIVE]
  }

  lemma DigitsPrintable(n: nat)
    ensures PrintableField(LengthField(n)) && '\n' !in ToString(n)
  {
    assert NoSpace(CONTENT_LENGTH);
  }

  lemma HtmlTypeAccepted()
    ensures Effect(CONTENT_TYPE, HTML_TYPE_VALUE).Assign?
  {
    var s := HTML_TYPE_VALUE;
    assert s[9] == ';' && |s| == 23;
    forall k | 0 <= k < 9 ensures s[k] != ';' {
    }
    IndexFromIs(s, ';', 0, 9);
  }

  lemma FileTypeAccepted()
    ensures Effect(CONTENT_TYPE, FILE_TYPE_VALUE).Assign?
  {
    var s := FILE_TYPE_VALUE;
    forall k | 0 <= k < |s| ensures s[k] != ';' {
    }
    assert IndexOf(s, ';').None?;
  }

  /** The fields are read back, and the length with them. */
  lemma FieldsAccepted(n: nat, kind: string, more: seq<Field>)
    requires n <= LLONG_MAX
    requires '\n' !in kind && Effect(CONTENT_TYPE, kind).Assign?
    requires Printable(more) && forall i | 0 <= i < |more| :: more[i].0 != CONTENT_TYPE && more[i].0 != CONTENT_LENGTH
    ensures var fields := [LengthField(n), (CONTENT_TYPE, kind)] + more;
      Printable(fields) && Accepted(fields) && LengthOf(0, fields) == n
  {
    var fields := [LengthField(n), (CONTENT_TYPE, kind)] + more;
    DigitsPrintable(n);
    StollOfToString(n);
    assert PrintableField((CONTENT_TYPE, kind));
    assert fields[1..] == [(CONTENT_TYPE, kind)] + more;
    assert fields[1..][1..] == more;
    LengthKept(n, more);
  }

  lemma {:induction false} LengthKept(n: int, more: seq<Field>)
    requires forall i | 0 <= i < |more| :: more[i].0 != CONTENT_TYPE && more[i].0 != CONTENT_LENGTH
    ensures LengthOf(n, more) == n
    decreases |more|
  {
    if more != [] {
      assert more[0].0 != CONTENT_LENGTH;
      LengthKept(n, more[1..]);
    }
  }

  // ------------------------------------------------ the heads as printed fields

  const OK_LINE := "HTTP/1.1 200 OK"
  const MOVED_LINE := "HTTP/1.1 302 Moved Temporarily"

  lemma OkLine()
    ensures '\n' !in OK_LINE && RequestLine(OK_LINE + CRLF) == ("HTTP/1.1", "200", "OK")
  {
    assert NoSpace("HTTP/1.1") && NoSpace("200") && NoSpace("OK");
    ThreeWords("HTTP/1.1", "200", "OK", CRLF);
    assert OK_LINE == "HTTP/1.1" + " " + "200" + " " + "OK";
  }

  lemma MovedLine()
    ensures '\n' !in MOVED_LINE && RequestLine(MOVED_LINE + CRLF) == ("HTTP/1.1", "302", "Moved")
  {
    assert NoSpace("HTTP/1.1") && NoSpace("302") && NoSpace("Moved");
    hide NoSpace, RequestLine;
    ThreeWords("HTTP/1.1", "302", "Moved", " Temporarily" + CRLF);
    var words := "HTTP/1.1" + " " + "302" + " " + "Moved";
    MovedWords();
    Associative(words, " Temporarily", CRLF);
  }

  lemma MovedWords()
    ensures MOVED_LINE == "HTTP/1.1" + " " + "302" + " " + "Moved" + " Temporarily"
  {
  }

  /** Three words behind each other, and white space behind the last. */
  lemma ThreeWords(a: string, b: string, c: string, rest: string)
    requires a != "" && b != "" && c != "" && NoSpace(a) && NoSpace(b) && NoSpace(c)
    requires rest != "" && IsSpace(rest[0])
    ensures RequestLine(a + " " + b + " " + c + rest) == (a, b, c)
  {
    hide ReadWord, NoSpace;
    assert a + " " + b + " " + c + rest == a + (" " + b + (" " + c + rest));
    ReadWordOf(a, " " + b + (" " + c + rest));
    ReadWordOf(b, " " + c + rest);
    ReadWordOf(c, rest);
  }

  lemma PrintedFields(f: seq<Field>)
    ensures |f| == 3 ==> PrintFields(f) == PrintField(f[0]) + PrintField(f[1]) + PrintField(f[2])
    ensures |f| == 4 ==> PrintFields(f) == PrintField(f[0]) + PrintField(f[1]) + PrintField(f[2]) + PrintField(f[3])
  {
    hide PrintField;
    if |f| == 3 {
      assert f[1..][1..] == [f[2]];
      assert PrintFields([f[2]]) == PrintField(f[2]) + "";
      assert PrintFields(f[1..]) == PrintField(f[1]) + PrintFields([f[2]]);
    } else if |f| == 4 {
      assert f[1..][1..] == [f[2], f[3]];
      assert [f[2], f[3]][1..] == [f[3]];
      assert PrintFields([f[3]]) == PrintField(f[3]) + "";
      assert PrintFields([f[2], f[3]]) == PrintField(f[2]) + PrintFields([f[3]]);
      assert PrintFields(f[1..]) == PrintField(f[1]) + PrintFields([f[2], f[3]]);
    }
  }

  function Head(line: string, fields: seq<Field>): string {
    line + CRLF + (PrintFields(fields) + CRLF)
  }

  lemma Joined(a: string, h: string)
    ensures a + CRLF + h + CRLF == a + CRLF + (h + CRLF)
  {
  }

  lemma StatusLines()
    ensures ResponseMachine.StatusLine("HTTP/1.1", "200", "OK") == OK_LINE + CRLF
    ensures ResponseMachine.StatusLine("HTTP/1.1", "302", "Moved Temporarily") == MOVED_LINE + CRLF
  {
    assert OK_LINE == "HTTP/1.1" + " " + "200" + " " + "OK";
    assert MOVED_LINE == "HTTP/1.1" + " " + "302" + " " + "Moved Temporarily";
  }

  lemma Dropped(a: string, b: string, c: string)
    ensures a + "" + "" + c == a + c
    ensures a + b + "" + c == a + b + c
  {
  }

  /** A response header line is a printed field. */
  lemma LinesAreFields()
    ensures forall key, value :: ResponseMachine.HeaderLine(key, value) == PrintField((key, value))
  {
  }

  lemma ListHeadIs(n: nat)
    ensures ResponseMachine.ListHead(n) == Head(OK_LINE, ListFields(n))
  {
    hide ResponseMachine.StatusLine, ResponseMachine.HeaderLine, ToString;
    StatusLines();
    LinesAreFields();
    PrintedFields(ListFields(n));
    var a := PrintField(LengthField(n)) + PrintField((CONTENT_TYPE, HTML_TYPE_VALUE));
    Dropped(a, "", PrintField(KEEP_ALIVE));
    Joined(OK_LINE, a + PrintField(KEEP_ALIVE));
  }

  lemma DownloadHeadIs(n: nat)
    ensures ResponseMachine.DownloadHead(n) == Head(OK_LINE, DownloadFields(n))
  {
    hide ResponseMachine.StatusLine, ResponseMachine.HeaderLine, ToString;
    StatusLines();
    LinesAreFields();
    PrintedFields(DownloadFields(n));
    var a := PrintField(LengthField(n)) + PrintField((CONTENT_TYPE, FILE_TYPE_VALUE));
    var b := PrintField(("Location", ToString(ResponseMachine.LastIndex(n))));
    Dropped(a, b, PrintField(KEEP_ALIVE));
    Joined(OK_LINE, a + b + PrintField(KEEP_ALIVE));
  }

  lemma PutHeadIs()
    ensures ResponseMachine.PUT_HEAD == ResponseMachine.ListHead(0)
  {
    assert ToString(0) == "0";
  }

  lemma RedirectHeadIs()
    ensures ResponseMachine.REDIRECT_HEAD == Head(MOVED_LINE, RedirectFields())
  {
    assert ToString(0) == "0";
    RedirectJoined();
  }

  lemma RedirectJoined()
    requires ToString(0) == "0"
    ensures ResponseMachine.REDIRECT_HEAD == Head(MOVED_LINE, RedirectFields())
  {
    hide ResponseMachine.StatusLine, ResponseMachine.HeaderLine, ToString;
    StatusLines();
    LinesAreFields();
    PrintedFields(RedirectFields());
    var a := PrintField(LengthField(0)) + PrintField((CONTENT_TYPE, HTML_TYPE_VALUE));
    var b := PrintField(("Location", "/"));
    Dropped(a, b, PrintField(KEEP_ALIVE));
    Joined(MOVED_LINE, a + b + PrintField(KEEP_ALIVE));
  }

  /** The parser at the end of a head that announces `n` body bytes. */
  ghost predicate Announces(head: string, n: int) {
    forall target, files :: AnnouncesTo(head, n, target, files)
  }

  predicate AnnouncesTo(head: string, n: int, target: string, files: map<string, string>) {
    var o := Settle(Machine(FRESH_REQUEST.(recvMsg := head), target, files), true);
    && o.Settled? && o.m.req.status == HandleBody && o.m.req.requestMethod == "HTTP/1.1"
    && o.m.req.recvMsg == "" && o.m.req.contentLength == n
  }

  /** The parser throws on this head. */
  ghost predicate Rejects(head: string) {
    forall target, files :: RejectsTo(head, target, files)
  }

  predicate RejectsTo(head: string, target: string, files: map<string, string>) {
    Settle(Machine(FRESH_REQUEST.(recvMsg := head), target, files), true) == Faulted
  }

  /** A status line reads as a request whose method the receiver knows nothing of. */
  lemma OtherMethodSettles(m: Machine)
    requires m.req.status == HandleBody && m.req.requestMethod == "HTTP/1.1"
    ensures Settle(m, true) == Settled(m)
  {
  }

  lemma HeadAnnounces(line: string, m: string, u: string, v: string, n: nat, kind: string, more: seq<Field>)
    requires '\n' !in line && RequestLine(line + CRLF) == (m, u, v) && m == "HTTP/1.1"
    requires n <= LLONG_MAX
    requires '\n' !in kind && Effect(CONTENT_TYPE, kind).Assign?
    requires Printable(more) && forall i | 0 <= i < |more| :: more[i].0 != CONTENT_TYPE && more[i].0 != CONTENT_LENGTH
    ensures Announces(Head(line, [LengthField(n), (CONTENT_TYPE, kind)] + more), n)
  {
    hide Settle, Step, Effect, RequestLine, PrintFields, ToString;
    var fields := [LengthField(n), (CONTENT_TYPE, kind)] + more;
    FieldsAccepted(n, kind, more);
    forall target, files ensures AnnouncesTo(Head(line, fields), n, target, files) {
      assert Head(line, fields) == line + CRLF + (PrintFields(fields) + CRLF + "") by {
        assert PrintFields(fields) + CRLF + "" == PrintFields(fields) + CRLF;
      }
      StartBack(line, m, u, v, fields, "", target, files, true);
      OtherMethodSettles(Machine(HeadRequest(m, u, v, fields, ""), target, files));
    }
  }

  /** Too long a body for `long long`: the reader throws on the first field. */
  lemma TooLongFaults(line: string, m: string, u: string, v: string, n: nat, more: seq<Field>,
                      target: string, files: map<string, string>)
    requires '\n' !in line && RequestLine(line + CRLF) == (m, u, v)
    requires n > LLONG_MAX
    ensures Settle(Machine(FRESH_REQUEST.(recvMsg := Head(line, [LengthField(n)] + more)), target, files), true)
      == Faulted
  {
    hide Settle;
    var tail := PrintField(LengthField(n)) + (PrintFields(more) + CRLF);
    var fields := [LengthField(n)] + more;
    assert fields[1..] == more;
    assert Head(line, fields) == line + CRLF + tail;
    var m0 := Machine(FRESH_REQUEST.(recvMsg := line + CRLF + tail), target, files);
    CutPrinted(line, tail);
    var m1 := m0.(req := FRESH_REQUEST.(requestMethod := m, resource := u, version := v,
                                       status := HandleHead, recvMsg := tail));
    assert Step(m0, true) == Next(m1);
    SettleMove(m0, true);
    LengthLineFaults(m1, n, PrintFields(more) + CRLF);
  }

  lemma LengthLineFaults(m: Machine, n: nat, rest: string)
    requires m.req.status == HandleHead && n > LLONG_MAX && m.req.recvMsg == PrintField(LengthField(n)) + rest
    ensures Settle(m, true) == Faulted
  {
    hide Settle, Advances, ToString, Stoll, NoSpace, CutLine, HeaderFields;
    var text := CONTENT_LENGTH + ": " + ToString(n);
    DigitsPrintable(n);
    assert PrintField(LengthField(n)) == text + CRLF;
    CutPrinted(text, rest);
    HeaderFieldsBack(LengthField(n));
    StollOfToString(n);
    assert |text + CRLF| > 2;
    assert Step(m, true) == Fault;
    SettleMove(m, true);
  }

  lemma KeepAlivePrintable(location: string)
    requires '\n' !in location
    ensures Printable([KEEP_ALIVE]) && Printable([("Location", location), KEEP_ALIVE])
  {
    assert NoSpace("Connection") && NoSpace("Location");
    assert PrintableField(KEEP_ALIVE) && PrintableField(("Location", location));
  }

  lemma ListAnnounces(n: nat)
    ensures if n <= LLONG_MAX then Announces(ResponseMachine.ListHead(n), n) else Rejects(ResponseMachine.ListHead(n))
  {
    hide Settle, Announces, Head, ResponseMachine.ListHead, Effect, RequestLine, PrintFields, ToString;
    OkLine();
    ListHeadIs(n);
    var more := [KEEP_ALIVE];
    KeepAlivePrintable("");
    if n <= LLONG_MAX {
      HtmlTypeAccepted();
      assert ListFields(n) == [LengthField(n), (CONTENT_TYPE, HTML_TYPE_VALUE)] + more;
      HeadAnnounces(OK_LINE, "HTTP/1.1", "200", "OK", n, HTML_TYPE_VALUE, more);
    } else {
      assert ListFields(n) == [LengthField(n)] + ListFields(n)[1..];
      forall target, files ensures RejectsTo(ResponseMachine.ListHead(n), target, files) {
        TooLongFaults(OK_LINE, "HTTP/1.1", "200", "OK", n, ListFields(n)[1..], target, files);
      }
    }
  }

  lemma DownloadAnnounces(n: nat)
    ensures if n <= LLONG_MAX then Announces(ResponseMachine.DownloadHead(n), n)
            else Rejects(ResponseMachine.DownloadHead(n))
  {
    hide Settle, Announces, Head, ResponseMachine.DownloadHead, Effect, RequestLine, PrintFields, ToString;
    OkLine();
    DownloadHeadIs(n);
    var last := ToString(ResponseMachine.LastIndex(n));
    DigitsPrintable(ResponseMachine.LastIndex(n));
    var more := [("Location", last), KEEP_ALIVE];
    KeepAlivePrintable(last);
    if n <= LLONG_MAX {
      FileTypeAccepted();
      assert DownloadFields(n) == [LengthField(n), (CONTENT_TYPE, FILE_TYPE_VALUE)] + more;
      HeadAnnounces(OK_LINE, "HTTP/1.1", "200", "OK", n, FILE_TYPE_VALUE, more);
    } else {
      assert DownloadFields(n) == [LengthField(n)] + DownloadFields(n)[1..];
      forall target, files ensures RejectsTo(ResponseMachine.DownloadHead(n), target, files) {
        TooLongFaults(OK_LINE, "HTTP/1.1", "200", "OK", n, DownloadFields(n)[1..], target, files);
      }
    }
  }

  lemma ShortHeadsAnnounce()
    ensures Announces(ResponseMachine.REDIRECT_HEAD, 0) && Announces(ResponseMachine.PUT_HEAD, 0)
  {
    hide Settle, Announces, Head, Effect, RequestLine, PrintFields, ToString;
    ListAnnounces(0);
    PutHeadIs();
    MovedLine();
    RedirectHeadIs();
    HtmlTypeAccepted();
    KeepAlivePrintable("/");
    var more := [("Location", "/"), KEEP_ALIVE];
    assert RedirectFields() == [LengthField(0), (CONTENT_TYPE, HTML_TYPE_VALUE)] + more;
    HeadAnnounces(MOVED_LINE, "HTTP/1.1", "302", "Moved", 0, HTML_TYPE_VALUE, more);
  }

  lemma HeadFraming(r: ResponseValue, files: map<string, string>, page: string, pending: string)
    requires ResponseMachine.Route(r, files, page, pending).Ready?
    ensures var r1 := ResponseMachine.Route(r, files, page, pending).r;
      if |r1.Body()| <= LLONG_MAX then Announces(r1.head, |r1.Body()|) else Rejects(r1.head)
  {
    hide Announces, Rejects;
    ShortHeadsAnnounce();
    var r1 := ResponseMachine.Route(r, files, page, pending).r;
    if r1.bodyType == HtmlType {
      ListAnnounces(|r1.Body()|);
    } else if r1.bodyType == FileType {
      DownloadAnnounces(|r1.Body()|);
    }
  }

  /** A reader of the whole wire finds this body behind the head, and a
      Content-Length that is its length. */
  ghost predicate Framed(wire: string, body: string) {
    forall target, files :: FramedTo(wire, body, target, files)
  }

  predicate FramedTo(wire: string, body: string, target: string, files: map<string, string>) {
    var o := Settle(Machine(FRESH_REQUEST.(recvMsg := wire), target, files), true);
    && o.Settled? && o.m.req.status == HandleBody
    && o.m.req.recvMsg == body && o.m.req.contentLength == |body|
  }

  lemma WireReads(head: string, body: string, target: string, files: map<string, string>)
    ensures AnnouncesTo(head, |body|, target, files) ==> FramedTo(head + body, body, target, files)
    ensures RejectsTo(head, target, files) ==> !FramedTo(head + body, body, target, files)
  {
    hide Settle, Step;
    var m := Machine(FRESH_REQUEST.(recvMsg := head), target, files);
    SettleAppend(m, body, true);
    if AnnouncesTo(head, |body|, target, files) {
      var x := Settle(m, true).m;
      EmptyConcat(body);
      OtherMethodSettles(Receive(x, body));
    }
  }

  /** Whatever a target routes to, and over any schedule of short writes, EAGAINs,
      errors and re-entries: a reader of what a complete response has put on the wire
      finds as many bytes behind the head as the Content-Length says, exactly when
      that number fits `long long`. */
  lemma BodyFraming(r: ResponseValue, files: map<string, string>, page: string, pending: string,
                    passes: seq<seq<ResponseMachine.SendResult>>)
    requires ResponseMachine.Route(r, files, page, pending).Ready?
    ensures var r1 := ResponseMachine.Route(r, files, page, pending).r;
      && ResponseMachine.Sendable(r1)
      && var o := ResponseMachine.SendAll(r1, passes);
      o.r.status == HandleComplete ==> (Framed(o.out, r1.Body()) <==> |r1.Body()| <= LLONG_MAX)
  {
    hide Announces, Rejects, AnnouncesTo, RejectsTo, FramedTo, ResponseMachine.SendAll;
    ResponseMachine.RouteSendable(r, files, page, pending);
    HeadFraming(r, files, page, pending);
    hide ResponseMachine.Route;
    var r1 := ResponseMachine.Route(r, files, page, pending).r;
    ResponseMachine.WirePrefix(r1, passes);
    WireFraming(r1.head, r1.Body());
  }

  lemma WireFraming(head: string, body: string)
    requires if |body| <= LLONG_MAX then Announces(head, |body|) else Rejects(head)
    ensures Framed(head + body, body) <==> |body| <= LLONG_MAX
  {
    hide AnnouncesTo, RejectsTo, FramedTo;
    forall target, files
      ensures AnnouncesTo(head, |body|, target, files) ==> FramedTo(head + body, body, target, files)
      ensures RejectsTo(head, target, files) ==> !FramedTo(head + body, body, target, files)
    {
      WireReads(head, body, target, files);
    }
    if |body| > LLONG_MAX {
      assert RejectsTo(head, "", map[]);
    }
  }
}
