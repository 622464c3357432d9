/** The response machine as functions on values: routing a target to a response,
    and sending head and body from a cursor that survives short writes and
    re-entry.
 */
module ResponseMachine {
  import opened Bytes
  import opened Message

  // ---------------------------------------------------------------- heads

  function StatusLine(version: string, code: string, description: string): string {
    version + " " + code + " " + description + CRLF
  }

  function HeaderLine(key: string, value: string): string {
    key + ": " + value + CRLF
  }

  function OptionalLine(key: string, value: string): string {
    if value == "" then "" else HeaderLine(key, value)
  }

  function TypeLine(contentType: string): string {
    if contentType == "html" then HeaderLine(CONTENT_TYPE, "text/html;charset=UTF-8")
    else if contentType == "file" then HeaderLine(CONTENT_TYPE, "application/octet-stream")
    else ""
  }

  function RangeLine(range: string): string {
    if range == "" then "" else HeaderLine("Content-Range", "0-" + range)
  }

  function MessageHeader(contentLength: string, contentType: string, location: string, range: string): string {
    OptionalLine(CONTENT_LENGTH, contentLength) + TypeLine(contentType) + OptionalLine("Location", location)
    + RangeLine(range) + HeaderLine("Connection", "keep-alive")
  }

  /** `getMsgBodyLen() - 1` in 64-bit unsigned arithmetic. */
  function LastIndex(n: nat): nat {
    if n == 0 then 0xFFFF_FFFF_FFFF_FFFF else n - 1
  }

  function OkHead(header: string): string {
    StatusLine("HTTP/1.1", "200", "OK") + header + CRLF
  }

  function ListHead(n: nat): string { OkHead(MessageHeader(ToString(n), "html", "", "")) }

  function DownloadHead(n: nat): string { OkHead(MessageHeader(ToString(n), "file", ToString(LastIndex(n)), "")) }

  const PUT_HEAD := OkHead(MessageHeader("0", "html", "", ""))

  const REDIRECT_HEAD :=
    StatusLine("HTTP/1.1", "302", "Moved Temporarily") + MessageHeader("0", "html", "/", "") + CRLF

  // ---------------------------------------------------------------- routing

  datatype Operation = OpFault | OpList | OpRedirect | OpNamed(op: string, name: string)

  /** Index of the first '/' behind the first character, or the length. */
  function SlashIndex(s: string, i: nat): (r: nat)
    requires i <= |s|
    ensures i <= r <= |s| && '/' !in s[i..r]
    ensures r < |s| ==> s[r] == '/'
    decreases |s| - i
  {
    if i == |s| || s[i] == '/' then i
    else
      var r := SlashIndex(s, i + 1);
      assert s[i..r] == [s[i]] + s[i + 1..r];
      r
  }

  /** How a target splits. On the empty target `size() - 1` wraps around and `substr` throws. */
  function SplitTarget(s: string): Operation {
    if s == "/" then OpList
    else if s == "" then OpFault
    else
      var i := SlashIndex(s, 1);
      if i + 1 < |s| then OpNamed(s[1..i], s[i + 1..]) else OpRedirect
  }

  datatype Routed = RouteFault
                  | Reroute(target: string, files: map<string, string>)
                  | Ready(r: ResponseValue, files: map<string, string>)

  function ReadyWith(r: ResponseValue, head: string, bodyType: BodyType): ResponseValue {
    r.(status := HandleHead, head := head, headLen := |head|, bodyType := bodyType, cursor := 0)
  }

  /** One routing attempt. `page` is the rendered file list, `pending` the bytes
      that a PUT request has left in its buffer. */
  function Route(r: ResponseValue, files: map<string, string>, page: string, pending: string): Routed {
    match SplitTarget(r.target)
    case OpFault => RouteFault
    case OpList =>
      var body := r.msgBody + page;
      Ready(ReadyWith(r, ListHead(|body|), HtmlType).(msgBody := body, msgBodyLen := |body|), files)
    case OpRedirect => Ready(ReadyWith(r, REDIRECT_HEAD, EmptyType), files)
    case OpNamed(op, name) =>
      if op == "downl" then
        if name !in files then Reroute("/redirect", files)
        else
          var n := |files[name]|;
          Ready(ReadyWith(r, DownloadHead(n), FileType).(fileMsg := files[name], msgBodyLen := n), files)
      else if op == "del" then Reroute("/", files - {name})
      else if op == "put" then Ready(ReadyWith(r, PUT_HEAD, EmptyType), files[name := pending])
      else Ready(ReadyWith(r, REDIRECT_HEAD, EmptyType), files)
  }

  /** `/op/name` reads back as (op, name) exactly when op has no slash and name is not empty. */
  lemma SplitPrinted(op: string, name: string)
    ensures SplitTarget("/" + op + "/" + name) == OpNamed(op, name) <==> '/' !in op && name != ""
  {
    var s := "/" + op + "/" + name;
    var i := SlashIndex(s, 1);
    assert s[|op| + 1] == '/';
    assert s[1..|op| + 1] == op && s[|op| + 2..] == name;
    assert forall j | 1 <= j < i :: s[1..i][j - 1] == s[j];
    assert i <= |op| + 1;
    if i < |op| + 1 {
      assert op[i - 1] == s[i] == '/';
      assert |s[1..i]| < |op|;
    }
  }

  /** A re-routed target never routes again: every target but the empty one
      reaches a response after at most one re-route, and the empty one faults. */
  lemma RoutingTerminates(r: ResponseValue, files: map<string, string>, page: string, pending: string)
    ensures Route(r, files, page, pending).RouteFault? <==> r.target == ""
    ensures Route(r, files, page, pending).Reroute? ==>
      forall f, p, q :: Route(FRESH_RESPONSE.(target := Route(r, files, page, pending).target), f, p, q).Ready?
    ensures Route(r, files, page, pending).Ready? ==> Route(r, files, page, pending).r.status == HandleHead
  {
    hide OkHead, ListHead, DownloadHead, MessageHeader, StatusLine, SlashIndex;
    RedirectSplits();
  }

  lemma RedirectSplits()
    ensures SplitTarget("/redirect") == OpRedirect
  {
    var s := "/redirect";
    var i := SlashIndex(s, 1);
    assert forall k | 1 <= k < |s| :: s[k] != '/';
  }

  // ---------------------------------------------------------------- sending

  /** What one `send` or `sendfile` call returns: a byte count, EAGAIN, or another error. */
  datatype SendResult = Sent(n: nat) | SendAgain | SendFailed

  datatype Sending = Sending(r: ResponseValue, out: string, failed: bool)

  /** Bytes taken by a successful call that was offered `len` bytes: what it
      returned, which is at least one, if there is one, and at most `len`. */
  function Taken(n: nat, len: nat): (k: nat)
    ensures k <= len && (len > 0 ==> k > 0)
    ensures 0 < n <= len ==> k == n
  {
    if len == 0 then 0 else if n == 0 then 1 else if n > len then len else n
  }

  /** Lengths agree with the data and the cursor is inside the part being sent. */
  predicate Sendable(r: ResponseValue) {
    && r.headLen == |r.head|
    && (r.bodyType != EmptyType ==> r.msgBodyLen == |r.Body()|)
    && (r.status == HandleHead ==> r.cursor < r.headLen)
    && (r.status == HandleBody ==> r.cursor == 0 || (r.bodyType != EmptyType && r.cursor < r.msgBodyLen))
  }

  function AfterHead(r: ResponseValue, k: nat): ResponseValue {
    if r.cursor + k >= r.headLen then r.(status := HandleBody, cursor := 0)
    else r.(cursor := r.cursor + k)
  }

  function AfterBody(r: ResponseValue, k: nat): ResponseValue {
    if r.cursor + k >= r.msgBodyLen then r.(status := HandleComplete, cursor := 0)
    else r.(cursor := r.cursor + k)
  }

  /** There is something for `send` or `sendfile` to be called with. */
  predicate Offers(r: ResponseValue) {
    r.status == HandleHead || (r.status == HandleBody && r.bodyType != EmptyType)
  }

  /** The part being sent. */
  function Part(r: ResponseValue): string {
    if r.status == HandleHead then r.head else r.Body()
  }

  function After(r: ResponseValue, k: nat): ResponseValue {
    if r.status == HandleHead then AfterHead(r, k) else AfterBody(r, k)
  }

  /** How many bytes a successful call takes, and which. */
  function Count(r: ResponseValue, n: nat): (k: nat)
    requires Sendable(r) && Offers(r)
    ensures r.cursor + k <= |Part(r)| && (r.cursor < |Part(r)| ==> k > 0)
    ensures 0 < n <= |Part(r)| - r.cursor ==> k == n
    ensures Sendable(After(r, k))
  {
    Taken(n, |Part(r)| - r.cursor)
  }

  function Piece(r: ResponseValue, n: nat): string
    requires Sendable(r) && Offers(r)
  {
    Part(r)[r.cursor..r.cursor + Count(r, n)]
  }

  /** The send loop of one pass, given the results of its calls; a call past
      the end of the list would block. */
  function SendLoop(r: ResponseValue, results: seq<SendResult>): (o: Sending)
    requires Sendable(r)
    ensures Sendable(o.r)
    decreases |results|
  {
    if !Offers(r) then
      Sending(if r.status == HandleBody then r.(status := HandleComplete, cursor := 0) else r, "", false)
    else if results == [] || results[0].SendAgain? then Sending(r, "", false)
    else if results[0].SendFailed? then Sending(r, "", true)
    else
      var o := SendLoop(After(r, Count(r, results[0].n)), results[1..]);
      Sending(o.r, Piece(r, results[0].n) + o.out, o.failed)
  }

  /** The bytes a response has put on the wire, read off its status and cursor. */
  function Progress(r: ResponseValue): string
    requires Sendable(r)
  {
    match r.status
    case HandleHead => r.head[..r.cursor]
    case HandleBody => r.head + r.Body()[..r.cursor]
    case HandleComplete => r.head + r.Body()
    case _ => ""
  }

  predicate SameContent(a: ResponseValue, b: ResponseValue) {
    a.head == b.head && a.Body() == b.Body() && a.bodyType == b.bodyType
  }

  /** `b` is `a` after `out` more bytes have gone out. */
  predicate Extends(a: ResponseValue, b: ResponseValue, out: string) {
    && Sendable(a) && Sendable(b)
    && SameContent(a, b)
    && (b.status == HandleHead || b.status == HandleBody || b.status == HandleComplete)
    && Progress(b) == Progress(a) + out
  }

  lemma ExtendsTransitive(a: ResponseValue, b: ResponseValue, c: ResponseValue, x: string, y: string)
    requires Extends(a, b, x) && Extends(b, c, y)
    ensures Extends(a, c, x + y)
  {
    Associative(Progress(a), x, y);
  }

  lemma ExtendsReflexive(a: ResponseValue)
    requires Sendable(a) && (a.status == HandleHead || a.status == HandleBody || a.status == HandleComplete)
    ensures Extends(a, a, "")
  {
    Associative(Progress(a), "", "");
  }

  lemma AfterHeadExtends(r: ResponseValue, k: nat)
    requires Sendable(r) && r.status == HandleHead && 0 < k <= r.headLen - r.cursor
    ensures Extends(r, AfterHead(r, k), r.head[r.cursor..r.cursor + k])
  {
    assert r.head[..r.cursor] + r.head[r.cursor..r.cursor + k] == r.head[..r.cursor + k];
    if r.cursor + k == r.headLen {
      assert r.head[..r.cursor + k] == r.head;
      assert r.head + r.Body()[..0] == r.head;
    }
  }

  lemma AfterBodyExtends(r: ResponseValue, k: nat)
    requires Sendable(r) && r.status == HandleBody && r.bodyType != EmptyType
    requires k <= r.msgBodyLen - r.cursor && (r.msgBodyLen > r.cursor ==> k > 0)
    ensures Extends(r, AfterBody(r, k), r.Body()[r.cursor..r.cursor + k])
  {
    var b := r.Body();
    assert b[..r.cursor] + b[r.cursor..r.cursor + k] == b[..r.cursor + k];
    assert r.head + b[..r.cursor] + b[r.cursor..r.cursor + k] == r.head + b[..r.cursor + k];
    if r.cursor + k == |b| {
      assert b[..r.cursor + k] == b;
    }
  }

  lemma EmptyBodyExtends(r: ResponseValue)
    requires Sendable(r) && r.status == HandleBody && r.bodyType == EmptyType
    ensures Extends(r, r.(status := HandleComplete, cursor := 0), "")
  {
    assert r.Body() == "" && r.Body()[..r.cursor] == "";
    Associative(r.head, "", "");
  }

  lemma PieceExtends(r: ResponseValue, n: nat)
    requires Sendable(r) && Offers(r)
    ensures Extends(r, After(r, Count(r, n)), Piece(r, n))
  {
    if r.status == HandleHead {
      AfterHeadExtends(r, Count(r, n));
    } else {
      AfterBodyExtends(r, Count(r, n));
    }
  }

  lemma SendLoopStops(r: ResponseValue, results: seq<SendResult>)
    requires Sendable(r) && (!Offers(r) || results == [] || !results[0].Sent?)
    ensures SendLoop(r, results) ==
      if !Offers(r) then
        Sending(if r.status == HandleBody then r.(status := HandleComplete, cursor := 0) else r, "", false)
      else Sending(r, "", results != [] && results[0].SendFailed?)
  {
  }

  lemma SendLoopTurn(r: ResponseValue, results: seq<SendResult>)
    requires Sendable(r) && Offers(r) && results != [] && results[0].Sent?
    ensures var rest := SendLoop(After(r, Count(r, results[0].n)), results[1..]);
      SendLoop(r, results) == Sending(rest.r, Piece(r, results[0].n) + rest.out, rest.failed)
  {
    hide Piece, After, Count, Sendable;
  }

  /** Across short writes, EAGAIN and errors, what a pass sends is exactly what
      the cursor moves over. */
  lemma {:induction false} SendLoopExtends(r: ResponseValue, results: seq<SendResult>)
    requires Sendable(r) && (r.status == HandleHead || r.status == HandleBody || r.status == HandleComplete)
    ensures Extends(r, SendLoop(r, results).r, SendLoop(r, results).out)
    decreases |results|
  {
    hide SendLoop, Extends, Piece;
    if !Offers(r) || results == [] || !results[0].Sent? {
      SendLoopStops(r, results);
      if r.status == HandleBody && r.bodyType == EmptyType {
        EmptyBodyExtends(r);
      } else {
        ExtendsReflexive(r);
      }
    } else {
      PieceExtends(r, results[0].n);
      SendLoopTurn(r, results);
      var r1 := After(r, Count(r, results[0].n));
      var o := SendLoop(r1, results[1..]);
      SendLoopExtends(r1, results[1..]);
      ExtendsTransitive(r, r1, o.r, Piece(r, results[0].n), o.out);
    }
  }

  /** Re-entry by any number of passes: a response keeps its place between them. */
  function SendAll(r: ResponseValue, passes: seq<seq<SendResult>>): (o: Sending)
    requires Sendable(r)
    ensures Sendable(o.r)
    decreases |passes|
  {
    if passes == [] || r.status == HandleComplete then Sending(r, "", false)
    else
      var o := SendLoop(r, passes[0]);
      var rest := SendAll(o.r, passes[1..]);
      Sending(rest.r, o.out + rest.out, o.failed || rest.failed)
  }

  lemma {:induction false} SendAllExtends(r: ResponseValue, passes: seq<seq<SendResult>>)
    requires Sendable(r) && (r.status == HandleHead || r.status == HandleBody)
    ensures Extends(r, SendAll(r, passes).r, SendAll(r, passes).out)
    ensures r.bodyType == EmptyType && SendAll(r, passes).r.status == HandleBody ==> passes == []
    decreases |passes|
  {
    if passes == [] {
      ExtendsReflexive(r);
    } else {
      var o := SendLoop(r, passes[0]);
      SendLoopExtends(r, passes[0]);
      if r.bodyType == EmptyType {
        EmptyBodyEndsWithHead(r, passes[0]);
      }
      if o.r.status == HandleComplete {
        ExtendsReflexive(o.r);
      } else {
        SendAllExtends(o.r, passes[1..]);
      }
      ExtendsTransitive(r, o.r, SendAll(o.r, passes[1..]).r, o.out, SendAll(o.r, passes[1..]).out);
    }
  }

  /** Over any schedule of short writes, EAGAINs, errors and re-entries the wire
      holds a prefix of head ++ body; it holds all of it exactly when the
      response is complete. (For an empty page or file everything is on the wire
      one zero-byte call before that.) */
  lemma WirePrefix(r: ResponseValue, passes: seq<seq<SendResult>>)
    requires Sendable(r) && r.status == HandleHead && r.cursor == 0
    ensures var o := SendAll(r, passes);
      && o.out <= r.head + r.Body()
      && (o.r.status == HandleComplete ==> o.out == r.head + r.Body())
      && (o.out == r.head + r.Body() && (r.Body() != "" || r.bodyType == EmptyType)
          ==> o.r.status == HandleComplete)
  {
    var o := SendAll(r, passes);
    SendAllExtends(r, passes);
    assert Progress(r) + o.out == o.out;
    if o.r.status == HandleHead {
      assert |o.out| < |r.head|;
    } else if o.r.status == HandleBody && r.bodyType != EmptyType && r.Body() != "" {
      assert |o.out| < |r.head| + |r.Body()|;
    }
  }

  /** With an empty body type a pass that finishes the head finishes the response. */
  lemma {:induction false} EmptyBodyEndsWithHead(r: ResponseValue, results: seq<SendResult>)
    requires Sendable(r) && r.bodyType == EmptyType
    ensures SendLoop(r, results).r.status != HandleBody
    decreases |results|
  {
    if Offers(r) && results != [] && results[0].Sent? {
      SendLoopTurn(r, results);
      EmptyBodyEndsWithHead(After(r, Count(r, results[0].n)), results[1..]);
    }
  }

  /** Bytes and calls still to come before a response is complete. */
  function Left(r: ResponseValue): nat
    requires Sendable(r)
  {
    match r.status
    case HandleHead => r.headLen - r.cursor + |r.Body()| + 1
    case HandleBody => |r.Body()| - r.cursor + 1
    case _ => 0
  }

  /** Every successful call brings the end nearer, so enough of them reach it. */
  lemma {:induction false} EnoughCallsComplete(r: ResponseValue, results: seq<SendResult>)
    requires Sendable(r) && (r.status == HandleHead || r.status == HandleBody || r.status == HandleComplete)
    requires |results| >= Left(r) && forall i | 0 <= i < |results| :: results[i].Sent?
    ensures SendLoop(r, results).r.status == HandleComplete
    decreases |results|
  {
    if Offers(r) {
      SendLoopTurn(r, results);
      var r1 := After(r, Count(r, results[0].n));
      assert Left(r1) < Left(r);
      EnoughCallsComplete(r1, results[1..]);
    }
  }

  /** Routing hands the send loop a response it can start on. */
  lemma RouteSendable(r: ResponseValue, files: map<string, string>, page: string, pending: string)
    requires Route(r, files, page, pending).Ready?
    ensures var r1 := Route(r, files, page, pending).r;
      Sendable(r1) && r1.status == HandleHead && Progress(r1) == "" && r1.target == r.target
  {
    hide MessageHeader, StatusLine, SplitTarget;
  }
}
