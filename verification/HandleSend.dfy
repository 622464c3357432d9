/** event/myevent.cpp, sending side: HandleSend::process and its string-building
    helpers, updating the response entry in place.
 */
module HandleSend {
  import opened Bytes
  import opened Message
  import opened ResponseMachine
  import opened Connection
  import opened HandleRecv

  method GetStatusLine(version: string, code: string, description: string) returns (statusLine: string)
    ensures statusLine == StatusLine(version, code, description)
  {
    statusLine := version + " " + code + " " + description + "\r\n";
  }

  /** `getMessageHeader`: one optional line after the other. */
  method GetMessageHeader(contentLength: string, contentType: string, location: string, range: string)
    returns (headerOpt: string)
    ensures headerOpt == MessageHeader(contentLength, contentType, location, range)
  {
    headerOpt := "";
    if contentLength != "" {
      headerOpt := headerOpt + HeaderLine(CONTENT_LENGTH, contentLength);
    }
    assert headerOpt == OptionalLine(CONTENT_LENGTH, contentLength);
    ghost var h1 := headerOpt;
    if contentType != "" {
      if contentType == "html" {
        headerOpt := headerOpt + HeaderLine(CONTENT_TYPE, "text/html;charset=UTF-8");
      } else if contentType == "file" {
        headerOpt := headerOpt + HeaderLine(CONTENT_TYPE, "application/octet-stream");
      }
    }
    assert headerOpt == h1 + TypeLine(contentType);
    ghost var h2 := headerOpt;
    if location != "" {
      headerOpt := headerOpt + HeaderLine("Location", location);
    }
    assert headerOpt == h2 + OptionalLine("Location", location);
    ghost var h3 := headerOpt;
    if range != "" {
      headerOpt := headerOpt + HeaderLine("Content-Range", "0-" + range);
    }
    assert headerOpt == h3 + RangeLine(range);
    headerOpt := headerOpt + HeaderLine("Connection", "keep-alive");
  }

  /** The character loop that finds the slash behind the operation name. */
  method FindSlash(s: string) returns (i: nat)
    requires s != ""
    ensures i == SlashIndex(s, 1)
  {
    i := 1;
    while i < |s| && s[i] != '/'
      invariant 1 <= i <= |s|
      invariant SlashIndex(s, i) == SlashIndex(s, 1)
    {
      i := i + 1;
    }
  }

  /** Operation and file name of a target; OpFault where `substr` throws. */
  method ReadTarget(target: string) returns (r: Operation)
    ensures r == SplitTarget(target)
  {
    if target == "/" {
      return OpList;
    }
    if target == "" {
      return OpFault;
    }
    var i := FindSlash(target);
    if i < |target| - 1 {
      return OpNamed(target[1..i], target[i + 1..]);
    }
    return OpRedirect;
  }

  /** Setting up head, body type and cursor once the status line and header are known. */
  method MakeReady(resp: Response, statusLine: string, header: string, bodyType: BodyType)
    modifies resp
    ensures resp.Value() == ReadyWith(old(resp.Value()), statusLine + header + CRLF, bodyType)
  {
    resp.head := statusLine;
    resp.head := resp.head + header;
    resp.head := resp.head + "\r\n";
    resp.headLen := |resp.head|;
    resp.bodyType := bodyType;
    resp.status := HandleHead;
    resp.cursor := 0;
  }

  datatype RouteEnd = RoutedFault | Routed | Again

  /** The HANDLE_INIT phase. A failed download and a delete replace the entry by
      a fresh one with another target and leave the rest to the next pass. */
  method RouteResponse(base: EventBase, fd: int, page: string) returns (r: RouteEnd)
    requires base.Valid() && fd in base.responseStatus
    modifies base`files, base`requestStatus, base`responseStatus, base`interest, base.responseStatus[fd]
    ensures base.Valid()
    ensures match Route(old(base.responseStatus[fd].Value()), old(base.files), page,
                        RequestOf(old(base.ConnOf(fd))).recvMsg)
      case RouteFault => r == RoutedFault
      case Reroute(target, files) =>
        && r == Again && base.files == files
        && fd in base.responseStatus
        && base.responseStatus == old(base.responseStatus)[fd := base.responseStatus[fd]]
        && base.responseStatus[fd].Value() == FRESH_RESPONSE.(target := target)
        && base.requestStatus == old(base.requestStatus)
        && base.interest == old(base.interest)[fd := ReadWrite]
      case Ready(r1, files) =>
        && r == Routed && base.files == files
        && base.responseStatus == old(base.responseStatus)
        && base.responseStatus[fd].Value() == r1
        && base.interest == old(base.interest)
        && if IsPut(old(base.responseStatus[fd].Value())) && fd !in old(base.requestStatus)
           then fd in base.requestStatus
             && base.requestStatus == old(base.requestStatus)[fd := base.requestStatus[fd]]
             && fresh(base.requestStatus[fd]) && base.requestStatus[fd].Value() == FRESH_REQUEST
           else base.requestStatus == old(base.requestStatus)
  {
    hide StatusLine, MessageHeader, OkHead, ReadyWith, ListHead, DownloadHead;
    var resp := base.responseStatus[fd];
    var operation := ReadTarget(resp.target);
    match operation
    case OpFault =>
      return RoutedFault;
    case OpList =>
      MakeList(resp, page);
      return Routed;
    case OpRedirect =>
      MakeRedirect(resp);
      return Routed;
    case OpNamed(opera, filename) =>
      if opera == "downl" {
        if filename !in base.files {
          Retarget(base, fd, "/redirect");
          return Again;
        }
        MakeDownload(resp, base.files[filename]);
      } else if opera == "del" {
        base.files := base.files - {filename};
        Retarget(base, fd, "/");
        return Again;
      } else if opera == "put" {
        var req := base.RequestEntry(fd);
        base.files := base.files[filename := req.recvMsg];
        MakePutReply(resp);
      } else {
        MakeRedirect(resp);
      }
      return Routed;
  }

  /** The file list page. */
  method MakeList(resp: Response, page: string)
    modifies resp
    ensures var body := old(resp.msgBody) + page;
      resp.Value() ==
        ReadyWith(old(resp.Value()), ListHead(|body|), HtmlType).(msgBody := body, msgBodyLen := |body|)
  {
    var ok := GetStatusLine("HTTP/1.1", "200", "OK");
    resp.msgBody := resp.msgBody + page;
    resp.msgBodyLen := |resp.msgBody|;
    var header := GetMessageHeader(ToString(resp.msgBodyLen), "html", "", "");
    MakeReady(resp, ok, header, HtmlType);
  }

  /** A file that opened, with its size from `fstat`. */
  method MakeDownload(resp: Response, file: string)
    modifies resp
    ensures resp.Value() ==
      ReadyWith(old(resp.Value()), DownloadHead(|file|), FileType).(fileMsg := file, msgBodyLen := |file|)
  {
    var ok := GetStatusLine("HTTP/1.1", "200", "OK");
    resp.fileMsg := file;
    resp.msgBodyLen := |file|;
    var header := GetMessageHeader(ToString(resp.msgBodyLen), "file", ToString(LastIndex(resp.msgBodyLen)), "");
    MakeReady(resp, ok, header, FileType);
  }

  method MakePutReply(resp: Response)
    modifies resp
    ensures resp.Value() == ReadyWith(old(resp.Value()), PUT_HEAD, EmptyType)
  {
    var ok := GetStatusLine("HTTP/1.1", "200", "OK");
    var header := GetMessageHeader("0", "html", "", "");
    MakeReady(resp, ok, header, EmptyType);
  }

  method MakeRedirect(resp: Response)
    modifies resp
    ensures resp.Value() == ReadyWith(old(resp.Value()), REDIRECT_HEAD, EmptyType)
  {
    var moved := GetStatusLine("HTTP/1.1", "302", "Moved Temporarily");
    var header := GetMessageHeader("0", "html", "/", "");
    MakeReady(resp, moved, header, EmptyType);
  }

  /** `responseStatus[fd] = Response()` with another target, and re-arming for both. */
  method Retarget(base: EventBase, fd: int, target: string)
    requires base.Valid() && fd in base.responseStatus
    modifies base`responseStatus, base`interest
    ensures base.Valid() && fd in base.responseStatus
    ensures base.responseStatus == old(base.responseStatus)[fd := base.responseStatus[fd]]
    ensures fresh(base.responseStatus[fd]) && base.responseStatus[fd].Value() == FRESH_RESPONSE.(target := target)
    ensures base.interest == old(base.interest)[fd := ReadWrite]
  {
    var entry := new Response();
    entry.target := target;
    base.responseStatus := base.responseStatus[fd := entry];
    base.interest := base.interest[fd := ReadWrite];
  }

  /** Handing bytes to a socket. */
  method PutOnWire(base: EventBase, fd: int, piece: string)
    modifies base`wire
    ensures fd in base.wire
    ensures base.wire[fd] == (if fd in old(base.wire) then old(base.wire[fd]) else "") + piece
    ensures SameElsewhere(base.wire, old(base.wire), fd)
  {
    var sofar := if fd in base.wire then base.wire[fd] else "";
    base.wire := base.wire[fd := sofar + piece];
    assert base.wire - {fd} == old(base.wire) - {fd};
  }

  /** The send loop: head, then body, from the cursor on, until a call reports
      that the socket is full, a call fails, or everything has gone out.
      `failed` reports an error other than EAGAIN. */
  method SendBytes(base: EventBase, fd: int, resp: Response, results: seq<SendResult>) returns (failed: bool)
    requires Sendable(resp.Value())
    requires resp.status == HandleHead || resp.status == HandleBody || resp.status == HandleError
    modifies resp, base`wire
    ensures var o := SendLoop(old(resp.Value()), results);
      && resp.Value() == o.r && failed == o.failed && resp.status != HandleInit
      && fd in base.wire
      && base.wire[fd] == (if fd in old(base.wire) then old(base.wire[fd]) else "") + o.out
    ensures SameElsewhere(base.wire, old(base.wire), fd)
  {
    hide SameElsewhere, SendLoop, Piece, After, Count, Sendable, Part;
    ghost var goal := SendLoop(resp.Value(), results);
    ghost var wire0 := if fd in base.wire then base.wire[fd] else "";
    PutOnWire(base, fd, "");
    var i := 0;
    while true
      invariant 0 <= i <= |results|
      invariant Sendable(resp.Value())
      invariant resp.status == HandleHead || resp.status == HandleBody || resp.status == HandleError
      invariant fd in base.wire
      invariant SameElsewhere(base.wire, old(base.wire), fd)
      invariant var rest := SendLoop(resp.Value(), results[i..]);
        goal.r == rest.r && goal.failed == rest.failed && wire0 + goal.out == base.wire[fd] + rest.out
      decreases |results| - i
    {
      ghost var before, wire1 := resp.Value(), base.wire;
      EmptyConcat(base.wire[fd]);
      if !Offers(before) || i == |results| || !results[i].Sent? {
        SendLoopStops(before, results[i..]);
      } else {
        SendLoopTurn(before, results[i..]);
      }
      if resp.status == HandleError {
        return false;
      }
      if resp.status == HandleBody && resp.bodyType == EmptyType {
        resp.status := HandleComplete;
        resp.cursor := 0;
        return false;
      }
      if i == |results| || results[i].SendAgain? {
        return false;
      }
      if results[i].SendFailed? {
        return true;
      }
      var piece := NextPiece(resp, results[i].n);
      assert results[i..][1..] == results[i + 1..];
      i := i + 1;
      PutOnWire(base, fd, piece);
      ElsewhereTransitive(base.wire, wire1, old(base.wire), fd);
      Associative(wire1[fd], piece, SendLoop(resp.Value(), results[i..]).out);
      if resp.status == HandleComplete {
        SendLoopStops(resp.Value(), results[i..]);
        EmptyConcat(base.wire[fd]);
        return false;
      }
    }
  }

  /** What one successful call sends, and where it leaves the cursor. */
  method NextPiece(resp: Response, n: nat) returns (piece: string)
    requires Sendable(resp.Value())
    requires Offers(resp.Value())
    modifies resp
    ensures var r := old(resp.Value());
      piece == Piece(r, n) && resp.Value() == After(r, Count(r, n))
    ensures var r := old(resp.Value());
      var part := if r.status == HandleHead then r.head else r.Body();
      0 < n <= |part| - r.cursor ==>
        && piece == part[r.cursor..r.cursor + n]
        && (n < |part| - r.cursor ==> resp.Value() == r.(cursor := r.cursor + n))
    ensures Sendable(resp.Value())
    ensures resp.status == HandleHead || resp.status == HandleBody || resp.status == HandleComplete
  {
    PieceByBytes(resp.Value(), n);
    hide Piece, After, Count, Sendable;
    if resp.status == HandleHead {
      piece := TakeHead(resp, n);
    } else {
      piece := TakeBody(resp, n);
    }
  }

  method TakeHead(resp: Response, n: nat) returns (piece: string)
    requires Sendable(resp.Value()) && resp.status == HandleHead
    modifies resp
    ensures var r := old(resp.Value());
      piece == Piece(r, n) && resp.Value() == After(r, Count(r, n)) && Sendable(resp.Value())
    ensures resp.status == HandleHead || resp.status == HandleBody
  {
    var sentLen := Taken(n, resp.headLen - resp.cursor);
    piece := resp.head[resp.cursor..resp.cursor + sentLen];
    resp.cursor := resp.cursor + sentLen;
    if resp.cursor >= resp.headLen {
      resp.status := HandleBody;
      resp.cursor := 0;
    }
  }

  method TakeBody(resp: Response, n: nat) returns (piece: string)
    requires Sendable(resp.Value()) && Offers(resp.Value()) && resp.status == HandleBody
    modifies resp
    ensures var r := old(resp.Value());
      piece == Piece(r, n) && resp.Value() == After(r, Count(r, n)) && Sendable(resp.Value())
    ensures resp.status == HandleBody || resp.status == HandleComplete
  {
    var body := if resp.bodyType == HtmlType then resp.msgBody else resp.fileMsg;
    var sentLen := Taken(n, resp.msgBodyLen - resp.cursor);
    piece := body[resp.cursor..resp.cursor + sentLen];
    resp.cursor := resp.cursor + sentLen;
    if resp.cursor >= resp.msgBodyLen {
      resp.status := HandleComplete;
      resp.cursor := 0;
    }
  }

  /** A call that reports `n` bytes of what it was offered, in bytes. */
  lemma PieceByBytes(r: ResponseValue, n: nat)
    requires Sendable(r) && Offers(r)
    ensures var part := if r.status == HandleHead then r.head else r.Body();
      0 < n <= |part| - r.cursor ==>
        && Piece(r, n) == part[r.cursor..r.cursor + n]
        && (n < |part| - r.cursor ==> After(r, Count(r, n)) == r.(cursor := r.cursor + n))
  {
  }

  /** A hard send error marks the request entry. */
  method MarkFailed(base: EventBase, fd: int, failed: bool)
    requires base.Valid()
    modifies base`requestStatus
    modifies if fd in base.requestStatus then {base.requestStatus[fd]} else {}
    ensures base.Valid()
    ensures base.ConnOf(fd) == Flagged(old(base.ConnOf(fd)), failed)
    ensures SameElsewhere(base.requestStatus, old(base.requestStatus), fd)
  {
    if failed {
      var req := base.RequestEntry(fd);
      req.status := HandleError;
    }
  }

  /** After the loop: a complete response is erased and the connection goes back
      to reading; otherwise it stays armed for both. Line 454 then reads the
      entry again, which re-creates it with default values. */
  method Release(base: EventBase, fd: int, resp: Response)
    requires base.Valid() && fd in base.responseStatus && resp == base.responseStatus[fd]
    modifies base`responseStatus, base`interest
    ensures base.Valid()
    ensures SameElsewhere(base.responseStatus, old(base.responseStatus), fd)
    ensures SameElsewhere(base.interest, old(base.interest), fd)
    ensures base.ConnOf(fd) == AfterSend(old(base.ConnOf(fd)), resp.Value())
  {
    if resp.status == HandleComplete {
      base.responseStatus := base.responseStatus - {fd};
      base.interest := base.interest[fd := ReadOnly];
    } else if resp.status == HandleError {
      base.responseStatus := base.responseStatus - {fd};
      base.interest := base.interest - {fd};
    } else {
      base.interest := base.interest[fd := ReadWrite];
      return;
    }
    var entry := base.ResponseEntry(fd);
  }

  /** Sending and releasing: what Transmit says. */
  method TransmitAll(base: EventBase, fd: int, resp: Response, results: seq<SendResult>)
    requires base.Valid() && fd in base.responseStatus && resp == base.responseStatus[fd]
    requires Sendable(resp.Value())
    requires resp.status == HandleHead || resp.status == HandleBody || resp.status == HandleError
    modifies base`requestStatus, base`responseStatus, base`interest, base`wire, resp
    modifies if fd in base.requestStatus then {base.requestStatus[fd]} else {}
    ensures base.Valid()
    ensures Transmit(old(base.ConnOf(fd)), old(resp.Value()), base.files, results)
      == Passed(base.ConnOf(fd), base.files)
    ensures SameElsewhere(base.requestStatus, old(base.requestStatus), fd)
    ensures SameElsewhere(base.responseStatus, old(base.responseStatus), fd)
    ensures SameElsewhere(base.interest, old(base.interest), fd)
    ensures SameElsewhere(base.wire, old(base.wire), fd)
  {
    hide SendLoop, SameElsewhere, AfterSend;
    ghost var c, o := base.ConnOf(fd), SendLoop(resp.Value(), results);
    var failed := SendBytes(base, fd, resp, results);
    assert base.ConnOf(fd) == c.(wire := c.wire + o.out, resp := Some(o.r));
    MarkFailed(base, fd, failed);
    Release(base, fd, resp);
    ResponseReplaced(Flagged(c.(wire := c.wire + o.out), failed), o.r);
  }

  lemma TransmitReplaces(c: Conn, before: Option<ResponseValue>, r: ResponseValue,
                         files: Files, results: seq<SendResult>)
    requires Sendable(r)
    ensures Transmit(c.(resp := before), r, files, results) == Transmit(c, r, files, results)
  {
  }

  lemma ResponseReplaced(c: Conn, r: ResponseValue)
    ensures AfterSend(c.(resp := Some(r)), r) == AfterSend(c, r)
  {
  }

  /** HandleSend::process. `page` is the file list as it would be rendered,
      `results` what the successive `send` and `sendfile` calls return. The run
      does exactly what SendPass says for this connection and leaves the entries
      of the others alone. */
  method Process(base: EventBase, fd: int, page: string, results: seq<SendResult>) returns (crashed: bool)
    requires base.Valid() && ValidConn(base.ConnOf(fd))
    modifies base
    modifies if fd in base.requestStatus then {base.requestStatus[fd]} else {}
    modifies if fd in base.responseStatus then {base.responseStatus[fd]} else {}
    ensures crashed <==> SendPass(old(base.ConnOf(fd)), old(base.files), page, results).Crashed?
    ensures !crashed ==>
      && base.Valid()
      && SendPass(old(base.ConnOf(fd)), old(base.files), page, results) == Passed(base.ConnOf(fd), base.files)
      && SameElsewhere(base.requestStatus, old(base.requestStatus), fd)
      && SameElsewhere(base.responseStatus, old(base.responseStatus), fd)
      && SameElsewhere(base.interest, old(base.interest), fd)
      && SameElsewhere(base.wire, old(base.wire), fd)
  {
    hide SendLoop, Route, SameElsewhere, AfterSend, Transmit;
    ghost var c0 := base.ConnOf(fd);
    ghost var files0 := base.files;
    ElsewhereKept(base.requestStatus, fd);
    ElsewhereKept(base.responseStatus, fd);
    ElsewhereKept(base.interest, fd);
    ElsewhereKept(base.wire, fd);
    if fd !in base.responseStatus {
      return false;
    }
    var resp := base.responseStatus[fd];
    if resp.status == HandleInit {
      var r := RouteResponse(base, fd, page);
      if r == RoutedFault {
        return true;
      }
      if fd in base.requestStatus {
        ElsewhereUpdated(old(base.requestStatus), fd, base.requestStatus[fd]);
      }
      ElsewhereUpdated(old(base.responseStatus), fd, base.responseStatus[fd]);
      ElsewhereUpdated(old(base.interest), fd, ReadWrite);
      if r == Again {
        return false;
      }
      RouteSendable(c0.resp.value, files0, page, RequestOf(c0).recvMsg);
    }
    ghost var c1 := base.ConnOf(fd);
    TransmitReplaces(c1, c0.resp, resp.Value(), base.files, results);
    assert SendPass(c0, files0, page, results) == Transmit(c1, resp.Value(), base.files, results);
    ghost var requests1 := base.requestStatus;
    TransmitAll(base, fd, resp, results);
    ElsewhereTransitive(base.requestStatus, requests1, old(base.requestStatus), fd);
    return false;
  }
}
