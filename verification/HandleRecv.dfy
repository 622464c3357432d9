/** event/myevent.cpp, receiving side: the static maps of EventBase and
    HandleRecv::process, updating them in place. The contracts tie every step
    to the request machine.
 */
module HandleRecv {
  import opened Bytes
  import opened Message
  import opened RequestMachine
  import opened Connection
  import Scanner
  import Upload

  /** The state shared by all handlers: the two static maps, the upload
      directory, the epoll table (no entry: not registered) and the bytes each
      socket has been given. */
  class EventBase {
    var requestStatus: map<int, Request>
    var responseStatus: map<int, Response>
    var files: Files
    var interest: map<int, Interest>
    var wire: map<int, string>

    /** Every entry is an object of its own. */
    ghost predicate Valid()
      reads this
    {
      && (forall a, b | a in requestStatus && b in requestStatus && a != b :: requestStatus[a] != requestStatus[b])
      && (forall a, b | a in responseStatus && b in responseStatus && a != b :: responseStatus[a] != responseStatus[b])
    }

    ghost function TargetOf(fd: int): string
      reads this, if fd in responseStatus then {responseStatus[fd]} else {}
    {
      if fd in responseStatus then responseStatus[fd].target else ""
    }

    /** What the maps hold for one connection. */
    ghost function ConnOf(fd: int): Conn
      reads this
      reads if fd in requestStatus then {requestStatus[fd]} else {}
      reads if fd in responseStatus then {responseStatus[fd]} else {}
    {
      Conn(if fd in requestStatus then Some(requestStatus[fd].Value()) else None,
           if fd in responseStatus then Some(responseStatus[fd].Value()) else None,
           if fd in interest then interest[fd] else Closed,
           if fd in wire then wire[fd] else "")
    }

    /** `responseStatus[fd]`: the entry, created on first use. */
    method ResponseEntry(fd: int) returns (resp: Response)
      requires Valid()
      modifies this`responseStatus
      ensures Valid()
      ensures fd in responseStatus && resp == responseStatus[fd]
      ensures if fd in old(responseStatus) then responseStatus == old(responseStatus)
              else responseStatus == old(responseStatus)[fd := resp] && fresh(resp)
                   && resp.Value() == FRESH_RESPONSE
    {
      if fd !in responseStatus {
        var entry := new Response();
        responseStatus := responseStatus[fd := entry];
      }
      resp := responseStatus[fd];
    }

    /** `responseStatus[fd].setBodyFileName(target)` followed by re-arming for
        reading and writing. */
    method Answer(fd: int, target: string)
      requires Valid()
      modifies this`responseStatus, this`interest
      modifies if fd in responseStatus then {responseStatus[fd]} else {}
      ensures Valid()
      ensures fd in responseStatus && responseStatus[fd].target == target
      ensures ResponseAfter(this, fd, true)
      ensures interest == old(interest)[fd := ReadWrite]
    {
      var resp := ResponseEntry(fd);
      resp.target := target;
      interest := interest[fd := ReadWrite];
    }

    /** `requestStatus[fd]`: the entry, created on first use. */
    method RequestEntry(fd: int) returns (req: Request)
      requires Valid()
      modifies this`requestStatus
      ensures Valid()
      ensures fd in requestStatus && req == requestStatus[fd]
      ensures if fd in old(requestStatus) then requestStatus == old(requestStatus)
              else requestStatus == old(requestStatus)[fd := req] && fresh(req)
                   && req.Value() == FRESH_REQUEST
    {
      if fd !in requestStatus {
        var entry := new Request();
        requestStatus := requestStatus[fd := entry];
      }
      req := requestStatus[fd];
    }
  }

  /** The response entries behind a receive run: with a new target for `fd` if it
      has answered, in an entry created at need, and else as they were. */
  twostate predicate ResponseAfter(base: EventBase, fd: int, answered: bool)
    reads base
    reads if fd in base.responseStatus then {base.responseStatus[fd]} else {}
  {
    if !answered then
      && base.responseStatus == old(base.responseStatus)
      && (fd in base.responseStatus ==> base.responseStatus[fd].Value() == old(base.responseStatus[fd].Value()))
    else
      && fd in base.responseStatus
      && if fd in old(base.responseStatus) then
        && base.responseStatus == old(base.responseStatus)
        && base.responseStatus[fd].Value() == old(base.responseStatus[fd].Value()).(target := base.TargetOf(fd))
      else
        && base.responseStatus == old(base.responseStatus)[fd := base.responseStatus[fd]]
        && fresh(base.responseStatus[fd])
        && base.responseStatus[fd].Value() == FRESH_RESPONSE.(target := base.TargetOf(fd))
  }

  /** HANDLE_INIT: one request line, if it has arrived. */
  method ParseRequestLine(req: Request, ghost target: string, ghost files: Files, ghost canOpen: bool)
    modifies req
    ensures
      Settle(Machine(req.Value(), target, files), canOpen) == old(Settle(Machine(req.Value(), target, files), canOpen))
    ensures req.status == HandleInit ==> Step(Machine(req.Value(), target, files), canOpen) == Stuck
    ensures old(ValidRequest(req.Value())) ==> ValidRequest(req.Value())
    ensures req.status == old(req.status) || req.status == HandleHead
  {
    if req.status == HandleInit {
      ghost var m0 := Machine(req.Value(), target, files);
      var endIndex := Find(req.recvMsg, CRLF);
      if endIndex.Some? {
        var line := req.recvMsg[..endIndex.value + 2];
        req.SetRequestLine(line);
        req.recvMsg := req.recvMsg[endIndex.value + 2..];
        req.status := HandleHead;
        assert Step(m0, canOpen) == Next(Machine(req.Value(), target, files));
      }
    }
  }

  datatype LineRead = NoLine | LastLine | FieldLine | BadLine

  /** One turn of the header loop. */
  method ParseHeaderLine(req: Request) returns (r: LineRead)
    requires req.status == HandleHead
    modifies req
    ensures r == match CutLine(old(req.recvMsg))
      case None => NoLine
      case Some((line, rest)) =>
        if line == CRLF then LastLine
        else if AddHeader(old(req.Value()).(recvMsg := rest), line).None? then BadLine
        else FieldLine
    ensures r == NoLine ==> req.Value() == old(req.Value())
    ensures r == LastLine ==>
      req.Value() == EnterBody(old(req.Value()).(recvMsg := CutLine(old(req.recvMsg)).value.1))
    ensures r == FieldLine ==>
      var (line, rest) := CutLine(old(req.recvMsg)).value;
      req.Value() == AddHeader(old(req.Value()).(recvMsg := rest), line).value
  {
    var endIndex := Find(req.recvMsg, CRLF);
    if endIndex.None? {
      return NoLine;
    }
    var curLine := req.recvMsg[..endIndex.value + 2];
    req.recvMsg := req.recvMsg[endIndex.value + 2..];
    if curLine == CRLF {
      req.status := HandleBody;
      if CONTENT_TYPE in req.headers && req.headers[CONTENT_TYPE] == MULTIPART {
        req.fileStatus := FileBeginFlag;
      }
      return LastLine;
    }
    var added := req.AddHeaderOpt(curLine);
    return if added then FieldLine else BadLine;
  }

  /** HANDLE_HEAD: header lines up to the empty one. */
  method ParseHeaders(req: Request, ghost target: string, ghost files: Files, ghost canOpen: bool)
    returns (ok: bool)
    modifies req
    ensures !ok ==> old(Settle(Machine(req.Value(), target, files), canOpen)) == Faulted
    ensures ok ==>
      Settle(Machine(req.Value(), target, files), canOpen) == old(Settle(Machine(req.Value(), target, files), canOpen))
    ensures ok && req.status == HandleHead ==> Step(Machine(req.Value(), target, files), canOpen) == Stuck
    ensures ok && old(ValidRequest(req.Value())) ==> ValidRequest(req.Value())
    ensures ok ==> req.status == old(req.status) || req.status == HandleBody
    ensures ok && old(req.status) != HandleHead ==> req.Value() == old(req.Value())
  {
    hide Settle, Step, AddHeader;
    ghost var goal := Settle(Machine(req.Value(), target, files), canOpen);
    if req.status == HandleHead {
      while true
        invariant req.status == HandleHead
        invariant old(ValidRequest(req.Value())) ==> ValidRequest(req.Value())
        invariant Settle(Machine(req.Value(), target, files), canOpen) == goal
        decreases |req.recvMsg|
      {
        ghost var m0 := Machine(req.Value(), target, files);
        HeaderLineMove(m0, canOpen);
        var r := ParseHeaderLine(req);
        if r == BadLine {
          return false;
        }
        if r != FieldLine {
          break;
        }
      }
    }
    return true;
  }

  lemma AddHeaderKeeps(v: RequestValue, line: string)
    ensures AddHeader(v, line).Some? ==>
      AddHeader(v, line).value.status == v.status && AddHeader(v, line).value.fileStatus == v.fileStatus
  {
  }

  lemma HeaderLineMove(m: Machine, canOpen: bool)
    requires m.req.status == HandleHead
    ensures CutLine(m.req.recvMsg).None? ==> Step(m, canOpen) == Stuck
    ensures CutLine(m.req.recvMsg).Some? ==>
      && |CutLine(m.req.recvMsg).value.1| < |m.req.recvMsg|
      && HeaderLineRead(m, CutLine(m.req.recvMsg).value, canOpen)
  {
    hide Advances, ApplyEffect, LineEffect, Settle;
    SettleMove(m, canOpen);
    if CutLine(m.req.recvMsg).Some? {
      var (line, rest) := CutLine(m.req.recvMsg).value;
      AddHeaderKeeps(m.req.(recvMsg := rest), line);
      ApplyKeepsBuffer(m.req.(recvMsg := rest), LineEffect(line), rest);
    }
  }

  /** What one line of the header block does. */
  predicate HeaderLineRead(m: Machine, cut: (string, string), canOpen: bool) {
    var v := m.req.(recvMsg := cut.1);
    var added := AddHeader(v, cut.0);
    if cut.0 == CRLF then Settle(m, canOpen) == Settle(m.(req := EnterBody(v)), canOpen)
    else if added.None? then Settle(m, canOpen) == Faulted
    else
      && added.value.recvMsg == cut.1 && added.value.status == HandleHead
      && added.value.fileStatus == m.req.fileStatus
      && Settle(m, canOpen) == Settle(m.(req := added.value), canOpen)
  }

  /** The request is in the body of a multipart POST. */
  predicate InMultipart(v: RequestValue) {
    v.status == HandleBody && v.requestMethod == "POST" && IsMultipart(v)
  }

  /** FILE_BEGIN_FLAG: the opening delimiter line. `redirect` reports the branch
      that gives up on the upload. */
  method ParseBeginFlag(req: Request, ghost target: string, ghost files: Files, ghost canOpen: bool)
    returns (ok: bool, redirect: bool)
    requires InMultipart(req.Value())
    modifies req
    ensures InMultipart(req.Value())
    ensures !ok ==> old(Settle(Machine(req.Value(), target, files), canOpen)) == Faulted
    ensures ok && redirect ==>
      Settle(Complete(Machine(req.Value(), target, files), REDIRECT), canOpen)
        == old(Settle(Machine(req.Value(), target, files), canOpen))
    ensures ok && !redirect ==>
      Settle(Machine(req.Value(), target, files), canOpen) == old(Settle(Machine(req.Value(), target, files), canOpen))
    ensures ok && !redirect && req.fileStatus == FileBeginFlag ==>
      Step(Machine(req.Value(), target, files), canOpen) == Stuck
    ensures ok && old(ValidRequest(req.Value())) ==> ValidRequest(req.Value())
    ensures ok && old(req.fileStatus) != FileBeginFlag ==> !redirect && req.Value() == old(req.Value())
  {
    if req.fileStatus == FileBeginFlag {
      ghost var m0 := Machine(req.Value(), target, files);
      var endIndex := Find(req.recvMsg, CRLF);
      if endIndex.Some? {
        var flagStr := req.recvMsg[..endIndex.value];
        assert CutLine(req.recvMsg).value.0[..endIndex.value] == flagStr;
        if BOUNDARY !in req.headers {
          assert Step(m0, canOpen) == Fault;
          return false, false;
        }
        if flagStr == "--" + req.headers[BOUNDARY] {
          req.fileStatus := FileHead;
          req.recvMsg := req.recvMsg[endIndex.value + 2..];
          assert Step(m0, canOpen) == Next(Machine(req.Value(), target, files));
        } else {
          assert Step(m0, canOpen) == Next(Complete(m0, REDIRECT));
          return true, true;
        }
      }
    }
    return true, false;
  }

  /** The quoted name on a part header line: the loop that appends one character
      at a time until the closing quote, then drops white space. False where the
      original would read past the end of the line. */
  method ReadFileName(req: Request, line: string) returns (ok: bool)
    modifies req`fileName
    ensures ok <==> LineFileName(old(req.fileName), line).Some?
    ensures ok ==> req.fileName == LineFileName(old(req.fileName), line).value
  {
    var endIndex := Find(line, FILENAME);
    if endIndex.None? {
      return true;
    }
    var cut := endIndex.value + |"filename=\""|;
    var strLine := if cut > |line| then "" else line[cut..];
    var i := 0;
    while i < |strLine| && strLine[i] != '\"'
      invariant 0 <= i <= |strLine|
      invariant '\"' !in strLine[..i]
      invariant req.fileName == old(req.fileName) + strLine[..i]
    {
      req.fileName := req.fileName + [strLine[i]];
      assert strLine[..i + 1] == strLine[..i] + [strLine[i]];
      i := i + 1;
    }
    QuoteIndex(strLine, i);
    if i == |strLine| {
      return false;
    }
    req.fileName := RemoveSpaces(req.fileName);
    return true;
  }

  lemma QuoteIndex(s: string, i: nat)
    requires i <= |s| && '\"' !in s[..i]
    requires i < |s| ==> s[i] == '\"'
    ensures IndexOf(s, '\"') == if i < |s| then Some(i) else None
  {
    if i < |s| {
      forall k | 0 <= k < i ensures s[k] != '\"' {
        assert s[..i][k] == s[k];
      }
      IndexFromIs(s, '\"', 0, i);
    } else {
      assert s[..i] == s;
    }
  }

  lemma PartLineMove(m: Machine, canOpen: bool)
    requires InMultipart(m.req) && m.req.fileStatus == FileHead
    ensures CutLine(m.req.recvMsg).None? ==> Step(m, canOpen) == Stuck
    ensures CutLine(m.req.recvMsg).Some? ==> PartLineRead(m, CutLine(m.req.recvMsg).value, canOpen)
  {
    hide Settle, CutLine, LineFileName;
    SettleMove(m, canOpen);
  }

  /** What one header line of the part does. */
  predicate PartLineRead(m: Machine, cut: (string, string), canOpen: bool) {
    var v := m.req.(recvMsg := cut.1);
    var name := LineFileName(v.fileName, cut.0);
    if cut.0 == CRLF then Settle(m, canOpen) == Settle(m.(req := v.(fileStatus := FileContent)), canOpen)
    else if name.None? then Settle(m, canOpen) == Faulted
    else Settle(m, canOpen) == Settle(m.(req := v.(fileName := name.value)), canOpen)
  }

  /** FILE_HEAD: the header lines of the part, up to the empty one. */
  method ParseFileHead(req: Request, ghost target: string, ghost files: Files, ghost canOpen: bool)
    returns (ok: bool)
    requires InMultipart(req.Value())
    modifies req
    ensures InMultipart(req.Value())
    ensures !ok ==> old(Settle(Machine(req.Value(), target, files), canOpen)) == Faulted
    ensures ok ==>
      Settle(Machine(req.Value(), target, files), canOpen) == old(Settle(Machine(req.Value(), target, files), canOpen))
    ensures ok && req.fileStatus == FileHead ==> Step(Machine(req.Value(), target, files), canOpen) == Stuck
    ensures ok && old(ValidRequest(req.Value())) ==> ValidRequest(req.Value())
    ensures ok && old(req.fileStatus) == FileHead ==> req.fileStatus == FileHead || req.fileStatus == FileContent
    ensures ok && old(req.fileStatus) != FileHead ==> req.Value() == old(req.Value())
  {
    hide Settle, Step, LineFileName, Find;
    ghost var goal := Settle(Machine(req.Value(), target, files), canOpen);
    if req.fileStatus == FileHead {
      while true
        invariant InMultipart(req.Value()) && req.fileStatus == FileHead && req.headers == old(req.headers)
        invariant Settle(Machine(req.Value(), target, files), canOpen) == goal
        decreases |req.recvMsg|
      {
        ghost var m0 := Machine(req.Value(), target, files);
        PartLineMove(m0, canOpen);
        var endIndex := Find(req.recvMsg, CRLF);
        if endIndex.None? {
          break;
        }
        var strLine := req.recvMsg[..endIndex.value + 2];
        req.recvMsg := req.recvMsg[endIndex.value + 2..];
        if strLine == CRLF {
          req.fileStatus := FileContent;
          break;
        }
        var named := ReadFileName(req, strLine);
        if !named {
          return false;
        }
      }
    }
    return true;
  }

  datatype Turn = Blocked | AtTerminator | Flush(n: nat)

  /** One turn of the content loop on the bytes it holds: write up to the next
      carriage return, up to the next but one, or everything; or stop, because
      the terminator is at the front or the tail cannot be decided yet. What is
      written is decided by the bytes at hand, and is never empty. */
  method ChooseRun(msg: string, boundary: string) returns (r: Turn)
    ensures r == Blocked <==> Scanner.ScanStep(Scanner.Terminator(boundary), msg) == Scanner.Wait
    ensures r == AtTerminator <==> "\r\n--" + boundary + "--\r\n" <= msg
    ensures r == AtTerminator <==> Scanner.ScanStep(Scanner.Terminator(boundary), msg) == Scanner.Found
    ensures r.Flush? ==> 0 < r.n <= |msg|
    ensures r.Flush? ==>
      forall j: nat | j < r.n :: Scanner.ScanStep(Scanner.Terminator(boundary), msg[j..]) == Scanner.Keep
  {
    var saveLen := |msg|;
    if saveLen == 0 {
      return Blocked;
    }
    ghost var t := Scanner.Terminator(boundary);
    assert msg[0..] == msg;
    var endIndex := IndexOf(msg, '\r');
    if endIndex.Some? {
      var first := endIndex.value;
      PrefixHasNone(msg, first);
      var boundarySecLen := |boundary| + 8;
      if |msg| - first >= boundarySecLen {
        if msg[first..first + boundarySecLen] == "\r\n--" + boundary + "--\r\n" {
          if first == 0 {
            return AtTerminator;
          }
          saveLen := first;
        } else {
          var next := IndexFrom(msg, '\r', first + 1);
          RunHasOne(msg, first, next);
          if next.Some? {
            saveLen := next.value;
          }
        }
      } else {
        if first == 0 {
          return Blocked;
        }
        saveLen := first;
      }
    } else {
      assert forall j | 0 <= j < |msg| :: msg[j] in msg;
    }
    FlushIsDecided(t, msg, saveLen);
    return Flush(saveLen);
  }

  lemma PrefixHasNone(s: string, n: nat)
    requires n <= |s| && '\r' !in s[..n]
    ensures forall j | 0 <= j < n :: s[j] != '\r'
  {
    forall j | 0 <= j < n ensures s[j] != '\r' {
      assert s[..n][j] == s[j];
    }
  }

  lemma RunHasOne(s: string, first: nat, next: Option<nat>)
    requires first < |s| && next == IndexFrom(s, '\r', first + 1)
    ensures forall j | first < j < (if next.Some? then next.value else |s|) :: s[j] != '\r'
  {
    var n := if next.Some? then next.value else |s|;
    assert next.None? ==> s[first + 1..] == s[first + 1..n];
    forall j | first < j < n ensures s[j] != '\r' {
      assert s[first + 1..n][j - first - 1] == s[j];
    }
  }

  /** What one turn writes, whichever branch chose it: a run with a carriage
      return nowhere but at a decided mismatch. */
  lemma FlushIsDecided(t: string, s: string, n: nat)
    requires t != "" && t[0] == '\r' && n <= |s|
    requires forall j | 0 <= j < n && s[j] == '\r' ::
      j + |t| <= |s| && s[j..j + |t|] != t
    ensures forall j: nat | j < n :: Scanner.ScanStep(t, s[j..]) == Scanner.Keep
  {
    forall j: nat | j < n ensures Scanner.ScanStep(t, s[j..]) == Scanner.Keep {
      if s[j] == '\r' {
        assert s[j..][..|t|] == s[j..j + |t|];
      }
    }
  }

  /** FILE_CONTENT: the loop over these turns, appending to the open file and
      erasing from the front of the buffer. */
  method SaveContent(req: Request, base: EventBase, ghost target: string)
    requires InMultipart(req.Value()) && req.fileStatus == FileContent
    requires BOUNDARY in req.headers && req.fileName in base.files
    modifies req`recvMsg, req`fileStatus, base`files
    ensures InMultipart(req.Value())
    ensures
      Settle(Machine(req.Value(), target, base.files), true)
        == old(Settle(Machine(req.Value(), target, base.files), true))
    ensures req.fileStatus == FileComplete ||
      (req.fileStatus == FileContent && Step(Machine(req.Value(), target, base.files), true) == Stuck)
  {
    ghost var goal := Settle(Machine(req.Value(), target, base.files), true);
    while true
      invariant Upload.Saving(Machine(req.Value(), target, base.files))
      invariant Settle(Machine(req.Value(), target, base.files), true) == goal
      decreases |req.recvMsg|
    {
      ghost var m0 := Machine(req.Value(), target, base.files);
      var turn := ChooseRun(req.recvMsg, req.headers[BOUNDARY]);
      match turn
      case Blocked =>
        break;
      case AtTerminator =>
        req.fileStatus := FileComplete;
        assert Step(m0, true) == Next(Machine(req.Value(), target, base.files));
        break;
      case Flush(saveLen) =>
        Upload.SettleRun(m0, saveLen);
        base.files := base.files[req.fileName := base.files[req.fileName] + req.recvMsg[..saveLen]];
        req.recvMsg := req.recvMsg[saveLen..];
        assert Machine(req.Value(), target, base.files) == Upload.Saved(m0, saveLen);
    }
  }

  /** FILE_CONTENT from opening the file: append mode creates it. */
  method OpenAndSave(req: Request, base: EventBase, ghost target: string, canOpen: bool) returns (saved: bool)
    requires InMultipart(req.Value()) && ValidRequest(req.Value())
    modifies req`recvMsg, req`fileStatus, base`files
    ensures InMultipart(req.Value())
    ensures Settle(Machine(req.Value(), target, base.files), canOpen)
      == old(Settle(Machine(req.Value(), target, base.files), canOpen))
    ensures saved <==> canOpen || old(req.fileStatus) != FileContent
    ensures !saved || (old(req.fileStatus) == FileContent && req.fileStatus != FileComplete) ==>
      req.fileStatus == FileContent && Step(Machine(req.Value(), target, base.files), canOpen) == Stuck
    ensures old(req.fileStatus) != FileContent ==> req.Value() == old(req.Value()) && base.files == old(base.files)
  {
    if req.fileStatus == FileContent {
      if !canOpen {
        return false;
      }
      if req.fileName !in base.files {
        ghost var m0 := Machine(req.Value(), target, base.files);
        base.files := base.files[req.fileName := ""];
        assert Step(m0, true) == Next(Machine(req.Value(), target, base.files));
      }
      SaveContent(req, base, target);
    }
    return true;
  }

  lemma SettledHere(m: Machine, canOpen: bool)
    requires Step(m, canOpen) == Stuck || m.req.status == HandleComplete
    ensures Step(m, canOpen) == Stuck && Settle(m, canOpen) == Settled(m)
  {
  }

  lemma UploadFinished(m: Machine, canOpen: bool)
    requires InMultipart(m.req) && m.req.fileStatus == FileComplete
    ensures Settle(m, canOpen) == Settled(Complete(m, REDIRECT))
  {
    SettledHere(Complete(m, REDIRECT), canOpen);
  }

  datatype BodyEnd = BodyFault | GoOn | Redirect | Unsaved

  /** The multipart branch of HANDLE_BODY: its four sub-stages in order. */
  method ParseMultipart(req: Request, base: EventBase, ghost target: string, canOpen: bool) returns (r: BodyEnd)
    requires InMultipart(req.Value()) && ValidRequest(req.Value())
    modifies req, base`files
    ensures InMultipart(req.Value())
    ensures r == BodyFault ==> old(Settle(Machine(req.Value(), target, base.files), canOpen)) == Faulted
    ensures r == GoOn || r == Unsaved ==>
      && old(Settle(Machine(req.Value(), target, base.files), canOpen))
           == Settled(Machine(req.Value(), target, base.files))
      && Step(Machine(req.Value(), target, base.files), canOpen) == Stuck
    ensures r == Unsaved <==> r != BodyFault && r != Redirect && req.fileStatus == FileContent && !canOpen
    ensures r == Redirect ==>
      old(Settle(Machine(req.Value(), target, base.files), canOpen))
        == Settled(Complete(Machine(req.Value(), target, base.files), REDIRECT))
  {
    hide Settle, Step;
    var ok, redirect := ParseBeginFlag(req, target, base.files, canOpen);
    if !ok {
      return BodyFault;
    }
    if redirect {
      SettledHere(Complete(Machine(req.Value(), target, base.files), REDIRECT), canOpen);
      return Redirect;
    }
    ghost var m1 := Machine(req.Value(), target, base.files);
    ok := ParseFileHead(req, target, base.files, canOpen);
    if !ok {
      return BodyFault;
    }
    ghost var m2 := Machine(req.Value(), target, base.files);
    assert m2.req.fileStatus == FileBeginFlag ==> Step(m2, canOpen) == Stuck;
    var saved := OpenAndSave(req, base, target, canOpen);
    ghost var m := Machine(req.Value(), target, base.files);
    if !saved {
      SettledHere(m, canOpen);
      return Unsaved;
    }
    if req.fileStatus == FileComplete {
      UploadFinished(m, canOpen);
      return Redirect;
    }
    assert m2.req.fileStatus != FileContent ==> m == m2;
    assert m2.req.fileStatus == FileHead ==> Step(m, canOpen) == Stuck;
    SettledHere(m, canOpen);
    return GoOn;
  }

  lemma BodyMoves(m: Machine, canOpen: bool)
    requires m.req.status == HandleBody
    ensures m.req.requestMethod == "GET" ==>
      Settle(m, canOpen) == Settled(Complete(m, m.req.resource))
    ensures m.req.requestMethod == "POST" && !IsMultipart(m.req) ==>
      Settle(m, canOpen) == Settled(Complete(m, REDIRECT))
    ensures m.req.requestMethod == "PUT" ==>
      Settle(m, canOpen) == Settled(m.(target := m.req.resource))
    ensures m.req.requestMethod !in {"GET", "POST", "PUT"} ==> Settle(m, canOpen) == Settled(m)
  {
    if m.req.requestMethod == "GET" {
      SettledHere(Complete(m, m.req.resource), canOpen);
    } else if m.req.requestMethod == "POST" && !IsMultipart(m.req) {
      SettledHere(Complete(m, REDIRECT), canOpen);
    } else if m.req.requestMethod == "PUT" {
      SettledHere(m.(target := m.req.resource), canOpen);
    }
  }

  /** Naming the response target, re-arming for both, and marking the request complete. */
  method CompleteRequest(req: Request, base: EventBase, fd: int, target: string)
    requires base.Valid() && fd in base.requestStatus && req == base.requestStatus[fd]
    modifies req`status, base`responseStatus, base`interest
    modifies if fd in base.responseStatus then {base.responseStatus[fd]} else {}
    ensures base.Valid() && fd in base.responseStatus
    ensures Machine(req.Value(), base.TargetOf(fd), base.files)
      == Complete(old(Machine(req.Value(), base.TargetOf(fd), base.files)), target)
    ensures ResponseAfter(base, fd, true)
    ensures base.interest == old(base.interest)[fd := ReadWrite]
  {
    base.Answer(fd, target);
    req.status := HandleComplete;
  }

  /** HANDLE_BODY: GET, POST and PUT. */
  method ParseBody(req: Request, base: EventBase, fd: int, canOpen: bool) returns (ok: bool, ending: Option<Ending>)
    requires base.Valid() && fd in base.requestStatus && req == base.requestStatus[fd]
    requires ValidRequest(req.Value()) && req.status != HandleComplete
    requires req.status != HandleBody ==> Step(Machine(req.Value(), base.TargetOf(fd), base.files), canOpen) == Stuck
    modifies req, base`files, base`responseStatus, base`interest
    modifies if fd in base.responseStatus then {base.responseStatus[fd]} else {}
    ensures base.Valid()
    ensures !ok ==> old(Settle(Machine(req.Value(), base.TargetOf(fd), base.files), canOpen)) == Faulted
    ensures ok ==>
      old(Settle(Machine(req.Value(), base.TargetOf(fd), base.files), canOpen))
        == Settled(Machine(req.Value(), base.TargetOf(fd), base.files))
    ensures ok ==> ending == EndingOf(req.Value(), canOpen)
    ensures ok && ending == Some(Answered) ==> base.interest == old(base.interest)[fd := ReadWrite]
    ensures ok && ending != Some(Answered) ==> base.interest == old(base.interest)
    ensures ResponseAfter(base, fd, ok && ending == Some(Answered))
  {
    hide Settle, Step, ValidRequest;
    ghost var m0 := Machine(req.Value(), base.TargetOf(fd), base.files);
    if req.status == HandleBody {
      BodyMoves(m0, canOpen);
      if req.requestMethod == "GET" {
        CompleteRequest(req, base, fd, req.resource);
        return true, Some(Answered);
      }
      if req.requestMethod == "POST" {
        if CONTENT_TYPE in req.headers && req.headers[CONTENT_TYPE] == MULTIPART {
          var r := ParseMultipart(req, base, base.TargetOf(fd), canOpen);
          match r
          case BodyFault =>
            return false, None;
          case Redirect =>
            CompleteRequest(req, base, fd, REDIRECT);
            return true, Some(Answered);
          case Unsaved =>
            return true, Some(Unopened);
          case GoOn =>
        } else {
          CompleteRequest(req, base, fd, REDIRECT);
          return true, Some(Answered);
        }
      }
      if req.requestMethod == "PUT" {
        base.Answer(fd, req.resource);
        return true, Some(Answered);
      }
    } else {
      SettledHere(m0, canOpen);
    }
    return true, None;
  }

  lemma FailedIsStuck(m: Machine, canOpen: bool)
    ensures m.req.status == HandleError ==> Step(m, canOpen) == Stuck
  {
  }

  /** One turn of the receive loop: append a chunk and run the stages in order. */
  method Consume(req: Request, base: EventBase, fd: int, bytes: string, canOpen: bool)
    returns (ok: bool, ending: Option<Ending>)
    requires base.Valid() && fd in base.requestStatus && req == base.requestStatus[fd]
    requires ValidRequest(req.Value()) && req.status != HandleComplete
    modifies req, base`files, base`responseStatus, base`interest
    modifies if fd in base.responseStatus then {base.responseStatus[fd]} else {}
    ensures base.Valid()
    ensures !ok ==>
      Settle(Receive(old(Machine(req.Value(), base.TargetOf(fd), base.files)), bytes), canOpen) == Faulted
    ensures ok ==>
      Settle(Receive(old(Machine(req.Value(), base.TargetOf(fd), base.files)), bytes), canOpen)
        == Settled(Machine(req.Value(), base.TargetOf(fd), base.files))
    ensures ok ==> ValidRequest(req.Value())
    ensures ok ==> ending == EndingOf(req.Value(), canOpen)
    ensures ok && ending == Some(Answered) ==> base.interest == old(base.interest)[fd := ReadWrite]
    ensures ok && ending != Some(Answered) ==> base.interest == old(base.interest)
    ensures ResponseAfter(base, fd, ok && ending == Some(Answered))
  {
    hide Settle, Step;
    ghost var m0 := Receive(Machine(req.Value(), base.TargetOf(fd), base.files), bytes);
    req.recvMsg := req.recvMsg + bytes;
    assert Machine(req.Value(), base.TargetOf(fd), base.files) == m0;
    ParseRequestLine(req, base.TargetOf(fd), base.files, canOpen);
    ok := ParseHeaders(req, base.TargetOf(fd), base.files, canOpen);
    if !ok {
      return false, None;
    }
    FailedIsStuck(Machine(req.Value(), base.TargetOf(fd), base.files), canOpen);
    ok, ending := ParseBody(req, base, fd, canOpen);
    if ok {
      SettleKeepsValid(m0, canOpen);
    }
  }

  /** Two maps that agree on every key but one. */
  predicate SameElsewhere<T(==)>(a: map<int, T>, b: map<int, T>, fd: int) {
    a - {fd} == b - {fd}
  }

  lemma ElsewhereKept<T>(a: map<int, T>, fd: int)
    ensures SameElsewhere(a, a, fd)
  {
  }

  lemma ElsewhereTransitive<T>(a: map<int, T>, b: map<int, T>, c: map<int, T>, fd: int)
    requires SameElsewhere(a, b, fd) && SameElsewhere(b, c, fd)
    ensures SameElsewhere(a, c, fd)
  {
  }

  lemma ElsewhereUpdated<T>(a: map<int, T>, fd: int, x: T)
    ensures SameElsewhere(a, a, fd) && SameElsewhere(a[fd := x], a, fd) && SameElsewhere(a - {fd}, a, fd)
    ensures SameElsewhere(a[fd := x] - {fd}, a, fd)
  {
  }

  /** After the loop: a completed request is erased; a failed one is erased and its socket closed. */
  method Conclude(base: EventBase, fd: int, req: Request)
    modifies base`requestStatus, base`interest
    ensures base.requestStatus ==
      if req.status == HandleComplete || req.status == HandleError then old(base.requestStatus) - {fd}
      else old(base.requestStatus)
    ensures base.interest == if req.status == HandleError then old(base.interest) - {fd} else old(base.interest)
  {
    if req.status == HandleComplete {
      base.requestStatus := base.requestStatus - {fd};
    } else if req.status == HandleError {
      base.interest := base.interest - {fd};
      base.requestStatus := base.requestStatus - {fd};
    }
  }

  lemma PassOf(c: Conn, files: Files, input: seq<RecvResult>, canOpen: bool)
    ensures var x := RecvLoop(MachineOf(c, files), input, canOpen);
      RecvPass(c, files, input, canOpen) ==
        if x.RecvCrashed? then Crashed else Passed(AfterRecv(c, x.m, x.ending), x.m.files)
  {
  }

  lemma RearmedElsewhere(interest: map<int, Interest>, fd: int, end: Ending)
    ensures SameElsewhere(Rearmed(interest, fd, end), interest, fd)
    ensures SameElsewhere(Rearmed(interest, fd, end) - {fd}, interest, fd)
  {
    ElsewhereUpdated(interest, fd, ReadOnly);
    ElsewhereUpdated(interest, fd, ReadWrite);
  }

  lemma AfterRecvIs(c: Conn, m: Machine, ending: Ending, c1: Conn)
    requires c1.req == if m.req.status == HandleComplete || m.req.status == HandleError then None else Some(m.req)
    requires c1.resp == if ending == Answered then Some(ResponseOf(c).(target := m.target)) else c.resp
    requires c1.interest ==
      if m.req.status == HandleError then Closed
      else if ending == Waiting then ReadOnly else if ending == Answered then ReadWrite else c.interest
    requires c1.wire == c.wire
    ensures c1 == AfterRecv(c, m, ending)
  {
  }

  /** HandleRecv::process. `input` lists what the successive `recv` calls
      return. The run does to the maps, the upload directory and the epoll table
      exactly what RecvPass says for this connection; the entries of all other
      connections stay the same objects, which the modifies clause leaves alone.
      `crashed` reports an uncaught exception or a read out of bounds. */
  method Process(base: EventBase, fd: int, input: seq<RecvResult>, canOpen: bool) returns (crashed: bool)
    requires base.Valid() && ValidConn(base.ConnOf(fd)) && ValidRequest(RequestOf(base.ConnOf(fd)))
    modifies base`files, base`requestStatus, base`responseStatus, base`interest
    modifies if fd in base.requestStatus then {base.requestStatus[fd]} else {}
    modifies if fd in base.responseStatus then {base.responseStatus[fd]} else {}
    ensures crashed <==> RecvPass(old(base.ConnOf(fd)), old(base.files), input, canOpen).Crashed?
    ensures !crashed ==>
      && base.Valid()
      && RecvPass(old(base.ConnOf(fd)), old(base.files), input, canOpen) == Passed(base.ConnOf(fd), base.files)
      && SameElsewhere(base.requestStatus, old(base.requestStatus), fd)
      && SameElsewhere(base.responseStatus, old(base.responseStatus), fd)
      && SameElsewhere(base.interest, old(base.interest), fd)
  {
    hide Settle, Step, RecvLoop, SameElsewhere, AfterRecv, RecvPass, ValidResponse, ValidRequest;
    ghost var c0 := base.ConnOf(fd);
    var req := base.RequestEntry(fd);
    assert Machine(req.Value(), base.TargetOf(fd), base.files) == MachineOf(c0, base.files);
    PassOf(c0, base.files, input, canOpen);
    var end := ReceiveLoop(base, fd, req, input, canOpen);
    if end.None? {
      return true;
    }
    ghost var m := Machine(req.Value(), base.TargetOf(fd), base.files);
    Conclude(base, fd, req);
    assert SameElsewhere(base.requestStatus, old(base.requestStatus), fd) by {
      ElsewhereUpdated(old(base.requestStatus), fd, req);
    }
    assert SameElsewhere(base.responseStatus, old(base.responseStatus), fd) by {
      ElsewhereKept(base.responseStatus, fd);
      if fd in base.responseStatus {
        ElsewhereUpdated(old(base.responseStatus), fd, base.responseStatus[fd]);
      }
    }
    assert SameElsewhere(base.interest, old(base.interest), fd) by {
      RearmedElsewhere(old(base.interest), fd, end.value);
    }
    AfterRecvIs(c0, m, end.value, base.ConnOf(fd));
    return false;
  }

  function Rearmed(interest: map<int, Interest>, fd: int, end: Ending): map<int, Interest> {
    match end
    case Waiting => interest[fd := ReadOnly]
    case Answered => interest[fd := ReadWrite]
    case Unopened => interest
    case Lost => interest
  }

  /** One turn of the receive loop, by the result of its `recv` call. */
  lemma RecvLoopTurn(m: Machine, input: seq<RecvResult>, canOpen: bool)
    ensures RecvLoop(m, input, canOpen) ==
      if input == [] || input[0].RecvAgain? then Received(m, Waiting)
      else if !input[0].Data? then Received(m.(req := m.req.(status := HandleError)), Lost)
      else match Settle(Receive(m, input[0].bytes), canOpen)
        case Faulted => RecvCrashed
        case Settled(m1) =>
          match EndingOf(m1.req, canOpen)
          case Some(ending) => Received(m1, ending)
          case None => RecvLoop(m1, input[1..], canOpen)
  {
    hide Settle;
  }

  /** The loop around `recv`. */
  method ReceiveLoop(base: EventBase, fd: int, req: Request, input: seq<RecvResult>, canOpen: bool)
    returns (end: Option<Ending>)
    requires base.Valid() && fd in base.requestStatus && req == base.requestStatus[fd]
    requires ValidRequest(req.Value()) && req.status != HandleComplete
    modifies req, base`files, base`responseStatus, base`interest
    modifies if fd in base.responseStatus then {base.responseStatus[fd]} else {}
    ensures base.Valid()
    ensures end.None? <==>
      RecvLoop(old(Machine(req.Value(), base.TargetOf(fd), base.files)), input, canOpen).RecvCrashed?
    ensures end.Some? ==>
      RecvLoop(old(Machine(req.Value(), base.TargetOf(fd), base.files)), input, canOpen)
        == Received(Machine(req.Value(), base.TargetOf(fd), base.files), end.value)
    ensures end.Some? ==> base.interest == Rearmed(old(base.interest), fd, end.value)
    ensures ResponseAfter(base, fd, end == Some(Answered))
  {
    hide Settle, Step, ValidRequest, Receive, RecvLoop, EndingOf;
    ghost var goal := RecvLoop(Machine(req.Value(), base.TargetOf(fd), base.files), input, canOpen);
    var i := 0;
    while true
      invariant 0 <= i <= |input|
      invariant base.Valid() && base.interest == old(base.interest) && base.responseStatus == old(base.responseStatus)
      invariant fd in base.responseStatus ==> base.responseStatus[fd].Value() == old(base.responseStatus[fd].Value())
      invariant ValidRequest(req.Value()) && req.status != HandleComplete
      invariant RecvLoop(Machine(req.Value(), base.TargetOf(fd), base.files), input[i..], canOpen) == goal
      decreases |input| - i
    {
      RecvLoopTurn(Machine(req.Value(), base.TargetOf(fd), base.files), input[i..], canOpen);
      if i == |input| || input[i].RecvAgain? {
        base.interest := base.interest[fd := ReadOnly];
        return Some(Waiting);
      }
      if !input[i].Data? {
        req.status := HandleError;
        return Some(Lost);
      }
      var ok, ending := Consume(req, base, fd, input[i].bytes, canOpen);
      if !ok {
        return None;
      }
      if ending.Some? {
        return ending;
      }
      assert input[i..][1..] == input[i + 1..];
      i := i + 1;
    }
  }
}
