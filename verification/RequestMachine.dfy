/** The request machine as a transition function. `Step` is the smallest move
    the receiver can make on the bytes it already holds; `Settle` makes moves
    until none is left. Each move is decided by bytes that have arrived, so more
    bytes never change it: that is what makes the result independent of how the
    stream was cut into chunks.
 */
module RequestMachine {
  import opened Bytes
  import opened Message
  import Scanner

  /** What one receive handler works on: the request, the response target it
      sets, and the directory of uploaded files. */
  datatype Machine = Machine(req: RequestValue, target: string, files: map<string, string>)

  datatype Move = Stuck | Fault | Next(m: Machine)

  /** `Faulted` stands for an uncaught exception or a read out of bounds. */
  datatype Outcome = Faulted | Settled(m: Machine)

  const REDIRECT := "/redirect"
  const FILENAME := "filename"

  predicate IsMultipart(v: RequestValue) {
    CONTENT_TYPE in v.headers && v.headers[CONTENT_TYPE] == MULTIPART
  }

  /** The file named on a part header line, appended to what was read before. */
  function LineFileName(soFar: string, line: string): Option<string> {
    match Find(line, FILENAME)
    case None => Some(soFar)
    case Some(i) =>
      var cut := i + |"filename=\""|;
      var rest := if cut > |line| then "" else line[cut..];
      match IndexOf(rest, '\"')
      case None => None
      case Some(q) => Some(WithoutSpaces(soFar + rest[..q]))
  }

  function Complete(m: Machine, target: string): Machine {
    m.(req := m.req.(status := HandleComplete), target := target)
  }

  /** The first CRLF-terminated line of the buffer, with its CRLF, and the bytes behind it. */
  function CutLine(s: string): (r: Option<(string, string)>)
    ensures r.Some? ==> s == r.value.0 + r.value.1 && |r.value.0| >= 2
  {
    match Find(s, CRLF)
    case None => None
    case Some(i) => Some((s[..i + 2], s[i + 2..]))
  }

  predicate EndsWith(s: string, tail: string) {
    |tail| <= |s| && s[|s| - |tail|..] == tail
  }

  /** How far the request has come. */
  function Rank(m: Machine): nat {
    match m.req.status
    case HandleInit => 0
    case HandleHead => 2
    case HandleBody =>
      (match m.req.fileStatus
       case FileBeginFlag => 4
       case FileHead => 6
       case FileContent => if m.req.fileName in m.files then 10 else 8
       case FileComplete => 12)
      + (if m.req.requestMethod == "PUT" && m.target == m.req.resource then 1 else 0)
    case HandleComplete => 14
    case HandleError => 16
  }

  /** A move takes bytes off the front of the buffer only, never goes back to
      an earlier stage, and within a stage it does use up bytes. */
  predicate Advances(m: Machine, r: Move) {
    r.Next? ==>
      && EndsWith(m.req.recvMsg, r.m.req.recvMsg)
      && Rank(r.m) <= 14
      && (Rank(m) < Rank(r.m) || (Rank(m) == Rank(r.m) && |r.m.req.recvMsg| < |m.req.recvMsg|))
  }

  function StepInit(m: Machine): (r: Move)
    requires m.req.status == HandleInit
    ensures Advances(m, r)
  {
    match CutLine(m.req.recvMsg)
    case None => Stuck
    case Some((line, rest)) =>
      Next(m.(req := WithRequestLine(m.req.(recvMsg := rest, status := HandleHead), line)))
  }

  /** The request behind the empty line that ends its header block. */
  function EnterBody(v: RequestValue): RequestValue {
    if IsMultipart(v) then v.(status := HandleBody, fileStatus := FileBeginFlag) else v.(status := HandleBody)
  }

  function StepHead(m: Machine): (r: Move)
    requires m.req.status == HandleHead
    ensures Advances(m, r)
  {
    hide ApplyEffect, LineEffect, AddHeader, IsMultipart;
    match CutLine(m.req.recvMsg)
    case None => Stuck
    case Some((line, rest)) =>
      var v := m.req.(recvMsg := rest);
      if line == CRLF then
        Next(m.(req := EnterBody(v)))
      else
        match AddHeader(v, line)
        case None => Fault
        case Some(v1) => Next(m.(req := v1))
  }

  function StepBeginFlag(m: Machine): (r: Move)
    requires m.req.status == HandleBody && m.req.requestMethod == "POST" && m.req.fileStatus == FileBeginFlag
    ensures Advances(m, r)
  {
    match CutLine(m.req.recvMsg)
    case None => Stuck
    case Some((line, rest)) =>
      if BOUNDARY !in m.req.headers then Fault
      else if line[..|line| - 2] == "--" + m.req.headers[BOUNDARY] then
        Next(m.(req := m.req.(recvMsg := rest, fileStatus := FileHead)))
      else Next(Complete(m, REDIRECT))
  }

  function StepFileHead(m: Machine): (r: Move)
    requires m.req.status == HandleBody && m.req.requestMethod == "POST" && m.req.fileStatus == FileHead
    ensures Advances(m, r)
  {
    match CutLine(m.req.recvMsg)
    case None => Stuck
    case Some((line, rest)) =>
      var v := m.req.(recvMsg := rest);
      if line == CRLF then Next(m.(req := v.(fileStatus := FileContent)))
      else match LineFileName(v.fileName, line)
        case None => Fault
        case Some(name) => Next(m.(req := v.(fileName := name)))
  }

  /** Opening in append mode creates the file; then the scanner takes one byte. */
  function StepFileContent(m: Machine, canOpen: bool): (r: Move)
    requires m.req.status == HandleBody && m.req.requestMethod == "POST" && m.req.fileStatus == FileContent
    ensures Advances(m, r)
  {
    var v := m.req;
    if !canOpen then Stuck
    else if v.fileName !in m.files then Next(m.(files := m.files[v.fileName := ""]))
    else if v.recvMsg == "" then Stuck
    else if v.recvMsg[0] == '\r' && BOUNDARY !in v.headers then Fault
    else
      var t := Scanner.Terminator(if BOUNDARY in v.headers then v.headers[BOUNDARY] else "");
      match Scanner.ScanStep(t, v.recvMsg)
      case Wait => Stuck
      case Found => Next(m.(req := v.(fileStatus := FileComplete)))
      case Keep => Next(m.(req := v.(recvMsg := v.recvMsg[1..]),
                           files := m.files[v.fileName := m.files[v.fileName] + v.recvMsg[..1]]))
  }

  function StepBody(m: Machine, canOpen: bool): (r: Move)
    requires m.req.status == HandleBody
    ensures Advances(m, r)
  {
    var v := m.req;
    if v.requestMethod == "GET" then Next(Complete(m, v.resource))
    else if v.requestMethod == "POST" then
      if !IsMultipart(v) then Next(Complete(m, REDIRECT))
      else match v.fileStatus
        case FileBeginFlag => StepBeginFlag(m)
        case FileHead => StepFileHead(m)
        case FileContent => StepFileContent(m, canOpen)
        case FileComplete => Next(Complete(m, REDIRECT))
    else if v.requestMethod == "PUT" && m.target != v.resource then Next(m.(target := v.resource))
    else Stuck
  }

  /** One move. `canOpen` tells whether the file to save opens. */
  function Step(m: Machine, canOpen: bool): (r: Move)
    ensures Advances(m, r)
  {
    match m.req.status
    case HandleInit => StepInit(m)
    case HandleHead => StepHead(m)
    case HandleBody => StepBody(m, canOpen)
    case HandleComplete => Stuck
    case HandleError => Stuck
  }

  /** Moves until no stage can advance without more input. */
  function Settle(m: Machine, canOpen: bool): (r: Outcome)
    ensures r.Settled? ==> Step(r.m, canOpen) == Stuck && Rank(m) <= Rank(r.m)
    decreases 16 - Rank(m), |m.req.recvMsg|
  {
    match Step(m, canOpen)
    case Stuck => Settled(m)
    case Fault => Faulted
    case Next(m1) => Settle(m1, canOpen)
  }

  /** `Settle`, one move at a time. */
  lemma SettleMove(m: Machine, canOpen: bool)
    ensures Step(m, canOpen).Next? ==> Settle(m, canOpen) == Settle(Step(m, canOpen).m, canOpen)
    ensures Step(m, canOpen) == Stuck ==> Settle(m, canOpen) == Settled(m)
    ensures Step(m, canOpen) == Fault ==> Settle(m, canOpen) == Faulted
  {
  }

  function Receive(m: Machine, b: string): Machine {
    m.(req := m.req.(recvMsg := m.req.recvMsg + b))
  }

  // ------------------------------------------------------ chunk independence

  lemma CutLineAppend(s: string, b: string)
    requires CutLine(s).Some?
    ensures CutLine(s + b) == Some((CutLine(s).value.0, CutLine(s).value.1 + b))
  {
    FindAppend(s, b, CRLF);
    var i := Find(s, CRLF).value;
    assert (s + b)[..i + 2] == s[..i + 2] && (s + b)[i + 2..] == s[i + 2..] + b;
  }

  /** The move after `b` has arrived, for a move decided before it. */
  function Delayed(r: Move, b: string): Move {
    match r
    case Stuck => Stuck
    case Fault => Fault
    case Next(m1) => Next(Receive(m1, b))
  }

  lemma StepContentAppend(m: Machine, b: string, canOpen: bool)
    requires m.req.status == HandleBody && m.req.requestMethod == "POST" && m.req.fileStatus == FileContent
    requires StepFileContent(m, canOpen) != Stuck
    ensures StepFileContent(Receive(m, b), canOpen) == Delayed(StepFileContent(m, canOpen), b)
  {
    hide Advances, Scanner.ScanStep, Scanner.Terminator;
    var s := m.req.recvMsg;
    if s != "" {
      assert (s + b)[0] == s[0];
      var t := Scanner.Terminator(if BOUNDARY in m.req.headers then m.req.headers[BOUNDARY] else "");
      if Scanner.ScanStep(t, s) != Scanner.Wait {
        Scanner.ScanStepAppend(t, s, b);
      }
      assert (s + b)[1..] == s[1..] + b;
      assert (s + b)[..1] == s[..1];
    }
  }

  lemma StepInitAppend(m: Machine, b: string)
    requires m.req.status == HandleInit && StepInit(m) != Stuck
    ensures StepInit(Receive(m, b)) == Delayed(StepInit(m), b)
  {
    CutLineAppend(m.req.recvMsg, b);
  }

  lemma ApplyKeepsBuffer(v: RequestValue, e: HeaderEffect, s: string)
    ensures ApplyEffect(v.(recvMsg := s), e) ==
      match ApplyEffect(v, e) case None => None case Some(v1) => Some(v1.(recvMsg := s))
    ensures ApplyEffect(v, e).Some? ==> ApplyEffect(v, e).value.recvMsg == v.recvMsg
  {
  }

  lemma StepHeadAppend(m: Machine, b: string)
    requires m.req.status == HandleHead && StepHead(m) != Stuck
    ensures StepHead(Receive(m, b)) == Delayed(StepHead(m), b)
  {
    CutLineAppend(m.req.recvMsg, b);
    var (line, rest) := CutLine(m.req.recvMsg).value;
    ApplyKeepsBuffer(m.req.(recvMsg := rest), LineEffect(line), rest + b);
  }

  lemma StepBodyAppend(m: Machine, b: string, canOpen: bool)
    requires m.req.status == HandleBody && StepBody(m, canOpen) != Stuck
    ensures StepBody(Receive(m, b), canOpen) == Delayed(StepBody(m, canOpen), b)
  {
    hide Advances, StepFileContent, CutLine, LineFileName;
    if m.req.requestMethod == "POST" && IsMultipart(m.req) {
      match m.req.fileStatus {
        case FileBeginFlag => CutLineAppend(m.req.recvMsg, b);
        case FileHead => CutLineAppend(m.req.recvMsg, b);
        case FileContent => StepContentAppend(m, b, canOpen);
        case FileComplete =>
      }
    }
  }

  /** A move that the held bytes allow is the same move with more bytes behind them. */
  lemma StepAppend(m: Machine, b: string, canOpen: bool)
    requires Step(m, canOpen) != Stuck
    ensures Step(Receive(m, b), canOpen) == Delayed(Step(m, canOpen), b)
  {
    match m.req.status {
      case HandleInit => StepInitAppend(m, b);
      case HandleHead => StepHeadAppend(m, b);
      case HandleBody => StepBodyAppend(m, b, canOpen);
      case _ =>
    }
  }

  /** Settling early and receiving the rest later ends where settling once on everything ends. */
  lemma {:induction false} SettleAppend(m: Machine, b: string, canOpen: bool)
    ensures match Settle(m, canOpen)
            case Faulted => Settle(Receive(m, b), canOpen) == Faulted
            case Settled(m1) => Settle(Receive(m, b), canOpen) == Settle(Receive(m1, b), canOpen)
    decreases 16 - Rank(m), |m.req.recvMsg|
  {
    match Step(m, canOpen)
    case Stuck =>
    case Fault => StepAppend(m, b, canOpen);
    case Next(m1) =>
      StepAppend(m, b, canOpen);
      SettleAppend(m1, b, canOpen);
  }

  /** The state of a connection that waits for its next request has nothing to do. */
  lemma FreshIsStuck(target: string, files: map<string, string>, canOpen: bool)
    ensures Step(Machine(FRESH_REQUEST, target, files), canOpen) == Stuck
  {
  }

  lemma EndsWithTransitive(a: string, b: string, c: string)
    requires EndsWith(a, b) && EndsWith(b, c)
    ensures EndsWith(a, c)
  {
  }

  lemma EndsWithItself(a: string)
    ensures EndsWith(a, a)
  {
  }

  /** Consumed bytes plus pending bytes are the received bytes. */
  lemma {:induction false} SettleConsumes(m: Machine, canOpen: bool)
    requires Settle(m, canOpen).Settled?
    ensures EndsWith(m.req.recvMsg, Settle(m, canOpen).m.req.recvMsg)
    decreases 16 - Rank(m), |m.req.recvMsg|
  {
    hide Settle, Step, EndsWith;
    SettleMove(m, canOpen);
    if Step(m, canOpen).Next? {
      var m1 := Step(m, canOpen).m;
      SettleConsumes(m1, canOpen);
      EndsWithTransitive(m.req.recvMsg, m1.req.recvMsg, Settle(m, canOpen).m.req.recvMsg);
    } else {
      assert EndsWith(m.req.recvMsg, m.req.recvMsg) by { EndsWithItself(m.req.recvMsg); }
    }
  }

  /** The upload phases come after the headers, and after a boundary was named. */
  predicate ValidRequest(v: RequestValue) {
    && (v.status == HandleInit || v.status == HandleHead ==> v.fileStatus == FileBeginFlag)
    && (v.fileStatus != FileBeginFlag ==> BOUNDARY in v.headers)
  }

  lemma StepKeepsValid(m: Machine, canOpen: bool)
    requires ValidRequest(m.req) && Step(m, canOpen).Next?
    ensures ValidRequest(Step(m, canOpen).m.req)
  {
    match m.req.status {
      case HandleHead => HeadKeepsValid(m);
      case _ =>
    }
  }

  lemma HeadKeepsValid(m: Machine)
    requires m.req.status == HandleHead && ValidRequest(m.req) && StepHead(m).Next?
    ensures ValidRequest(StepHead(m).m.req)
  {
  }

  lemma {:induction false} SettleKeepsValid(m: Machine, canOpen: bool)
    requires ValidRequest(m.req) && Settle(m, canOpen).Settled?
    ensures ValidRequest(Settle(m, canOpen).m.req)
    decreases 16 - Rank(m), |m.req.recvMsg|
  {
    if Step(m, canOpen).Next? {
      StepKeepsValid(m, canOpen);
      SettleKeepsValid(Step(m, canOpen).m, canOpen);
    }
  }
}
