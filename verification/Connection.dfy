/** One connection on values: its entries in the two static maps, its epoll
    interest and what its socket has been given. `RecvPass` and `SendPass` are
    what one run of HandleRecv::process and HandleSend::process does to it.
 */
module Connection {
  import opened Bytes
  import opened Message
  import opened RequestMachine
  import opened ResponseMachine

  /** EPOLLONESHOT interest: delivery leaves it Disarmed until the handler re-arms it. */
  datatype Interest = Closed | Disarmed | ReadOnly | ReadWrite

  datatype Conn = Conn(
    req: Option<RequestValue>,
    resp: Option<ResponseValue>,
    interest: Interest,
    wire: string)

  type Files = map<string, string>

  /** Crashed stands for an uncaught exception or undefined behaviour. */
  datatype Pass = Crashed | Passed(c: Conn, files: Files)

  /** What one `recv` call returns: bytes, EAGAIN, end of stream, or another error. */
  datatype RecvResult = Data(bytes: string) | RecvAgain | RecvClosed | RecvFailed

  /** How the receive loop ends: out of input, request answered, file not opened, peer lost. */
  datatype Ending = Waiting | Answered | Unopened | Lost

  datatype Received = RecvCrashed | Received(m: Machine, ending: Ending)

  /** A PUT request is answered while it stays in its body phase. */
  predicate PutBody(v: RequestValue) {
    v.status == HandleBody && v.requestMethod == "PUT"
  }

  predicate SavingFile(v: RequestValue) {
    v.status == HandleBody && v.requestMethod == "POST" && IsMultipart(v) && v.fileStatus == FileContent
  }

  /** How the receive loop goes on from a settled machine. */
  function EndingOf(v: RequestValue, canOpen: bool): (r: Option<Ending>)
    ensures r == None || r == Some(Answered) || r == Some(Unopened)
    ensures r == None ==> v.status != HandleComplete
  {
    if v.status == HandleComplete || PutBody(v) then Some(Answered)
    else if SavingFile(v) && !canOpen then Some(Unopened)
    else None
  }

  /** The receive loop, given the results of its calls; a call past the end would block. */
  function RecvLoop(m: Machine, input: seq<RecvResult>, canOpen: bool): Received
    decreases |input|
  {
    if input == [] then Received(m, Waiting)
    else match input[0]
      case RecvAgain => Received(m, Waiting)
      case RecvClosed => Received(m.(req := m.req.(status := HandleError)), Lost)
      case RecvFailed => Received(m.(req := m.req.(status := HandleError)), Lost)
      case Data(b) =>
        match Settle(Receive(m, b), canOpen)
        case Faulted => RecvCrashed
        case Settled(m1) =>
          match EndingOf(m1.req, canOpen)
          case Some(ending) => Received(m1, ending)
          case None => RecvLoop(m1, input[1..], canOpen)
  }

  function RequestOf(c: Conn): RequestValue {
    if c.req.Some? then c.req.value else FRESH_REQUEST
  }

  function ResponseOf(c: Conn): ResponseValue {
    if c.resp.Some? then c.resp.value else FRESH_RESPONSE
  }

  function MachineOf(c: Conn, files: Files): Machine {
    Machine(RequestOf(c), ResponseOf(c).target, files)
  }

  /** The entries after a receive pass: a completed request is erased, a failed
      one takes the connection down. */
  function AfterRecv(c: Conn, m: Machine, ending: Ending): Conn {
    var c1 := match ending
      case Waiting => c.(interest := ReadOnly)
      case Answered => c.(interest := ReadWrite, resp := Some(ResponseOf(c).(target := m.target)))
      case Unopened => c
      case Lost => c;
    if m.req.status == HandleComplete then c1.(req := None)
    else if m.req.status == HandleError then c1.(req := None, interest := Closed)
    else c1.(req := Some(m.req))
  }

  function RecvPass(c: Conn, files: Files, input: seq<RecvResult>, canOpen: bool): Pass {
    match RecvLoop(MachineOf(c, files), input, canOpen)
    case RecvCrashed => Crashed
    case Received(m, ending) => Passed(AfterRecv(c, m, ending), m.files)
  }

  /** The states of a response entry between two passes. */
  predicate ValidResponse(r: ResponseValue) {
    && Sendable(r)
    && r.status != HandleComplete && r.status != HandleError
    && (r.status == HandleInit ==> r.msgBody == "")
  }

  predicate ValidConn(c: Conn) {
    && (c.resp.Some? ==> ValidResponse(c.resp.value))
    && (c.req.Some? ==> c.req.value.status != HandleComplete)
  }

  /** Sending from response `r` and settling the entries. A hard error marks the
      request entry, as the original does, and leaves the response to be retried. */
  function Transmit(c: Conn, r: ResponseValue, files: Files, results: seq<SendResult>): Pass
    requires Sendable(r)
  {
    var o := SendLoop(r, results);
    Passed(AfterSend(Flagged(c.(wire := c.wire + o.out), o.failed), o.r), files)
  }

  function Flagged(c: Conn, failed: bool): Conn {
    if failed then c.(req := Some(RequestOf(c).(status := HandleError))) else c
  }

  /** The entries after the send loop has left the response as `r`. A finished
      response is erased, and the last test of the handler re-creates it with
      default values. */
  function AfterSend(c: Conn, r: ResponseValue): Conn {
    if r.status == HandleComplete then c.(resp := Some(FRESH_RESPONSE), interest := ReadOnly)
    else if r.status == HandleError then c.(resp := Some(FRESH_RESPONSE), interest := Closed)
    else c.(resp := Some(r), interest := ReadWrite)
  }

  /** Whether routing this response reads the buffer of the request entry, and so creates one. */
  predicate IsPut(r: ResponseValue) {
    var s := SplitTarget(r.target);
    s.OpNamed? && s.op == "put"
  }

  function SendPass(c: Conn, files: Files, page: string, results: seq<SendResult>): Pass
    requires ValidConn(c)
  {
    match c.resp
    case None => Passed(c, files)
    case Some(r) =>
      if r.status != HandleInit then Transmit(c, r, files, results)
      else
        match Route(r, files, page, RequestOf(c).recvMsg)
        case RouteFault => Crashed
        case Reroute(target, files1) =>
          Passed(c.(resp := Some(FRESH_RESPONSE.(target := target)), interest := ReadWrite), files1)
        case Ready(r1, files1) =>
          RouteSendable(r, files, page, RequestOf(c).recvMsg);
          Transmit(if IsPut(r) then c.(req := Some(RequestOf(c))) else c, r1, files1, results)
  }

  /** Both handlers keep a connection in a state the other can take up. */
  lemma RecvPassValid(c: Conn, files: Files, input: seq<RecvResult>, canOpen: bool)
    requires ValidConn(c) && RecvPass(c, files, input, canOpen).Passed?
    ensures ValidConn(RecvPass(c, files, input, canOpen).c)
  {
    hide RecvLoop;
  }

  lemma SendPassValid(c: Conn, files: Files, page: string, results: seq<SendResult>)
    requires ValidConn(c) && SendPass(c, files, page, results).Passed?
    ensures ValidConn(SendPass(c, files, page, results).c)
    ensures SendPass(c, files, page, results).c.interest == ReadWrite && c.interest == Disarmed ==>
      var r := SendPass(c, files, page, results).c.resp;
      r.Some? && (r.value.status == HandleInit ==> r.value.target != "")
    ensures c.resp.Some? ==>
      var c1 := SendPass(c, files, page, results).c;
      c1.interest == ReadOnly || c1.interest == ReadWrite
  {
    hide SendLoop, Route;
    if c.resp.Some? {
      var r := c.resp.value;
      if r.status == HandleInit {
        var x := Route(r, files, page, RequestOf(c).recvMsg);
        if x.Ready? {
          RouteSendable(r, files, page, RequestOf(c).recvMsg);
          TransmitValid(if IsPut(r) then c.(req := Some(RequestOf(c))) else c, x.r, x.files, results);
        } else {
          RerouteNames(r, files, page, RequestOf(c).recvMsg);
        }
      } else {
        TransmitValid(c, r, files, results);
      }
    }
  }

  /** Routing faults on an empty target and on nothing else, and that is the
      only way a send handler can crash. */
  lemma SendCrashIff(c: Conn, files: Files, page: string, results: seq<SendResult>)
    requires ValidConn(c)
    ensures SendPass(c, files, page, results).Crashed? <==>
      c.resp.Some? && c.resp.value.status == HandleInit && c.resp.value.target == ""
  {
    if c.resp.Some? {
      RoutingTerminates(c.resp.value, files, page, RequestOf(c).recvMsg);
    }
  }

  lemma RerouteNames(r: ResponseValue, files: Files, page: string, pending: string)
    ensures Route(r, files, page, pending).Reroute? ==> Route(r, files, page, pending).target != ""
  {
  }

  lemma TransmitValid(c: Conn, r: ResponseValue, files: Files, results: seq<SendResult>)
    requires Sendable(r) && (r.status == HandleHead || r.status == HandleBody)
    requires c.req.Some? ==> c.req.value.status != HandleComplete
    ensures var c1 := Transmit(c, r, files, results).c;
      && ValidConn(c1) && (c1.interest == ReadWrite || c1.interest == ReadOnly)
      && (c1.interest == ReadWrite ==> c1.resp.Some? && c1.resp.value.status != HandleInit)
  {
    hide SendLoop;
    SendLoopExtends(r, results);
  }

  /** A request entry that a hard send error has marked: the next receive run drops
      it and closes the connection, whatever it reads. */
  lemma FailedRequestCloses(c: Conn, files: Files, input: seq<RecvResult>, canOpen: bool)
    requires RequestOf(c).status == HandleError
    ensures var p := RecvPass(c, files, input, canOpen);
      p == Passed(c.(req := None, interest := Closed), files)
  {
    FailedLoop(MachineOf(c, files), input, canOpen);
  }

  lemma {:induction false} FailedLoop(m: Machine, input: seq<RecvResult>, canOpen: bool)
    requires m.req.status == HandleError
    ensures var r := RecvLoop(m, input, canOpen);
      r.Received? && r.m.req.status == HandleError && r.m.files == m.files && (r.ending == Waiting || r.ending == Lost)
    decreases |input|
  {
    hide Settle;
    if input != [] && input[0].Data? {
      SettleMove(Receive(m, input[0].bytes), canOpen);
      FailedLoop(Receive(m, input[0].bytes), input[1..], canOpen);
    }
  }
}
