/** The stream-mode TLS object as a state machine: its state, the history of what it
    did, and one function per entry point.  The class in Tls.dfy is proved equal to
    these functions; TlsProofs.dfy proves what they guarantee over every run. */
module TlsModel {
  import opened ByteStrings

  datatype State = Inactive | Initializing | Handshaking | Connected | Closing

  datatype Op = NoOp | OpStart | OpUpdate

  datatype Action =
    | ReadyRead | ReadyReadOutgoing | Handshaken | Close
    | CheckPeerCertificate | CertificateRequested | HostNameReceived

  datatype Signal =
    | SigReadyRead | SigReadyReadOutgoing | SigClosed | SigError
    | SigHostName | SigCertificateRequested | SigPeerCertificate | SigHandshaken

  datatype ErrorCode = NoError | ErrorInit | ErrorHandshake | ErrorCrypt

  datatype ResetMode = ResetSession | ResetSessionAndData | ResetAll

  datatype IdentityResult = NoCertificate | InvalidCertificate | HostMismatch | Valid

  /** Which of the step signals have a slot connected. */
  datatype Listeners = Listeners(hostName: bool, certificateRequested: bool, peerCertificate: bool, handshaken: bool)

  datatype Verdict = Success | Error | Continue

  /** Everything the engine reports when an operation completes. */
  datatype Results = Results(
    verdict: Verdict, toNet: Bytes, toApp: Bytes, encoded: int, eof: bool,
    clientHello: bool, serverHello: bool, hostName: string, certificateRequested: bool)

  /** What the engine reports about the peer certificate when it is asked. */
  datatype Peer = Peer(present: bool, valid: bool, matchesHost: bool)

  datatype Event =
    | Reset(dataToo: bool)
    /** The engine is set up for a role, and a client for the host it asks for. */
    | Started(server: bool, host: string)
    | Continued
    | AppWrite(bytes: Bytes)
    | NetWrite(bytes: Bytes)
    | AppRead(bytes: Bytes)
    | NetRead(bytes: Bytes)
    | EngineUpdate(during: State, fromNet: Bytes, fromApp: Bytes)
    | Delivered(during: State, toNet: Bytes, toApp: Bytes, encoded: int)
    /** The certificate of the peer was looked at, and compared with `host` if that is not empty. */
    | CheckedPeer(peer: Peer, host: string)
    | EnteredConnected
    | Emitted(signal: Signal, during: State)

  datatype Role = NoRole | ClientRole | ServerRole

  /** The signals after which the application is promised a pause. */
  predicate StepSignal(sig: Signal) {
    sig == SigHostName || sig == SigCertificateRequested || sig == SigPeerCertificate || sig == SigHandshaken
  }

  /** What was observed in the current session; restarts at every reset, except that
      `signals` lists every signal ever emitted and `lawful` says that every event
      so far was allowed at the moment it happened.  `setUpFor` is the host the engine was given, and
      a pause lasts from a step signal until the application continues. */
  datatype SessionLog = SessionLog(
    role: Role, setUpFor: string, paused: bool, checked: bool, entered: bool,
    hostNames: nat, certificateRequests: nat, peerCertificates: nat, handshakes: nat,
    signals: seq<Signal>, lawful: bool)
  {
    predicate Allows(e: Event) {
      match e
      case Emitted(sig, during) =>
        && (sig == SigHostName ==> hostNames == 0 && role == ServerRole && !entered)
        && (sig == SigCertificateRequested ==> certificateRequests == 0 && role == ClientRole && !entered)
        && (sig == SigPeerCertificate ==> peerCertificates == 0 && checked && !entered)
        && (sig == SigHandshaken ==> handshakes == 0 && entered)
        && (sig == SigClosed ==> during == Closing)
      case EnteredConnected => checked && !entered
      case EngineUpdate(during, _, fromApp) =>
        !paused && during != Initializing && (fromApp != [] ==> entered || during == Inactive)
      case _ => true
    }

    function Observe(e: Event): SessionLog {
      var ok := lawful && Allows(e);
      match e
      case Reset(_) => NEW_SESSION.(signals := signals, lawful := ok)
      case Started(server, host) =>
        this.(role := if server then ServerRole else ClientRole, setUpFor := host, lawful := ok)
      case Continued => this.(paused := false, lawful := ok)
      case CheckedPeer(_, _) => this.(checked := true, lawful := ok)
      case EnteredConnected => this.(entered := true, lawful := ok)
      case Emitted(sig, _) =>
        this.(signals := signals + [sig], lawful := ok, paused := paused || StepSignal(sig),
              hostNames := hostNames + if sig == SigHostName then 1 else 0,
              certificateRequests := certificateRequests + if sig == SigCertificateRequested then 1 else 0,
              peerCertificates := peerCertificates + if sig == SigPeerCertificate then 1 else 0,
              handshakes := handshakes + if sig == SigHandshaken then 1 else 0)
      case _ => this.(lawful := ok)
    }
  }

  const NEW_SESSION := SessionLog(NoRole, "", false, false, false, 0, 0, 0, 0, [], true)

  /** Byte streams observed so far.  `written`, `fedApp` and `encoded` restart at every reset, the
      others only at a reset that clears the data.  `encoded` sums what the engine has encoded of the
      bytes handed to it.  `decrypted` holds the bytes the object
      accepts from the engine: those that come neither during the handshake nor while closing.
      `unreported` sums the plain bytes encoded in output since readOutgoing() was last
      called, and `silent` counts the engine answers without output in that time.  `checks` counts how
      often the peer was looked at, and `mismatched` says that once a valid certificate was for
      another host than the one asked for. */
  datatype DataLog = DataLog(
    written: Bytes, fedApp: Bytes, received: Bytes, fedNet: Bytes,
    decrypted: Bytes, readByApp: Bytes, produced: Bytes, sent: Bytes,
    unreported: int, silent: nat, encoded: int,
    checks: nat, lastCheck: Event, mismatched: bool)
  {
    function Observe(e: Event): DataLog {
      match e
      case Reset(dataToo) =>
        if dataToo then NO_DATA else this.(written := [], fedApp := [], encoded := 0)
      case AppWrite(bytes) => this.(written := written + bytes)
      case NetWrite(bytes) => this.(received := received + bytes)
      case AppRead(bytes) => this.(readByApp := readByApp + bytes)
      case NetRead(bytes) => this.(sent := sent + bytes, unreported := 0, silent := 0)
      case EngineUpdate(_, fromNet, fromApp) => this.(fedNet := fedNet + fromNet, fedApp := fedApp + fromApp)
      case Delivered(during, net, app, enc) =>
        var accepted := during != Handshaking && during != Closing;
        this.(produced := produced + net,
              decrypted := decrypted + if accepted then app else [],
              unreported := unreported + if accepted && net != [] then enc else 0,
              encoded := encoded + if accepted && net != [] then enc else 0,
              silent := silent + if accepted && net == [] then 1 else 0)
      case CheckedPeer(peer, host) =>
        this.(checks := checks + 1, lastCheck := e,
              mismatched := mismatched || (peer.present && peer.valid && host != "" && !peer.matchesHost))
      case _ => this
    }
  }

  const NO_DATA := DataLog([], [], [], [], [], [], [], [], 0, 0, 0, 0, Reset(true), false)

  /** The flags and the queue that decide what happens next. */
  datatype Control = Control(
    state: State, blocked: bool, server: bool, host: string, trigger: bool, op: Op,
    actionQueue: seq<Action>, needUpdate: bool, maybeInput: bool,
    emittedHostName: bool, emittedCertificateRequested: bool, emittedPeerCertificate: bool,
    errorCode: ErrorCode)

  /** The queue with `a` added when `b` holds. */
  function Then(q: seq<Action>, b: bool, a: Action): seq<Action> {
    if b then q + [a] else q
  }

  datatype Buffers = Buffers(
    inp: Bytes, out: Bytes, toNet: Bytes, fromNet: Bytes, outPending: int, toNetEncoded: int)

  datatype Identity = Identity(present: bool, good: bool, hostMismatch: bool)

  datatype St = St(
    listeners: Listeners, ctl: Control, buf: Buffers, id: Identity, session: SessionLog, data: DataLog)
  {
    function Did(e: Event): St {
      this.(session := session.Observe(e), data := data.Observe(e))
    }

    function Emit(sig: Signal, during: State): St { Did(Emitted(sig, during)) }
  }

  function Initial(listeners: Listeners): St {
    St(listeners, Control(Inactive, false, false, "", false, NoOp, [], false, false, false, false, false, NoError),
       Buffers([], [], [], [], 0, 0), Identity(false, false, false),
       NEW_SESSION, NO_DATA)
  }

  // ------------------------------------------------------------------ internal operations

  function DoReset(s: St, mode: ResetMode): St {
    var dataToo := mode != ResetSession;
    s.(ctl := Control(Inactive, false, false, "", false, NoOp, [], false, false, false, false, false,
                      if dataToo then NoError else s.ctl.errorCode),
       buf := if dataToo then Buffers([], [], [], [], 0, 0) else s.buf.(out := [], outPending := 0),
       id := if dataToo then Identity(false, false, false) else s.id)
     .Did(Reset(dataToo))
  }

  function DoStart(s: St, serverMode: bool): St {
    s.(ctl := s.ctl.(state := Initializing, server := serverMode, op := OpStart)).Did(Started(serverMode, s.ctl.host))
  }

  function DoClose(c: Control): Control {
    if c.state != Connected then c else c.(state := Closing)
  }

  /** The bytes `update` would hand to the engine from the application side. */
  function AppArgument(s: St): Bytes {
    if s.ctl.state == Handshaking then [] else s.buf.out
  }

  /** Whether `update`, called now, has a reason to call the engine. */
  predicate HasInput(s: St) {
    s.buf.fromNet != [] || AppArgument(s) != [] || s.ctl.maybeInput
  }

  predicate Idle(c: Control) {
    !c.blocked && c.actionQueue == [] && c.op == NoOp
  }

  function Drained(s: St): Buffers {
    s.buf.(fromNet := [], out := if s.ctl.state == Handshaking then s.buf.out else [],
           outPending := s.buf.outPending + |AppArgument(s)|)
  }

  function Update(s: St): St {
    if s.ctl.blocked then s
    else if !Idle(s.ctl) then s.(ctl := s.ctl.(needUpdate := true))
    else if !HasInput(s) then s.(ctl := s.ctl.(needUpdate := false), buf := Drained(s))
    else
      s.(ctl := s.ctl.(needUpdate := false, maybeInput := false, op := OpUpdate), buf := Drained(s))
       .Did(EngineUpdate(s.ctl.state, s.buf.fromNet, AppArgument(s)))
  }

  function CheckPeer(s: St, peer: Peer): St {
    var hostOk := s.ctl.host == "" || peer.matchesHost;
    s.(id := Identity(peer.present,
                      if peer.present then peer.valid else s.id.good,
                      s.id.hostMismatch || (peer.present && peer.valid && !hostOk)))
     .Did(CheckedPeer(peer, s.ctl.host))
  }

  function EnterConnected(s: St): St {
    var more := s.buf.out != [];
    s.(ctl := s.ctl.(state := Connected, needUpdate := s.ctl.needUpdate || more, trigger := s.ctl.trigger || more))
     .Did(EnteredConnected)
  }

  function Perform(s: St, a: Action, peer: Peer): St {
    match a
    case ReadyRead => s.Emit(SigReadyRead, s.ctl.state)
    case ReadyReadOutgoing => s.Emit(SigReadyReadOutgoing, s.ctl.state)
    case Handshaken =>
      var s1 := EnterConnected(s);
      if !s.listeners.handshaken then s1
      else s1.(ctl := s1.ctl.(blocked := true)).Emit(SigHandshaken, Connected)
    case Close => DoReset(s, ResetSession).Emit(SigClosed, s.ctl.state)
    case CheckPeerCertificate =>
      var s1 := CheckPeer(s, peer);
      if !s.listeners.peerCertificate then s1
      else s1.(ctl := s.ctl.(blocked := true, emittedPeerCertificate := true)).Emit(SigPeerCertificate, s.ctl.state)
    case CertificateRequested =>
      if !s.listeners.certificateRequested then s
      else s.(ctl := s.ctl.(blocked := true, emittedCertificateRequested := true))
            .Emit(SigCertificateRequested, s.ctl.state)
    case HostNameReceived =>
      if !s.listeners.hostName then s
      else s.(ctl := s.ctl.(blocked := true, emittedHostName := true)).Emit(SigHostName, s.ctl.state)
  }

  /** Take the head off a non-empty queue, arming the trigger when more work remains. */
  function Pop(c: Control): Control
    requires c.actionQueue != []
  {
    c.(actionQueue := c.actionQueue[1..], trigger := c.trigger || c.actionQueue[1..] != [] || c.needUpdate)
  }

  function ProcessNextAction(s: St, peer: Peer): St {
    if s.ctl.actionQueue != [] then Perform(s.(ctl := Pop(s.ctl)), s.ctl.actionQueue[0], peer)
    else if s.ctl.needUpdate then Update(s)
    else s
  }

  function Fail(s: St, code: ErrorCode): St {
    var s1 := DoReset(s, ResetSession);
    s1.(ctl := s1.ctl.(errorCode := code)).Emit(SigError, s.ctl.state)
  }

  function StartFinished(s: St, r: Results): St {
    if r.verdict != Success then Fail(s, ErrorInit)
    else Update(s.(ctl := s.ctl.(state := Handshaking, maybeInput := true)))
  }

  function Deliver(s: St, r: Results): St {
    s.(ctl := s.ctl.(actionQueue := Then(s.ctl.actionQueue, r.toNet != [], ReadyReadOutgoing)),
       buf := s.buf.(toNet := s.buf.toNet + r.toNet))
     .Did(Delivered(s.ctl.state, r.toNet, r.toApp, r.encoded))
  }

  function ClosingResults(s: St, r: Results): St {
    var s1 := Deliver(s, r);
    s1.(ctl := s1.ctl.(actionQueue := Then(s1.ctl.actionQueue, r.verdict == Success, Close)))
  }

  /** The client hello carries a host name the application has not been told about. */
  predicate NewHostName(c: Control, r: Results) {
    c.server && r.clientHello && !c.emittedHostName
  }

  function HandshakeActions(c: Control, r: Results): seq<Action> {
    var serverHello := !c.server && r.serverHello;
    var q1 := Then(c.actionQueue, NewHostName(c, r) && r.hostName != "", HostNameReceived);
    var q2 := Then(q1, !c.emittedPeerCertificate && (r.verdict == Success || serverHello), CheckPeerCertificate);
    var q3 := Then(q2, !c.emittedCertificateRequested && serverHello && r.certificateRequested, CertificateRequested);
    Then(q3, r.verdict == Success, Handshaken)
  }

  function HandshakeResults(s: St, r: Results): St {
    var s1 := Deliver(s, r);
    s1.(ctl := s1.ctl.(host := if NewHostName(s1.ctl, r) then r.hostName else s1.ctl.host,
                       actionQueue := HandshakeActions(s1.ctl, r)))
  }

  /** What is left of the bytes handed to the engine after it reports `encoded` of them done. */
  function PendingAfter(s: St, r: Results): int {
    if r.toNet != [] then s.buf.outPending - r.encoded else s.buf.outPending
  }

  function Acknowledge(c: Control, r: Results, pending: bool): Control {
    c.(state := if r.eof then DoClose(c).state else c.state,
       actionQueue := Then(Then(c.actionQueue, r.toNet != [], ReadyReadOutgoing), r.toApp != [], ReadyRead),
       maybeInput := c.maybeInput || pending || r.eof)
  }

  /** Take in the results of an update made while connected. */
  function Accept(s: St, r: Results): St {
    s.(ctl := Acknowledge(s.ctl, r, PendingAfter(s, r) > 0),
       buf := s.buf.(outPending := PendingAfter(s, r), inp := s.buf.inp + r.toApp, toNet := s.buf.toNet + r.toNet,
                     toNetEncoded := s.buf.toNetEncoded + if r.toNet != [] then r.encoded else -1))
     .Did(Delivered(s.ctl.state, r.toNet, r.toApp, r.encoded))
  }

  function ConnectedResults(s: St, r: Results): St {
    if r.eof || PendingAfter(s, r) > 0 || s.buf.out != [] then Update(Accept(s, r)) else Accept(s, r)
  }

  function UpdateFinished(s: St, r: Results, peer: Peer): St {
    if r.verdict == Error then
      Fail(s, if s.ctl.state == Handshaking || s.ctl.state == Closing then ErrorHandshake else ErrorCrypt)
    else if s.ctl.state == Closing then ProcessNextAction(ClosingResults(s, r), peer)
    else if s.ctl.state == Handshaking then ProcessNextAction(HandshakeResults(s, r), peer)
    else ProcessNextAction(ConnectedResults(s, r), peer)
  }

  // ------------------------------------------------------------------ entry points

  datatype Step =
    | Listen(listeners: Listeners)
    | ResetCall
    | StartClient(host: string)
    | StartServer
    | ContinueAfterStep
    | CloseCall
    | Write(bytes: Bytes)
    | Read
    | WriteIncoming(bytes: Bytes)
    | ReadOutgoing
    | TriggerFires(peer: Peer)
    | ResultsReady(results: Results, peer: Peer)

  /** The trigger fires only while it is active, and the engine answers only while an
      operation is outstanding; every other call is always possible. */
  predicate Enabled(s: St, step: Step) {
    match step
    case TriggerFires(_) => s.ctl.trigger
    case ResultsReady(_, _) => s.ctl.op != NoOp
    case _ => true
  }

  function Next(s: St, step: Step): St
    requires Enabled(s, step)
  {
    match step
    case Listen(l) => s.(listeners := l)
    case ResetCall => DoReset(s, ResetAll)
    case StartClient(host) =>
      var s1 := DoReset(s, ResetSessionAndData);
      DoStart(s1.(ctl := s1.ctl.(host := host)), false)
    case StartServer => DoStart(DoReset(s, ResetSessionAndData), true)
    case ContinueAfterStep =>
      if s.ctl.blocked then Update(s.(ctl := s.ctl.(blocked := false)).Did(Continued)) else s.Did(Continued)
    case CloseCall => Update(s.(ctl := DoClose(s.ctl)))
    case Write(bytes) => Update(s.(buf := s.buf.(out := s.buf.out + bytes)).Did(AppWrite(bytes)))
    case Read => s.(buf := s.buf.(inp := [])).Did(AppRead(s.buf.inp))
    case WriteIncoming(bytes) => Update(s.(buf := s.buf.(fromNet := s.buf.fromNet + bytes)).Did(NetWrite(bytes)))
    case ReadOutgoing => s.(buf := s.buf.(toNet := [], toNetEncoded := 0)).Did(NetRead(s.buf.toNet))
    case TriggerFires(peer) => ProcessNextAction(s.(ctl := s.ctl.(trigger := false)), peer)
    case ResultsReady(r, peer) =>
      var s1 := s.(ctl := s.ctl.(op := NoOp));
      if s.ctl.op == OpStart then StartFinished(s1, r) else UpdateFinished(s1, r, peer)
  }

  function PeerIdentityResult(id: Identity): IdentityResult {
    if !id.present then NoCertificate
    else if !id.good then InvalidCertificate
    else if id.hostMismatch then HostMismatch
    else Valid
  }

  /** A sequence of steps the environment can make the object take. */
  predicate Possible(s: St, steps: seq<Step>)
    decreases |steps|
  {
    steps == [] || (Enabled(s, steps[0]) && Possible(Next(s, steps[0]), steps[1..]))
  }

  function Run(s: St, steps: seq<Step>): St
    requires Possible(s, steps)
    decreases |steps|
  {
    if steps == [] then s else Run(Next(s, steps[0]), steps[1..])
  }
}
