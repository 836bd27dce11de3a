/** What the TLS state machine keeps at every step, and therefore over every run. */
module TlsProofs {
  import opened ByteStrings
  import opened Sequences
  import opened TlsModel

  /** A queue holds no action twice, and only actions the state can have produced. */
  predicate QueueFor(q: seq<Action>, c: Control, checked: bool) {
    && NoRepeats(q)
    && (Handshaken in q ==> q[|q| - 1] == Handshaken && (checked || CheckPeerCertificate in q))
    && (Close in q ==> q[|q| - 1] == Close && c.state == Closing)
    && (HostNameReceived in q ==> c.server && !c.emittedHostName)
    && (CertificateRequested in q ==> !c.server && !c.emittedCertificateRequested)
    && (CheckPeerCertificate in q ==> !c.emittedPeerCertificate)
    && (HostNameReceived in q || CheckPeerCertificate in q || CertificateRequested in q || Handshaken in q
        ==> c.state == Handshaking)
  }

  predicate QueueOk(c: Control, checked: bool) {
    QueueFor(c.actionQueue, c, checked)
  }

  predicate SessionOk(c: Control, h: SessionLog) {
    && h.lawful
    && (h.entered <==> c.state == Connected || c.state == Closing)
    && h.hostNames == (if c.emittedHostName then 1 else 0)
    && h.certificateRequests == (if c.emittedCertificateRequested then 1 else 0)
    && h.peerCertificates == (if c.emittedPeerCertificate then 1 else 0)
    && h.handshakes <= (if h.entered then 1 else 0)
    && (c.emittedPeerCertificate ==> h.checked)
    && h.role == (if c.state == Inactive then NoRole else if c.server then ServerRole else ClientRole)
    && (c.state == Initializing <==> c.op == OpStart)
    && (c.state == Inactive ==> !c.blocked)
    && h.paused == c.blocked
  }

  /** Every byte is somewhere, in order. */
  predicate Conserved(b: Buffers, d: DataLog) {
    && d.fedApp + b.out == d.written
    && d.fedNet + b.fromNet == d.received
    && d.readByApp + b.inp == d.decrypted
    && d.sent + b.toNet == d.produced
    && b.toNetEncoded == d.unreported - d.silent
    && b.outPending == |d.fedApp| - d.encoded
  }

  predicate IdentityOk(id: Identity, d: DataLog) {
    && id.hostMismatch == d.mismatched
    && (d.checks == 0 <==> !d.lastCheck.CheckedPeer?)
    && match d.lastCheck
       case CheckedPeer(peer, host) =>
         && id.present == peer.present && (peer.present ==> id.good == peer.valid)
         && (peer.present && peer.valid && host != "" && !peer.matchesHost ==> d.mismatched)
       case _ => id == Identity(false, false, false)
  }

  /** Bytes that could go to the engine are held back only by a pause or with an update due. */
  predicate InputIsDue(c: Control, b: Buffers) {
    && ((c.state == Connected || c.state == Closing) && b.out != [] ==> c.blocked || c.needUpdate)
    && (c.state != Inactive && b.fromNet != [] ==> c.blocked || c.needUpdate)
    && (c.state != Inactive && c.maybeInput ==> c.blocked || c.needUpdate)
  }

  /** What the engine has not encoded yet it is asked for again. */
  predicate PendingIsDue(c: Control, b: Buffers) {
    && (c.state == Connected && b.outPending > 0 ==> c.op == OpUpdate || c.maybeInput)
    && (c.state == Initializing || c.state == Handshaking ==> b.outPending == 0)
  }

  /** Work that is waiting has something that will come back to it. */
  predicate NoLostWakeup(c: Control, b: Buffers) {
    && (c.actionQueue != [] ==> c.trigger)
    && (c.needUpdate ==> c.op != NoOp || c.trigger || c.blocked)
    && InputIsDue(c, b) && PendingIsDue(c, b)
  }

  /** At most one engine operation, and never together with queued actions or a pause. */
  predicate OneAtATime(c: Control) {
    c.op != NoOp ==> c.actionQueue == [] && !c.blocked
  }

  /** What also holds in the middle of a handler. */
  predicate Mid(s: St) {
    && QueueOk(s.ctl, s.session.checked) && SessionOk(s.ctl, s.session) && OneAtATime(s.ctl)
    && Conserved(s.buf, s.data) && IdentityOk(s.id, s.data)
  }

  predicate Inv(s: St) {
    Mid(s) && NoLostWakeup(s.ctl, s.buf)
  }

  // ------------------------------------------------------------------ one lemma per internal operation

  lemma {:induction false} ResetKeeps(s: St, mode: ResetMode)
    requires s.session.lawful && Conserved(s.buf, s.data) && IdentityOk(s.id, s.data)
    ensures Inv(DoReset(s, mode)) && !DoReset(s, mode).ctl.needUpdate
  {}

  lemma {:induction false} DrainedConserves(s: St)
    requires Conserved(s.buf, s.data)
    ensures Conserved(Drained(s),
                      s.data.Observe(EngineUpdate(s.ctl.state, s.buf.fromNet, AppArgument(s))))
    ensures !HasInput(s) ==> Conserved(Drained(s), s.data)
  {
    assert s.data.fedApp + s.buf.out == (s.data.fedApp + AppArgument(s)) + Drained(s).out;
  }

  /** `update` may be called from any state in which the queue is served later or is empty. */
  lemma {:induction false} UpdateKeeps(s: St)
    requires Mid(s)
    ensures Mid(Update(s))
    ensures var u := Update(s);
            && u.ctl.actionQueue == s.ctl.actionQueue && u.ctl.trigger == s.ctl.trigger
            && u.ctl.blocked == s.ctl.blocked && u.ctl.state == s.ctl.state
            && (Idle(s.ctl) ==> !u.ctl.needUpdate)
            && (u.ctl.needUpdate ==> s.ctl.needUpdate || (!Idle(s.ctl) && !s.ctl.blocked))
            && InputIsDue(u.ctl, u.buf) && (PendingIsDue(s.ctl, s.buf) ==> PendingIsDue(u.ctl, u.buf))
  {
    DrainedConserves(s);
    if Idle(s.ctl) && HasInput(s) {
      var e := EngineUpdate(s.ctl.state, s.buf.fromNet, AppArgument(s));
      assert s.session.Allows(e);
      assert SessionOk(Update(s).ctl, s.session.Observe(e));
      assert IdentityOk(s.id, s.data.Observe(e));
    }
  }

  lemma {:induction false} EngineCalled(h: SessionLog, d: DataLog, e: Event)
    requires e.EngineUpdate?
    ensures var g := h.Observe(e); g.signals == h.signals && g.role == h.role && g.setUpFor == h.setUpFor
    ensures d.Observe(e).checks == d.checks && d.Observe(e).lastCheck == d.lastCheck
  {}

  /** What an update has nothing to do with. */
  lemma {:induction false} UpdateLeaves(s: St)
    ensures var u := Update(s);
            && u.listeners == s.listeners && u.id == s.id
            && u.ctl.state == s.ctl.state && u.ctl.actionQueue == s.ctl.actionQueue && u.ctl.host == s.ctl.host
            && u.ctl.errorCode == s.ctl.errorCode
            && u.session.signals == s.session.signals && u.session.role == s.session.role
            && u.session.setUpFor == s.session.setUpFor
            && u.data.checks == s.data.checks && u.data.lastCheck == s.data.lastCheck
  {
    hide SessionLog.Observe, DataLog.Observe, HasInput, AppArgument, Drained, Idle;
    EngineCalled(s.session, s.data, EngineUpdate(s.ctl.state, s.buf.fromNet, AppArgument(s)));
    var c := s.ctl.(needUpdate := false);
    assert c.state == s.ctl.state && c.actionQueue == s.ctl.actionQueue && c.host == s.ctl.host;
    assert c.errorCode == s.ctl.errorCode;
    assert Update(s).ctl == s.ctl || Update(s).ctl == s.ctl.(needUpdate := true) || Update(s).ctl == c
      || Update(s).ctl == c.(maybeInput := false, op := OpUpdate);
  }

  lemma {:induction false} PopKeeps(c: Control, checked: bool)
    requires QueueOk(c, checked) && c.actionQueue != []
    ensures var a := c.actionQueue[0];
            && a !in Pop(c).actionQueue
            && QueueOk(Pop(c), checked || a == CheckPeerCertificate)
            && (a == Handshaken || a == Close ==> Pop(c).actionQueue == [])
  {
    var q := c.actionQueue;
    assert q == [q[0]] + q[1..];
  }

  /** Handlers queue their actions in this order. */
  function Rank(a: Action): nat {
    match a
    case ReadyReadOutgoing => 0
    case ReadyRead => 1
    case HostNameReceived => 2
    case CheckPeerCertificate => 3
    case CertificateRequested => 4
    case Handshaken => 5
    case Close => 6
  }

  predicate Below(q: seq<Action>, n: nat) {
    forall i :: 0 <= i < |q| ==> Rank(q[i]) < n
  }

  /** Whether the state allows `a` to be queued behind `q`. */
  predicate Queueable(q: seq<Action>, c: Control, a: Action, checked: bool) {
    match a
    case ReadyReadOutgoing => true
    case ReadyRead => true
    case HostNameReceived => c.state == Handshaking && c.server && !c.emittedHostName
    case CheckPeerCertificate => c.state == Handshaking && !c.emittedPeerCertificate
    case CertificateRequested => c.state == Handshaking && !c.server && !c.emittedCertificateRequested
    case Handshaken => c.state == Handshaking && (checked || CheckPeerCertificate in q)
    case Close => c.state == Closing
  }

  lemma {:induction false} EnqueueKeeps(q: seq<Action>, c: Control, b: bool, a: Action, checked: bool)
    requires QueueFor(q, c, checked) && Below(q, Rank(a))
    requires b ==> Queueable(q, c, a, checked)
    ensures var t := Then(q, b, a);
            && QueueFor(t, c, checked) && Below(t, Rank(a) + 1)
            && (b ==> a in t)
            && (CheckPeerCertificate in q ==> CheckPeerCertificate in t)
  {
    if b {
      var t := q + [a];
      assert t[|q|] == a && forall i :: 0 <= i < |q| ==> t[i] == q[i];
      assert Handshaken !in q && Close !in q;
    }
  }

  lemma {:induction false} CheckPeerKeeps(s: St, peer: Peer)
    requires SessionOk(s.ctl, s.session) && Conserved(s.buf, s.data) && IdentityOk(s.id, s.data)
    ensures var c := CheckPeer(s, peer);
            && c.ctl == s.ctl && c.buf == s.buf && c.session.checked
            && SessionOk(c.ctl, c.session) && Conserved(c.buf, c.data) && IdentityOk(c.id, c.data)
  {}

  lemma {:induction false} EnterConnectedKeeps(s: St)
    requires Mid(s) && s.ctl.state == Handshaking && s.ctl.actionQueue == [] && s.ctl.op == NoOp && s.session.checked
    requires (s.ctl.needUpdate ==> s.ctl.trigger) && InputIsDue(s.ctl, s.buf) && PendingIsDue(s.ctl, s.buf)
    ensures Inv(EnterConnected(s)) && EnterConnected(s).session.handshakes == 0
    ensures var c := EnterConnected(s).ctl; c.op == NoOp && c.actionQueue == [] && c.state == Connected
    ensures EnterConnected(s).listeners == s.listeners
  {
    var c := EnterConnected(s);
    assert s.session.Allows(EnteredConnected);
    assert SessionOk(c.ctl, c.session);
  }

  /** Emitting a step signal that its counters allow, with the flags the code sets beside it. */
  lemma {:induction false} EmitKeeps(s: St, c: Control, sig: Signal)
    requires s.session.Allows(Emitted(sig, c.state))
    requires s.session.lawful && Conserved(s.buf, s.data) && IdentityOk(s.id, s.data)
    ensures var t := s.(ctl := c).Emit(sig, c.state);
            && t.ctl == c && t.buf == s.buf && t.data == s.data
            && t.session.lawful && Conserved(t.buf, t.data) && IdentityOk(t.id, t.data)
  {}

  /** What a handler may rely on once its action is off the queue. */
  predicate Popped(s: St, a: Action) {
    && QueueOk(s.ctl, s.session.checked || a == CheckPeerCertificate) && a !in s.ctl.actionQueue
    && SessionOk(s.ctl, s.session) && s.ctl.op == NoOp
    && Conserved(s.buf, s.data) && IdentityOk(s.id, s.data) && NoLostWakeup(s.ctl, s.buf)
    && (s.ctl.needUpdate ==> s.ctl.trigger)
  }

  lemma {:induction false} PlainSignalKeeps(s: St, peer: Peer, a: Action)
    requires Popped(s, a) && (a == ReadyRead || a == ReadyReadOutgoing)
    ensures Inv(Perform(s, a, peer))
  {
    EmitKeeps(s, s.ctl, if a == ReadyRead then SigReadyRead else SigReadyReadOutgoing);
  }

  lemma {:induction false} HandshakenKeeps(s: St, peer: Peer)
    requires Popped(s, Handshaken) && s.ctl.state == Handshaking && s.ctl.actionQueue == [] && s.session.checked
    ensures Inv(Perform(s, Handshaken, peer))
  {
    hide EnterConnected, Conserved, IdentityOk, SessionLog.Observe, DataLog.Observe;
    EnterConnectedKeeps(s);
    var e := EnterConnected(s);
    if s.listeners.handshaken { HandshakenPauses(e); }
    hide Inv, Popped, QueueFor;
  }

  lemma {:induction false} HandshakenPauses(e: St)
    requires Inv(e) && e.ctl.op == NoOp && e.ctl.actionQueue == []
    requires e.ctl.state == Connected && e.session.handshakes == 0
    ensures Inv(e.(ctl := e.ctl.(blocked := true)).Emit(SigHandshaken, Connected))
  {
    assert e.session.Allows(Emitted(SigHandshaken, Connected));
    EmitKeeps(e, e.ctl.(blocked := true), SigHandshaken);
    hide Conserved, IdentityOk;
  }

  lemma {:induction false} CheckedKeeps(s: St, peer: Peer)
    requires Popped(s, CheckPeerCertificate) && s.ctl.state == Handshaking && !s.ctl.emittedPeerCertificate
    ensures Inv(Perform(s, CheckPeerCertificate, peer))
  {
    CheckPeerKeeps(s, peer);
    EmitKeeps(CheckPeer(s, peer), s.ctl.(blocked := true, emittedPeerCertificate := true), SigPeerCertificate);
  }

  lemma {:induction false} CertificateRequestKeeps(s: St, peer: Peer)
    requires Popped(s, CertificateRequested) && s.ctl.state == Handshaking
    requires !s.ctl.server && !s.ctl.emittedCertificateRequested
    ensures Inv(Perform(s, CertificateRequested, peer))
  {
    EmitKeeps(s, s.ctl.(blocked := true, emittedCertificateRequested := true), SigCertificateRequested);
  }

  lemma {:induction false} HostNameKeeps(s: St, peer: Peer)
    requires Popped(s, HostNameReceived) && s.ctl.state == Handshaking
    requires s.ctl.server && !s.ctl.emittedHostName
    ensures Inv(Perform(s, HostNameReceived, peer))
  {
    EmitKeeps(s, s.ctl.(blocked := true, emittedHostName := true), SigHostName);
  }

  lemma {:induction false} CloseKeeps(s: St, peer: Peer)
    requires Popped(s, Close) && s.ctl.state == Closing
    ensures Inv(Perform(s, Close, peer))
  {
    ResetKeeps(s, ResetSession);
    var t := DoReset(s, ResetSession);
    assert t.session.Allows(Emitted(SigClosed, Closing)) && t.session.lawful;
    hide DoReset, Conserved, IdentityOk, QueueFor;
  }

  /** One queued action, performed after it was taken off the queue. */
  lemma {:induction false} PopIsPopped(s: St)
    requires Mid(s) && s.ctl.actionQueue != []
    requires InputIsDue(s.ctl, s.buf) && PendingIsDue(s.ctl, s.buf)
    ensures Popped(s.(ctl := Pop(s.ctl)), s.ctl.actionQueue[0])
  {
    PopKeeps(s.ctl, s.session.checked);
    hide Conserved, IdentityOk;
  }

  lemma {:induction false} PerformKeeps(s: St, peer: Peer)
    requires Mid(s) && s.ctl.actionQueue != []
    requires InputIsDue(s.ctl, s.buf) && PendingIsDue(s.ctl, s.buf)
    ensures Inv(Perform(s.(ctl := Pop(s.ctl)), s.ctl.actionQueue[0], peer))
  {
    var a := s.ctl.actionQueue[0];
    var p := s.(ctl := Pop(s.ctl));
    PopIsPopped(s);
    hide Perform, Pop, Popped, QueueFor, SessionOk, Conserved, IdentityOk, NoLostWakeup;
    match a {
      case ReadyRead => PlainSignalKeeps(p, peer, a);
      case ReadyReadOutgoing => PlainSignalKeeps(p, peer, a);
      case Close => CloseKeeps(p, peer);
      case Handshaken => HandshakenKeeps(p, peer);
      case CheckPeerCertificate => CheckedKeeps(p, peer);
      case CertificateRequested => CertificateRequestKeeps(p, peer);
      case HostNameReceived => HostNameKeeps(p, peer);
    }
  }

  lemma {:induction false} ProcessKeeps(s: St, peer: Peer)
    requires Mid(s)
    requires InputIsDue(s.ctl, s.buf) && PendingIsDue(s.ctl, s.buf)
    ensures Inv(ProcessNextAction(s, peer))
  {
    if s.ctl.actionQueue != [] {
      PerformKeeps(s, peer);
    } else if s.ctl.needUpdate {
      UpdateKeeps(s);
    }
  }

  lemma {:induction false} FailKeeps(s: St, code: ErrorCode)
    requires s.session.lawful && Conserved(s.buf, s.data) && IdentityOk(s.id, s.data)
    ensures Inv(Fail(s, code))
  {
    ResetKeeps(s, ResetSession);
  }

  predicate Answered(s: St) {
    && Mid(s) && InputIsDue(s.ctl, s.buf) && s.ctl.actionQueue == [] && s.ctl.op == NoOp && !s.ctl.blocked
    && (s.ctl.state == Handshaking ==> s.buf.outPending == 0)
  }

  lemma {:induction false} DeliverConserves(s: St, r: Results)
    requires Conserved(s.buf, s.data) && IdentityOk(s.id, s.data)
    requires s.ctl.state == Handshaking || s.ctl.state == Closing
    ensures var d := Deliver(s, r);
            && Conserved(d.buf, d.data) && IdentityOk(d.id, d.data) && d.session == s.session
            && d.ctl == s.ctl.(actionQueue := Then(s.ctl.actionQueue, r.toNet != [], ReadyReadOutgoing))
  {
    assert s.data.sent + (s.buf.toNet + r.toNet) == (s.data.sent + s.buf.toNet) + r.toNet;
  }

  lemma {:induction false} DeliverKeeps(s: St, r: Results)
    requires Answered(s) && (s.ctl.state == Handshaking || s.ctl.state == Closing)
    ensures var d := Deliver(s, r);
            && Mid(d) && d.session == s.session && d.ctl == s.ctl.(actionQueue := d.ctl.actionQueue)
            && d.buf == s.buf.(toNet := d.buf.toNet)
            && Below(d.ctl.actionQueue, 1)
  {
    EnqueueKeeps([], s.ctl, r.toNet != [], ReadyReadOutgoing, s.session.checked);
    DeliverConserves(s, r);
    assert Deliver(s, r).buf == s.buf.(toNet := s.buf.toNet + r.toNet);
    hide Deliver, Conserved, IdentityOk;
    assert QueueFor(Deliver(s, r).ctl.actionQueue, s.ctl, s.session.checked);
  }

  lemma {:induction false} HandshakeQueue(c: Control, r: Results, checked: bool)
    requires c.state == Handshaking && QueueOk(c, checked) && Below(c.actionQueue, 1)
    requires c.emittedPeerCertificate ==> checked
    ensures QueueFor(HandshakeActions(c, r), c, checked)
  {
    var serverHello := !c.server && r.serverHello;
    var b1 := NewHostName(c, r) && r.hostName != "";
    var b2 := !c.emittedPeerCertificate && (r.verdict == Success || serverHello);
    var b3 := !c.emittedCertificateRequested && serverHello && r.certificateRequested;
    EnqueueKeeps(c.actionQueue, c, b1, HostNameReceived, checked);
    var q1 := Then(c.actionQueue, b1, HostNameReceived);
    EnqueueKeeps(q1, c, b2, CheckPeerCertificate, checked);
    var q2 := Then(q1, b2, CheckPeerCertificate);
    EnqueueKeeps(q2, c, b3, CertificateRequested, checked);
    EnqueueKeeps(Then(q2, b3, CertificateRequested), c, r.verdict == Success, Handshaken, checked);
  }

  /** Another queue for the same state. */
  lemma {:induction false} Requeue(c: Control, q: seq<Action>, h: SessionLog)
    requires SessionOk(c, h) && QueueFor(q, c, h.checked)
    ensures SessionOk(c.(actionQueue := q), h) && QueueOk(c.(actionQueue := q), h.checked)
  {}

  lemma {:induction false} ClosingQueue(s: St, r: Results)
    requires Answered(s) && s.ctl.state == Closing
    ensures Mid(ClosingResults(s, r)) && ClosingResults(s, r).ctl.state == Closing
    ensures InputIsDue(ClosingResults(s, r).ctl, ClosingResults(s, r).buf)
  {
    hide Deliver, Conserved, IdentityOk, Then, QueueFor, SessionOk, QueueOk, Below;
    var d := Deliver(s, r);
    DeliverKeeps(s, r);
    EnqueueClose(d, r.verdict == Success);
    Requeue(d.ctl, Then(d.ctl.actionQueue, r.verdict == Success, Close), d.session);
  }

  lemma {:induction false} EnqueueClose(d: St, b: bool)
    requires QueueOk(d.ctl, d.session.checked) && Below(d.ctl.actionQueue, 1) && d.ctl.state == Closing
    ensures QueueFor(Then(d.ctl.actionQueue, b, Close), d.ctl, d.session.checked)
  {
    EnqueueKeeps(d.ctl.actionQueue, d.ctl, b, Close, d.session.checked);
  }

  lemma {:induction false} ClosingKeeps(s: St, r: Results, peer: Peer)
    requires Answered(s) && s.ctl.state == Closing
    ensures Inv(ProcessNextAction(ClosingResults(s, r), peer))
  {
    ClosingQueue(s, r);
    hide ClosingResults, QueueFor, SessionOk, Conserved, IdentityOk;
    ProcessKeeps(ClosingResults(s, r), peer);
  }

  lemma {:induction false} HandshakeKeeps(s: St, r: Results, peer: Peer)
    requires Answered(s) && s.ctl.state == Handshaking
    ensures Inv(ProcessNextAction(HandshakeResults(s, r), peer))
  {
    var d := Deliver(s, r);
    DeliverKeeps(s, r);
    HandshakeQueue(d.ctl, r, d.session.checked);
    hide Deliver, Conserved, IdentityOk, HandshakeActions;
    ProcessKeeps(HandshakeResults(s, r), peer);
  }

  lemma {:induction false} AcceptConserves(s: St, r: Results)
    requires Conserved(s.buf, s.data) && IdentityOk(s.id, s.data)
    requires s.ctl.state == Connected || s.ctl.state == Inactive
    ensures var t := Accept(s, r);
            && Conserved(t.buf, t.data) && IdentityOk(t.id, t.data) && t.session == s.session && t.buf.out == s.buf.out
  {
    assert s.data.sent + (s.buf.toNet + r.toNet) == (s.data.sent + s.buf.toNet) + r.toNet;
    assert s.data.readByApp + (s.buf.inp + r.toApp) == (s.data.readByApp + s.buf.inp) + r.toApp;
  }

  lemma {:induction false} AcceptQueue(c: Control, net: bool, app: bool, checked: bool)
    ensures QueueFor(Then(Then([], net, ReadyReadOutgoing), app, ReadyRead), c, checked)
  {
    EnqueueKeeps([], c, net, ReadyReadOutgoing, checked);
    EnqueueKeeps(Then([], net, ReadyReadOutgoing), c, app, ReadyRead, checked);
  }

  lemma {:induction false} AcceptControl(s: St, r: Results)
    requires SessionOk(s.ctl, s.session) && s.ctl.op == NoOp && s.ctl.actionQueue == []
    requires s.ctl.state == Connected || s.ctl.state == Inactive
    ensures var c := Accept(s, r).ctl;
            && SessionOk(c, s.session) && c.op == NoOp
            && c.actionQueue == Then(Then([], r.toNet != [], ReadyReadOutgoing), r.toApp != [], ReadyRead)
  {}

  lemma {:induction false} AcceptKeeps(s: St, r: Results)
    requires Answered(s) && (s.ctl.state == Connected || s.ctl.state == Inactive)
    ensures Mid(Accept(s, r)) && Accept(s, r).buf.out == s.buf.out && PendingIsDue(Accept(s, r).ctl, Accept(s, r).buf)
  {
    AcceptConserves(s, r);
    AcceptControl(s, r);
    hide Conserved, IdentityOk, SessionOk, QueueFor, Then, Accept;
    AcceptQueue(Accept(s, r).ctl, r.toNet != [], r.toApp != [], s.session.checked);
  }

  lemma {:induction false} ConnectedKeeps(s: St, r: Results, peer: Peer)
    requires Answered(s) && (s.ctl.state == Connected || s.ctl.state == Inactive)
    ensures Inv(ProcessNextAction(ConnectedResults(s, r), peer))
  {
    AcceptKeeps(s, r);
    UpdateKeeps(Accept(s, r));
    hide Answered, Mid, Update, Accept, ProcessNextAction, Inv;
    ProcessKeeps(ConnectedResults(s, r), peer);
  }

  lemma {:induction false} UpdateFinishedKeeps(s: St, r: Results, peer: Peer)
    requires Answered(s)
    ensures Inv(UpdateFinished(s, r, peer))
  {
    if r.verdict == Error {
      FailKeeps(s, if s.ctl.state == Handshaking || s.ctl.state == Closing then ErrorHandshake else ErrorCrypt);
    } else if s.ctl.state == Closing {
      ClosingKeeps(s, r, peer);
    } else if s.ctl.state == Handshaking {
      HandshakeKeeps(s, r, peer);
    } else {
      ConnectedKeeps(s, r, peer);
    }
  }

  // ------------------------------------------------------------------ every step, every run

  lemma {:induction false} BuffersKeep(s: St, bytes: Bytes)
    requires Inv(s)
    ensures Mid(s.(buf := s.buf.(out := s.buf.out + bytes)).Did(AppWrite(bytes)))
    ensures Mid(s.(buf := s.buf.(fromNet := s.buf.fromNet + bytes)).Did(NetWrite(bytes)))
  {
    assert s.data.fedApp + (s.buf.out + bytes) == (s.data.fedApp + s.buf.out) + bytes;
    assert s.data.fedNet + (s.buf.fromNet + bytes) == (s.data.fedNet + s.buf.fromNet) + bytes;
    hide QueueFor, SessionOk, SessionLog.Observe;
    BufferEventsKeep(s, bytes);
  }

  lemma {:induction false} ReadsKeep(s: St)
    requires Inv(s)
    ensures Inv(Next(s, Read)) && Inv(Next(s, ReadOutgoing))
  {
    hide QueueFor, SessionOk, SessionLog.Observe;
    BufferEventsKeep(s, []);
  }

  /** Moving bytes between the application and the buffers is no event of the session. */
  lemma {:induction false} BufferEventsKeep(s: St, bytes: Bytes)
    requires Inv(s)
    ensures s.session.Observe(AppWrite(bytes)) == s.session.Observe(NetWrite(bytes)) == s.session
    ensures s.session.Observe(AppRead(bytes)) == s.session.Observe(NetRead(bytes)) == s.session
    ensures s.session.Observe(AppRead(s.buf.inp)) == s.session.Observe(NetRead(s.buf.toNet)) == s.session
  {
    hide QueueFor, Conserved, IdentityOk;
  }

  lemma {:induction false} UpdateRestores(s: St)
    requires Resumable(s)
    ensures Inv(Update(s))
  {
    UpdateKeeps(s);
    hide QueueFor, SessionOk, Conserved, IdentityOk;
  }

  lemma {:induction false} StartedKeeps(s: St, server: bool)
    requires Inv(s) && s.ctl.state == Inactive && s.ctl.op == NoOp && s.ctl.actionQueue == [] && s.buf.fromNet == []
    requires !s.ctl.maybeInput && s.buf.outPending == 0
    ensures Inv(DoStart(s, server))
  {}

  lemma {:induction false} AnswerKeeps(s: St, r: Results, peer: Peer)
    requires Inv(s) && s.ctl.op != NoOp
    ensures Inv(Next(s, ResultsReady(r, peer)))
  {
    var s1 := s.(ctl := s.ctl.(op := NoOp));
    if s.ctl.op == OpUpdate {
      UpdateFinishedKeeps(s1, r, peer);
    } else if r.verdict != Success {
      FailKeeps(s1, ErrorInit);
    } else {
      UpdateRestores(s1.(ctl := s1.ctl.(state := Handshaking, maybeInput := true)));
    }
  }

  lemma {:induction false} WithHost(s: St, host: string)
    requires Inv(s) && s.ctl.state == Inactive
    ensures Inv(s.(ctl := s.ctl.(host := host)))
  {
    hide Conserved, IdentityOk;
  }

  lemma {:induction false} StartKeeps(s: St, host: string, server: bool)
    requires Inv(s)
    ensures var s1 := DoReset(s, ResetSessionAndData);
            Inv(DoStart(s1, server)) && Inv(DoStart(s1.(ctl := s1.ctl.(host := host)), server))
  {
    ResetKeeps(s, ResetSessionAndData);
    var s1 := DoReset(s, ResetSessionAndData);
    WithHost(s1, host);
    hide Inv, DoStart, SessionLog.Observe, DataLog.Observe;
    StartedKeeps(s1, server);
    StartedKeeps(s1.(ctl := s1.ctl.(host := host)), server);
  }

  /** What update() and the trigger rely on when they are called with one flag changed. */
  predicate Resumable(s: St) {
    && Mid(s) && (s.ctl.actionQueue != [] ==> s.ctl.trigger) && PendingIsDue(s.ctl, s.buf)
    && (s.ctl.needUpdate ==> s.ctl.op != NoOp || s.ctl.trigger || s.ctl.blocked || Idle(s.ctl))
  }

  lemma {:induction false} FlagsKeep(s: St)
    requires Inv(s)
    ensures Resumable(s.(ctl := DoClose(s.ctl)))
  {
    hide Conserved, IdentityOk;
  }

  lemma {:induction false} ContinueKeeps(s: St)
    requires Inv(s)
    ensures s.ctl.blocked ==> Resumable(s.(ctl := s.ctl.(blocked := false)).Did(Continued))
    ensures !s.ctl.blocked ==> s.Did(Continued) == s
  {
    assert s.data.Observe(Continued) == s.data;
    assert !s.ctl.blocked ==> s.session.Observe(Continued) == s.session;
    hide Conserved, IdentityOk, QueueFor;
  }

  lemma {:induction false} TriggerKeeps(s: St, peer: Peer)
    requires Inv(s) && s.ctl.trigger
    ensures Inv(ProcessNextAction(s.(ctl := s.ctl.(trigger := false)), peer))
  {
    hide Conserved, IdentityOk, ProcessNextAction;
    ProcessKeeps(s.(ctl := s.ctl.(trigger := false)), peer);
  }

  lemma {:induction false} InputKeeps(s: St, bytes: Bytes)
    requires Inv(s)
    ensures Resumable(s.(buf := s.buf.(out := s.buf.out + bytes)).Did(AppWrite(bytes)))
    ensures Resumable(s.(buf := s.buf.(fromNet := s.buf.fromNet + bytes)).Did(NetWrite(bytes)))
  {
    BuffersKeep(s, bytes);
    hide Mid, SessionLog.Observe, DataLog.Observe;
  }

  lemma {:induction false} NextKeeps(s: St, step: Step)
    requires Inv(s) && Enabled(s, step)
    ensures Inv(Next(s, step))
  {
    hide QueueFor, SessionOk, Conserved, IdentityOk, NoLostWakeup, OneAtATime, SessionLog.Observe, DataLog.Observe,
      DoReset, DoStart, DoClose, Update, ProcessNextAction, StartFinished, UpdateFinished, InputIsDue;
    match step {
      case Listen(l) =>
      case ResetCall => ResetCallKeeps(s);
      case StartClient(host) => StartKeeps(s, host, false);
      case StartServer => StartKeeps(s, "", true);
      case ContinueAfterStep =>
        ContinueKeeps(s);
        if s.ctl.blocked { UpdateRestores(s.(ctl := s.ctl.(blocked := false)).Did(Continued)); }
      case CloseCall =>
        FlagsKeep(s);
        UpdateRestores(s.(ctl := DoClose(s.ctl)));
      case Write(bytes) =>
        InputKeeps(s, bytes);
        UpdateRestores(s.(buf := s.buf.(out := s.buf.out + bytes)).Did(AppWrite(bytes)));
      case Read => ReadsKeep(s);
      case WriteIncoming(bytes) =>
        InputKeeps(s, bytes);
        UpdateRestores(s.(buf := s.buf.(fromNet := s.buf.fromNet + bytes)).Did(NetWrite(bytes)));
      case ReadOutgoing => ReadsKeep(s);
      case TriggerFires(peer) => TriggerKeeps(s, peer);
      case ResultsReady(r, peer) => AnswerKeeps(s, r, peer);
    }
  }

  lemma {:induction false} ResetCallKeeps(s: St)
    requires Inv(s)
    ensures Inv(DoReset(s, ResetAll))
  {
    ResetKeeps(s, ResetAll);
  }
}
