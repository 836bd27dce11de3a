/** What an application of the TLS object can rely on, over every run from construction,
    and four places where it can rely on less than the documentation says. */
module TlsGuarantees {
  import opened ByteStrings
  import opened Sequences
  import opened TlsModel
  import opened TlsProofs

  lemma {:induction false} RunKeeps(s: St, steps: seq<Step>)
    requires Inv(s) && Possible(s, steps)
    ensures Inv(Run(s, steps))
    decreases |steps|
  {
    if steps == [] {
    } else {
      NextKeeps(s, steps[0]);
      hide Inv, Next, Enabled;
      RunKeeps(Next(s, steps[0]), steps[1..]);
    }
  }

  lemma {:induction false} Fresh(l: Listeners)
    ensures Inv(Initial(l))
  {}

  lemma {:induction false} Reachable(l: Listeners, steps: seq<Step>)
    requires Possible(Initial(l), steps)
    ensures Inv(Run(Initial(l), steps))
  {
    Fresh(l);
    hide Run, Possible, Inv, Initial;
    RunKeeps(Initial(l), steps);
  }

  // ------------------------------------------------------------------ main results

  /** No wake-up is lost: whatever is waiting between two steps has something pending
      (trigger, engine operation, or the application's continueAfterStep) that resumes it. */
  lemma {:induction false} NothingStalls(l: Listeners, steps: seq<Step>)
    requires Possible(Initial(l), steps)
    ensures var s := Run(Initial(l), steps);
            && (s.ctl.actionQueue != [] ==> s.ctl.trigger)
            && (s.ctl.needUpdate ==> s.ctl.op != NoOp || s.ctl.trigger || s.ctl.blocked)
            && (s.ctl.op != NoOp ==> s.ctl.actionQueue == [] && !s.ctl.blocked)
            && ((s.ctl.state == Connected || s.ctl.state == Closing) && s.buf.out != [] ==>
               s.ctl.blocked || s.ctl.needUpdate)
            && (s.ctl.state != Inactive && s.buf.fromNet != [] ==> s.ctl.blocked || s.ctl.needUpdate)
            && (s.ctl.state == Connected && |s.data.fedApp| > s.data.encoded ==>
                  s.ctl.op == OpUpdate || s.ctl.needUpdate || s.ctl.blocked)
  {
    hide Run, Possible, Initial;
    Reachable(l, steps);
  }

  /** No byte is lost, duplicated or reordered between the application, the engine and the network. */
  lemma {:induction false} BytesAreConserved(l: Listeners, steps: seq<Step>)
    requires Possible(Initial(l), steps)
    ensures var s := Run(Initial(l), steps);
            && s.data.written == s.data.fedApp + s.buf.out
            && s.data.received == s.data.fedNet + s.buf.fromNet
            && s.data.decrypted == s.data.readByApp + s.buf.inp
            && s.data.produced == s.data.sent + s.buf.toNet
  {
    hide Run, Possible, Initial;
    Reachable(l, steps);
  }

  /** Every event of every run was allowed when it happened: each step signal at most once a
      session and in its role, the peer checked before the connection counts as established,
      closed() only out of the closing state, no engine call during a pause, and application
      data handed over only after the handshake or without any session. */
  lemma {:induction false} EveryEventIsLawful(l: Listeners, steps: seq<Step>)
    requires Possible(Initial(l), steps)
    ensures Run(Initial(l), steps).session.lawful
    ensures var s := Run(Initial(l), steps);
            && s.session.hostNames <= 1 && s.session.certificateRequests <= 1
            && s.session.peerCertificates <= 1 && s.session.handshakes <= 1
            && (s.ctl.state == Connected || s.ctl.state == Closing ==> s.session.entered)
  {
    hide Run, Possible, Initial;
    Reachable(l, steps);
  }

  // ------------------------------------------------------------------ draining the queue

  /** The signal an action raises while it is performed, if any. */
  function Raised(l: Listeners, a: Action): seq<Signal> {
    match a
    case ReadyRead => [SigReadyRead]
    case ReadyReadOutgoing => [SigReadyReadOutgoing]
    case Handshaken => if l.handshaken then [SigHandshaken] else []
    case Close => [SigClosed]
    case CheckPeerCertificate => if l.peerCertificate then [SigPeerCertificate] else []
    case CertificateRequested => if l.certificateRequested then [SigCertificateRequested] else []
    case HostNameReceived => if l.hostName then [SigHostName] else []
  }

  function AllRaised(l: Listeners, q: seq<Action>): seq<Signal> {
    if q == [] then [] else Raised(l, q[0]) + AllRaised(l, q[1..])
  }

  lemma {:induction false} PerformRaises(s: St, a: Action, peer: Peer)
    ensures var t := Perform(s, a, peer);
            && t.listeners == s.listeners
            && t.session.signals == s.session.signals + Raised(s.listeners, a)
            && t.ctl.actionQueue == (if a == Close then [] else s.ctl.actionQueue)
  {
    hide SessionLog.Observe, DataLog.Observe, DoReset, CheckPeer, EnterConnected;
    assert s.session.signals + [] == s.session.signals;
    PerformedQuietly(s, peer);
    Emitting(DoReset(s, ResetSession), SigClosed, s.ctl.state);
    Emitting(EnterConnected(s), SigHandshaken, Connected);
    Emitting(CheckPeer(s, peer), SigPeerCertificate, s.ctl.state);
    Emitting(s, if a == ReadyRead then SigReadyRead else if a == ReadyReadOutgoing then SigReadyReadOutgoing
                else if a == CertificateRequested then SigCertificateRequested else SigHostName, s.ctl.state);
  }

  lemma {:induction false} Emitting(s: St, sig: Signal, during: State)
    ensures s.session.Observe(Emitted(sig, during)).signals == s.session.signals + [sig]
  {}

  /** The parts of the handlers that raise nothing. */
  lemma {:induction false} PerformedQuietly(s: St, peer: Peer)
    ensures var t := DoReset(s, ResetSession);
            t.listeners == s.listeners && t.session.signals == s.session.signals && t.ctl.actionQueue == []
    ensures var t := EnterConnected(s);
            && t.listeners == s.listeners && t.session.signals == s.session.signals
            && t.ctl.actionQueue == s.ctl.actionQueue
    ensures var t := CheckPeer(s, peer);
            && t.listeners == s.listeners && t.session.signals == s.session.signals
            && t.ctl.actionQueue == s.ctl.actionQueue
  {}

  /** The trigger fires while actions are queued. */
  function Fire(s: St, peer: Peer): St
    requires Inv(s) && s.ctl.actionQueue != []
  {
    Next(s, TriggerFires(peer))
  }

  lemma {:induction false} FirePops(s: St, peer: Peer)
    requires Inv(s) && s.ctl.actionQueue != []
    ensures var f := Fire(s, peer);
            && Inv(f) && f.listeners == s.listeners
            && f.ctl.actionQueue == s.ctl.actionQueue[1..]
            && f.session.signals == s.session.signals + Raised(s.listeners, s.ctl.actionQueue[0])
  {
    NextKeeps(s, TriggerFires(peer));
    PopKeeps(s.ctl, s.session.checked);
    var s1 := s.(ctl := s.ctl.(trigger := false));
    PerformRaises(s1.(ctl := Pop(s1.ctl)), s.ctl.actionQueue[0], peer);
    hide QueueFor, Conserved, IdentityOk, SessionOk, Perform, Raised;
  }

  /** The trigger, let run until the queue is empty, with no call from the application. */
  function Drain(s: St, peer: Peer): St
    requires Inv(s)
    decreases |s.ctl.actionQueue|
  {
    if s.ctl.actionQueue == [] then s
    else
      FirePops(s, peer);
      Drain(Fire(s, peer), peer)
  }

  /** Whatever was queued is performed completely and in order; a pause does not hold it back. */
  lemma {:induction false} QueueDrainsInOrder(s: St, peer: Peer)
    requires Inv(s)
    ensures Drain(s, peer).ctl.actionQueue == []
    ensures Drain(s, peer).session.signals == s.session.signals + AllRaised(s.listeners, s.ctl.actionQueue)
    decreases |s.ctl.actionQueue|
  {
    hide Inv, Fire, Raised;
    if s.ctl.actionQueue == [] {
    } else {
      var f := Fire(s, peer);
      var a := Raised(s.listeners, s.ctl.actionQueue[0]);
      FirePops(s, peer);
      QueueDrainsInOrder(f, peer);
      var rest := AllRaised(f.listeners, f.ctl.actionQueue);
      assert s.session.signals + (a + rest) == (s.session.signals + a) + rest;
    }
  }

  // ------------------------------------------------------------------ less than promised

  function Steps(signals: seq<Signal>): seq<Signal> {
    if signals == [] then []
    else (if StepSignal(signals[0]) then [signals[0]] else []) + Steps(signals[1..])
  }

  lemma {:induction false} StepsAppend(a: seq<Signal>, b: seq<Signal>)
    ensures Steps(a + b) == Steps(a) + Steps(b)
  {
    if a == [] {
      assert a + b == b;
    } else {
      assert (a + b)[0] == a[0] && (a + b)[1..] == a[1..] + b;
      StepsAppend(a[1..], b);
      hide StepSignal;
      var first := if StepSignal(a[0]) then [a[0]] else [];
      assert first + (Steps(a[1..]) + Steps(b)) == (first + Steps(a[1..])) + Steps(b);
    }
  }

  /** Performing `a` raises a step signal. */
  predicate Announces(l: Listeners, a: Action) {
    || (a == Handshaken && l.handshaken)
    || (a == CheckPeerCertificate && l.peerCertificate)
    || (a == CertificateRequested && l.certificateRequested)
    || (a == HostNameReceived && l.hostName)
  }

  lemma {:induction false} QuietQueue(l: Listeners, q: seq<Action>)
    ensures Steps(AllRaised(l, q)) == [] <==> forall i :: 0 <= i < |q| ==> !Announces(l, q[i])
  {
    if q == [] {
    } else {
      QuietQueue(l, q[1..]);
      StepsAppend(Raised(l, q[0]), AllRaised(l, q[1..]));
      RaisedSteps(l, q[0]);
      hide Raised, Steps, Announces;
    }
  }

  lemma {:induction false} RaisedSteps(l: Listeners, a: Action)
    ensures Steps(Raised(l, a)) == if Announces(l, a) then Raised(l, a) else []
    ensures Announces(l, a) ==> |Raised(l, a)| == 1
  {
    assert Steps([]) == [];
  }

  /** After a step signal the application is promised that nothing more is processed until
      continueAfterStep().  The queue does not wait for it: the rest of the pause is free of step
      signals if and only if no action that raises one is queued when the pause begins. */
  lemma {:induction false} PauseIsKeptIffNoStepQueued(s: St, peer: Peer)
    requires Inv(s) && s.ctl.blocked
    ensures Steps(Drain(s, peer).session.signals) == Steps(s.session.signals)
       <==> forall i :: 0 <= i < |s.ctl.actionQueue| ==> !Announces(s.listeners, s.ctl.actionQueue[i])
  {
    var raised := AllRaised(s.listeners, s.ctl.actionQueue);
    QueueDrainsInOrder(s, peer);
    QuietQueue(s.listeners, s.ctl.actionQueue);
    hide Drain, Inv, Announces, Steps;
    StepsAppend(s.session.signals, raised);
  }

  // What an engine answer during the handshake makes due for the application.

  predicate HostNameDue(c: Control, l: Listeners, r: Results) {
    c.server && r.clientHello && !c.emittedHostName && r.hostName != "" && l.hostName
  }

  predicate PeerCertificateDue(c: Control, l: Listeners, r: Results) {
    !c.emittedPeerCertificate && (r.verdict == Success || (!c.server && r.serverHello)) && l.peerCertificate
  }

  predicate RequestDue(c: Control, l: Listeners, r: Results) {
    !c.server && r.serverHello && r.certificateRequested && !c.emittedCertificateRequested && l.certificateRequested
  }

  predicate HandshakenDue(l: Listeners, r: Results) {
    r.verdict == Success && l.handshaken
  }

  function One(b: bool, sig: Signal): seq<Signal> {
    if b then [sig] else []
  }

  function StepsDue(c: Control, l: Listeners, r: Results): seq<Signal> {
    One(HostNameDue(c, l, r), SigHostName) + One(PeerCertificateDue(c, l, r), SigPeerCertificate)
    + One(RequestDue(c, l, r), SigCertificateRequested) + One(HandshakenDue(l, r), SigHandshaken)
  }

  function HowManyDue(c: Control, l: Listeners, r: Results): nat {
    var host, peer := if HostNameDue(c, l, r) then 1 else 0, if PeerCertificateDue(c, l, r) then 1 else 0;
    var request, done := if RequestDue(c, l, r) then 1 else 0, if HandshakenDue(l, r) then 1 else 0;
    host + peer + request + done
  }

  lemma {:induction false} AllRaisedAppend(l: Listeners, p: seq<Action>, q: seq<Action>)
    ensures AllRaised(l, p + q) == AllRaised(l, p) + AllRaised(l, q)
  {
    hide Raised;
    if p == [] {
      assert p + q == q;
    } else {
      assert (p + q)[0] == p[0] && (p + q)[1..] == p[1..] + q;
      AllRaisedAppend(l, p[1..], q);
      Associate(Raised(l, p[0]), AllRaised(l, p[1..]), AllRaised(l, q));
    }
  }

  /** One more action in the queue raises its own step signal, if any, after the others. */
  lemma {:induction false} StepsThen(l: Listeners, q: seq<Action>, b: bool, a: Action)
    ensures Steps(AllRaised(l, Then(q, b, a)))
         == Steps(AllRaised(l, q)) + (if b && Announces(l, a) then Raised(l, a) else [])
  {
    if b {
      AllRaisedAppend(l, q, [a]);
      assert AllRaised(l, [a]) == Raised(l, a) + AllRaised(l, []) == Raised(l, a);
      StepsAppend(AllRaised(l, q), Raised(l, a));
      RaisedSteps(l, a);
    }
    hide Raised, Announces, Steps, AllRaised;
  }

  lemma {:induction false} HandshakeStepsDue(c: Control, l: Listeners, r: Results, q: seq<Action>)
    requires Steps(AllRaised(l, q)) == []
    ensures Steps(AllRaised(l, HandshakeActions(c.(actionQueue := q), r))) == StepsDue(c, l, r)
  {
    var serverHello := !c.server && r.serverHello;
    var b1 := NewHostName(c, r) && r.hostName != "";
    var b2 := !c.emittedPeerCertificate && (r.verdict == Success || serverHello);
    var b3 := !c.emittedCertificateRequested && serverHello && r.certificateRequested;
    var q1 := Then(q, b1, HostNameReceived);
    var q2 := Then(q1, b2, CheckPeerCertificate);
    var q3 := Then(q2, b3, CertificateRequested);
    StepsThen(l, q, b1, HostNameReceived);
    StepsThen(l, q1, b2, CheckPeerCertificate);
    StepsThen(l, q2, b3, CertificateRequested);
    StepsThen(l, q3, r.verdict == Success, Handshaken);
    hide Steps, AllRaised, Then;
  }

  /** What an answer during the handshake leaves to be processed. */
  function Answer(s: St, r: Results): St {
    HandshakeResults(s.(ctl := s.ctl.(op := NoOp)), r)
  }

  lemma {:induction false} AnswerActions(s: St, r: Results)
    requires s.ctl.actionQueue == []
    ensures var d := Answer(s, r);
            && d.listeners == s.listeners && d.session.signals == s.session.signals
            && d.ctl.actionQueue
               == HandshakeActions(s.ctl.(actionQueue := Then([], r.toNet != [], ReadyReadOutgoing)), r)
  {
    hide Then;
  }

  lemma {:induction false} NoCloseQueued(c: Control, r: Results)
    requires Close !in c.actionQueue
    ensures Close !in HandshakeActions(c, r)
  {
    hide NewHostName;
  }

  lemma {:induction false} AnswerQueue(s: St, r: Results)
    requires s.ctl.actionQueue == []
    ensures var d := Answer(s, r);
            && Steps(AllRaised(s.listeners, d.ctl.actionQueue)) == StepsDue(s.ctl, s.listeners, r)
            && d.listeners == s.listeners && d.session.signals == s.session.signals
            && (d.ctl.actionQueue != [] ==> d.ctl.actionQueue[0] != Close)
  {
    hide Steps, AllRaised, StepsDue, Answer, HandshakeActions, Announces;
    var q := Then([], r.toNet != [], ReadyReadOutgoing);
    AnswerActions(s, r);
    OutputIsNoStep(s.listeners, r.toNet != []);
    HandshakeStepsDue(s.ctl, s.listeners, r, q);
    NoCloseQueued(s.ctl.(actionQueue := q), r);
  }

  lemma {:induction false} OutputIsNoStep(l: Listeners, b: bool)
    ensures Steps(AllRaised(l, Then([], b, ReadyReadOutgoing))) == []
  {
    QuietQueue(l, Then([], b, ReadyReadOutgoing));
  }

  lemma {:induction false} UpdateIsSilent(s: St)
    ensures Update(s).session.signals == s.session.signals && Update(s).ctl.actionQueue == s.ctl.actionQueue
    ensures Update(s).listeners == s.listeners
  {
    hide Update;
    UpdateLeaves(s);
  }

  /** Processing one action raises what it stands for, and the rest is still to come. */
  lemma {:induction false} ProcessRaises(d: St, peer: Peer)
    requires d.ctl.actionQueue != [] && d.ctl.actionQueue[0] == Close ==> |d.ctl.actionQueue| == 1
    ensures var t := ProcessNextAction(d, peer);
            && t.listeners == d.listeners
            && t.session.signals + AllRaised(d.listeners, t.ctl.actionQueue)
            == d.session.signals + AllRaised(d.listeners, d.ctl.actionQueue)
  {
    hide Perform, Update, Raised;
    var q := d.ctl.actionQueue;
    if q == [] {
      UpdateIsSilent(d);
    } else {
      PerformRaises(d.(ctl := Pop(d.ctl)), q[0], peer);
      Associate(d.session.signals, Raised(d.listeners, q[0]), AllRaised(d.listeners, q[1..]));
    }
  }

  lemma {:induction false} AnswerIsProcessed(s: St, r: Results, peer: Peer)
    requires Inv(s) && s.ctl.state == Handshaking && s.ctl.op == OpUpdate && r.verdict != Error
    ensures Inv(Next(s, ResultsReady(r, peer))) && s.ctl.actionQueue == []
    ensures Next(s, ResultsReady(r, peer)) == ProcessNextAction(Answer(s, r), peer)
  {
    NextKeeps(s, ResultsReady(r, peer));
    hide QueueFor, SessionOk, Conserved, IdentityOk, NoLostWakeup, ProcessNextAction, HandshakeResults;
  }

  /** Everything an answer queues during the handshake is performed in order, without any call from
      the application. */
  lemma {:induction false} AnswerDrains(s: St, r: Results, peer: Peer)
    requires Inv(s) && s.ctl.state == Handshaking && s.ctl.op == OpUpdate && r.verdict != Error
    ensures var t, q := Next(s, ResultsReady(r, peer)), Answer(s, r).ctl.actionQueue;
            Inv(t) && Drain(t, peer).session.signals == s.session.signals + AllRaised(s.listeners, q)
  {
    hide Inv, Next, Answer, ProcessNextAction, Drain, AllRaised, Steps, StepsDue;
    AnswerIsProcessed(s, r, peer);
    AnswerQueue(s, r);
    ProcessRaises(Answer(s, r), peer);
    QueueDrainsInOrder(Next(s, ResultsReady(r, peer)), peer);
  }

  lemma {:induction false} DueLength(c: Control, l: Listeners, r: Results)
    ensures |StepsDue(c, l, r)| == HowManyDue(c, l, r)
  {
    hide HostNameDue, PeerCertificateDue, RequestDue, HandshakenDue;
  }

  /** An answer during the handshake raises, without any call from the application, the step signals
      that it makes due, in this order.  So the application gets its pause after each of them, and no
      second one in the same pause, if and only if at most one of the four is due. */
  lemma {:induction false} OneStepPerPauseIff(s: St, r: Results, peer: Peer)
    requires Inv(s) && s.ctl.state == Handshaking && s.ctl.op == OpUpdate && r.verdict != Error
    ensures Inv(Next(s, ResultsReady(r, peer)))
    ensures var signals := Drain(Next(s, ResultsReady(r, peer)), peer).session.signals;
            && Steps(signals) == Steps(s.session.signals) + StepsDue(s.ctl, s.listeners, r)
            && (|Steps(signals)| <= |Steps(s.session.signals)| + 1 <==> HowManyDue(s.ctl, s.listeners, r) <= 1)
  {
    hide Inv, Next, Answer, Drain, Steps, AllRaised, StepsDue, HowManyDue;
    AnswerDrains(s, r, peer);
    AnswerIsProcessed(s, r, peer);
    AnswerQueue(s, r);
    StepsAppend(s.session.signals, AllRaised(s.listeners, Answer(s, r).ctl.actionQueue));
    DueLength(s.ctl, s.listeners, r);
  }

  lemma {:induction false} PeerAndHandshakenDue(c: Control, l: Listeners, r: Results)
    requires PeerCertificateDue(c, l, r) && HandshakenDue(l, r)
    ensures var due := StepsDue(c, l, r);
            |due| >= 2 && due[|due| - 1] == SigHandshaken && SigPeerCertificate in due[..|due| - 1]
  {
    hide HostNameDue, RequestDue;
    var host, due := One(HostNameDue(c, l, r), SigHostName), StepsDue(c, l, r);
    assert due[..|due| - 1][|host|] == SigPeerCertificate;
  }

  /** So the promise is broken in every session whose handshake ends before the application was told
      of the peer certificate: it hears of both without a call of its own in between. */
  lemma {:induction false} TwoStepsInOnePause(s: St, r: Results, peer: Peer)
    requires Inv(s) && s.ctl.state == Handshaking && s.ctl.op == OpUpdate && r.verdict == Success
    requires !s.ctl.emittedPeerCertificate && s.listeners.peerCertificate && s.listeners.handshaken
    ensures Inv(Next(s, ResultsReady(r, peer)))
    ensures var before := Steps(s.session.signals);
            var after := Steps(Drain(Next(s, ResultsReady(r, peer)), peer).session.signals);
            && before <= after && |after| >= |before| + 2
            && SigPeerCertificate in after[|before|..|after| - 1] && after[|after| - 1] == SigHandshaken
  {
    hide Inv, Next, Drain, Steps, StepsDue, HowManyDue;
    OneStepPerPauseIff(s, r, peer);
    PeerAndHandshakenDue(s.ctl, s.listeners, r);
    var due := StepsDue(s.ctl, s.listeners, r);
    var before, after := Steps(s.session.signals), Steps(Drain(Next(s, ResultsReady(r, peer)), peer).session.signals);
    assert after[|before|..|after| - 1] == due[..|due| - 1];
  }

  /** Every client gets there with its first engine answer. */
  lemma {:induction false} ClientReachesHandshake(l: Listeners, host: string, r: Results, peer: Peer)
    requires r.verdict == Success
    ensures var steps := [StartClient(host), ResultsReady(r, peer)];
            && Possible(Initial(l), steps)
            && var s := Run(Initial(l), steps);
               && Inv(s) && s.ctl.state == Handshaking && s.ctl.op == OpUpdate
               && !s.ctl.emittedPeerCertificate && s.listeners == l
  {
    var steps := [StartClient(host), ResultsReady(r, peer)];
    var s := Next(Initial(l), StartClient(host));
    assert steps[1..] == [ResultsReady(r, peer)] && steps[1..][1..] == [];
    assert Possible(s, steps[1..]);
    assert Run(s, steps[1..]) == Next(s, ResultsReady(r, peer));
    Reachable(l, steps);
  }

  // ------------------------------------------------------------------ calls without a session

  lemma {:induction false} UpdateCallsEngine(s: St)
    ensures s.ctl.op == NoOp && Update(s).ctl.op == OpUpdate <==> Idle(s.ctl) && HasInput(s)
    ensures Update(s).session.role == s.session.role
  {}

  lemma {:induction false} NoRoleWithoutSession(s: St)
    requires Mid(s)
    ensures s.session.role == NoRole <==> s.ctl.state == Inactive
    ensures s.ctl.state == Inactive ==> !s.ctl.blocked
  {
    hide QueueFor, Conserved, IdentityOk;
  }

  /** update() reaches the engine before a session starts or after it ended: exactly when there is no
      session, no engine call under way, no action waiting, and something to hand over.  This is so
      wherever update() is called from. */
  lemma {:induction false} EngineIsCalledWithoutSession(s: St)
    requires Mid(s)
    ensures (s.ctl.op == NoOp && Update(s).ctl.op == OpUpdate && Update(s).session.role == NoRole)
       <==> (s.ctl.state == Inactive && s.ctl.op == NoOp && s.ctl.actionQueue == [] && HasInput(s))
  {
    NoRoleWithoutSession(s);
    UpdateCallsEngine(s);
    hide Mid, Update, HasInput;
  }

  /** In particular by a write, by bytes from the network, and by close(). */
  lemma {:induction false} CallsReachEngineWithoutSession(s: St, bytes: Bytes)
    requires Inv(s)
    ensures var idle := s.ctl.state == Inactive && s.ctl.op == NoOp && s.ctl.actionQueue == [];
            var t, u, v := Next(s, Write(bytes)), Next(s, WriteIncoming(bytes)), Next(s, CloseCall);
            && (s.ctl.op == NoOp && t.ctl.op == OpUpdate && t.session.role == NoRole
                <==> idle && (s.buf.out + bytes != [] || s.buf.fromNet != [] || s.ctl.maybeInput))
            && (s.ctl.op == NoOp && u.ctl.op == OpUpdate && u.session.role == NoRole
                <==> idle && (s.buf.out != [] || s.buf.fromNet + bytes != [] || s.ctl.maybeInput))
            && (s.ctl.op == NoOp && v.ctl.op == OpUpdate && v.session.role == NoRole
                <==> idle && (s.buf.out != [] || s.buf.fromNet != [] || s.ctl.maybeInput))
  {
    NoRoleWithoutSession(s);
    UpdateCallsEngine(s.(buf := s.buf.(out := s.buf.out + bytes)).Did(AppWrite(bytes)));
    UpdateCallsEngine(s.(buf := s.buf.(fromNet := s.buf.fromNet + bytes)).Did(NetWrite(bytes)));
    UpdateCallsEngine(s.(ctl := DoClose(s.ctl)));
    BufferEventsKeep(s, bytes);
    hide Inv, Update, SessionLog.Observe, DataLog.Observe;
  }

  /** readOutgoing() reports the plain bytes of the output it returns, less one for every
      engine answer that had no output; so the report is exact if and only if there was none. */
  lemma {:induction false} PlainBytesReported(l: Listeners, steps: seq<Step>)
    requires Possible(Initial(l), steps)
    ensures var s := Run(Initial(l), steps);
            && s.buf.toNetEncoded == s.data.unreported - s.data.silent
            && (s.buf.toNetEncoded == s.data.unreported <==> s.data.silent == 0)
  {
    hide Run, Possible, Initial;
    Reachable(l, steps);
  }

  lemma {:induction false} InputUntouched(s: St, peer: Peer)
    ensures ProcessNextAction(s, peer).buf.inp == s.buf.inp
  {
    hide SessionLog.Observe, DataLog.Observe;
  }

  lemma {:induction false} InputAfterResults(s: St, r: Results)
    ensures ClosingResults(s, r).buf.inp == HandshakeResults(s, r).buf.inp == s.buf.inp
    ensures ConnectedResults(s, r).buf.inp == s.buf.inp + r.toApp
  {
    hide SessionLog.Observe, DataLog.Observe, Then, Acknowledge;
  }

  /** Application data in an engine answer is taken only outside the handshake and the closing, and
      from an answer that is no error: it is kept if and only if it is empty or all of this holds. */
  lemma {:induction false} DataIsKeptIff(s: St, r: Results, peer: Peer)
    requires Inv(s) && s.ctl.op == OpUpdate
    ensures Next(s, ResultsReady(r, peer)).buf.inp == s.buf.inp + r.toApp
       <==> r.toApp == [] || (r.verdict != Error && s.ctl.state != Handshaking && s.ctl.state != Closing)
  {
    hide ProcessNextAction, Inv, ClosingResults, HandshakeResults, ConnectedResults;
    var s1 := s.(ctl := s.ctl.(op := NoOp));
    InputAfterResults(s1, r);
    if r.verdict == Error {
    } else if s.ctl.state == Closing {
      InputUntouched(ClosingResults(s1, r), peer);
    } else if s.ctl.state == Handshaking {
      InputUntouched(HandshakeResults(s1, r), peer);
    } else {
      InputUntouched(ConnectedResults(s1, r), peer);
    }
    assert s.buf.inp + r.toApp == s.buf.inp <==> r.toApp == [];
  }
}
