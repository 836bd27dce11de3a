/** What each answer of the engine and each call comes to, once the trigger has run: the signals, the
    state, and the error code. */
module TlsAnswers {
  import opened ByteStrings
  import opened Sequences
  import opened TlsModel
  import opened TlsProofs
  import opened TlsGuarantees

  // ------------------------------------------------------------------ what is documented

  /** The signals that tell the application of an answer. */
  function AnswerTells(s: St, r: Results): seq<Signal> {
    if s.ctl.op == OpStart then
      if r.verdict == Success then [] else [SigError]
    else if r.verdict == Error then [SigError]
    else
      One(r.toNet != [], SigReadyReadOutgoing)
      + match s.ctl.state
        case Handshaking => StepsDue(s.ctl, s.listeners, r)
        case Closing => One(r.verdict == Success, SigClosed)
        case _ => One(r.toApp != [], SigReadyRead)
  }

  /** The state an answer leads to. */
  function AnswerLeadsTo(s: St, r: Results): State {
    if s.ctl.op == OpStart then if r.verdict == Success then Handshaking else Inactive
    else if r.verdict == Error then Inactive
    else
      match s.ctl.state
      case Handshaking => if r.verdict == Success then Connected else Handshaking
      case Closing => if r.verdict == Success then Inactive else Closing
      case Connected => if r.eof then Closing else Connected
      case _ => s.ctl.state
  }

  /** The code of an error: from the negotiation on, until the connection was there, and afterwards. */
  function ErrorTells(during: State): ErrorCode {
    match during
    case Initializing => ErrorInit
    case Handshaking => ErrorHandshake
    case Closing => ErrorHandshake
    case Connected => ErrorCrypt
    case Inactive => ErrorCrypt
  }

  // ------------------------------------------------------------------ the queue of an answer

  lemma {:induction false} RaisedThen(l: Listeners, q: seq<Action>, b: bool, a: Action)
    ensures AllRaised(l, Then(q, b, a)) == AllRaised(l, q) + (if b then Raised(l, a) else [])
  {
    hide Raised;
    if b {
      AllRaisedAppend(l, q, [a]);
      assert AllRaised(l, [a]) == Raised(l, a) + AllRaised(l, []) == Raised(l, a);
    }
  }

  lemma {:induction false} OutputRaised(l: Listeners, b: bool)
    ensures AllRaised(l, Then([], b, ReadyReadOutgoing)) == One(b, SigReadyReadOutgoing)
  {
    RaisedThen(l, [], b, ReadyReadOutgoing);
  }

  lemma {:induction false} HandshakeRaised(c: Control, l: Listeners, r: Results, q: seq<Action>)
    ensures AllRaised(l, HandshakeActions(c.(actionQueue := q), r)) == AllRaised(l, q) + StepsDue(c, l, r)
  {
    hide AllRaised, Then;
    var serverHello := !c.server && r.serverHello;
    var b1 := NewHostName(c, r) && r.hostName != "";
    var b2 := !c.emittedPeerCertificate && (r.verdict == Success || serverHello);
    var b3 := !c.emittedCertificateRequested && serverHello && r.certificateRequested;
    var q1 := Then(q, b1, HostNameReceived);
    var q2 := Then(q1, b2, CheckPeerCertificate);
    var q3 := Then(q2, b3, CertificateRequested);
    RaisedThen(l, q, b1, HostNameReceived);
    RaisedThen(l, q1, b2, CheckPeerCertificate);
    RaisedThen(l, q2, b3, CertificateRequested);
    RaisedThen(l, q3, r.verdict == Success, Handshaken);
    Grouped(AllRaised(l, q), One(HostNameDue(c, l, r), SigHostName),
            One(PeerCertificateDue(c, l, r), SigPeerCertificate),
            One(RequestDue(c, l, r), SigCertificateRequested), One(HandshakenDue(l, r), SigHandshaken));
  }

  lemma {:induction false} Grouped<T>(a: seq<T>, b: seq<T>, c: seq<T>, d: seq<T>, e: seq<T>)
    ensures (((a + b) + c) + d) + e == a + (((b + c) + d) + e)
  {}

  // ------------------------------------------------------------------ the trigger, run until the queue is empty

  lemma {:induction false} PerformState(s: St, a: Action, peer: Peer)
    ensures Perform(s, a, peer).ctl.state
            == if a == Close then Inactive else if a == Handshaken then Connected else s.ctl.state
  {
    hide SessionLog.Observe, DataLog.Observe;
  }

  function QueueLeadsTo(state: State, q: seq<Action>): State {
    if Close in q then Inactive else if Handshaken in q then Connected else state
  }

  lemma {:induction false} DrainState(s: St, peer: Peer)
    requires Inv(s)
    ensures Drain(s, peer).ctl.state == QueueLeadsTo(s.ctl.state, s.ctl.actionQueue)
    decreases |s.ctl.actionQueue|
  {
    hide Inv, Raised, Fire;
    if s.ctl.actionQueue == [] {
    } else {
      var q := s.ctl.actionQueue;
      FirePops(s, peer);
      FireState(s, peer);
      DrainState(Fire(s, peer), peer);
      assert q == [q[0]] + q[1..];
    }
  }

  lemma {:induction false} FireState(s: St, peer: Peer)
    requires Inv(s) && s.ctl.actionQueue != []
    ensures var q := s.ctl.actionQueue;
            && Fire(s, peer).ctl.state
               == (if q[0] == Close then Inactive else if q[0] == Handshaken then Connected else s.ctl.state)
            && (q[0] == Close || q[0] == Handshaken ==> |q| == 1) && (Close in q ==> Handshaken !in q)
  {
    LastInQueue(s);
    FirePerforms(s, peer);
    hide Inv, Perform, Fire;
    PerformState(s.(ctl := Pop(s.ctl.(trigger := false))), s.ctl.actionQueue[0], peer);
  }

  lemma {:induction false} FirePerforms(s: St, peer: Peer)
    requires Inv(s) && s.ctl.actionQueue != []
    ensures Fire(s, peer) == Perform(s.(ctl := Pop(s.ctl.(trigger := false))), s.ctl.actionQueue[0], peer)
  {
    hide Inv, Perform, Update;
  }

  /** Nothing is queued behind what ends the handshake or the session. */
  lemma {:induction false} LastInQueue(s: St)
    requires Mid(s) && s.ctl.actionQueue != []
    ensures var q := s.ctl.actionQueue; q[0] == Close || q[0] == Handshaken ==> |q| == 1
    ensures var q := s.ctl.actionQueue; Close in q ==> Handshaken !in q
  {
    hide SessionOk, Conserved, IdentityOk;
    var q := s.ctl.actionQueue;
    assert q[0] in q;
  }

  /** What is left to be done is done in the end. */
  lemma {:induction false} ProcessedState(d: St, peer: Peer)
    requires QueueOk(d.ctl, d.session.checked)
    ensures var t := ProcessNextAction(d, peer);
            QueueLeadsTo(t.ctl.state, t.ctl.actionQueue) == QueueLeadsTo(d.ctl.state, d.ctl.actionQueue)
  {
    var q := d.ctl.actionQueue;
    if q == [] {
      UpdateState(d);
    } else {
      assert q == [q[0]] + q[1..];
      var p := d.(ctl := Pop(d.ctl));
      PerformState(p, q[0], peer);
      PerformRaises(p, q[0], peer);
      assert q[0] in q;
      hide Perform, Raised;
    }
  }

  lemma {:induction false} UpdateState(s: St)
    ensures Update(s).ctl.state == s.ctl.state && Update(s).ctl.actionQueue == s.ctl.actionQueue
  {
    hide Update;
    UpdateLeaves(s);
  }

  // ------------------------------------------------------------------ answers

  /** What an answer leaves to be processed. */
  function Results(s: St, r: TlsModel.Results): St {
    var s1 := s.(ctl := s.ctl.(op := NoOp));
    if s.ctl.state == Closing then ClosingResults(s1, r)
    else if s.ctl.state == Handshaking then HandshakeResults(s1, r)
    else ConnectedResults(s1, r)
  }

  predicate Prepared(s: St, r: TlsModel.Results, d: St) {
    && QueueOk(d.ctl, d.session.checked) && d.listeners == s.listeners && d.session.signals == s.session.signals
    && AllRaised(s.listeners, d.ctl.actionQueue) == AnswerTells(s, r)
    && QueueLeadsTo(d.ctl.state, d.ctl.actionQueue) == AnswerLeadsTo(s, r)
  }

  lemma {:induction false} HandshakePrepares(s: St, r: TlsModel.Results)
    requires Inv(s) && s.ctl.op == OpUpdate && r.verdict != Error && s.ctl.state == Handshaking
    ensures Prepared(s, r, Results(s, r))
  {
    hide Inv, AllRaised, HandshakeActions, StepsDue, HandshakeResults, QueueFor, Then;
    var q := Then([], r.toNet != [], ReadyReadOutgoing);
    TakesAnswer(s);
    AnswerActions(s, r);
    HandshakeRaised(s.ctl, s.listeners, r, q);
    OutputRaised(s.listeners, r.toNet != []);
    HandshakeResultsKeep(s, r);
    OutputQueued(r.toNet != []);
    HandshakenQueued(s.ctl.(actionQueue := q), r);
  }

  lemma {:induction false} OutputQueued(b: bool)
    ensures var q := Then([], b, ReadyReadOutgoing); Close !in q && Handshaken !in q
  {}

  lemma {:induction false} HandshakenQueued(c: Control, r: TlsModel.Results)
    requires Close !in c.actionQueue && Handshaken !in c.actionQueue
    ensures var q := HandshakeActions(c, r); Close !in q && (Handshaken in q <==> r.verdict == Success)
  {
    hide NewHostName;
  }

  lemma {:induction false} HandshakeResultsKeep(s: St, r: TlsModel.Results)
    requires Inv(s) && s.ctl.op == OpUpdate && s.ctl.state == Handshaking
    ensures var d := HandshakeResults(s.(ctl := s.ctl.(op := NoOp)), r);
            QueueOk(d.ctl, d.session.checked) && d.ctl.state == Handshaking
  {
    var s1 := s.(ctl := s.ctl.(op := NoOp));
    TakesAnswer(s);
    var d := Deliver(s1, r);
    DeliverKeeps(s1, r);
    HandshakeQueue(d.ctl, r, d.session.checked);
    hide Deliver, Conserved, IdentityOk, HandshakeActions;
  }

  lemma {:induction false} TakesAnswer(s: St)
    requires Inv(s) && s.ctl.op == OpUpdate
    ensures Answered(s.(ctl := s.ctl.(op := NoOp))) && s.ctl.actionQueue == []
  {
    hide Conserved, IdentityOk;
  }

  lemma {:induction false} ClosingPrepares(s: St, r: TlsModel.Results)
    requires Inv(s) && s.ctl.op == OpUpdate && r.verdict != Error && s.ctl.state == Closing
    ensures Prepared(s, r, Results(s, r))
  {
    var s1 := s.(ctl := s.ctl.(op := NoOp));
    var q := Then([], r.toNet != [], ReadyReadOutgoing);
    TakesAnswer(s);
    ClosingQueue(s1, r);
    OutputRaised(s.listeners, r.toNet != []);
    RaisedThen(s.listeners, q, r.verdict == Success, Close);
    assert ClosingResults(s1, r).ctl.actionQueue == Then(q, r.verdict == Success, Close);
    hide Inv, AllRaised, QueueFor, Conserved, IdentityOk;
  }

  lemma {:induction false} ConnectedPrepares(s: St, r: TlsModel.Results)
    requires Inv(s) && s.ctl.op == OpUpdate && r.verdict != Error
    requires s.ctl.state != Closing && s.ctl.state != Handshaking
    ensures Prepared(s, r, Results(s, r))
  {
    hide Inv, AllRaised, QueueFor, SessionOk, Conserved, IdentityOk, Update, Accept, Then, Answered, QueueLeadsTo;
    var s1 := s.(ctl := s.ctl.(op := NoOp));
    TakesAnswer(s);
    OtherStates(s);
    AcceptKeeps(s1, r);
    UpdateKeeps(Accept(s1, r));
    UpdateState(Accept(s1, r));
    UpdateIsSilent(Accept(s1, r));
    AcceptedQueue(s1, r);
    BytesRaised(s.listeners, r, AnswerLeadsTo(s, r));
  }

  lemma {:induction false} BytesRaised(l: Listeners, r: TlsModel.Results, state: State)
    ensures var q := Then(Then([], r.toNet != [], ReadyReadOutgoing), r.toApp != [], ReadyRead);
            && AllRaised(l, q) == One(r.toNet != [], SigReadyReadOutgoing) + One(r.toApp != [], SigReadyRead)
            && QueueLeadsTo(state, q) == state
  {
    OutputRaised(l, r.toNet != []);
    RaisedThen(l, Then([], r.toNet != [], ReadyReadOutgoing), r.toApp != [], ReadyRead);
  }

  lemma {:induction false} OtherStates(s: St)
    requires Inv(s) && s.ctl.op == OpUpdate && s.ctl.state != Closing && s.ctl.state != Handshaking
    ensures s.ctl.state == Connected || s.ctl.state == Inactive
  {
    hide QueueFor, Conserved, IdentityOk;
  }

  lemma {:induction false} AcceptedQueue(s: St, r: TlsModel.Results)
    requires s.ctl.actionQueue == [] && (s.ctl.state == Connected || s.ctl.state == Inactive)
    ensures var t := Accept(s, r);
            && t.ctl.actionQueue == Then(Then([], r.toNet != [], ReadyReadOutgoing), r.toApp != [], ReadyRead)
            && t.ctl.state == (if r.eof && s.ctl.state == Connected then Closing else s.ctl.state)
            && t.listeners == s.listeners && t.session.signals == s.session.signals
  {}

  /** Every answer of the engine raises, as the trigger runs and without any call, exactly the signals
      that tell of it, and leads to the state it should. */
  lemma {:induction false} AnswerIsTold(s: St, r: TlsModel.Results, peer: Peer)
    requires Inv(s) && s.ctl.op != NoOp
    ensures Inv(Next(s, ResultsReady(r, peer)))
    ensures var t := Drain(Next(s, ResultsReady(r, peer)), peer);
            && t.session.signals == s.session.signals + AnswerTells(s, r)
            && t.ctl.state == AnswerLeadsTo(s, r)
  {
    NextKeeps(s, ResultsReady(r, peer));
    var t := Next(s, ResultsReady(r, peer));
    if s.ctl.op == OpStart || r.verdict == Error {
      OpenAnswer(s, r, peer);
    } else {
      UpdatePrepares(s, r, peer);
      hide Inv, Next, AllRaised, Drain, AnswerTells, AnswerLeadsTo, ProcessNextAction, Results, QueueLeadsTo;
      var d := Results(s, r);
      ProcessedState(d, peer);
      CloseIsLast(d);
      ProcessRaises(d, peer);
      QueueDrainsInOrder(t, peer);
      DrainState(t, peer);
    }
  }

  lemma {:induction false} CloseIsLast(d: St)
    requires QueueOk(d.ctl, d.session.checked)
    ensures d.ctl.actionQueue != [] && d.ctl.actionQueue[0] == Close ==> |d.ctl.actionQueue| == 1
  {
    var q := d.ctl.actionQueue;
    if q != [] { assert q[0] in q; }
  }

  lemma {:induction false} UpdatePrepares(s: St, r: TlsModel.Results, peer: Peer)
    requires Inv(s) && s.ctl.op == OpUpdate && r.verdict != Error
    ensures Next(s, ResultsReady(r, peer)) == ProcessNextAction(Results(s, r), peer)
    ensures Prepared(s, r, Results(s, r))
  {
    hide Inv, Next, ProcessNextAction, Prepared, Results;
    UpdateIsProcessed(s, r, peer);
    if s.ctl.state == Closing {
      ClosingPrepares(s, r);
    } else if s.ctl.state == Handshaking {
      HandshakePrepares(s, r);
    } else {
      ConnectedPrepares(s, r);
    }
  }

  lemma {:induction false} UpdateIsProcessed(s: St, r: TlsModel.Results, peer: Peer)
    requires s.ctl.op == OpUpdate && r.verdict != Error
    ensures Next(s, ResultsReady(r, peer)) == ProcessNextAction(Results(s, r), peer)
  {
    hide ProcessNextAction, ClosingResults, HandshakeResults, ConnectedResults, DoReset, DoStart, Update, Fail,
      StartFinished, SessionLog.Observe, DataLog.Observe;
  }

  lemma {:induction false} OpenAnswer(s: St, r: TlsModel.Results, peer: Peer)
    requires Inv(s) && s.ctl.op != NoOp && (s.ctl.op == OpStart || r.verdict == Error)
    ensures var t := Next(s, ResultsReady(r, peer));
            && t.ctl.actionQueue == [] && t.ctl.state == AnswerLeadsTo(s, r)
            && t.session.signals == s.session.signals + AnswerTells(s, r)
  {
    hide Update, Fail, SessionLog.Observe, DataLog.Observe;
    StateOfStart(s);
    var s1 := s.(ctl := s.ctl.(op := NoOp));
    FailIsTold(s1, ErrorInit);
    FailIsTold(s1, if s.ctl.state == Handshaking || s.ctl.state == Closing then ErrorHandshake else ErrorCrypt);
    var u := s1.(ctl := s1.ctl.(state := Handshaking, maybeInput := true));
    UpdateState(u);
    UpdateIsSilent(u);
    NoQueueDuringOp(s);
    assert s.session.signals + [] == s.session.signals;
  }

  lemma {:induction false} NoQueueDuringOp(s: St)
    requires Inv(s) && s.ctl.op != NoOp
    ensures s.ctl.actionQueue == []
  {
    hide QueueFor, SessionOk, Conserved, IdentityOk;
  }

  lemma {:induction false} FailIsTold(s: St, code: ErrorCode)
    ensures var t := Fail(s, code);
            && t.ctl.actionQueue == [] && t.ctl.state == Inactive && t.ctl.errorCode == code
            && t.session.signals == s.session.signals + [SigError]
  {}

  /** An error ends the session and says when it came; the documentation puts an error while closing,
      which is reported as one of the negotiation, among those that come afterwards. */
  lemma {:induction false} ErrorIsTold(s: St, r: TlsModel.Results, peer: Peer)
    requires Inv(s) && s.ctl.op != NoOp && (r.verdict == Error || (s.ctl.op == OpStart && r.verdict == Continue))
    ensures var t := Next(s, ResultsReady(r, peer));
            && t.ctl.errorCode == ErrorTells(s.ctl.state) && t.ctl.state == Inactive
            && t.session.signals == s.session.signals + [SigError]
  {
    hide Fail, Inv;
    StateOfStart(s);
    var s1 := s.(ctl := s.ctl.(op := NoOp));
    FailIsTold(s1, ErrorInit);
    FailIsTold(s1, if s.ctl.state == Handshaking || s.ctl.state == Closing then ErrorHandshake else ErrorCrypt);
  }

  lemma {:induction false} StateOfStart(s: St)
    requires Inv(s)
    ensures s.ctl.op == OpStart <==> s.ctl.state == Initializing
  {
    hide QueueFor, Conserved, IdentityOk;
  }

  // ------------------------------------------------------------------ calls

  /** The state after a call. */
  function CallLeadsTo(state: State, e: Step): State {
    match e
    case StartClient(_) => Initializing
    case StartServer => Initializing
    case ResetCall => Inactive
    case CloseCall => if state == Connected then Closing else state
    case _ => state
  }

  /** No call raises a signal, only these change the state, and a session that begins anew or is reset
      has no error yet. */
  lemma {:induction false} CallIsSilent(s: St, e: Step)
    requires Enabled(s, e) && !e.ResultsReady? && !e.TriggerFires?
    ensures var t := Next(s, e);
            && t.session.signals == s.session.signals && t.ctl.state == CallLeadsTo(s.ctl.state, e)
            && t.listeners == (if e.Listen? then e.listeners else s.listeners)
            && t.ctl.errorCode
               == (if e.StartClient? || e.StartServer? || e.ResetCall? then NoError else s.ctl.errorCode)
  {
    hide Next, CallLeadsTo, Enabled;
    if e.StartClient? || e.StartServer? || e.ResetCall? {
      BeginIsSilent(s, e);
    } else if e.Listen? || e.Read? || e.ReadOutgoing? {
      ReadIsSilent(s, e);
    } else {
      UpdateCallIsSilent(s, e);
    }
  }

  lemma {:induction false} ReadIsSilent(s: St, e: Step)
    requires e.Listen? || e.Read? || e.ReadOutgoing?
    ensures var t := Next(s, e);
            && t.session.signals == s.session.signals && t.ctl.state == CallLeadsTo(s.ctl.state, e)
            && t.listeners == (if e.Listen? then e.listeners else s.listeners) && t.ctl.errorCode == s.ctl.errorCode
  {
    hide SessionLog.Observe, DataLog.Observe;
    EventIsSilent(s, AppRead(s.buf.inp));
    EventIsSilent(s, NetRead(s.buf.toNet));
  }

  lemma {:induction false} UpdateCallIsSilent(s: St, e: Step)
    requires e.ContinueAfterStep? || e.CloseCall? || e.Write? || e.WriteIncoming?
    ensures var t := Next(s, e);
            && t.session.signals == s.session.signals && t.ctl.state == CallLeadsTo(s.ctl.state, e)
            && t.listeners == s.listeners && t.ctl.errorCode == s.ctl.errorCode
  {
    hide Update, SessionLog.Observe, DataLog.Observe;
    match e {
      case ContinueAfterStep =>
        EventIsSilent(s, Continued);
        SilentUpdate(s.(ctl := s.ctl.(blocked := false)), Continued);
      case CloseCall => UpdateLeaves(s.(ctl := DoClose(s.ctl)));
      case Write(bytes) => SilentUpdate(s.(buf := s.buf.(out := s.buf.out + bytes)), AppWrite(bytes));
      case WriteIncoming(bytes) => SilentUpdate(s.(buf := s.buf.(fromNet := s.buf.fromNet + bytes)), NetWrite(bytes));
    }
  }

  lemma {:induction false} BeginIsSilent(s: St, e: Step)
    requires e.StartClient? || e.StartServer? || e.ResetCall?
    ensures var t := Next(s, e);
            && t.session.signals == s.session.signals && t.ctl.state == CallLeadsTo(s.ctl.state, e)
            && t.listeners == s.listeners && t.ctl.errorCode == NoError
  {
    hide SessionLog.Observe, DataLog.Observe, DoReset;
    ResetIsSilent(s, if e.ResetCall? then ResetAll else ResetSessionAndData);
    var r := DoReset(s, ResetSessionAndData);
    EventIsSilent(r, Started(e.StartServer?, if e.StartClient? then e.host else ""));
  }

  lemma {:induction false} EventIsSilent(s: St, e: Event)
    requires !e.Emitted?
    ensures s.session.Observe(e).signals == s.session.signals
  {}

  lemma {:induction false} SilentUpdate(s: St, e: Event)
    requires !e.Emitted?
    ensures var t := Update(s.Did(e));
            && t.session.signals == s.session.signals && t.ctl.state == s.ctl.state
            && t.listeners == s.listeners && t.ctl.errorCode == s.ctl.errorCode
  {
    hide Update, SessionLog.Observe, DataLog.Observe;
    EventIsSilent(s, e);
    UpdateLeaves(s.Did(e));
  }

  lemma {:induction false} ResetIsSilent(s: St, mode: ResetMode)
    ensures var t := DoReset(s, mode);
            && t.session.signals == s.session.signals && t.ctl.state == Inactive && t.ctl.host == ""
            && t.listeners == s.listeners && (mode != ResetSession ==> t.ctl.errorCode == NoError)
  {}

  /** close() by the application asks the engine to send what ends the session only if there is
      something else to hand over as well: otherwise nothing happens until bytes arrive. */
  lemma {:induction false} CloseIsSentIff(s: St)
    requires Inv(s) && s.ctl.state == Connected && s.ctl.op == NoOp && s.ctl.actionQueue == [] && !s.ctl.blocked
    ensures Next(s, CloseCall).ctl.state == Closing
    ensures Next(s, CloseCall).ctl.op == OpUpdate <==> s.buf.out != [] || s.buf.fromNet != [] || s.ctl.maybeInput
  {
    hide Inv, SessionLog.Observe, DataLog.Observe, Drained;
    var c := s.(ctl := s.ctl.(state := Closing));
    assert Next(s, CloseCall) == Update(c);
    assert HasInput(c) <==> s.buf.out != [] || s.buf.fromNet != [] || s.ctl.maybeInput;
    UpdateLeaves(c);
  }
}
