/** Whom the TLS object takes its peer for: over every run, the certificate it calls valid was found
    valid by the engine and is for the host that was asked for. */
module TlsIdentity {
  import opened ByteStrings
  import opened Sequences
  import opened TlsModel
  import opened TlsProofs
  import opened TlsGuarantees

  /** The host that the calls and the answers of the engine ask for: a client's is the one it was
      started with, a server's the last one a client named before the application was told of one. */
  function Asked(asked: string, s: St, e: Step): string {
    match e
    case StartClient(host) => host
    case StartServer => ""
    case ResetCall => ""
    case ResultsReady(r, _) =>
      var named := s.session.role == ServerRole && s.ctl.state == Handshaking && s.session.hostNames == 0
                   && r.verdict != Error && r.clientHello;
      if named then r.hostName else asked
    case _ => asked
  }

  /** The hosts asked for in the end and when the peer was last looked at. */
  datatype Hosts = Hosts(asked: string, checked: string)

  function HostsAfter(h: Hosts, s: St, steps: seq<Step>): Hosts
    requires Possible(s, steps)
    decreases |steps|
  {
    if steps == [] then h
    else
      var t, now := Next(s, steps[0]), Asked(h.asked, s, steps[0]);
      HostsAfter(Hosts(now, if t.data.checks > s.data.checks then now else h.checked), t, steps[1..])
  }

  ghost predicate HostsOk(h: Hosts, s: St) {
    && Inv(s)
    && (s.ctl.state == Initializing || s.ctl.state == Handshaking ==> s.ctl.host == h.asked)
    && (s.ctl.state != Inactive && s.session.role == ClientRole ==> s.session.setUpFor == h.asked)
    && (s.data.lastCheck.CheckedPeer? ==> s.data.lastCheck.host == h.checked)
  }

  /** What does not depend on bytes: the host, and what was looked at with it. */
  predicate SameHost(s: St, t: St) {
    && t.ctl.host == s.ctl.host && t.data.checks == s.data.checks && t.data.lastCheck == s.data.lastCheck
    && t.session.role == s.session.role && t.session.setUpFor == s.session.setUpFor
  }

  lemma {:induction false} UpdateSameHost(s: St)
    ensures SameHost(s, Update(s)) && Update(s).ctl.state == s.ctl.state
  {
    hide Update;
    UpdateLeaves(s);
  }

  /** Events that are about bytes, or a pause. */
  lemma {:induction false} QuietEvent(s: St, e: Event)
    requires e.EngineUpdate? || e.AppWrite? || e.NetWrite? || e.AppRead? || e.NetRead? || e.Continued?
    ensures SameHost(s, s.Did(e))
  {}

  lemma {:induction false} PerformHost(s: St, a: Action, peer: Peer)
    ensures var t := Perform(s, a, peer);
            && (a == CheckPeerCertificate ==>
                  && t.data.checks == s.data.checks + 1 && t.data.lastCheck == CheckedPeer(peer, s.ctl.host)
                  && t.ctl.host == s.ctl.host && t.ctl.state == s.ctl.state
                  && t.session.role == s.session.role && t.session.setUpFor == s.session.setUpFor)
            && (a == Close ==>
               t.ctl.state == Inactive && t.data.checks == s.data.checks && t.data.lastCheck == s.data.lastCheck)
            && (a != CheckPeerCertificate && a != Close ==> SameHost(s, t))
            && (a != Close && a != Handshaken ==> t.ctl.state == s.ctl.state)
            && (a == Handshaken ==> t.ctl.state == Connected)
  {}

  /** A check made in the course of a step uses the host there is. */
  predicate ChecksWith(s: St, t: St) {
    && (if t.data.checks > s.data.checks then t.data.lastCheck.CheckedPeer? && t.data.lastCheck.host == s.ctl.host
        else t.data.checks == s.data.checks && t.data.lastCheck == s.data.lastCheck)
    && (t.data.checks > s.data.checks ==> s.ctl.state == Handshaking)
    && (t.ctl.state == Inactive ||
        (t.ctl.host == s.ctl.host && t.session.role == s.session.role && t.session.setUpFor == s.session.setUpFor
         && (t.ctl.state == Initializing || t.ctl.state == Handshaking ==> t.ctl.state == s.ctl.state)))
  }

  lemma {:induction false} ProcessHost(s: St, peer: Peer)
    requires QueueOk(s.ctl, s.session.checked)
    ensures ChecksWith(s, ProcessNextAction(s, peer))
  {
    hide Perform, Update;
    if s.ctl.actionQueue != [] {
      var p := s.(ctl := Pop(s.ctl));
      PerformHost(p, s.ctl.actionQueue[0], peer);
      assert s.ctl.actionQueue[0] in s.ctl.actionQueue;
    } else {
      UpdateSameHost(s);
    }
  }

  /** The host after an answer in the handshake is what the answer asks for. */
  lemma {:induction false} HandshakeHost(s: St, r: Results)
    requires Answered(s) && s.ctl.state == Handshaking && r.verdict != Error
    ensures var d := HandshakeResults(s, r);
            && d.ctl.host == Asked(s.ctl.host, s, ResultsReady(r, Peer(false, false, false)))
            && d.data.checks == s.data.checks && d.data.lastCheck == s.data.lastCheck
            && d.session.role == s.session.role && d.session.setUpFor == s.session.setUpFor
            && d.ctl.state == Handshaking && QueueOk(d.ctl, d.session.checked)
  {
    var d := Deliver(s, r);
    DeliverKeeps(s, r);
    HandshakeQueue(d.ctl, r, d.session.checked);
    hide QueueFor, Conserved, HandshakeActions;
  }

  lemma {:induction false} ClosingHost(s: St, r: Results)
    requires Answered(s) && s.ctl.state == Closing
    ensures var t := ClosingResults(s, r);
            SameHost(s, t) && QueueOk(t.ctl, t.session.checked) && t.ctl.state == Closing
  {
    hide QueueFor, Conserved, IdentityOk;
    ClosingQueue(s, r);
    assert SameHost(s, Deliver(s, r));
  }

  lemma {:induction false} ConnectedHost(s: St, r: Results)
    requires Answered(s) && (s.ctl.state == Connected || s.ctl.state == Inactive)
    ensures var t := ConnectedResults(s, r);
            && SameHost(s, t) && QueueOk(t.ctl, t.session.checked)
            && t.ctl.state != Initializing && t.ctl.state != Handshaking
            && (t.ctl.state == Inactive <==> s.ctl.state == Inactive)
  {
    hide QueueFor, Conserved, IdentityOk, Then, Update;
    AcceptKeeps(s, r);
    UpdateKeeps(Accept(s, r));
    UpdateSameHost(Accept(s, r));
  }

  lemma {:induction false} HandshakeAnswerHost(s: St, r: Results, peer: Peer)
    requires Answered(s) && s.ctl.state == Handshaking && r.verdict != Error
    ensures var asked := Asked(s.ctl.host, s, ResultsReady(r, peer));
            ChecksWith(s.(ctl := s.ctl.(host := asked)), UpdateFinished(s, r, peer))
  {
    HandshakeHost(s, r);
    hide ProcessNextAction, HandshakeResults, Answered, QueueOk;
    ProcessHost(HandshakeResults(s, r), peer);
  }

  lemma {:induction false} AnswerHost(s: St, r: Results, peer: Peer)
    requires Answered(s) && r.verdict != Error
    ensures var t := UpdateFinished(s, r, peer);
            var asked := Asked(s.ctl.host, s, ResultsReady(r, peer));
            && (s.ctl.state == Handshaking ==> ChecksWith(s.(ctl := s.ctl.(host := asked)), t))
            && (s.ctl.state != Handshaking ==>
               ChecksWith(s, t) && t.ctl.state != Initializing && t.ctl.state != Handshaking)
  {
    hide ProcessNextAction, ClosingResults, HandshakeResults, ConnectedResults, QueueFor, Conserved, IdentityOk;
    if s.ctl.state == Closing {
      ClosingHost(s, r);
      ProcessHost(ClosingResults(s, r), peer);
    } else if s.ctl.state == Handshaking {
      HandshakeAnswerHost(s, r, peer);
      hide UpdateFinished, Asked, ChecksWith;
    } else {
      ConnectedHost(s, r);
      ProcessHost(ConnectedResults(s, r), peer);
    }
  }

  /** One step, but for an answer of the engine. */
  lemma {:induction false} CallHost(s: St, e: Step)
    requires Inv(s) && Enabled(s, e) && !e.ResultsReady? && !e.TriggerFires? && !e.StartClient? && !e.StartServer?
    requires !e.ResetCall?
    ensures var t := Next(s, e);
            && SameHost(s, t)
            && (t.ctl.state == Initializing || t.ctl.state == Handshaking || t.ctl.state == Inactive ==>
                  t.ctl.state == s.ctl.state)
  {
    hide Update, SessionLog.Observe, DataLog.Observe, Inv;
    match e {
      case Listen(_) =>
      case ContinueAfterStep =>
        QuietEvent(s, Continued);
        var u := s.(ctl := s.ctl.(blocked := false)).Did(Continued);
        QuietEvent(s.(ctl := s.ctl.(blocked := false)), Continued);
        UpdateSameHost(u);
      case CloseCall => UpdateSameHost(s.(ctl := DoClose(s.ctl)));
      case Write(bytes) =>
        var u := s.(buf := s.buf.(out := s.buf.out + bytes));
        QuietEvent(u, AppWrite(bytes));
        UpdateSameHost(u.Did(AppWrite(bytes)));
      case Read => QuietEvent(s.(buf := s.buf.(inp := [])), AppRead(s.buf.inp));
      case WriteIncoming(bytes) =>
        var u := s.(buf := s.buf.(fromNet := s.buf.fromNet + bytes));
        QuietEvent(u, NetWrite(bytes));
        UpdateSameHost(u.Did(NetWrite(bytes)));
      case ReadOutgoing => QuietEvent(s.(buf := s.buf.(toNet := [], toNetEncoded := 0)), NetRead(s.buf.toNet));
    }
  }

  /** A start or a reset. */
  lemma {:induction false} StartHost(s: St, e: Step)
    requires Inv(s) && (e.StartClient? || e.StartServer? || e.ResetCall?)
    ensures var t := Next(s, e);
            && t.data.checks == 0 && !t.data.lastCheck.CheckedPeer?
            && (!e.ResetCall? ==> t.ctl.state == Initializing && t.ctl.host == Asked("", s, e))
            && (e.StartClient? ==> t.session.setUpFor == e.host)
            && (e.ResetCall? ==> t.ctl.state == Inactive)
            && (e.StartServer? ==> t.session.role == ServerRole)
  {}

  /** An answer to the start of the engine, or an error. */
  lemma {:induction false} OpenHost(s: St, r: Results, peer: Peer)
    requires Inv(s) && s.ctl.op != NoOp && (s.ctl.op == OpStart || r.verdict == Error)
    ensures var t := Next(s, ResultsReady(r, peer));
            && t.data.checks == s.data.checks && t.data.lastCheck == s.data.lastCheck
            && (t.ctl.state == Inactive || (s.ctl.state == Initializing && SameHost(s, t)))
  {
    var s1 := s.(ctl := s.ctl.(op := NoOp));
    var u := s1.(ctl := s1.ctl.(state := Handshaking, maybeInput := true));
    UpdateSameHost(u);
    hide Update, QueueFor, Conserved, IdentityOk;
  }

  lemma {:induction false} CallHosts(h: Hosts, s: St, e: Step)
    requires HostsOk(h, s) && Enabled(s, e)
    requires !e.ResultsReady? && !e.TriggerFires? && !e.StartClient? && !e.StartServer?
    requires !e.ResetCall?
    ensures var t := Next(s, e);
            t.data.checks == s.data.checks && Asked(h.asked, s, e) == h.asked && (Inv(t) ==> HostsOk(h, t))
  {
    CallHost(s, e);
    hide Next, Inv;
  }

  lemma {:induction false} StartHosts(h: Hosts, s: St, e: Step)
    requires HostsOk(h, s) && (e.StartClient? || e.StartServer? || e.ResetCall?)
    ensures var t, now := Next(s, e), Asked(h.asked, s, e);
            t.data.checks <= s.data.checks && (Inv(t) ==> HostsOk(Hosts(now, h.checked), t))
  {
    StartHost(s, e);
    hide Next, Inv;
  }

  lemma {:induction false} HostsKeep(h: Hosts, s: St, e: Step)
    requires HostsOk(h, s) && Enabled(s, e)
    ensures var t, now := Next(s, e), Asked(h.asked, s, e);
            HostsOk(Hosts(now, if t.data.checks > s.data.checks then now else h.checked), t)
  {
    assert Inv(s);
    hide Next, Inv, HostsOk, Asked, Enabled;
    NextKeeps(s, e);
    match e {
      case StartClient(_) => StartHosts(h, s, e);
      case StartServer => StartHosts(h, s, e);
      case ResetCall => StartHosts(h, s, e);
      case ResultsReady(r, peer) => AnswerHosts(h, s, r, peer);
      case TriggerFires(peer) => TriggerHosts(h, s, peer);
      case _ => CallHosts(h, s, e);
    }
  }

  /** A server has no other session than that of its role. */
  lemma {:induction false} SessionIs(s: St)
    requires Inv(s)
    ensures s.session.role == NoRole <==> s.ctl.state == Inactive
    ensures s.ctl.state == Initializing <==> s.ctl.op == OpStart
  {
    hide QueueFor, Conserved, IdentityOk, NoLostWakeup;
  }

  lemma {:induction false} TriggerHosts(h: Hosts, s: St, peer: Peer)
    requires HostsOk(h, s) && s.ctl.trigger
    ensures var t := Next(s, TriggerFires(peer));
            Inv(t) ==> HostsOk(if t.data.checks > s.data.checks then h.(checked := h.asked) else h, t)
  {
    var u := s.(ctl := s.ctl.(trigger := false));
    ProcessHost(u, peer);
    hide ProcessNextAction, QueueFor, Conserved, IdentityOk, NoLostWakeup, OneAtATime;
  }

  lemma {:induction false} AnswerHosts(h: Hosts, s: St, r: Results, peer: Peer)
    requires HostsOk(h, s) && s.ctl.op != NoOp
    ensures var t, now := Next(s, ResultsReady(r, peer)), Asked(h.asked, s, ResultsReady(r, peer));
            Inv(t) ==> HostsOk(Hosts(now, if t.data.checks > s.data.checks then now else h.checked), t)
  {
    hide Next, Inv, UpdateFinished, Asked;
    SessionIs(s);
    if s.ctl.op == OpStart || r.verdict == Error {
      OpenHost(s, r, peer);
      NotAsked(h.asked, s, r, peer);
    } else {
      UpdateAnswered(s, r, peer);
      var s1 := s.(ctl := s.ctl.(op := NoOp));
      AnswerHost(s1, r, peer);
      AskedByAnswer(h.asked, s, r, peer);
    }
  }

  lemma {:induction false} NotAsked(asked: string, s: St, r: Results, peer: Peer)
    requires Inv(s) && (s.ctl.op == OpStart || r.verdict == Error)
    ensures Asked(asked, s, ResultsReady(r, peer)) == asked
  {
    SessionIs(s);
  }

  lemma {:induction false} AskedByAnswer(asked: string, s: St, r: Results, peer: Peer)
    ensures var s1 := s.(ctl := s.ctl.(op := NoOp));
            Asked(asked, s1, ResultsReady(r, peer)) == Asked(asked, s, ResultsReady(r, peer))
    ensures s.session.role == ClientRole || s.ctl.state != Handshaking ==>
            Asked(asked, s, ResultsReady(r, peer)) == asked
  {}

  lemma {:induction false} UpdateAnswered(s: St, r: Results, peer: Peer)
    requires Inv(s) && s.ctl.op == OpUpdate
    ensures var s1 := s.(ctl := s.ctl.(op := NoOp));
            Answered(s1) && Next(s, ResultsReady(r, peer)) == UpdateFinished(s1, r, peer)
  {
    hide UpdateFinished, Conserved, IdentityOk;
  }

  lemma {:induction false} HostsOver(h: Hosts, s: St, steps: seq<Step>)
    requires HostsOk(h, s) && Possible(s, steps)
    ensures HostsOk(HostsAfter(h, s, steps), Run(s, steps))
    decreases |steps|
  {
    if steps == [] {
    } else {
      HostsKeep(h, s, steps[0]);
      hide HostsOk, Next, Asked, Enabled;
      var t, now := Next(s, steps[0]), Asked(h.asked, s, steps[0]);
      HostsOver(Hosts(now, if t.data.checks > s.data.checks then now else h.checked), t, steps[1..]);
    }
  }

  // ------------------------------------------------------------------ main results

  lemma {:induction false} InitialHosts(l: Listeners)
    ensures HostsOk(Hosts("", ""), Initial(l))
  {
    Fresh(l);
  }

  /** In every run the certificate is compared with the host that the calls and answers so far ask for;
      and what the object says of its peer is what the engine said when it was last asked, with a
      mismatch found at any look at it. */
  lemma {:induction false} PeerIsChecked(l: Listeners, steps: seq<Step>)
    requires Possible(Initial(l), steps)
    ensures var s, hosts := Run(Initial(l), steps), HostsAfter(Hosts("", ""), Initial(l), steps);
            && (s.data.lastCheck.CheckedPeer? ==> s.data.lastCheck.host == hosts.checked)
            && (s.ctl.state != Inactive && s.session.role == ClientRole ==> s.session.setUpFor == hosts.asked)
            && PeerIdentityResult(s.id)
               == match s.data.lastCheck
                  case CheckedPeer(peer, _) =>
                    (if !peer.present then NoCertificate
                     else if !peer.valid then InvalidCertificate
                     else if s.data.mismatched then HostMismatch
                     else Valid)
                  case _ => NoCertificate
  {
    InitialHosts(l);
    hide Run, Possible, Initial, HostsAfter;
    HostsOver(Hosts("", ""), Initial(l), steps);
    IdentityIs(Run(Initial(l), steps));
  }

  lemma {:induction false} IdentityIs(s: St)
    requires Inv(s)
    ensures PeerIdentityResult(s.id)
            == match s.data.lastCheck
               case CheckedPeer(peer, _) =>
                 (if !peer.present then NoCertificate
                  else if !peer.valid then InvalidCertificate
                  else if s.data.mismatched then HostMismatch
                  else Valid)
               case _ => NoCertificate
    ensures PeerIdentityResult(s.id) == Valid && s.data.lastCheck.host != "" ==> s.data.lastCheck.peer.matchesHost
  {
    hide QueueFor, SessionOk, Conserved, NoLostWakeup, OneAtATime;
  }

  predicate NewSession(e: Step) {
    e.StartClient? || e.StartServer? || e.ResetCall?
  }

  predicate OneSession(steps: seq<Step>) {
    forall n :: 0 <= n < |steps| ==> !NewSession(steps[n])
  }

  /** The role stays until the session ends. */
  lemma {:induction false} RoleKeeps(s: St, e: Step)
    requires Inv(s) && Enabled(s, e) && !NewSession(e)
    ensures Next(s, e).session.role == s.session.role || Next(s, e).session.role == NoRole
  {
    NextKeeps(s, e);
    SessionIs(s);
    SessionIs(Next(s, e));
    hide Next, Inv, Update, UpdateFinished, ProcessNextAction;
    match e {
      case ResultsReady(r, peer) =>
        if s.ctl.op == OpStart || r.verdict == Error {
          OpenHost(s, r, peer);
        } else {
          UpdateAnswered(s, r, peer);
          AnswerHost(s.(ctl := s.ctl.(op := NoOp)), r, peer);
        }
      case TriggerFires(peer) => TriggerRole(s, peer);
      case _ => CallHost(s, e);
    }
  }

  lemma {:induction false} TriggerRole(s: St, peer: Peer)
    requires Inv(s) && s.ctl.trigger
    ensures var t := Next(s, TriggerFires(peer)); t.ctl.state == Inactive || t.session.role == s.session.role
  {
    ProcessHost(s.(ctl := s.ctl.(trigger := false)), peer);
    hide ProcessNextAction, QueueFor, Conserved, IdentityOk, NoLostWakeup, OneAtATime;
  }

  lemma {:induction false} ClientOver(host: string, s: St, steps: seq<Step>)
    requires HostsOk(Hosts(host, host), s) && s.session.role != ServerRole && Possible(s, steps) && OneSession(steps)
    ensures HostsOk(Hosts(host, host), Run(s, steps))
    decreases |steps|
  {
    if steps == [] {
    } else {
      var t := Next(s, steps[0]);
      HostsKeep(Hosts(host, host), s, steps[0]);
      RoleKeeps(s, steps[0]);
      assert Asked(host, s, steps[0]) == host;
      hide HostsOk, Next, Asked, Enabled, NewSession;
      ClientOver(host, t, steps[1..]);
    }
  }

  /** A client that was started for a host, and calls its peer valid before it is started or reset
      again, has a peer whose certificate is for this host. */
  lemma {:induction false} ClientPeerIsTheHost(s: St, host: string, steps: seq<Step>)
    requires Inv(s) && Possible(Next(s, StartClient(host)), steps) && OneSession(steps)
    requires PeerIdentityResult(Run(Next(s, StartClient(host)), steps).id) == Valid
    ensures var check := Run(Next(s, StartClient(host)), steps).data.lastCheck;
            && check.CheckedPeer? && check.peer.present && check.peer.valid
            && check.host == host && (host != "" ==> check.peer.matchesHost)
  {
    var t := Next(s, StartClient(host));
    NextKeeps(s, StartClient(host));
    StartHost(s, StartClient(host));
    SessionIs(t);
    assert t.session.role == ClientRole;
    hide Next, Run, Possible, OneSession, Inv;
    ClientOver(host, t, steps);
    IdentityIs(Run(t, steps));
  }

  /** The same for a server, and the host that a client named last before it was looked at. */
  lemma {:induction false} ServerPeerIsTheHost(l: Listeners, steps: seq<Step>)
    requires Possible(Initial(l), steps) && PeerIdentityResult(Run(Initial(l), steps).id) == Valid
    ensures var check := Run(Initial(l), steps).data.lastCheck;
            var host := HostsAfter(Hosts("", ""), Initial(l), steps).checked;
            check.CheckedPeer? && check.host == host && (host != "" ==> check.peer.matchesHost)
  {
    PeerIsChecked(l, steps);
    hide Run, Possible, Initial, HostsAfter;
    Reachable(l, steps);
    IdentityIs(Run(Initial(l), steps));
  }
}
