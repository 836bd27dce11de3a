/** The TLS object itself: fields that its handlers change step by step. */
module Tls {
  import opened ByteStrings
  import opened TlsModel

  /** What is handed to the engine depends on the state and the buffers alone. */
  lemma {:induction false} SameInput(s: St, c: Control)
    requires c.state == s.ctl.state
    ensures Drained(s.(ctl := c)) == Drained(s) && AppArgument(s.(ctl := c)) == AppArgument(s)
  {}

  class TlsPrivate {
    // what the application listens to
    var listeners: Listeners
    // where the session is and what is still to be done
    var ctl: Control
    // bytes on their way between application, engine and network
    var buf: Buffers
    // what is known of the peer, kept when only the session is reset
    var id: Identity

    // what has been observed
    ghost var session: SessionLog
    ghost var data: DataLog

    ghost function Abs(): St
      reads this
    {
      St(listeners, ctl, buf, id, session, data)
    }

    constructor (l: Listeners)
      ensures Abs() == Initial(l)
    {
      listeners := l;
      ctl := Control(Inactive, false, false, "", false, NoOp, [], false, false, false, false, false, NoError);
      buf := Buffers([], [], [], [], 0, 0);
      id := Identity(false, false, false);
      session, data := NEW_SESSION, NO_DATA;
    }

    /** Record an event; stands for the emission of a signal or a call into the engine. */
    ghost method Happened(e: Event)
      modifies this`session, this`data
      ensures session == old(session).Observe(e) && data == old(data).Observe(e)
    {
      session, data := session.Observe(e), data.Observe(e);
    }

    method DoReset(mode: ResetMode)
      modifies this
      ensures Abs() == TlsModel.DoReset(old(Abs()), mode)
    {
      hide SessionLog.Observe, DataLog.Observe;
      ctl := ctl.(state := Inactive, blocked := false, server := false, host := "", trigger := false, op := NoOp,
                  actionQueue := [], needUpdate := false, maybeInput := false, emittedHostName := false,
                  emittedCertificateRequested := false, emittedPeerCertificate := false);
      buf := buf.(out := [], outPending := 0);
      if mode != ResetSession {
        id := Identity(false, false, false);
        ctl := ctl.(errorCode := NoError);
        buf := buf.(inp := [], toNet := [], fromNet := [], toNetEncoded := 0);
      }
      Happened(Reset(mode != ResetSession));
    }

    method DoStart(serverMode: bool)
      modifies this
      ensures Abs() == TlsModel.DoStart(old(Abs()), serverMode)
    {
      hide SessionLog.Observe, DataLog.Observe;
      ctl := ctl.(state := Initializing, server := serverMode, op := OpStart);
      Happened(Started(serverMode, ctl.host));
    }

    method DoClose()
      modifies this`ctl
      ensures ctl == TlsModel.DoClose(old(ctl))
    {
      if ctl.state != Connected { return; }
      ctl := ctl.(state := Closing);
    }

    /** The first half of an update: take what is to be handed to the engine. */
    method TakeInput() returns (argFromNet: Bytes, argFromApp: Bytes)
      modifies this`buf
      ensures buf == Drained(old(Abs()))
      ensures argFromNet == old(buf).fromNet && argFromApp == AppArgument(old(Abs()))
    {
      argFromNet, argFromApp := [], [];
      if ctl.state == Handshaking {
        // no application data before the session is secure
        argFromNet := buf.fromNet;
        buf := buf.(fromNet := []);
      } else {
        if buf.fromNet != [] {
          argFromNet := buf.fromNet;
          buf := buf.(fromNet := []);
        }
        if buf.out != [] {
          argFromApp := buf.out;
          buf := buf.(outPending := buf.outPending + |buf.out|, out := []);
        }
      }
    }

    method Update()
      modifies this
      ensures Abs() == TlsModel.Update(old(Abs()))
    {
      hide SessionLog.Observe, DataLog.Observe, Drained, AppArgument;
      if ctl.blocked { return; }
      if ctl.actionQueue != [] {
        ctl := ctl.(needUpdate := true);
        return;
      }
      // what came in waits until the engine has answered
      if ctl.op != NoOp {
        ctl := ctl.(needUpdate := true);
        return;
      }
      SameInput(Abs(), ctl.(needUpdate := false));
      ctl := ctl.(needUpdate := false);
      var argFromNet, argFromApp := TakeInput();
      if argFromNet == [] && argFromApp == [] && !ctl.maybeInput { return; }
      ctl := ctl.(maybeInput := false, op := OpUpdate);
      Happened(EngineUpdate(ctl.state, argFromNet, argFromApp));
    }

    method ProcessNextAction(peer: Peer)
      modifies this
      ensures Abs() == TlsModel.ProcessNextAction(old(Abs()), peer)
    {
      hide TlsModel.Update, TlsModel.Perform;
      if ctl.actionQueue == [] {
        if ctl.needUpdate { Update(); }
        return;
      }
      var a := ctl.actionQueue[0];
      ctl := ctl.(actionQueue := ctl.actionQueue[1..]);
      // more steps are left: come back to them later
      if ctl.actionQueue != [] || ctl.needUpdate {
        if !ctl.trigger { ctl := ctl.(trigger := true); }
      }
      Perform(a, peer);
    }

    method Perform(a: Action, peer: Peer)
      modifies this
      ensures Abs() == TlsModel.Perform(old(Abs()), a, peer)
    {
      hide SessionLog.Observe, DataLog.Observe, TlsModel.DoReset, TlsModel.EnterConnected, TlsModel.CheckPeer;
      match a {
        case ReadyRead => Happened(Emitted(SigReadyRead, ctl.state));
        case ReadyReadOutgoing => Happened(Emitted(SigReadyReadOutgoing, ctl.state));
        case Handshaken => EnterConnected();
        case Close =>
          ghost var during := ctl.state;
          DoReset(ResetSession);
          Happened(Emitted(SigClosed, during));
        case CheckPeerCertificate => CheckPeer(peer);
        case CertificateRequested =>
          if listeners.certificateRequested {
            ctl := ctl.(blocked := true, emittedCertificateRequested := true);
            Happened(Emitted(SigCertificateRequested, ctl.state));
          }
        case HostNameReceived =>
          if listeners.hostName {
            ctl := ctl.(blocked := true, emittedHostName := true);
            Happened(Emitted(SigHostName, ctl.state));
          }
      }
    }

    /** The Handshaken branch of processNextAction. */
    method EnterConnected()
      modifies this
      ensures forall peer :: Abs() == TlsModel.Perform(old(Abs()), Handshaken, peer)
    {
      hide SessionLog.Observe, DataLog.Observe;
      ctl := ctl.(state := Connected);
      Happened(EnteredConnected);
      // data written before the session was secure goes out now
      if buf.out != [] { ctl := ctl.(needUpdate := true, trigger := true); }
      if listeners.handshaken {
        ctl := ctl.(blocked := true);
        Happened(Emitted(SigHandshaken, ctl.state));
      }
    }

    /** The CheckPeerCertificate branch of processNextAction. */
    method CheckPeer(peer: Peer)
      modifies this
      ensures Abs() == TlsModel.Perform(old(Abs()), CheckPeerCertificate, peer)
    {
      hide SessionLog.Observe, DataLog.Observe;
      id := id.(present := peer.present);
      if id.present {
        id := id.(good := peer.valid);
        if id.good && ctl.host != "" && !peer.matchesHost { id := id.(hostMismatch := true); }
      }
      Happened(CheckedPeer(peer, ctl.host));
      if listeners.peerCertificate {
        ctl := ctl.(blocked := true, emittedPeerCertificate := true);
        Happened(Emitted(SigPeerCertificate, ctl.state));
      }
    }

    method Fail(code: ErrorCode)
      modifies this
      ensures Abs() == TlsModel.Fail(old(Abs()), code)
    {
      hide SessionLog.Observe, DataLog.Observe, TlsModel.DoReset;
      ghost var during := ctl.state;
      DoReset(ResetSession);
      ctl := ctl.(errorCode := code);
      Happened(Emitted(SigError, during));
    }

    method StartFinished(r: Results)
      modifies this
      ensures Abs() == TlsModel.StartFinished(old(Abs()), r)
    {
      hide TlsModel.Update, TlsModel.Fail;
      if r.verdict != Success {
        Fail(ErrorInit);
        return;
      }
      ctl := ctl.(state := Handshaking);
      // a client speaks first
      ctl := ctl.(maybeInput := true);
      Update();
    }

    method Deliver(r: Results)
      modifies this
      ensures Abs() == TlsModel.Deliver(old(Abs()), r)
    {
      hide SessionLog.Observe, DataLog.Observe;
      buf := buf.(toNet := buf.toNet + r.toNet);
      if r.toNet != [] { ctl := ctl.(actionQueue := ctl.actionQueue + [ReadyReadOutgoing]); }
      Happened(Delivered(ctl.state, r.toNet, r.toApp, r.encoded));
    }

    method ClosingResults(r: Results)
      modifies this
      ensures Abs() == TlsModel.ClosingResults(old(Abs()), r)
    {
      hide TlsModel.Deliver;
      Deliver(r);
      if r.verdict == Success { ctl := ctl.(actionQueue := ctl.actionQueue + [Close]); }
    }

    /** What the handshake branch queues, and the host it goes by. */
    method HandshakeSteps(r: Results) returns (host: string, queue: seq<Action>)
      ensures queue == HandshakeActions(ctl, r)
      ensures host == if NewHostName(ctl, r) then r.hostName else ctl.host
    {
      var clientHello, serverHello := false, false;
      if ctl.server { clientHello := r.clientHello; } else { serverHello := r.serverHello; }
      host, queue := ctl.host, ctl.actionQueue;
      // the name a server was asked for, if there is one
      if !ctl.emittedHostName && clientHello {
        host := r.hostName;
        if host != "" { queue := queue + [HostNameReceived]; }
      }
      // the certificate of the peer, once it can be known
      if !ctl.emittedPeerCertificate && (r.verdict == Success || (!ctl.server && serverHello)) {
        queue := queue + [CheckPeerCertificate];
      }
      // a client may have to name a certificate of its own
      if !ctl.emittedCertificateRequested && serverHello && r.certificateRequested {
        queue := queue + [CertificateRequested];
      }
      if r.verdict == Success { queue := queue + [Handshaken]; }
    }

    method HandshakeResults(r: Results)
      modifies this
      ensures Abs() == TlsModel.HandshakeResults(old(Abs()), r)
    {
      hide TlsModel.Deliver, HandshakeActions, NewHostName;
      Deliver(r);
      var host, queue := HandshakeSteps(r);
      ctl := ctl.(host := host, actionQueue := queue);
    }

    /** The first half of the connected branch: account for what the engine produced. */
    method AcceptBytes(r: Results)
      modifies this`buf, this`session, this`data
      ensures var t := TlsModel.Accept(old(Abs()), r); buf == t.buf && session == t.session && data == t.data
    {
      hide SessionLog.Observe, DataLog.Observe;
      var enc := -1;
      if r.toNet != [] { enc := r.encoded; }
      if r.toNet != [] { buf := buf.(outPending := buf.outPending - enc); }
      buf := buf.(toNet := buf.toNet + r.toNet, inp := buf.inp + r.toApp, toNetEncoded := buf.toNetEncoded + enc);
      session, data := session.Observe(Delivered(ctl.state, r.toNet, r.toApp, r.encoded)),
                       data.Observe(Delivered(ctl.state, r.toNet, r.toApp, r.encoded));
    }

    /** The queue once the application is to hear of what the engine produced. */
    method Announced(r: Results) returns (queue: seq<Action>)
      ensures queue == Then(Then(ctl.actionQueue, r.toNet != [], ReadyReadOutgoing), r.toApp != [], ReadyRead)
    {
      queue := ctl.actionQueue;
      if r.toNet != [] { queue := queue + [ReadyReadOutgoing]; }
      if r.toApp != [] { queue := queue + [ReadyRead]; }
    }

    method AcceptControl(r: Results) returns (ioPending: bool)
      modifies this`ctl
      ensures ctl == Acknowledge(old(ctl), r, buf.outPending > 0)
      ensures ioPending == (buf.outPending > 0 || buf.out != [])
    {
      hide Then;
      ioPending := false;
      var maybeInput, state := ctl.maybeInput, ctl.state;
      if buf.outPending > 0 {
        maybeInput := true;
        ioPending := true;
      }
      if buf.out != [] { ioPending := true; }
      var queue := Announced(r);
      if r.eof {
        // close()
        if state == Connected { state := Closing; }
        maybeInput := true;
      }
      ctl := ctl.(actionQueue := queue, maybeInput := maybeInput, state := state);
    }

    method Accept(r: Results) returns (ioPending: bool)
      modifies this
      ensures Abs() == TlsModel.Accept(old(Abs()), r)
      ensures ioPending == (PendingAfter(old(Abs()), r) > 0 || old(buf).out != [])
    {
      hide SessionLog.Observe, DataLog.Observe, Acknowledge;
      AcceptBytes(r);
      ioPending := AcceptControl(r);
    }

    method ConnectedResults(r: Results)
      modifies this
      ensures Abs() == TlsModel.ConnectedResults(old(Abs()), r)
    {
      hide TlsModel.Accept, TlsModel.Update;
      var ioPending := Accept(r);
      if r.eof || ioPending { Update(); }
    }

    method UpdateFinished(r: Results, peer: Peer)
      modifies this
      ensures Abs() == TlsModel.UpdateFinished(old(Abs()), r, peer)
    {
      hide TlsModel.Fail, TlsModel.ClosingResults, TlsModel.HandshakeResults, TlsModel.ConnectedResults,
        TlsModel.ProcessNextAction;
      if r.verdict == Error {
        if ctl.state == Handshaking || ctl.state == Closing { Fail(ErrorHandshake); } else { Fail(ErrorCrypt); }
        return;
      }
      if ctl.state == Closing {
        ClosingResults(r);
      } else if ctl.state == Handshaking {
        HandshakeResults(r);
      } else {
        ConnectedResults(r);
      }
      ProcessNextAction(peer);
    }

    // ---------------------------------------------------------------- the public calls

    method Listen(l: Listeners)
      modifies this
      ensures Abs() == Next(old(Abs()), Step.Listen(l))
    {
      listeners := l;
    }

    method ResetCall()
      modifies this
      ensures Abs() == Next(old(Abs()), Step.ResetCall)
    {
      DoReset(ResetAll);
    }

    method StartClient(host: string)
      modifies this
      ensures Abs() == Next(old(Abs()), Step.StartClient(host))
    {
      DoReset(ResetSessionAndData);
      ctl := ctl.(host := host);
      DoStart(false);
    }

    method StartServer()
      modifies this
      ensures Abs() == Next(old(Abs()), Step.StartServer)
    {
      DoReset(ResetSessionAndData);
      DoStart(true);
    }

    method ContinueAfterStep()
      modifies this
      ensures Abs() == Next(old(Abs()), Step.ContinueAfterStep)
    {
      hide TlsModel.Update, SessionLog.Observe, DataLog.Observe;
      Happened(Continued);
      if !ctl.blocked { return; }
      ctl := ctl.(blocked := false);
      Update();
    }

    method CloseCall()
      modifies this
      ensures Abs() == Next(old(Abs()), Step.CloseCall)
    {
      hide TlsModel.Update;
      DoClose();
      Update();
    }

    method Write(bytes: Bytes)
      modifies this
      ensures Abs() == Next(old(Abs()), Step.Write(bytes))
    {
      hide TlsModel.Update, SessionLog.Observe, DataLog.Observe;
      buf := buf.(out := buf.out + bytes);
      Happened(AppWrite(bytes));
      Update();
    }

    method Read() returns (bytes: Bytes)
      modifies this
      ensures bytes == old(buf).inp && Abs() == Next(old(Abs()), Step.Read)
    {
      bytes := buf.inp;
      buf := buf.(inp := []);
      Happened(AppRead(bytes));
    }

    method WriteIncoming(bytes: Bytes)
      modifies this
      ensures Abs() == Next(old(Abs()), Step.WriteIncoming(bytes))
    {
      hide TlsModel.Update, SessionLog.Observe, DataLog.Observe;
      buf := buf.(fromNet := buf.fromNet + bytes);
      Happened(NetWrite(bytes));
      Update();
    }

    method ReadOutgoing() returns (bytes: Bytes, plainBytes: int)
      modifies this
      ensures bytes == old(buf).toNet && plainBytes == old(buf).toNetEncoded
      ensures Abs() == Next(old(Abs()), Step.ReadOutgoing)
    {
      bytes, plainBytes := buf.toNet, buf.toNetEncoded;
      buf := buf.(toNet := [], toNetEncoded := 0);
      Happened(NetRead(bytes));
    }

    /** The single-shot trigger fires. */
    method DoNextAction(peer: Peer)
      requires ctl.trigger
      modifies this
      ensures Abs() == Next(old(Abs()), TriggerFires(peer))
    {
      hide TlsModel.ProcessNextAction;
      ctl := ctl.(trigger := false);
      ProcessNextAction(peer);
    }

    /** The engine reports the end of the outstanding operation. */
    method ResultsReady(r: Results, peer: Peer)
      requires ctl.op != NoOp
      modifies this
      ensures Abs() == Next(old(Abs()), Step.ResultsReady(r, peer))
    {
      hide TlsModel.StartFinished, TlsModel.UpdateFinished;
      var lastOp := ctl.op;
      ctl := ctl.(op := NoOp);
      if lastOp == OpStart { StartFinished(r); } else { UpdateFinished(r, peer); }
    }
  }
}
