/** What every run keeps. The invariant has three parts: what an endpoint knows by itself, what it knows about its
    peer, and what every packet ever sent says about the two histories. Histories only grow, so the last two parts
    survive the peer's steps. */
module Invariant {
  import opened Common
  import opened Packets
  import opened ReceiveWindow
  import opened SocketModel
  import opened Protocol

  predicate PastData(e: Endpoint) {
    e.phase.Gone? || (e.phase.Live? && Past(e.sock.state))
  }

  predicate Handshaking(t: TcpState) {
    t.SynSent? || t.SynReceived?
  }

  predicate AfterClose(t: TcpState) {
    t.FinWait1? || t.Closing? || t.TimeWait? || t.Closed?
  }

  /** Each of CLOSE_WAIT to LAST_ACK and the user's close may add the queue size once more. */
  predicate BumpsBounded(e: Endpoint) {
    e.sock.sndBase <= e.isn + |e.accepted| + QUEUE_CAPACITY + QUEUE_CAPACITY
  }

  /** What holds of one endpoint alone; `id` is the id it was connected under. */
  predicate LocalOk(e: Endpoint, side: Side, id: Id) {
    && e.closesLeft <= 1 && 0 <= e.isn && BumpsBounded(e)
    && NoNul(e.accepted)
    && e.sock.Shaped()
    && (e.phase.Idle? ==> e.accepted == "" && e.delivered == "" && e.finsSeen == {} &&
                          !e.everEstablished && !e.viaCloseWait && e.closesLeft == 1)
    && (!e.phase.Idle? ==>
          var s := e.sock; var end := e.isn + |e.accepted|;
          && e.isn <= s.sndBase
          && !s.state.Listen? && !s.state.FinWait2?
          && (e.closesLeft == 0 ==> AfterClose(s.state))
          && (e.phase.Gone? ==> s.state.Closed?)
          && (!e.everEstablished ==> e.accepted == "" && e.delivered == "")
          && (e.viaCloseWait ==> PastData(e) && e.everEstablished)
          && s.id.srcPort == id.srcPort
          && (s.id == id || (e.closesLeft == 0 && s.id == BoundId(id.srcIp, id.srcPort) && !s.state.Closing?))
          && (Handshaking(s.state) ==> !e.everEstablished && s.sndBase == e.isn && s.sendQ == "" &&
                                       forall i :: 0 <= i < WINDOW_SIZE ==> !s.recv.valid[i])
          && (s.state.SynSent? ==> side.Client?) && (s.state.SynReceived? ==> side.Server?)
          && (s.state.Established? ==>
                e.everEstablished && s.sndBase <= end && s.sendQ == e.accepted[s.sndBase - e.isn..])
          && (s.state.CloseWait? ==> s.sndBase == end)
          && (s.state.CloseWait? || s.state.LastAck? ==> e.viaCloseWait)
          && s.sndBase + |s.sendQ| >= end
          && (!s.state.Established? && !s.state.Closed? ==> s.sndBase >= end)
          && (e.closesLeft == 1 ==> s.sndBase <= end + QUEUE_CAPACITY))
  }

  /** What holds of `me` given the history of its peer. */
  predicate PeerOk(me: Endpoint, peer: Endpoint)
    requires me.sock.Shaped()
  {
    && me.delivered <= peer.accepted
    && (!me.phase.Idle? ==>
          var s := me.sock; var next := peer.isn + |me.delivered|;
          && (s.state.Established? ==>
                && !peer.phase.Idle?
                && s.recv.base == next && Consistent(s.recv, peer.isn, peer.accepted)
                && s.sndBase <= me.isn + |peer.delivered|)
          && (s.state.SynReceived? ==> !peer.phase.Idle? && s.recv.base == peer.isn)
          && (s.state.CloseWait? || s.state.LastAck? ==> s.recv.base - 1 in me.finsSeen)
          && (me.finsSeen != {} ==> PastData(peer))
          && (forall f :: f in me.finsSeen ==> peer.isn + |peer.accepted| <= f <= peer.sock.sndBase)
          && (me.viaCloseWait ==> me.finsSeen != {} && !peer.viaCloseWait)
          && 0 <= s.recv.base
          && (s.recv.base > 0 ==>
                !peer.phase.Idle? && s.recv.base <= peer.isn + |peer.accepted| + QUEUE_CAPACITY + QUEUE_CAPACITY + 1))
  }

  /** What every packet from x to y, sent at whatever time, says about the two ends now. */
  predicate PacketOk(x: Endpoint, side: Side, id: Id, y: Endpoint, p: Packet) {
    && p.srcPort == id.srcPort && p.dstPort == id.dstPort && p.checksum == Checksum(p)
    && x.isn - 1 <= p.seqNum <= x.sock.sndBase
    && 0 <= p.ackNum
    && (p.ackNum > 0 ==> !y.phase.Idle? && p.ackNum <= y.isn + |y.accepted| + QUEUE_CAPACITY + QUEUE_CAPACITY + 1)
    && p.flags.Code() != 0
    && (p.flags.syn ==> p.seqNum == x.isn - 1 && p.data == "" && !p.flags.fin && !p.flags.rst &&
                        (p.flags.ack <==> side.Server?) && (p.flags.ack ==> p.ackNum == y.isn))
    && (p.flags.ack ==> !y.phase.Idle?)
    && (p.flags.ack && !p.flags.syn ==> x.everEstablished)
    && (p.flags.ack && !p.flags.fin ==> y.isn <= p.ackNum <= y.isn + |x.delivered|)
    && (p.data != "" ==> p.flags == ACK && |p.data| <= MAX_DATA && CutFrom(p.seqNum, p.data, x.isn, x.accepted))
    && (p.data != "" ==> p.seqNum <= x.isn + |y.delivered|)
    && (p.flags.fin ==> PastData(x) && p.data == "" && x.isn + |x.accepted| <= p.seqNum)
    && (p.flags.fin && p.flags.ack ==> x.viaCloseWait && p.ackNum - 1 in x.finsSeen)
  }

  predicate PacketsOk(x: Endpoint, side: Side, id: Id, y: Endpoint, ps: set<Packet>) {
    (x.phase.Idle? ==> ps == {}) && forall p :: p in ps ==> PacketOk(x, side, id, y, p)
  }

  /** The invariant as one side sees it. */
  predicate SideOk(sys: Sys, side: Side) {
    && LocalOk(sys.At(side), side, sys.IdOf(side))
    && PeerOk(sys.At(side), sys.At(side.Other()))
    && PacketsOk(sys.At(side), side, sys.IdOf(side), sys.At(side.Other()), sys.From(side))
  }

  predicate Inv(sys: Sys) {
    && GoodId(sys.id)
    && SideOk(sys, Client) && SideOk(sys, Server)
    && (sys.client.phase.Idle? ==> sys.server.phase.Idle?)
  }

  // ---------------------------------------------------------------- histories grow

  /** How an endpoint may change in one step: nothing recorded is ever taken back. */
  predicate Evolves(x: Endpoint, x': Endpoint) {
    && (x'.phase.Idle? ==> x == x')
    && x.accepted <= x'.accepted && x.delivered <= x'.delivered
    && x.finsSeen <= x'.finsSeen
    && (x.everEstablished ==> x'.everEstablished) && (x.viaCloseWait ==> x'.viaCloseWait)
    && (!x.phase.Idle? ==> x'.isn == x.isn && x.sock.sndBase <= x'.sock.sndBase)
    && (PastData(x) ==> PastData(x') && x'.accepted == x.accepted)
  }

  lemma CutFromLonger(seqNum: int, data: string, start: int, stream: string, longer: string)
    requires CutFrom(seqNum, data, start, stream) && stream <= longer
    ensures CutFrom(seqNum, data, start, longer)
  {
    var a := seqNum - start;
    assert longer[..|stream|] == stream;
    assert stream[a..a + |data|] == longer[a..a + |data|];
  }

  lemma PacketStays(x: Endpoint, x': Endpoint, side: Side, id: Id, y: Endpoint, p: Packet)
    requires Evolves(x, x') && !x.phase.Idle? && PacketOk(x, side, id, y, p)
    ensures PacketOk(x', side, id, y, p)
  {
    if p.data != "" {
      CutFromLonger(p.seqNum, p.data, x.isn, x.accepted, x'.accepted);
    }
  }

  lemma SentPacketsStay(x: Endpoint, x': Endpoint, side: Side, id: Id, y: Endpoint, ps: set<Packet>)
    requires Evolves(x, x') && PacketsOk(x, side, id, y, ps)
    ensures forall p :: p in ps ==> PacketOk(x', side, id, y, p)
  {
    forall p | p in ps ensures PacketOk(x', side, id, y, p) {
      PacketStays(x, x', side, id, y, p);
    }
  }

  lemma ReceivedPacketsStay(x: Endpoint, side: Side, id: Id, y: Endpoint, y': Endpoint, ps: set<Packet>)
    requires Evolves(y, y') && PacketsOk(x, side, id, y, ps)
    ensures PacketsOk(x, side, id, y', ps)
  {
    forall p | p in ps ensures PacketOk(x, side, id, y', p) {
      assert PacketOk(x, side, id, y, p);
    }
  }

  lemma PeerStays(me: Endpoint, peer: Endpoint, peer': Endpoint)
    requires me.sock.Shaped() && PeerOk(me, peer) && Evolves(peer, peer')
    requires me.viaCloseWait ==> !peer'.viaCloseWait
    ensures PeerOk(me, peer')
  {
    if me.sock.state.Established? && !me.phase.Idle? {
      assert peer'.accepted[..|peer.accepted|] == peer.accepted;
    }
  }

  /** What a side's step must establish. */
  predicate After(me: Endpoint, side: Side, id: Id, peer: Endpoint, e: Endpoint, sent: seq<Packet>) {
    && Evolves(me, e) && !e.phase.Idle?
    && LocalOk(e, side, id) && PeerOk(e, peer)
    && (peer.viaCloseWait ==> !e.viaCloseWait)
    && forall p :: p in sent ==> PacketOk(e, side, id, peer, p)
  }

  /** One side's step: it suffices to look at the side itself and at what it sends. */
  lemma StepOfSide(sys: Sys, side: Side, e: Endpoint, sent: seq<Packet>)
    requires Inv(sys)
    requires side.Server? ==> !sys.client.phase.Idle?
    requires After(sys.At(side), side, sys.IdOf(side), sys.At(side.Other()), e, sent)
    ensures Inv(sys.Put(side, e, sent))
  {
    var other := side.Other();
    var me, peer := sys.At(side), sys.At(other);
    assert SideOk(sys, side) && SideOk(sys, other);
    SentPacketsStay(me, e, side, sys.IdOf(side), peer, sys.From(side));
    ReceivedPacketsStay(peer, other, sys.IdOf(other), me, e, sys.From(other));
    PeerStays(peer, me, e);
    SidesOk(sys, side, e, sent);
  }

  lemma SidesOk(sys: Sys, side: Side, e: Endpoint, sent: seq<Packet>)
    requires GoodId(sys.id) && !e.phase.Idle? && (side.Server? ==> !sys.client.phase.Idle?)
    requires LocalOk(e, side, sys.IdOf(side)) && PeerOk(e, sys.At(side.Other()))
    requires forall p :: p in sent || p in sys.From(side) ==> PacketOk(e, side, sys.IdOf(side), sys.At(side.Other()), p)
    requires LocalOk(sys.At(side.Other()), side.Other(), sys.IdOf(side.Other()))
    requires PeerOk(sys.At(side.Other()), e)
    requires PacketsOk(sys.At(side.Other()), side.Other(), sys.IdOf(side.Other()), e, sys.From(side.Other()))
    ensures Inv(sys.Put(side, e, sent))
  {
    var sys' := sys.Put(side, e, sent);
    var other := side.Other();
    assert sys'.At(side) == e && sys'.At(other) == sys.At(other) && sys'.From(other) == sys.From(other);
    assert SideOk(sys', side) && SideOk(sys', other);
  }

  // ---------------------------------------------------------------- the steps

  lemma InitOk(sys: Sys)
    requires Init(sys)
    ensures Inv(sys)
  {
  }

  lemma ConnectOk(sys: Sys, isn: int, now: int)
    requires Inv(sys) && Enabled(sys, Connect(isn, now))
    ensures Inv(Next(sys, Connect(isn, now)))
  {
    var s := ConnectCommand(NewSock(BoundId(sys.id.srcIp, sys.id.srcPort), Closed, now),
                            sys.id.dstIp, sys.id.dstPort, isn);
    StepOfSide(sys, Client, sys.client.(phase := Live, isn := isn, sock := s), []);
  }

  lemma SpawnOk(sys: Sys, p: Packet, env: Env)
    requires Inv(sys) && Enabled(sys, Spawn(p, env))
    ensures Inv(Next(sys, Spawn(p, env)))
  {
    assert PacketOk(sys.client, Client, sys.id, sys.server, p);
    var s := SpawnedSock(BoundId(sys.id.dstIp, sys.id.dstPort), p, sys.id.dstIp, env);
    StepOfSide(sys, Server, sys.server.(phase := Live, isn := env.isn, sock := s), []);
  }

  /** What a live endpoint's step may rely on. */
  predicate Before(me: Endpoint, side: Side, id: Id, peer: Endpoint) {
    && me.phase.Live? && GoodId(id)
    && LocalOk(me, side, id) && PeerOk(me, peer)
    && peer.sock.Shaped() && PeerOk(peer, me) && 0 <= peer.isn && BumpsBounded(peer)
  }

  lemma CloseOk(me: Endpoint, side: Side, id: Id, peer: Endpoint, now: int)
    requires Before(me, side, id, peer) && me.closesLeft > 0
    ensures After(me, side, id, peer, CloseBy(me, now), [])
  {
  }

  lemma ReapOk(me: Endpoint, side: Side, id: Id, peer: Endpoint, now: int)
    requires Before(me, side, id, peer)
    ensures After(me, side, id, peer, Reap(me, now), [])
  {
  }

  /** The next data packet is cut from what the writer handed over. */
  lemma NextDataCut(e: Endpoint)
    requires NoNul(e.accepted) && e.isn <= e.sock.sndBase <= e.isn + |e.accepted|
    requires e.sock.sendQ == e.accepted[e.sock.sndBase - e.isn..]
    ensures CutFrom(e.sock.sndBase, NextData(e.sock.sendQ), e.isn, e.accepted)
    ensures NextData(e.sock.sendQ) == e.sock.sendQ[..Min(|e.sock.sendQ|, MAX_DATA)]
  {
    var q := e.sock.sendQ;
    assert NoNul(q);
    assert UntilNul(q) == q;
  }

  lemma DataPacketOk(me: Endpoint, side: Side, id: Id, peer: Endpoint)
    requires Before(me, side, id, peer) && me.sock.state.Established?
    ensures PacketOk(me, side, id, peer, DataPacket(me.sock))
  {
    NextDataCut(me);
  }

  /** A step that leaves the history alone may also send packets that were right before it. */
  lemma AlsoSends(me: Endpoint, side: Side, id: Id, peer: Endpoint, e: Endpoint, sent: seq<Packet>)
    requires me.phase.Live? && After(me, side, id, peer, e, [])
    requires forall p :: p in sent ==> PacketOk(me, side, id, peer, p)
    ensures After(me, side, id, peer, e, sent)
  {
    forall p | p in sent ensures PacketOk(e, side, id, peer, p) {
      PacketStays(me, e, side, id, peer, p);
    }
  }

  lemma TransmitOk(me: Endpoint, side: Side, id: Id, peer: Endpoint, env: VisitEnv)
    requires Before(me, side, id, peer)
    ensures var (e, sent) := Transmit(me, env); After(me, side, id, peer, e, sent)
  {
    var (e, sent) := Transmit(me, env);
    assert After(me, side, id, peer, e, []);
    if me.sock.state.Established? {
      DataPacketOk(me, side, id, peer);
    }
    AlsoSends(me, side, id, peer, e, sent);
  }

  /** Accepting bytes extends the stream and the queue alike. */
  lemma AcceptOk(me: Endpoint, side: Side, id: Id, peer: Endpoint, env: VisitEnv)
    requires Before(me, side, id, peer) && NoNul(env.offered) && me.sock.state.Established?
    ensures var (e, sent) := Report(me, env); After(me, side, id, peer, e, sent)
  {
    var more := Taken(me.sock, env.offered);
    var acc := me.accepted + more;
    var k := me.sock.sndBase - me.isn;
    assert acc[k..] == me.accepted[k..] + more;
  }

  lemma ReportSynSentOk(me: Endpoint, side: Side, id: Id, peer: Endpoint, env: VisitEnv)
    requires Before(me, side, id, peer) && me.sock.state.SynSent?
    ensures var (e, sent) := Report(me, env); After(me, side, id, peer, e, sent)
  {
  }

  lemma ReportSynReceivedOk(me: Endpoint, side: Side, id: Id, peer: Endpoint, env: VisitEnv)
    requires Before(me, side, id, peer) && me.sock.state.SynReceived?
    ensures var (e, sent) := Report(me, env); After(me, side, id, peer, e, sent)
  {
  }

  /** Clocks and the last states of the diagram can change without touching either history. */
  lemma TimerOk(me: Endpoint, side: Side, id: Id, peer: Endpoint, s: Sock)
    requires Before(me, side, id, peer) && AfterClose(me.sock.state)
    requires s == me.sock.(state := s.state, lastSend := s.lastSend)
    requires s.state == me.sock.state || (s.state.TimeWait? && !me.sock.state.Closed?) || s.state.Closed?
    ensures After(me, side, id, peer, Track(me, s), [])
  {
  }

  lemma FarewellOk(me: Endpoint, side: Side, id: Id, peer: Endpoint, flags: Flags)
    requires Before(me, side, id, peer) && (me.sock.state.FinWait1? || me.sock.state.Closing?)
    requires me.sock.id == id && (flags == FIN || flags == RST)
    ensures PacketOk(me, side, id, peer, Construct(me.sock, "", flags, me.sock.id.dstPort))
  {
  }

  /** What the timers do to a closed socket, and what they send. */
  predicate ClosingAction(s: Sock, a: Action) {
    && a.sock == s.(state := a.sock.state, lastSend := a.sock.lastSend)
    && (a.sock.state == s.state || (a.sock.state.TimeWait? && !s.state.Closed?) || a.sock.state.Closed?)
    && (a.sent == [] ||
        (&& (s.state.FinWait1? || s.state.Closing?) && !IsEmptyIp(s.id.dstIp)
         && (a.sent == [Construct(s, "", FIN, s.id.dstPort)] || a.sent == [Construct(s, "", RST, s.id.dstPort)])))
  }

  lemma TimersClose(s: Sock, env: VisitEnv)
    requires s.Shaped() && AfterClose(s.state)
    ensures ClosingAction(s, StatusMessages(s, env))
  {
  }

  lemma ClosingActionOk(me: Endpoint, side: Side, id: Id, peer: Endpoint, a: Action)
    requires Before(me, side, id, peer) && AfterClose(me.sock.state) && ClosingAction(me.sock, a)
    ensures After(me, side, id, peer, Track(me, a.sock), a.sent)
  {
    TimerOk(me, side, id, peer, a.sock);
    if a.sent != [] {
      FarewellOk(me, side, id, peer, FIN);
      FarewellOk(me, side, id, peer, RST);
    }
    AlsoSends(me, side, id, peer, Track(me, a.sock), a.sent);
  }

  lemma ReportClosingOk(me: Endpoint, side: Side, id: Id, peer: Endpoint, env: VisitEnv)
    requires Before(me, side, id, peer) && AfterClose(me.sock.state)
    ensures var (e, sent) := Report(me, env); After(me, side, id, peer, e, sent)
  {
    var a := StatusMessages(me.sock, env);
    TimersClose(me.sock, env);
    ClosingActionOk(me, side, id, peer, a);
    assert Report(me, env) == (Track(me, a.sock), a.sent);
  }

  lemma ReportLastAckOk(me: Endpoint, side: Side, id: Id, peer: Endpoint, env: VisitEnv)
    requires Before(me, side, id, peer) && me.sock.state.LastAck?
    ensures var (e, sent) := Report(me, env); After(me, side, id, peer, e, sent)
  {
  }

  lemma ReportCloseWaitOk(me: Endpoint, side: Side, id: Id, peer: Endpoint, env: VisitEnv)
    requires Before(me, side, id, peer) && me.sock.state.CloseWait?
    ensures var (e, sent) := Report(me, env); After(me, side, id, peer, e, sent)
  {
  }

  lemma ReportOk(me: Endpoint, side: Side, id: Id, peer: Endpoint, env: VisitEnv)
    requires Before(me, side, id, peer) && NoNul(env.offered)
    ensures var (e, sent) := Report(me, env); After(me, side, id, peer, e, sent)
  {
    match me.sock.state
    case SynSent => ReportSynSentOk(me, side, id, peer, env);
    case SynReceived => ReportSynReceivedOk(me, side, id, peer, env);
    case Established => AcceptOk(me, side, id, peer, env);
    case CloseWait => ReportCloseWaitOk(me, side, id, peer, env);
    case LastAck => ReportLastAckOk(me, side, id, peer, env);
    case _ => ReportClosingOk(me, side, id, peer, env);
  }

  // ---------------------------------------------------------------- several changes in one step

  lemma Onward(me: Endpoint, side: Side, id: Id, peer: Endpoint, e: Endpoint, sent: seq<Packet>)
    requires Before(me, side, id, peer) && After(me, side, id, peer, e, sent) && e.phase.Live?
    ensures Before(e, side, id, peer)
  {
    PeerStays(peer, me, e);
  }

  lemma Chain(me: Endpoint, side: Side, id: Id, peer: Endpoint, e1: Endpoint, sent1: seq<Packet>,
              e2: Endpoint, sent2: seq<Packet>)
    requires Before(me, side, id, peer)
    requires After(me, side, id, peer, e1, sent1) && After(e1, side, id, peer, e2, sent2)
    ensures After(me, side, id, peer, e2, sent1 + sent2)
  {
    forall p | p in sent1 + sent2 ensures PacketOk(e2, side, id, peer, p) {
      if p in sent1 {
        PacketStays(e1, e2, side, id, peer, p);
      }
    }
  }

  /** The second half of a visit, for a socket that is still in the table. */
  function SendPhase(e: Endpoint, env: VisitEnv): (Endpoint, seq<Packet>)
    requires e.sock.Shaped()
  {
    var (e3, sent3) := Transmit(e, env);
    var (e4, sent4) := Report(e3, env);
    (e4, sent3 + sent4)
  }

  lemma SendPhaseOk(me: Endpoint, side: Side, id: Id, peer: Endpoint, env: VisitEnv)
    requires Before(me, side, id, peer) && NoNul(env.offered)
    ensures var (e, sent) := SendPhase(me, env); After(me, side, id, peer, e, sent)
  {
    var (e3, sent3) := Transmit(me, env);
    TransmitOk(me, side, id, peer, env);
    Onward(me, side, id, peer, e3, sent3);
    ReportOk(e3, side, id, peer, env);
    Chain(me, side, id, peer, e3, sent3, Report(e3, env).0, Report(e3, env).1);
  }

  lemma ClosePhaseOk(me: Endpoint, side: Side, id: Id, peer: Endpoint, env: VisitEnv)
    requires Before(me, side, id, peer) && (env.close ==> me.closesLeft > 0)
    ensures var e1 := if env.close then CloseBy(me, env.now) else me;
            After(me, side, id, peer, Reap(e1, env.now), [])
  {
    if env.close {
      var e1 := CloseBy(me, env.now);
      CloseOk(me, side, id, peer, env.now);
      Onward(me, side, id, peer, e1, []);
      ReapOk(e1, side, id, peer, env.now);
      Chain(me, side, id, peer, e1, [], Reap(e1, env.now), []);
    } else {
      ReapOk(me, side, id, peer, env.now);
    }
  }

  lemma VisitOk(me: Endpoint, side: Side, id: Id, peer: Endpoint, env: VisitEnv)
    requires Before(me, side, id, peer) && NoNul(env.offered) && (env.close ==> me.closesLeft > 0)
    ensures var (e, sent) := VisitOf(me, env); After(me, side, id, peer, e, sent)
  {
    var e1 := if env.close then CloseBy(me, env.now) else me;
    var e2 := Reap(e1, env.now);
    assert e1.sock.Shaped();
    hide Before, After, CloseBy, Transmit, Report;
    ClosePhaseOk(me, side, id, peer, env);
    if e2.phase.Live? {
      Onward(me, side, id, peer, e2, []);
      SendPhaseOk(e2, side, id, peer, env);
      var (e, sent) := SendPhase(e2, env);
      Chain(me, side, id, peer, e2, [], e, sent);
      assert [] + sent == sent;
      assert VisitOf(me, env) == (e, sent);
    }
  }

  // ---------------------------------------------------------------- delivering a packet

  /** The packet was sent by the peer at some time. */
  predicate Arriving(me: Endpoint, side: Side, id: Id, peer: Endpoint, p: Packet) {
    Before(me, side, id, peer) && !peer.phase.Idle? && PacketOk(peer, side.Other(), Mirror(id), me, p)
  }

  /** The handler's effect on the endpoint, before any reply is sent. */
  function Handled(e: Endpoint, p: Packet, env: Env): Endpoint
    requires e.sock.Shaped()
  {
    DeliverTo(e, p, env, false).0
  }

  lemma ResetOk(me: Endpoint, side: Side, id: Id, peer: Endpoint)
    requires Before(me, side, id, peer)
    ensures After(me, side, id, peer, Track(me, me.sock.(state := Closed)), [])
  {
  }

  lemma NothingOk(me: Endpoint, side: Side, id: Id, peer: Endpoint)
    requires Before(me, side, id, peer)
    ensures After(me, side, id, peer, Track(me, me.sock), [])
  {
  }

  lemma SynSentOk(me: Endpoint, side: Side, id: Id, peer: Endpoint, p: Packet, env: Env)
    requires Arriving(me, side, id, peer, p) && me.sock.state.SynSent? && !p.flags.rst
    ensures After(me, side, id, peer, Handled(me, p, env), [])
  {
  }

  lemma SynReceivedOk(me: Endpoint, side: Side, id: Id, peer: Endpoint, p: Packet, env: Env)
    requires Arriving(me, side, id, peer, p) && me.sock.state.SynReceived? && !p.flags.rst
    ensures After(me, side, id, peer, Handled(me, p, env), [])
  {
    hide PacketOk;
  }

  /** A FIN ends the data phase of this side; the two sides cannot both be ended that way. */
  lemma FinOk(me: Endpoint, side: Side, id: Id, peer: Endpoint, p: Packet, env: Env)
    requires Arriving(me, side, id, peer, p) && me.sock.state.Established? && !p.flags.rst
    requires p.flags.fin && !p.flags.syn
    ensures After(me, side, id, peer, Handled(me, p, env), [])
  {
  }

  lemma AckOk(me: Endpoint, side: Side, id: Id, peer: Endpoint, p: Packet)
    requires Arriving(me, side, id, peer, p) && me.sock.state.Established? && !p.flags.fin && p.flags.ack
    ensures After(me, side, id, peer, Track(me, Acknowledge(me.sock, p.ackNum)), [])
  {
    var k := AckedCount(me.sock, p.ackNum);
    var a := me.sock.sndBase - me.isn;
    assert me.accepted[a..][k..] == me.accepted[a + k..];
  }

  lemma DataOk(me: Endpoint, side: Side, id: Id, peer: Endpoint, p: Packet, room: int)
    requires Arriving(me, side, id, peer, p) && me.sock.state.Established? && p.data != ""
    ensures var (w, out) := Receive(me.sock.recv, p.seqNum, p.data, room);
            After(me, side, id, peer, Track(me, me.sock.(recv := w)).(delivered := me.delivered + out), [])
  {
    ReceiveKeepsStream(me.sock.recv, p.seqNum, p.data, room, peer.isn, peer.accepted);
    var (w, out) := Receive(me.sock.recv, p.seqNum, p.data, room);
    DeliveredGrows(me, peer, w, out);
  }

  lemma DeliveredGrows(me: Endpoint, peer: Endpoint, w: Window, out: string)
    requires me.delivered <= peer.accepted && me.sock.recv.base == peer.isn + |me.delivered|
    requires w.base == me.sock.recv.base + |out| && w.base - peer.isn <= |peer.accepted|
    requires out == peer.accepted[me.sock.recv.base - peer.isn..w.base - peer.isn]
    ensures me.delivered + out <= peer.accepted
  {
    var n := |me.delivered|;
    assert me.delivered == peer.accepted[..n];
    assert peer.accepted[..n] + peer.accepted[n..n + |out|] == peer.accepted[..n + |out|];
  }

  lemma AckThenDataOk(me: Endpoint, side: Side, id: Id, peer: Endpoint, e1: Endpoint, p: Packet, room: int)
    requires Arriving(me, side, id, peer, p) && p.data != ""
    requires After(me, side, id, peer, e1, []) && e1.phase.Live? && e1.sock.state.Established?
    ensures var (w, out) := Receive(e1.sock.recv, p.seqNum, p.data, room);
            After(me, side, id, peer, Track(e1, e1.sock.(recv := w)).(delivered := e1.delivered + out), [])
  {
    var (w, out) := Receive(e1.sock.recv, p.seqNum, p.data, room);
    var e2 := Track(e1, e1.sock.(recv := w)).(delivered := e1.delivered + out);
    Onward(me, side, id, peer, e1, []);
    assert Evolves(me, e1);
    assert PacketOk(peer, side.Other(), Mirror(id), e1, p);
    DataOk(e1, side, id, peer, p, room);
    Chain(me, side, id, peer, e1, [], e2, []);
  }

  lemma AcknowledgedOk(me: Endpoint, side: Side, id: Id, peer: Endpoint, p: Packet, env: Env)
    requires Arriving(me, side, id, peer, p) && me.sock.state.Established? && !p.flags.rst
    requires !p.flags.syn && !p.flags.fin
    ensures After(me, side, id, peer, Handled(me, p, env), [])
  {
    var s1 := if p.flags.ack then Acknowledge(me.sock, p.ackNum) else me.sock;
    var e1 := Track(me, s1);
    if p.flags.ack { AckOk(me, side, id, peer, p); } else { NothingOk(me, side, id, peer); }
    if p.data != "" {
      var (w, out) := Receive(s1.recv, p.seqNum, p.data, env.room);
      assert Handled(me, p, env) == Track(e1, s1.(recv := w)).(delivered := me.delivered + out);
      hide After, HandlePacket, Handled, Receive, LocalOk, PeerOk, PacketOk, Acknowledge;
      AckThenDataOk(me, side, id, peer, e1, p, env.room);
    } else {
      assert Handled(me, p, env) == e1;
    }
  }

  lemma EstablishedOk(me: Endpoint, side: Side, id: Id, peer: Endpoint, p: Packet, env: Env)
    requires Arriving(me, side, id, peer, p) && me.sock.state.Established? && !p.flags.rst
    ensures After(me, side, id, peer, Handled(me, p, env), [])
  {
    if p.flags.syn {
      NothingOk(me, side, id, peer);
      assert Handled(me, p, env) == Track(me, me.sock);
    } else if p.flags.fin {
      FinOk(me, side, id, peer, p, env);
    } else {
      AcknowledgedOk(me, side, id, peer, p, env);
    }
  }

  lemma LastAckOk(me: Endpoint, side: Side, id: Id, peer: Endpoint, p: Packet)
    requires Arriving(me, side, id, peer, p) && me.sock.state.LastAck?
    ensures HandleLastAck(me.sock, p) == Quiet(me.sock)
  {
  }

  lemma FinInFinWait1Ok(me: Endpoint, side: Side, id: Id, peer: Endpoint, p: Packet, env: Env)
    requires Arriving(me, side, id, peer, p) && me.sock.state.FinWait1? && !p.flags.rst && p.flags.fin
    ensures After(me, side, id, peer, Handled(me, p, env), [])
  {
    hide Consistent;
  }

  lemma FinWait1Ok(me: Endpoint, side: Side, id: Id, peer: Endpoint, p: Packet, env: Env)
    requires Arriving(me, side, id, peer, p) && me.sock.state.FinWait1? && !p.flags.rst
    ensures After(me, side, id, peer, Handled(me, p, env), [])
  {
    if p.flags.fin {
      FinInFinWait1Ok(me, side, id, peer, p, env);
    } else {
      // an acknowledgement of this era never passes the end of the stream
      assert Handled(me, p, env) == Track(me, me.sock);
      hide After, Handled, HandlePacket, LocalOk, PeerOk, PacketOk;
      NothingOk(me, side, id, peer);
    }
  }

  lemma ClosingOk(me: Endpoint, side: Side, id: Id, peer: Endpoint, p: Packet, env: Env)
    requires Arriving(me, side, id, peer, p) && me.sock.state.Closing? && !p.flags.rst
    ensures After(me, side, id, peer, Handled(me, p, env), [])
  {
    var s := HandleClosing(me.sock, p, env).sock;
    assert Handled(me, p, env) == Track(me, s);
    assert AfterClose(s.state);
    hide After, Handled, HandlePacket, LocalOk, PeerOk, PacketOk;
    TimerOk(me, side, id, peer, s);
  }

  lemma ResetHandledOk(me: Endpoint, side: Side, id: Id, peer: Endpoint, p: Packet, env: Env)
    requires Arriving(me, side, id, peer, p) && p.flags.rst
    ensures After(me, side, id, peer, Handled(me, p, env), [])
  {
    ResetOk(me, side, id, peer);
    assert Handled(me, p, env) == Track(me, me.sock.(state := Closed));
  }

  predicate Deaf(t: TcpState) {
    t.CloseWait? || t.LastAck? || t.TimeWait? || t.Closed?
  }

  lemma DeafIsQuiet(e: Endpoint, p: Packet, env: Env)
    requires e.sock.Shaped() && Deaf(e.sock.state) && !p.flags.rst
    requires e.sock.state.LastAck? ==> HandleLastAck(e.sock, p) == Quiet(e.sock)
    ensures Handled(e, p, env) == Track(e, e.sock)
  {
    hide HandleLastAck;
  }

  lemma DeafOk(me: Endpoint, side: Side, id: Id, peer: Endpoint, p: Packet, env: Env)
    requires Arriving(me, side, id, peer, p) && Deaf(me.sock.state) && !p.flags.rst
    ensures After(me, side, id, peer, Handled(me, p, env), [])
  {
    hide After, Handled, HandlePacket, HandleLastAck, PeerOk, PacketOk;
    if me.sock.state.LastAck? {
      LastAckOk(me, side, id, peer, p);
    }
    DeafIsQuiet(me, p, env);
    NothingOk(me, side, id, peer);
  }

  lemma HandledOk(me: Endpoint, side: Side, id: Id, peer: Endpoint, p: Packet, env: Env)
    requires Arriving(me, side, id, peer, p)
    ensures After(me, side, id, peer, Handled(me, p, env), [])
  {
    if p.flags.rst {
      ResetHandledOk(me, side, id, peer, p, env);
    } else if Deaf(me.sock.state) {
      DeafOk(me, side, id, peer, p, env);
    } else if me.sock.state.Established? {
      EstablishedOk(me, side, id, peer, p, env);
    } else if me.sock.state.FinWait1? {
      FinWait1Ok(me, side, id, peer, p, env);
    } else if me.sock.state.Closing? {
      ClosingOk(me, side, id, peer, p, env);
    } else if me.sock.state.SynSent? {
      SynSentOk(me, side, id, peer, p, env);
    } else {
      SynReceivedOk(me, side, id, peer, p, env);
    }
  }

  /** The acknowledgement of a data packet. */
  lemma ReplyOk(me: Endpoint, side: Side, id: Id, peer: Endpoint, p: Packet, env: Env)
    requires Arriving(me, side, id, peer, p)
    ensures var (e, sent) := DeliverTo(me, p, env, true); After(me, side, id, peer, e, sent)
  {
    HandledOk(me, side, id, peer, p, env);
    var o := HandlePacket(me.sock, p, me.sock.id.srcIp, env);
    var h := Handled(me, p, env);
    if o.reply.Some? {
      RepliesOnlyToData(me, side, id, peer, p, env);
      hide After, HandlePacket, LocalOk, PeerOk, PacketOk;
      SentReplyOk(me, side, id, peer, h, env.now);
      assert DeliverTo(me, p, env, true) == (h.(sock := h.sock.(lastSend := env.now)), [o.reply.value]);
    } else {
      hide After, HandlePacket, LocalOk, PeerOk, PacketOk;
      assert DeliverTo(me, p, env, true) == (h, []);
    }
  }

  lemma RepliesOnlyToData(me: Endpoint, side: Side, id: Id, peer: Endpoint, p: Packet, env: Env)
    requires Arriving(me, side, id, peer, p)
    requires HandlePacket(me.sock, p, me.sock.id.srcIp, env).reply.Some?
    ensures var h := Handled(me, p, env);
            && h.phase.Live? && h.sock.state.Established?
            && HandlePacket(me.sock, p, me.sock.id.srcIp, env).reply.value ==
                 Construct(h.sock, "", ACK, h.sock.id.dstPort)
  {
    hide Consistent, Receive;
  }

  lemma SentReplyOk(me: Endpoint, side: Side, id: Id, peer: Endpoint, h: Endpoint, now: int)
    requires Before(me, side, id, peer) && After(me, side, id, peer, h, [])
    requires h.phase.Live? && h.sock.state.Established?
    ensures After(me, side, id, peer, h.(sock := h.sock.(lastSend := now)),
                  [Construct(h.sock, "", ACK, h.sock.id.dstPort)])
  {
  }

  lemma DeliverOk(me: Endpoint, side: Side, id: Id, peer: Endpoint, p: Packet, env: Env, replySent: bool)
    requires Arriving(me, side, id, peer, p)
    ensures var (e, sent) := DeliverTo(me, p, env, replySent); After(me, side, id, peer, e, sent)
  {
    if replySent {
      ReplyOk(me, side, id, peer, p, env);
    } else {
      HandledOk(me, side, id, peer, p, env);
      assert DeliverTo(me, p, env, false) == (Handled(me, p, env), []);
    }
  }

  // ---------------------------------------------------------------- every step, every run

  lemma SideBefore(sys: Sys, side: Side)
    requires Inv(sys) && sys.At(side).phase.Live?
    ensures Before(sys.At(side), side, sys.IdOf(side), sys.At(side.Other()))
    ensures side.Server? ==> !sys.client.phase.Idle?
  {
    assert SideOk(sys, side) && SideOk(sys, side.Other());
  }

  lemma PacketArrives(sys: Sys, to: Side, p: Packet)
    requires Inv(sys) && sys.At(to).phase.Live? && p in sys.From(to.Other())
    ensures Arriving(sys.At(to), to, sys.IdOf(to), sys.At(to.Other()), p)
  {
    SideBefore(sys, to);
    assert SideOk(sys, to.Other());
  }

  lemma StepOk(sys: Sys, step: Step)
    requires Inv(sys) && Enabled(sys, step)
    ensures Inv(Next(sys, step))
  {
    hide Inv, Before, After, Arriving, VisitOf, DeliverTo;
    match step
    case Connect(isn, now) => ConnectOk(sys, isn, now);
    case Spawn(p, env) => SpawnOk(sys, p, env);
    case Visit(side, v) =>
      SideBefore(sys, side);
      VisitOk(sys.At(side), side, sys.IdOf(side), sys.At(side.Other()), v);
      StepOfSide(sys, side, VisitOf(sys.At(side), v).0, VisitOf(sys.At(side), v).1);
    case Deliver(to, p, env, replySent) =>
      SideBefore(sys, to);
      PacketArrives(sys, to, p);
      DeliverOk(sys.At(to), to, sys.IdOf(to), sys.At(to.Other()), p, env, replySent);
      var (e, sent) := DeliverTo(sys.At(to), p, env, replySent);
      StepOfSide(sys, to, e, sent);
  }

  lemma {:induction false} RunOk(sys: Sys, steps: seq<Step>)
    requires Inv(sys) && ValidRun(sys, steps)
    ensures Inv(Exec(sys, steps))
    decreases |steps|
  {
    if steps != [] {
      StepOk(sys, steps[0]);
      RunOk(Next(sys, steps[0]), steps[1..]);
    }
  }
}
