/** What a packet does to an end, whatever its history: for every state, every packet and every outcome of the
    writes and sends, which packets count, what they change and what leaves in answer. */
module Handling {
  import opened Common
  import opened Packets
  import opened ReceiveWindow
  import opened SocketModel
  import opened Protocol

  /** The packet is no reset, and comes from the peer's port. */
  predicate FromPeer(s: Sock, p: Packet) {
    !p.flags.rst && p.srcPort == s.id.dstPort
  }

  /** It acknowledges something past all that has been sent, which only a FIN can be. */
  predicate AcksFin(s: Sock, p: Packet) {
    p.flags.ack && p.ackNum > s.sndBase
  }

  /** Only the history of what has been seen changes. */
  predicate Ignored(e: Endpoint, p: Packet, env: Env, replySent: bool)
    requires e.sock.Shaped()
  {
    var (e', sent) := DeliverTo(e, p, env, replySent);
    e'.sock == e.sock && e'.delivered == e.delivered && sent == []
  }

  /** A reset ends a connection in every state, and is not answered. */
  lemma ResetCloses(e: Endpoint, p: Packet, env: Env, replySent: bool)
    requires e.sock.Shaped() && !e.sock.state.Listen? && p.flags.rst
    ensures var (e', sent) := DeliverTo(e, p, env, replySent);
            && e'.sock == e.sock.(state := Closed) && sent == [] && e'.delivered == e.delivered
  {
  }

  /** A packet from another port than the peer's does nothing, and neither does any packet but a reset to an end that
      waits for its own timers. */
  lemma Deaf(e: Endpoint, p: Packet, env: Env, replySent: bool)
    requires e.sock.Shaped() && !e.sock.state.Listen? && !p.flags.rst
    requires p.srcPort != e.sock.id.dstPort || e.sock.state.Closed? || e.sock.state.CloseWait? || e.sock.state.TimeWait?
    ensures Ignored(e, p, env, replySent)
  {
  }

  /** The answer the handshake waits for. */
  predicate Opens(s: Sock, p: Packet, env: Env) {
    && FromPeer(s, p) && p.flags.ack && p.ackNum == s.sndBase && env.notifyOk
    && (s.state.SynReceived? || (s.state.SynSent? && p.flags.syn))
  }

  /** A handshake is completed exactly by an acknowledgement of this side's own number, and for a client only by one
      that is a SYN too, if the user can be told; a client then expects the number behind the peer's SYN. Nothing else
      changes anything. */
  lemma OpensExactly(e: Endpoint, p: Packet, env: Env, replySent: bool)
    requires e.sock.Shaped() && (e.sock.state.SynSent? || e.sock.state.SynReceived?) && !p.flags.rst
    ensures var (e', sent) := DeliverTo(e, p, env, replySent);
            && (e'.sock.state.Established? <==> Opens(e.sock, p, env))
            && (!Opens(e.sock, p, env) ==> Ignored(e, p, env, replySent))
            && sent == [] && e'.delivered == e.delivered
            && e'.sock == e.sock.(state := e'.sock.state, recv := e.sock.recv.(base := e'.sock.recv.base))
            && (Opens(e.sock, p, env) ==>
                  e'.sock.recv.base == if e.sock.state.SynSent? then p.seqNum + 1 else e.sock.recv.base)
  {
  }

  /** An ESTABLISHED end heeds packets of its peer that are neither SYN nor FIN. */
  predicate Heeds(s: Sock, p: Packet) {
    s.state.Established? && FromPeer(s, p) && !p.flags.syn && !p.flags.fin
  }

  /** Their acknowledgement counts whether they carry data or not: the base moves to its number, but neither back nor
      past what is queued, and the queue loses exactly what it has moved over. Without the flag nothing moves. */
  lemma AckCounts(e: Endpoint, p: Packet, env: Env, replySent: bool)
    requires e.sock.Shaped() && Heeds(e.sock, p)
    ensures var s, s' := e.sock, DeliverTo(e, p, env, replySent).0.sock;
            && s'.sndBase >= s.sndBase
            && (p.flags.ack ==> s'.sndBase >= Min(p.ackNum, s.sndBase + |s.sendQ|))
            && s'.sndBase <= (if p.flags.ack then Max(s.sndBase, p.ackNum) else s.sndBase)
            && s'.sndBase - s.sndBase <= |s.sendQ| && s'.sendQ == s.sendQ[s'.sndBase - s.sndBase..]
            && s' == s.(sndBase := s'.sndBase, sendQ := s'.sendQ, recv := s'.recv, lastSend := s'.lastSend)
  {
    hide Receive, Construct;
    assert AckedCount(e.sock, p.ackNum) <= |e.sock.sendQ|;
  }

  /** Data are received and answered, and nothing else is: the answer is a bare acknowledgement of the first byte
      that is still missing, from this side's base, and if it leaves it restarts the retransmission clock. */
  lemma DataAnswered(e: Endpoint, p: Packet, env: Env, replySent: bool)
    requires e.sock.Shaped() && Heeds(e.sock, p)
    ensures var (e', sent) := DeliverTo(e, p, env, replySent);
            && (p.data == "" ==>
                  sent == [] && e'.sock.recv == e.sock.recv && e'.delivered == e.delivered &&
                  e'.sock.lastSend == e.sock.lastSend)
            && (p.data != "" ==>
                  var (w, out) := Receive(e.sock.recv, p.seqNum, p.data, env.room);
                  && e'.sock.recv == w && e'.delivered == e.delivered + out
                  && |sent| == (if replySent then 1 else 0)
                  && e'.sock.lastSend == (if replySent then env.now else e.sock.lastSend)
                  && (replySent ==>
                        && sent[0].flags == ACK && sent[0].data == "" && sent[0].ackNum == w.base
                        && sent[0].seqNum == e'.sock.sndBase && sent[0].checksum == Checksum(sent[0])
                        && sent[0].srcPort == e.sock.id.srcPort && sent[0].dstPort == p.srcPort))
  {
  }

  /** Only an ESTABLISHED end hands anything to its reader. */
  lemma OnlyEstablishedDelivers(e: Endpoint, p: Packet, env: Env, replySent: bool)
    requires e.sock.Shaped() && !Heeds(e.sock, p)
    ensures DeliverTo(e, p, env, replySent).0.delivered == e.delivered
  {
  }

  /** A SYN does nothing to an ESTABLISHED end, even with a FIN; a FIN takes it to CLOSE_WAIT, without an answer
      and without a look at acknowledgement and data: the number behind the FIN is expected next, and the whole
      queue counts as sent. */
  lemma FinToEstablished(e: Endpoint, p: Packet, env: Env, replySent: bool)
    requires e.sock.Shaped() && e.sock.state.Established? && FromPeer(e.sock, p) && (p.flags.syn || p.flags.fin)
    ensures p.flags.syn ==> Ignored(e, p, env, replySent)
    ensures !p.flags.syn ==>
              var (e', sent) := DeliverTo(e, p, env, replySent);
              && e'.sock == e.sock.(state := CloseWait, recv := e.sock.recv.(base := p.seqNum + 1),
                                    sndBase := e.sock.sndBase + |e.sock.sendQ|)
              && sent == [] && e'.delivered == e.delivered && e'.finsSeen == e.finsSeen + {p.seqNum}
  {
  }

  /** What a packet means to an end that has sent its FIN, or is about to: a FIN with an acknowledgement of its own
      leads to TIME_WAIT, a FIN without one to CLOSING, an acknowledgement alone to FIN_WAIT_2. A FIN is noted, and
      starts the timer again. */
  lemma FinWait1Means(e: Endpoint, p: Packet, env: Env, replySent: bool)
    requires e.sock.Shaped() && e.sock.state.FinWait1? && FromPeer(e.sock, p)
    ensures var (e', sent) := DeliverTo(e, p, env, replySent); var acked := AcksFin(e.sock, p);
            && sent == [] && e'.delivered == e.delivered
            && e'.sock == e.sock.(state := e'.sock.state, recv := e.sock.recv.(base := e'.sock.recv.base),
                                  finSent := e'.sock.finSent, lastSend := e'.sock.lastSend)
            && (e'.sock.state.TimeWait? <==> p.flags.fin && acked)
            && (e'.sock.state.Closing? <==> p.flags.fin && !acked)
            && (e'.sock.state.FinWait2? <==> !p.flags.fin && acked)
            && (!p.flags.fin && !acked ==> Ignored(e, p, env, replySent))
            && (p.flags.fin ==> e'.sock.recv.base == p.seqNum + 1 && e'.sock.finSent == env.now)
            && (!p.flags.fin ==> e'.sock.recv == e.sock.recv && e'.sock.finSent == e.sock.finSent)
            && e'.sock.lastSend == (if p.flags.fin && acked then env.now else e.sock.lastSend)
            && e'.finsSeen == (if p.flags.fin then e.finsSeen + {p.seqNum} else e.finsSeen)
  {
  }

  /** The last acknowledgement: CLOSING leads to TIME_WAIT, whose clock starts, and LAST_ACK to CLOSED. Nothing
      less does anything. */
  lemma LastAcknowledgement(e: Endpoint, p: Packet, env: Env, replySent: bool)
    requires e.sock.Shaped() && (e.sock.state.Closing? || e.sock.state.LastAck?) && FromPeer(e.sock, p)
    ensures var (e', sent) := DeliverTo(e, p, env, replySent);
            && sent == [] && e'.delivered == e.delivered
            && (!AcksFin(e.sock, p) ==> Ignored(e, p, env, replySent))
            && (AcksFin(e.sock, p) ==>
                  e'.sock == if e.sock.state.Closing? then e.sock.(state := TimeWait, lastSend := env.now)
                             else e.sock.(state := Closed))
  {
  }

  /** FIN_WAIT_2 waits for the FIN alone, acknowledges it and goes to TIME_WAIT. */
  lemma FinWait2Means(e: Endpoint, p: Packet, env: Env, replySent: bool)
    requires e.sock.Shaped() && e.sock.state.FinWait2? && FromPeer(e.sock, p)
    ensures !p.flags.fin ==> Ignored(e, p, env, replySent)
    ensures p.flags.fin ==>
              var (e', sent) := DeliverTo(e, p, env, replySent);
              && e'.sock.state.TimeWait? && e'.sock.recv.base == p.seqNum + 1 && e'.delivered == e.delivered
              && |sent| == (if replySent then 1 else 0)
              && (replySent ==>
                    sent[0].flags == ACK && sent[0].ackNum == p.seqNum + 1 && sent[0].seqNum == e.sock.sndBase &&
                    sent[0].data == "" && e'.sock.lastSend == env.now)
  {
  }

  // ---------------------------------------------------------------- listeners

  /** A listener heeds nothing but SYNs, not even a reset. With its limit used up it answers with a reset; if the
      connection cannot be made it stays as it is; otherwise it has one less to give, and the connection expects the
      number behind the SYN and starts from a number of its own, with nothing queued and nothing received. */
  lemma ListenerMeans(s: Sock, p: Packet, ip: string, env: Env)
    requires s.Shaped() && s.state.Listen?
    ensures var o := HandlePacket(s, p, ip, env);
            && o.written == ""
            && (o.spawned.Some? <==> p.flags.syn && s.maxConnections != 0 && env.spawnOk)
            && (o.reply.Some? <==> p.flags.syn && s.maxConnections == 0)
            && o.sock == s.(maxConnections := s.maxConnections - if o.spawned.Some? then 1 else 0)
            && (o.reply.Some? ==>
                  o.reply.value.flags == RST && o.reply.value.data == "" && o.reply.value.srcPort == s.id.srcPort &&
                  o.reply.value.dstPort == p.srcPort)
            && (o.spawned.Some? ==>
                  var c := o.spawned.value;
                  && c.state.SynReceived? && c.sndBase == env.isn && c.recv.base == p.seqNum + 1 && c.sendQ == ""
                  && c.id == Id(s.id.srcIp, s.id.srcPort, ip, p.srcPort) && c.lastSend == c.created == env.now
                  && c.Shaped() && forall i :: 0 <= i < WINDOW_SIZE ==> !c.recv.valid[i])
  {
  }
}
