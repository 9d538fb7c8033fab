/** What a visit of the manager does to an end, whatever its history: by the clock, what it sends, what it takes
    from the writer, how it moves towards CLOSED, and when the socket leaves the table. Times are in microseconds. */
module Timers {
  import opened Common
  import opened Packets
  import opened SocketModel
  import opened Protocol

  /** A visit by a user who does not close, to an end that has a peer. */
  predicate Plain(e: Endpoint, v: VisitEnv) {
    e.phase.Live? && e.sock.Shaped() && !v.close && !IsEmptyIp(e.sock.id.dstIp)
  }

  /** A bare segment of an end, with a given number. */
  predicate Bare(s: Sock, p: Packet, flags: Flags, seqNum: int) {
    && p.flags == flags && p.seqNum == seqNum && p.ackNum == s.recv.base && p.data == ""
    && p.srcPort == s.id.srcPort && p.dstPort == s.id.dstPort && p.checksum == Checksum(p)
  }

  /** A visit that sends one bare segment, starts the retransmission clock, and does nothing else; or fails to. */
  predicate Repeats(e: Endpoint, v: VisitEnv, flags: Flags, seqNum: int)
    requires Plain(e, v)
  {
    var (e', sent) := VisitOf(e, v);
    var due := v.now - e.sock.lastSend > 3_000_000 && v.statusSend.Sent?;
    && |sent| == (if due then 1 else 0) && (due ==> Bare(e.sock, sent[0], flags, seqNum))
    && e' == e.(sock := e.sock.(lastSend := if due then v.now else e.sock.lastSend))
  }

  // ---------------------------------------------------------------- leaving the table

  /** A socket leaves the table at a visit exactly if it has been CLOSED before, is not being closed now, and was
      made more than ten seconds ago. */
  lemma GoneExactly(e: Endpoint, v: VisitEnv)
    requires e.phase.Live? && e.sock.Shaped() && (v.close ==> e.closesLeft > 0)
    ensures VisitOf(e, v).0.phase.Gone? <==>
              e.sock.state.Closed? && !v.close && v.now - e.sock.created > 10_000_000
    ensures VisitOf(e, v).0.phase.Gone? ==> VisitOf(e, v).1 == [] && VisitOf(e, v).0.sock == e.sock
    ensures VisitOf(e, v).0.sock.created == e.sock.created
  {
  }

  // ---------------------------------------------------------------- opening

  /** While it waits for an answer, a client repeats its SYN and a server its SYN+ACK every three seconds, one
      below their base. */
  lemma HandshakeRepeats(e: Endpoint, v: VisitEnv)
    requires Plain(e, v) && (e.sock.state.SynSent? || e.sock.state.SynReceived?)
    ensures Repeats(e, v, if e.sock.state.SynSent? then SYN else SYN_ACK, e.sock.sndBase - 1)
  {
  }

  // ---------------------------------------------------------------- ESTABLISHED

  /** Every three seconds the first bytes of the queue are sent, or an empty acknowledgement if there are none; not
      before. */
  lemma DataRepeats(e: Endpoint, v: VisitEnv)
    requires Plain(e, v) && e.sock.state.Established? && NoNul(e.sock.sendQ)
    ensures var (e', sent) := VisitOf(e, v);
            var due := v.now - e.sock.lastSend > 3_000_000 && v.dataSend.Sent?;
            && |sent| == (if due then 1 else 0)
            && e'.sock.lastSend == (if due then v.now else e.sock.lastSend)
            && (due ==>
                  && sent[0].flags == ACK && sent[0].seqNum == e.sock.sndBase && sent[0].ackNum == e.sock.recv.base
                  && sent[0].data == e.sock.sendQ[..Min(128, |e.sock.sendQ|)]
                  && sent[0].srcPort == e.sock.id.srcPort && sent[0].dstPort == e.sock.id.dstPort
                  && sent[0].checksum == Checksum(sent[0]))
  {
    assert UntilNul(e.sock.sendQ) == e.sock.sendQ;
  }

  /** The writer's bytes go to the end of the queue, in order, as far as 128 and the room in the queue allow; what
      is taken is what counts as accepted, and nothing else changes. */
  lemma WriterServed(e: Endpoint, v: VisitEnv)
    requires Plain(e, v) && e.sock.state.Established?
    ensures var e' := VisitOf(e, v).0;
            && e'.phase.Live? && |e'.accepted| >= |e.accepted| && e'.accepted[..|e.accepted|] == e.accepted
            && var taken := e'.accepted[|e.accepted|..];
            && taken <= v.offered && e'.sock.sendQ == e.sock.sendQ + taken
            && |taken| <= 128 && |e'.sock.sendQ| <= 8192
            && (taken == v.offered || |taken| == 128 || |e'.sock.sendQ| == 8192)
            && e'.sock == e.sock.(sendQ := e'.sock.sendQ, lastSend := e'.sock.lastSend)
            && e'.delivered == e.delivered
  {
    var e', taken := VisitOf(e, v).0, Taken(e.sock, v.offered);
    assert e'.accepted == e.accepted + taken && (e.accepted + taken)[|e.accepted|..] == taken;
  }

  /** No other state takes anything from the writer. */
  lemma OnlyEstablishedAccepts(e: Endpoint, v: VisitEnv)
    requires e.phase.Live? && e.sock.Shaped() && (v.close ==> e.closesLeft > 0)
    requires v.close || !e.sock.state.Established?
    ensures VisitOf(e, v).0.accepted == e.accepted && VisitOf(e, v).0.delivered == e.delivered
  {
  }

  // ---------------------------------------------------------------- closing

  /** The user's close: the queue counts as sent, the timer for the reset starts, and the FIN goes out in the same
      visit if three seconds have passed since the last send. */
  lemma CloseSendsFin(e: Endpoint, v: VisitEnv)
    requires Plain(e, v.(close := false)) && v.close && e.closesLeft > 0 && !e.sock.state.SynSent?
    ensures var (e', sent) := VisitOf(e, v);
            var due := v.now - e.sock.lastSend > 3_000_000 && v.statusSend.Sent?;
            && e'.sock == e.sock.(state := FinWait1, sndBase := e.sock.sndBase + |e.sock.sendQ|, finSent := v.now,
                                  lastSend := if due then v.now else e.sock.lastSend)
            && e'.phase.Live? && e'.closesLeft == e.closesLeft - 1
            && |sent| == (if due then 1 else 0)
            && (due ==> Bare(e.sock, sent[0], FIN, e.sock.sndBase + |e.sock.sendQ|))
  {
  }

  /** A socket that has not been answered yet gives up its destination and stands under its bare address; it sends
      nothing. */
  lemma CloseUnanswered(e: Endpoint, v: VisitEnv)
    requires e.phase.Live? && e.sock.Shaped() && v.close && e.closesLeft > 0 && e.sock.state.SynSent?
    ensures var (e', sent) := VisitOf(e, v);
            && e'.sock == e.sock.(id := BoundId(e.sock.id.srcIp, e.sock.id.srcPort), state := FinWait1,
                                  sndBase := e.sock.sndBase + |e.sock.sendQ|, finSent := v.now)
            && sent == [] && e'.phase.Live?
  {
    ClosedUnheard(e.sock, v);
    VisitOfSock(e, v);
  }

  /** A closing side repeats its FIN every three seconds for eight seconds. Then it sends one reset instead and
      goes to TIME_WAIT; if there is nobody to receive the reset it goes there all the same, and only if the send
      fails for another reason does it go on with the FIN. */
  lemma FinRepeats(e: Endpoint, v: VisitEnv)
    requires Plain(e, v) && e.sock.state.FinWait1?
    ensures var (e', sent) := VisitOf(e, v); var late := v.now - e.sock.finSent > 8_000_000;
            && (!late || v.rstSend.SendFailed? ==> Repeats(e, v, FIN, e.sock.sndBase))
            && (late && !v.rstSend.SendFailed? ==>
                  && e' == e.(sock := e.sock.(state := TimeWait))
                  && |sent| == (if v.rstSend.Sent? then 1 else 0)
                  && (v.rstSend.Sent? ==> Bare(e.sock, sent[0], RST, e.sock.sndBase)))
  {
  }

  /** After the peer's FIN the next visit counts the queue as sent and goes to LAST_ACK, without a word. */
  lemma CloseWaitPasses(e: Endpoint, v: VisitEnv)
    requires Plain(e, v) && e.sock.state.CloseWait?
    ensures var (e', sent) := VisitOf(e, v);
            && sent == [] && e'.phase.Live?
            && e'.sock == e.sock.(state := LastAck, sndBase := e.sock.sndBase + |e.sock.sendQ|)
  {
  }

  /** LAST_ACK repeats FIN+ACK every three seconds, for ever. */
  lemma LastAckRepeats(e: Endpoint, v: VisitEnv)
    requires Plain(e, v) && e.sock.state.LastAck?
    ensures Repeats(e, v, FIN_ACK, e.sock.sndBase)
  {
  }

  /** CLOSING waits for eight seconds since its timer was started, then sends a reset until one leaves. */
  lemma ClosingGivesUp(e: Endpoint, v: VisitEnv)
    requires Plain(e, v) && e.sock.state.Closing?
    ensures var (e', sent) := VisitOf(e, v); var due := v.now - e.sock.finSent > 8_000_000 && v.rstSend.Sent?;
            && e' == e.(sock := e.sock.(state := if due then TimeWait else Closing))
            && |sent| == (if due then 1 else 0) && (due ==> Bare(e.sock, sent[0], RST, e.sock.sndBase))
  {
  }

  /** TIME_WAIT ends after a second. */
  lemma TimeWaitEnds(e: Endpoint, v: VisitEnv)
    requires e.phase.Live? && e.sock.Shaped() && e.sock.state.TimeWait? && !v.close
    ensures var (e', sent) := VisitOf(e, v);
            && sent == [] && e'.phase.Live?
            && e'.sock == e.sock.(state := if v.now - e.sock.lastSend > 1_000_000 then Closed else TimeWait)
  {
  }

  /** Sockets that are CLOSED, listen or wait in FIN_WAIT_2 are left alone until the user closes or removal is due. */
  lemma LeftAlone(e: Endpoint, v: VisitEnv)
    requires e.phase.Live? && e.sock.Shaped() && !v.close
    requires e.sock.state.Closed? || e.sock.state.Listen? || e.sock.state.FinWait2?
    ensures VisitOf(e, v).1 == [] && VisitOf(e, v).0.sock == e.sock
  {
  }

  /** A socket without a peer sends nothing whatever: closed by its user, it waits for eight seconds in FIN_WAIT_1
      and goes on to TIME_WAIT, unless the attempt to send the reset fails for another reason than that nobody is
      there. */
  lemma NobodyThere(e: Endpoint, v: VisitEnv)
    requires e.phase.Live? && e.sock.Shaped() && IsEmptyIp(e.sock.id.dstIp) && (v.close ==> e.closesLeft > 0)
    requires !e.sock.state.SynSent?
    ensures VisitOf(e, v).1 == []
    ensures var s' := VisitOf(e, v).0.sock;
            && (v.close ==>
                  s' == e.sock.(state := FinWait1, sndBase := e.sock.sndBase + |e.sock.sendQ|, finSent := v.now))
            && (!v.close && e.sock.state.FinWait1? ==>
                  s' == e.sock.(state := if v.now - e.sock.finSent > 8_000_000 && !v.rstSend.SendFailed? then TimeWait
                                         else FinWait1))
  {
  }
}
