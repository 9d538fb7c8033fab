/** The safety theorems: what is true at the end of every run from the initial state, hence at every moment of
    every run. */
module Safety {
  import opened Common
  import opened Packets
  import opened ReceiveWindow
  import opened SocketModel
  import opened Protocol
  import opened Invariant

  lemma Reached(init: Sys, steps: seq<Step>, side: Side)
    requires Init(init) && ValidRun(init, steps)
    ensures Inv(Exec(init, steps)) && SideOk(Exec(init, steps), side) && SideOk(Exec(init, steps), side.Other())
  {
    InitOk(init);
    RunOk(init, steps);
  }

  // ---------------------------------------------------------------- the byte streams

  /** Reliable, ordered delivery: whatever is lost, repeated, reordered or closed, each reader has been handed a
      prefix of what the peer's writer handed over. */
  lemma DeliveredIsPrefix(init: Sys, steps: seq<Step>, side: Side)
    requires Init(init) && ValidRun(init, steps)
    ensures Exec(init, steps).At(side).delivered <= Exec(init, steps).At(side.Other()).accepted
  {
    hide Init, Inv, PacketsOk, ValidRun, Exec;
    Reached(init, steps, side);
  }

  /** A byte leaves the send queue only after it was written to the peer's reader, and the peer's base never runs
      ahead of what was accepted. */
  lemma AcknowledgedMeansDelivered(init: Sys, steps: seq<Step>, side: Side)
    requires Init(init) && ValidRun(init, steps)
    requires Exec(init, steps).At(side).sock.state.Established? && Exec(init, steps).At(side).phase.Live?
    ensures var x := Exec(init, steps).At(side); var y := Exec(init, steps).At(side.Other());
            && x.isn <= x.sock.sndBase <= x.isn + |x.accepted|
            && x.accepted[..x.sock.sndBase - x.isn] <= y.delivered
            && (y.phase.Live? && y.sock.state.Established? ==>
                  x.sock.sndBase <= y.sock.recv.base <= x.isn + |x.accepted|)
  {
    hide Init, Inv, PacketsOk, ValidRun, Exec;
    Reached(init, steps, side);
    var x := Exec(init, steps).At(side);
    var y := Exec(init, steps).At(side.Other());
    var n := x.sock.sndBase - x.isn;
    assert y.delivered == x.accepted[..|y.delivered|];
    assert x.accepted[..n] == y.delivered[..n];
  }

  /** Nothing is lost between the writer and the queue: the queue is the unacknowledged end of the stream. */
  lemma QueueIsUnacknowledged(init: Sys, steps: seq<Step>, side: Side)
    requires Init(init) && ValidRun(init, steps)
    requires Exec(init, steps).At(side).sock.state.Established? && Exec(init, steps).At(side).phase.Live?
    ensures var x := Exec(init, steps).At(side);
            && x.isn <= x.sock.sndBase <= x.isn + |x.accepted|
            && x.accepted == x.accepted[..x.sock.sndBase - x.isn] + x.sock.sendQ
            && x.sock.sndBase + |x.sock.sendQ| == x.isn + |x.accepted|
  {
    hide Init, Inv, PacketsOk, ValidRun, Exec;
    Reached(init, steps, side);
  }

  /** Every data packet ever sent, first time or again, is a short stretch of the stream at its number. */
  lemma SegmentIsStretch(init: Sys, steps: seq<Step>, side: Side, p: Packet)
    requires Init(init) && ValidRun(init, steps)
    requires p in Exec(init, steps).From(side) && p.data != ""
    ensures var x := Exec(init, steps).At(side);
            |p.data| <= MAX_DATA && CutFrom(p.seqNum, p.data, x.isn, x.accepted) && p.flags == ACK
  {
    hide Init, Inv, ValidRun, Exec, LocalOk, PeerOk;
    Reached(init, steps, side);
    var sys := Exec(init, steps);
    assert PacketOk(sys.At(side), side, sys.IdOf(side), sys.At(side.Other()), p);
  }

  /** No data packet ever starts past what the peer's reader has been handed: nothing is sent behind a gap. */
  lemma SegmentMeetsReader(init: Sys, steps: seq<Step>, side: Side, p: Packet)
    requires Init(init) && ValidRun(init, steps)
    requires p in Exec(init, steps).From(side) && p.data != ""
    ensures p.seqNum <= Exec(init, steps).At(side).isn + |Exec(init, steps).At(side.Other()).delivered|
  {
    hide Init, Inv, ValidRun, Exec, LocalOk, PeerOk;
    Reached(init, steps, side);
    var sys := Exec(init, steps);
    assert PacketOk(sys.At(side), side, sys.IdOf(side), sys.At(side.Other()), p);
  }

  /** Overlapping packets carry the same bytes where they overlap. */
  lemma OverlapsAgree(init: Sys, steps: seq<Step>, side: Side, p: Packet, q: Packet, at: int)
    requires Init(init) && ValidRun(init, steps)
    requires p in Exec(init, steps).From(side) && q in Exec(init, steps).From(side)
    requires Covers(p.seqNum, p.data, at) && Covers(q.seqNum, q.data, at)
    ensures p.data[at - p.seqNum] == q.data[at - q.seqNum]
  {
    hide Init, ValidRun, Exec;
    var x := Exec(init, steps).At(side);
    SegmentIsStretch(init, steps, side, p);
    SegmentIsStretch(init, steps, side, q);
    assert p.data[at - p.seqNum] == x.accepted[at - x.isn] == q.data[at - q.seqNum];
  }

  // ---------------------------------------------------------------- handshake

  predicate IsEstablished(e: Endpoint) {
    e.phase.Live? && e.sock.state.Established?
  }

  /** On entering ESTABLISHED each side expects exactly the other's first byte and will send its own first byte,
      nothing has flowed yet in either direction of this socket, and the server enters only after its client. */
  lemma HandshakeAgrees(init: Sys, steps: seq<Step>, step: Step, side: Side)
    requires Init(init) && ValidRun(init, steps) && Enabled(Exec(init, steps), step)
    requires !IsEstablished(Exec(init, steps).At(side)) && IsEstablished(Next(Exec(init, steps), step).At(side))
    ensures var sys := Next(Exec(init, steps), step); var me := sys.At(side); var peer := sys.At(side.Other());
            && !peer.phase.Idle?
            && me.sock.recv.base == peer.isn && me.sock.sndBase == me.isn
            && me.accepted == "" && me.delivered == "" && me.sock.sendQ == ""
            && (side.Server? ==> sys.client.everEstablished)
  {
    Reached(init, steps, side);
    var sys := Exec(init, steps);
    hide Inv, Init, SideOk, ValidRun, Exec, VisitOf, DeliverTo, Arriving, Next;
    NextAt(sys, step, side);
    if step.Visit? && step.side == side {
      VisitNeverOpens(sys.At(side), step.visit);
    } else if step.Deliver? && step.to == side {
      PacketArrives(sys, side, step.p);
      EntersEstablished(sys.At(side), side, sys.IdOf(side), sys.At(side.Other()), step.p, step.env, step.replySent);
      NextAt(sys, step, side.Other());
    }
  }

  lemma VisitNeverOpens(e: Endpoint, v: VisitEnv)
    requires e.phase.Live? && e.sock.Shaped() && (v.close ==> e.closesLeft > 0) && !e.sock.state.Established?
    ensures !VisitOf(e, v).0.sock.state.Established?
  {
  }

  lemma EntersEstablished(me: Endpoint, side: Side, id: Id, peer: Endpoint, p: Packet, env: Env, replySent: bool)
    requires Arriving(me, side, id, peer, p) && !me.sock.state.Established?
    requires DeliverTo(me, p, env, replySent).0.sock.state.Established?
    ensures var e := DeliverTo(me, p, env, replySent).0;
            && e.sock.recv.base == peer.isn && e.sock.sndBase == me.isn
            && e.accepted == "" && e.delivered == "" && e.sock.sendQ == ""
            && e.isn == me.isn && !peer.phase.Idle?
            && (side.Server? ==> peer.everEstablished)
  {
  }

  // ---------------------------------------------------------------- closing

  /** FIN_WAIT_2, which no timer leaves, is never a resting state. */
  lemma NeverFinWait2(init: Sys, steps: seq<Step>, side: Side)
    requires Init(init) && ValidRun(init, steps)
    ensures !Exec(init, steps).At(side).sock.state.FinWait2?
  {
    Reached(init, steps, side);
    assert Exec(init, steps).At(side).phase.Idle? ==> Exec(init, steps).At(side) == init.At(side) by {
      IdleUntouched(init, steps, side);
    }
  }

  lemma {:induction false} IdleUntouched(sys: Sys, steps: seq<Step>, side: Side)
    requires ValidRun(sys, steps)
    ensures Exec(sys, steps).At(side).phase.Idle? ==> Exec(sys, steps).At(side) == sys.At(side)
    decreases |steps|
  {
    if steps != [] {
      IdleUntouched(Next(sys, steps[0]), steps[1..], side);
      IdleStep(sys, steps[0], side);
    }
  }

  lemma IdleStep(sys: Sys, step: Step, side: Side)
    requires Enabled(sys, step)
    ensures Next(sys, step).At(side).phase.Idle? ==> Next(sys, step).At(side) == sys.At(side)
  {
    match step
    case Connect(isn, now) =>
    case Spawn(p, env) =>
    case Visit(s, v) =>
    case Deliver(to, p, env, replySent) =>
  }

  /** FIN safety: a packet ends FIN_WAIT_1 in TIME_WAIT only if the peer has processed this side's very FIN. */
  lemma FinReallyAcknowledged(init: Sys, steps: seq<Step>, to: Side, p: Packet, env: Env, replySent: bool)
    requires Init(init) && ValidRun(init, steps)
    requires Enabled(Exec(init, steps), Deliver(to, p, env, replySent))
    requires Exec(init, steps).At(to).sock.state.FinWait1?
    requires Next(Exec(init, steps), Deliver(to, p, env, replySent)).At(to).sock.state.TimeWait?
    ensures var sys := Exec(init, steps);
            sys.At(to).sock.sndBase in sys.At(to.Other()).finsSeen && p.ackNum == sys.At(to).sock.sndBase + 1
  {
    Reached(init, steps, to);
    var sys := Exec(init, steps);
    NextAt(sys, Deliver(to, p, env, replySent), to);
    PacketArrives(sys, to, p);
    FinAcknowledged(sys.At(to), to, sys.IdOf(to), sys.At(to.Other()), p, env, replySent);
  }

  lemma FinAcknowledged(me: Endpoint, side: Side, id: Id, peer: Endpoint, p: Packet, env: Env, replySent: bool)
    requires Arriving(me, side, id, peer, p) && me.sock.state.FinWait1?
    requires DeliverTo(me, p, env, replySent).0.sock.state.TimeWait?
    ensures me.sock.sndBase in peer.finsSeen && p.ackNum == me.sock.sndBase + 1
  {
  }

  /** At most one of the two sides is ever ended by the other's FIN, and then the other has left the data phase. */
  lemma OneSideClosesFirst(init: Sys, steps: seq<Step>, side: Side)
    requires Init(init) && ValidRun(init, steps)
    requires Exec(init, steps).At(side).viaCloseWait
    ensures !Exec(init, steps).At(side.Other()).viaCloseWait && PastData(Exec(init, steps).At(side.Other()))
    ensures Exec(init, steps).At(side).finsSeen != {}
  {
    hide Init, ValidRun, Exec, Inv, PacketsOk;
    Reached(init, steps, side);
  }

  /** LAST_ACK is never left by an acknowledgement, only by a reset or the user's own close: the other side's
      FIN_WAIT_1 does not answer. */
  lemma LastAckLeaves(init: Sys, steps: seq<Step>, step: Step, side: Side)
    requires Init(init) && ValidRun(init, steps) && Enabled(Exec(init, steps), step)
    requires Exec(init, steps).At(side).phase.Live? && Exec(init, steps).At(side).sock.state.LastAck?
    requires !Next(Exec(init, steps), step).At(side).sock.state.LastAck?
    ensures (step.Deliver? && step.p.flags.rst && Next(Exec(init, steps), step).At(side).sock.state.Closed?)
         || (step.Visit? && step.visit.close && Next(Exec(init, steps), step).At(side).sock.state.FinWait1?)
  {
    Reached(init, steps, side);
    var sys := Exec(init, steps);
    hide Inv, Init, SideOk, ValidRun, Exec, VisitOf, DeliverTo, Next, Consistent;
    NextAt(sys, step, side);
    if step.Visit? && step.side == side {
      LastAckVisit(sys.At(side), step.visit);
    } else if step.Deliver? && step.to == side {
      PacketArrives(sys, side, step.p);
      LastAckOk(sys.At(side), side, sys.IdOf(side), sys.At(side.Other()), step.p);
    }
  }

  lemma LastAckVisit(e: Endpoint, v: VisitEnv)
    requires e.phase.Live? && e.sock.Shaped() && e.sock.state.LastAck? && (v.close ==> e.closesLeft > 0)
    ensures VisitOf(e, v).0.sock.state == if v.close then FinWait1 else LastAck
  {
  }

  // ---------------------------------------------------------------- arithmetic

  /** Every sum of calc_checksum, in its order of evaluation. */
  predicate ChecksumFits(p: Packet) {
    && FitsInt(p.srcPort + p.dstPort)
    && FitsInt(p.srcPort + p.dstPort + p.seqNum)
    && FitsInt(p.srcPort + p.dstPort + p.seqNum + p.ackNum)
    && FitsInt(p.checksum)
  }

  /** Up to three additions of the queue size (on FIN, on entering LAST_ACK, on the user's close) still leave every
      send number within two queues of the end of the stream. */
  lemma SendNumberBound(init: Sys, steps: seq<Step>, side: Side)
    requires Init(init) && ValidRun(init, steps)
    ensures var x := Exec(init, steps).At(side);
            x.sock.sndBase <= x.isn + |x.accepted| + 2 * QUEUE_CAPACITY
  {
    Reached(init, steps, side);
  }

  /** The bound: both initial numbers, both stream lengths, and a constant for ports, flags and queue bumps. */
  predicate SmallEnough(x: Endpoint, y: Endpoint) {
    x.isn + |x.accepted| + y.isn + |y.accepted| + 4 * QUEUE_CAPACITY + 200_014 <= INT_MAX
  }

  /** One explicit bound on the initial numbers and the stream lengths keeps all sequence arithmetic in 32 bits: the
      numbers and checksum of every packet ever sent, and the place in the window of every byte it carries. */
  lemma ArithmeticFits(init: Sys, steps: seq<Step>, side: Side, p: Packet, i: int)
    requires Init(init) && ValidRun(init, steps)
    requires p in Exec(init, steps).From(side)
    requires 0 <= init.id.srcPort <= 99999 && 0 <= init.id.dstPort <= 99999
    requires SmallEnough(Exec(init, steps).At(side), Exec(init, steps).At(side.Other()))
    ensures -1 <= p.seqNum <= INT_MAX && 0 <= p.ackNum <= INT_MAX && ChecksumFits(p)
    ensures 0 <= i < |p.data| ==>
              && FitsInt(p.seqNum + i)
              && FitsInt(p.seqNum + i - Exec(init, steps).At(side.Other()).sock.recv.base)
  {
    Reached(init, steps, side);
    IdStays(init, steps);
    var sys := Exec(init, steps);
    var x, y := sys.At(side), sys.At(side.Other());
    PacketFits(x, side, sys.IdOf(side), y, p);
    if 0 <= i < |p.data| {
      assert PacketOk(x, side, sys.IdOf(side), y, p);
      PlaceFits(x, side, sys.IdOf(side), y, p, i);
    }
  }

  lemma PacketFits(x: Endpoint, side: Side, id: Id, y: Endpoint, p: Packet)
    requires PacketOk(x, side, id, y, p) && SmallEnough(x, y)
    requires 0 <= x.isn && 0 <= y.isn && BumpsBounded(x)
    requires 0 <= id.srcPort <= 99999 && 0 <= id.dstPort <= 99999
    ensures -1 <= p.seqNum <= INT_MAX && 0 <= p.ackNum <= INT_MAX && ChecksumFits(p)
  {
  }

  lemma PlaceFits(x: Endpoint, side: Side, id: Id, y: Endpoint, p: Packet, i: nat)
    requires PacketOk(x, side, id, y, p) && i < |p.data| && SmallEnough(x, y)
    requires 0 <= x.isn && 0 <= y.isn && y.sock.Shaped() && PeerOk(y, x) && !y.phase.Idle?
    ensures FitsInt(p.seqNum + i) && FitsInt(p.seqNum + i - y.sock.recv.base)
  {
  }

  lemma {:induction false} IdStays(sys: Sys, steps: seq<Step>)
    requires ValidRun(sys, steps)
    ensures Exec(sys, steps).id == sys.id
    decreases |steps|
  {
    if steps != [] {
      IdStays(Next(sys, steps[0]), steps[1..]);
    }
  }
}
