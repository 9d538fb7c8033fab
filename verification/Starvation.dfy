/** What a lost packet means for a whole run: once the next byte is a digit that no surviving packet carries, the stream
    never moves again. */
module Starvation {
  import opened Common
  import opened Packets
  import opened ReceiveWindow
  import opened Decimal
  import opened TcpWire
  import opened SocketModel
  import opened Protocol
  import opened Invariant
  import opened Safety
  import opened Lifetime
  import opened Delivery
  import opened Progress

  /** The number of the first byte the peer's reader still waits for. */
  function Wanted(sys: Sys, side: Side): int {
    sys.At(side).isn + |sys.At(side.Other()).delivered|
  }

  /** No packet sent so far that can survive the wire carries the byte the reader waits for. */
  predicate Unreachable(sys: Sys, side: Side, wild: int -> int) {
    forall p :: p in sys.From(side) && Covers(p.seqNum, p.data, Wanted(sys, side)) ==> LostOnWire(p, wild)
  }

  /** The reader waits for a digit that is the first byte of the queue, has not arrived, and is on no packet that can
      arrive; or the sender has left the data phase in this condition. */
  predicate Stuck(sys: Sys, side: Side, wild: int -> int) {
    var x, y := sys.At(side), sys.At(side.Other());
    && (IsEstablished(x) || PastData(x))
    && |y.delivered| < |x.accepted| && IsDigit(x.accepted[|y.delivered|])
    && (IsEstablished(x) ==> x.sock.sndBase == Wanted(sys, side))
    && (IsEstablished(y) ==> y.sock.recv.Sized() && !y.sock.recv.valid[0])
    && Unreachable(sys, side, wild)
  }

  /** The wire of the tcp text: what is lost on it is not delivered to the peer; and while the side may send, its
      checksum is short and, with the digits behind it, still an int. */
  predicate OnShortWire(sys: Sys, step: Step, side: Side, wild: int -> int) {
    && (step.Deliver? && step.to == side.Other() ==> !LostOnWire(step.p, wild))
    && (step.Visit? && step.side == side && IsEstablished(sys.At(side)) ==>
          var p := DataPacket(sys.At(side).sock); p.checksum < 1_000_000_000 && FitsInt(Reread(p)))
  }

  predicate AllOnShortWire(sys: Sys, steps: seq<Step>, side: Side, wild: int -> int)
    requires ValidRun(sys, steps)
    decreases |steps|
  {
    steps == [] ||
    (OnShortWire(sys, steps[0], side, wild) && AllOnShortWire(Next(sys, steps[0]), steps[1..], side, wild))
  }

  // ---------------------------------------------------------------- the receiver

  lemma StillMissing(w: Window, seqNum: int, data: string, room: int)
    requires w.Sized() && !w.valid[0] && !Covers(seqNum, data, w.base)
    ensures var (w', out) := Receive(w, seqNum, data, room); out == "" && w'.base == w.base && !w'.valid[0]
  {
  }

  lemma ReceiverWaits(me: Endpoint, side: Side, id: Id, peer: Endpoint, p: Packet, env: Env, replySent: bool)
    requires Arriving(me, side, id, peer, p)
    requires IsEstablished(me) ==> !me.sock.recv.valid[0] && !Covers(p.seqNum, p.data, me.sock.recv.base)
    ensures var e := DeliverTo(me, p, env, replySent).0;
            e.delivered == me.delivered && (IsEstablished(e) ==> e.sock.recv.Sized() && !e.sock.recv.valid[0])
  {
    hide Consistent, PacketOk, Receive;
    PacketDescends(me.sock, p, me.sock.id.srcIp, env);
    if IsEstablished(me) {
      var s1 := if p.flags.ack then Acknowledge(me.sock, p.ackNum) else me.sock;
      assert s1.recv == me.sock.recv;
      StillMissing(me.sock.recv, p.seqNum, p.data, env.room);
    }
  }

  lemma ReceiverVisit(e: Endpoint, v: VisitEnv)
    requires e.phase.Live? && e.sock.Shaped() && (v.close ==> e.closesLeft > 0)
    ensures var e' := VisitOf(e, v).0;
            && e'.delivered == e.delivered && e'.sock.recv == e.sock.recv
            && (IsEstablished(e') ==> IsEstablished(e))
  {
  }

  // ---------------------------------------------------------------- the sender

  /** What a visit sends with data is the next data packet. */
  lemma SenderVisit(e: Endpoint, v: VisitEnv, p: Packet)
    requires e.phase.Live? && e.sock.Shaped() && (v.close ==> e.closesLeft > 0)
    requires p in VisitOf(e, v).1 && p.data != ""
    ensures IsEstablished(e) && p == DataPacket(e.sock)
  {
  }

  lemma RepliesCarryNothing(e: Endpoint, q: Packet, env: Env, replySent: bool, p: Packet)
    requires e.sock.Shaped() && p in DeliverTo(e, q, env, replySent).1
    ensures p.data == ""
  {
  }

  /** The packet a stuck side sends next is lost as well. */
  lemma NextIsLost(me: Endpoint, side: Side, id: Id, peer: Endpoint, wild: int -> int)
    requires Before(me, side, id, peer) && me.sock.state.Established?
    requires |peer.delivered| < |me.accepted| && IsDigit(me.accepted[|peer.delivered|])
    requires me.sock.sndBase == me.isn + |peer.delivered|
    requires var p := DataPacket(me.sock); p.checksum < 1_000_000_000 && FitsInt(Reread(p))
    ensures LostOnWire(DataPacket(me.sock), wild)
  {
    hide PeerOk, Reread;
    NextDataCut(me);
    assert me.sock.sendQ[0] == me.accepted[|peer.delivered|];
  }

  /** A side that has been ESTABLISHED is ESTABLISHED or past it. */
  lemma StaysOrLeaves(sys: Sys, step: Step, side: Side)
    requires Inv(sys) && Enabled(sys, step) && (IsEstablished(sys.At(side)) || PastData(sys.At(side)))
    ensures IsEstablished(Next(sys, step).At(side)) || PastData(Next(sys, step).At(side))
    ensures IsEstablished(Next(sys, step).At(side)) ==> IsEstablished(sys.At(side))
  {
    hide Inv, VisitOf, DeliverTo, Next;
    if PastData(sys.At(side)) {
      PastStep(sys, step, side);
    } else {
      NextAt(sys, step, side);
      var e := sys.At(side);
      if step.Visit? && step.side == side {
        LeavesByVisit(e, step.visit);
      } else if step.Deliver? && step.to == side {
        PacketDescends(e.sock, step.p, e.sock.id.srcIp, step.env);
        LeavesByPacket(e, step.p, step.env, step.replySent);
      }
    }
  }

  lemma LeavesByVisit(e: Endpoint, v: VisitEnv)
    requires IsEstablished(e) && e.sock.Shaped() && (v.close ==> e.closesLeft > 0)
    ensures IsEstablished(VisitOf(e, v).0) || PastData(VisitOf(e, v).0)
  {
  }

  lemma LeavesByPacket(e: Endpoint, p: Packet, env: Env, replySent: bool)
    requires IsEstablished(e) && e.sock.Shaped()
    ensures var e' := DeliverTo(e, p, env, replySent).0; IsEstablished(e') || PastData(e')
  {
    PacketDescends(e.sock, p, e.sock.id.srcIp, env);
  }

  // ---------------------------------------------------------------- one step

  lemma NewPackets(sys: Sys, step: Step, side: Side, p: Packet)
    requires Enabled(sys, step) && p in Next(sys, step).From(side) && p !in sys.From(side) && p.data != ""
    ensures step.Visit? && step.side == side && IsEstablished(sys.At(side)) && p == DataPacket(sys.At(side).sock)
  {
    hide VisitOf, DeliverTo;
    match step
    case Connect(isn, now) =>
    case Spawn(q, env) =>
    case Visit(s, v) => SenderVisit(sys.At(side), v, p);
    case Deliver(to, q, env, replySent) => RepliesCarryNothing(sys.At(side), q, env, replySent, p);
  }

  lemma ReaderStep(sys: Sys, step: Step, side: Side, wild: int -> int)
    requires Inv(sys) && Enabled(sys, step) && Stuck(sys, side, wild) && OnShortWire(sys, step, side, wild)
    ensures var y' := Next(sys, step).At(side.Other());
            && y'.delivered == sys.At(side.Other()).delivered
            && (IsEstablished(y') ==> y'.sock.recv.Sized() && !y'.sock.recv.valid[0])
  {
    var other := side.Other();
    var y := sys.At(other);
    hide Inv, VisitOf, DeliverTo, LostOnWire;
    NextAt(sys, step, other);
    if step.Visit? && step.side == other {
      ReceiverVisit(y, step.visit);
    } else if step.Deliver? && step.to == other {
      PacketArrives(sys, other, step.p);
      assert side == other.Other();
      if IsEstablished(y) {
        assert y.sock.recv.base == Wanted(sys, side);
      }
      ReceiverWaits(y, other, sys.IdOf(other), sys.At(side), step.p, step.env, step.replySent);
    }
  }

  lemma StillUnreachable(sys: Sys, step: Step, side: Side, wild: int -> int)
    requires Inv(sys) && Enabled(sys, step) && Stuck(sys, side, wild) && OnShortWire(sys, step, side, wild)
    requires Wanted(Next(sys, step), side) == Wanted(sys, side)
    ensures Unreachable(Next(sys, step), side, wild)
  {
    var next := Next(sys, step);
    hide Inv, VisitOf, DeliverTo, Next, Enabled, LostOnWire, Before, Reread;
    forall p | p in next.From(side) && Covers(p.seqNum, p.data, Wanted(next, side)) ensures LostOnWire(p, wild) {
      if p !in sys.From(side) {
        NewPackets(sys, step, side, p);
        SideBefore(sys, side);
        NextIsLost(sys.At(side), side, sys.IdOf(side), sys.At(side.Other()), wild);
      }
    }
  }

  lemma StuckStep(sys: Sys, step: Step, side: Side, wild: int -> int)
    requires Inv(sys) && Enabled(sys, step) && Stuck(sys, side, wild) && OnShortWire(sys, step, side, wild)
    ensures Inv(Next(sys, step)) && Stuck(Next(sys, step), side, wild)
    ensures Next(sys, step).At(side.Other()).delivered == sys.At(side.Other()).delivered
    ensures Wanted(Next(sys, step), side) == Wanted(sys, side)
  {
    var next := Next(sys, step);
    ReaderStep(sys, step, side, wild);
    NotIdle(sys, side);
    hide Inv, Next, Enabled, OnShortWire, Unreachable, Stuck, IsEstablished, PastData;
    StepOk(sys, step);
    StaysOrLeaves(sys, step, side);
    StepForward(sys, step, side);
    StillUnreachable(sys, step, side, wild);
    if IsEstablished(next.At(side)) {
      SenderBase(next, side);
    }
    StuckStays(sys, next, side, wild);
  }

  lemma NotIdle(sys: Sys, side: Side)
    requires Inv(sys) && (IsEstablished(sys.At(side)) || PastData(sys.At(side)))
    ensures !sys.At(side).phase.Idle?
  {
    hide Inv;
  }

  /** What the parts of a step amount to. */
  lemma StuckStays(sys: Sys, next: Sys, side: Side, wild: int -> int)
    requires Stuck(sys, side, wild) && Unreachable(next, side, wild)
    requires Forward(sys.At(side), next.At(side))
    requires next.At(side.Other()).delivered == sys.At(side.Other()).delivered
    requires IsEstablished(next.At(side)) || PastData(next.At(side))
    requires IsEstablished(next.At(side)) ==> IsEstablished(sys.At(side))
    requires IsEstablished(next.At(side)) ==> next.At(side).sock.sndBase <= Wanted(next, side)
    requires var y := next.At(side.Other()); IsEstablished(y) ==> y.sock.recv.Sized() && !y.sock.recv.valid[0]
    ensures Stuck(next, side, wild)
  {
    hide Unreachable, PastData, IsEstablished;
  }

  /** Its base never passes what the reader has been handed. */
  lemma SenderBase(sys: Sys, side: Side)
    requires Inv(sys) && IsEstablished(sys.At(side))
    ensures sys.At(side).sock.sndBase <= Wanted(sys, side)
  {
    assert SideOk(sys, side);
  }

  // ---------------------------------------------------------------- whole runs

  lemma {:induction false} StuckRun(sys: Sys, steps: seq<Step>, side: Side, wild: int -> int)
    requires Inv(sys) && ValidRun(sys, steps) && Stuck(sys, side, wild) && AllOnShortWire(sys, steps, side, wild)
    ensures Inv(Exec(sys, steps)) && Stuck(Exec(sys, steps), side, wild)
    ensures Exec(sys, steps).At(side.Other()).delivered == sys.At(side.Other()).delivered
    ensures Wanted(Exec(sys, steps), side) == Wanted(sys, side)
    decreases |steps|
  {
    hide Inv, Next, Enabled, Stuck, OnShortWire, Wanted;
    if steps != [] {
      StuckStep(sys, steps[0], side, wild);
      StuckRun(Next(sys, steps[0]), steps[1..], side, wild);
    }
  }

  /** Stuck for good: from a reachable stuck state, however often the side retransmits and whatever else happens on the
      wire, the reader is handed nothing more and the sender's base does not move. */
  lemma StuckForGood(init: Sys, before: seq<Step>, after: seq<Step>, side: Side, wild: int -> int)
    requires Init(init) && ValidRun(init, before) && ValidRun(Exec(init, before), after)
    requires Stuck(Exec(init, before), side, wild) && AllOnShortWire(Exec(init, before), after, side, wild)
    ensures var sys, end := Exec(init, before), Exec(Exec(init, before), after);
            && end.At(side.Other()).delivered == sys.At(side.Other()).delivered
            && (IsEstablished(end.At(side)) ==> end.At(side).sock.sndBase == Wanted(sys, side))
            && Stuck(end, side, wild)
  {
    hide Init, Inv, ValidRun, Exec, AllOnShortWire, Unreachable;
    Reached(init, before, side);
    StuckRun(Exec(init, before), after, side, wild);
  }

  /** How a side gets stuck: with everything acknowledged, it takes bytes from its writer, the first of which is a
      digit. */
  lemma DigitSticks(init: Sys, before: seq<Step>, side: Side, v: VisitEnv, wild: int -> int)
    requires Init(init) && ValidRun(init, before)
    requires IsEstablished(Exec(init, before).At(side)) && Exec(init, before).At(side).sock.sendQ == ""
    requires v.offered != "" && IsDigit(v.offered[0]) && !v.close && Enabled(Exec(init, before), Visit(side, v))
    ensures Stuck(Next(Exec(init, before), Visit(side, v)), side, wild)
  {
    hide Init, Inv, ValidRun, Exec, LostOnWire;
    var sys := Exec(init, before);
    Reached(init, before, side);
    AcknowledgedMeansDelivered(init, before, side);
    DeliveredIsPrefix(init, before, side.Other());
    var x, y := sys.At(side), sys.At(side.Other());
    assert |y.delivered| == |x.accepted|;
    NextAt(sys, Visit(side, v), side);
    NextAt(sys, Visit(side, v), side.Other());
    TakesDigit(x, v);
    var next := Next(sys, Visit(side, v));
    hide VisitOf, Next;
    forall p | p in next.From(side) ensures !Covers(p.seqNum, p.data, Wanted(next, side)) {
      if p !in sys.From(side) && p.data != "" {
        NewPackets(sys, Visit(side, v), side, p);
      }
      assert p in sys.From(side) ==> PacketOk(x, side, sys.IdOf(side), y, p);
    }
  }

  lemma TakesDigit(e: Endpoint, v: VisitEnv)
    requires IsEstablished(e) && e.sock.Shaped() && e.sock.sendQ == "" && !v.close && v.offered != ""
    ensures var e' := VisitOf(e, v).0;
            && IsEstablished(e') && e'.isn == e.isn && e'.sock.sndBase == e.sock.sndBase
            && e.accepted < e'.accepted && e'.accepted[|e.accepted|] == v.offered[0]
  {
  }
}
