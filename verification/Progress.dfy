/** Progress: as long as both ends are ESTABLISHED, every loss-free retransmit-then-acknowledge round moves the
    sender's base by a whole packet, whatever holes, stale packets or half-read windows the past has left. */
module Progress {
  import opened Common
  import opened Packets
  import opened ReceiveWindow
  import opened SocketModel
  import opened Protocol
  import opened Invariant
  import opened Safety

  /** Delivering any data packet ever sent, with a reader that takes everything, earns an acknowledgement that
      covers it, even if its sender has closed since. */
  lemma DataEarnsAck(sys: Sys, side: Side, p: Packet, env: Env)
    requires Inv(sys) && p in sys.From(side) && p.data != "" && env.room >= WINDOW_SIZE
    requires IsEstablished(sys.At(side.Other()))
    ensures var o := HandlePacket(sys.At(side.Other()).sock, p, sys.At(side.Other()).sock.id.srcIp, env);
            && o.reply.Some? && o.reply.value.flags == ACK && o.reply.value.data == ""
            && o.reply.value.ackNum >= p.seqNum + |p.data|
  {
    var x, y := sys.At(side), sys.At(side.Other());
    assert SideOk(sys, side) && SideOk(sys, side.Other());
    PacketArrives(sys, side.Other(), p);
    AckReachesEnd(x, y, side, sys.IdOf(side), p, env);
  }

  lemma AckReachesEnd(x: Endpoint, y: Endpoint, side: Side, id: Id, p: Packet, env: Env)
    requires Arriving(y, side.Other(), Mirror(id), x, p) && p.data != "" && env.room >= WINDOW_SIZE
    requires IsEstablished(y)
    ensures var o := HandlePacket(y.sock, p, y.sock.id.srcIp, env);
            && o.reply.Some? && o.reply.value.flags == ACK && o.reply.value.data == ""
            && o.reply.value.ackNum >= p.seqNum + |p.data|
  {
    var s1 := Acknowledge(y.sock, p.ackNum);
    assert p.seqNum <= x.isn + |y.delivered| == y.sock.recv.base;
    ReceiveAdvances(s1.recv, p.seqNum, p.data, env.room);
  }

  /** A pure acknowledgement moves the base up to its number, or empties the queue. */
  lemma AckMovesBase(sys: Sys, side: Side, r: Packet, env: Env, replySent: bool)
    requires Inv(sys) && IsEstablished(sys.At(side)) && r in sys.From(side.Other())
    requires r.flags == ACK && r.data == "" && Enabled(sys, Deliver(side, r, env, replySent))
    ensures Next(sys, Deliver(side, r, env, replySent)).At(side).sock.sndBase
            >= Min(r.ackNum, sys.At(side).sock.sndBase + |sys.At(side).sock.sendQ|)
  {
    NextAt(sys, Deliver(side, r, env, replySent), side);
    PacketArrives(sys, side, r);
    AckMoves(sys.At(side), r, env, replySent);
  }

  lemma AckMoves(me: Endpoint, r: Packet, env: Env, replySent: bool)
    requires me.sock.Shaped() && me.sock.state.Established?
    requires r.flags == ACK && r.data == "" && r.srcPort == me.sock.id.dstPort
    ensures var e := DeliverTo(me, r, env, replySent).0;
            e.sock.sndBase >= Min(r.ackNum, me.sock.sndBase + |me.sock.sendQ|)
  {
  }

  /** What the outside world contributes to a round, and the acknowledgement it produces. */
  datatype Plan = Plan(visit: VisitEnv, dataEnv: Env, ack: Packet, ackEnv: Env, replySent: bool)

  predicate Replies(y: Endpoint, p: Packet, env: Env, ack: Packet) {
    y.sock.Shaped() && HandlePacket(y.sock, p, y.sock.id.srcIp, env).reply == Some(ack)
  }

  /** Retransmission, its delivery, the delivery of the acknowledgement. */
  function RoundSteps(sys: Sys, side: Side, k: Plan): seq<Step> {
    [Visit(side, k.visit),
     Deliver(side.Other(), DataPacket(sys.At(side).sock), k.dataEnv, true),
     Deliver(side, k.ack, k.ackEnv, k.replySent)]
  }

  /** A loss-free round of a side with something to send. */
  predicate IsRound(sys: Sys, side: Side, k: Plan) {
    && IsEstablished(sys.At(side)) && IsEstablished(sys.At(side.Other())) && sys.At(side).sock.sendQ != ""
    && !k.visit.close && k.visit.dataSend.Sent?
    && Elapsed(k.visit.now, sys.At(side).sock.lastSend, SEND_AGAIN_TIME)
    && k.dataEnv.room >= WINDOW_SIZE
    && Replies(sys.At(side.Other()), DataPacket(sys.At(side).sock), k.dataEnv, k.ack)
    && ValidRun(sys, RoundSteps(sys, side, k))
  }

  lemma TransmitVisit(e: Endpoint, v: VisitEnv)
    requires e.phase.Live? && e.sock.Shaped() && e.sock.state.Established? && !v.close
    requires v.dataSend.Sent? && Elapsed(v.now, e.sock.lastSend, SEND_AGAIN_TIME) && !IsEmptyIp(e.sock.id.dstIp)
    ensures var (e', sent) := VisitOf(e, v);
            && DataPacket(e.sock) in sent && e'.phase.Live? && e'.sock.state.Established?
            && e'.sock.sndBase == e.sock.sndBase && e.sock.sendQ <= e'.sock.sendQ && e'.sock.id == e.sock.id
  {
    assert VisitOf(e, v).1[0] == DataPacket(e.sock);
  }

  lemma RoundUnfolds(sys: Sys, side: Side, k: Plan)
    requires ValidRun(sys, RoundSteps(sys, side, k))
    ensures var steps := RoundSteps(sys, side, k);
            && Enabled(sys, steps[0])
            && var sys1 := Next(sys, steps[0]);
            && Enabled(sys1, steps[1])
            && var sys2 := Next(sys1, steps[1]);
            && Enabled(sys2, steps[2])
            && Exec(sys, steps) == Next(sys2, steps[2])
  {
    hide Next, Enabled;
    var steps := RoundSteps(sys, side, k);
    assert steps[1..][0] == steps[1] && steps[1..][1..][0] == steps[2] && steps[1..][1..][1..] == [];
    var sys2 := Next(Next(sys, steps[0]), steps[1]);
    assert Exec(sys2, steps[1..][1..]) == Exec(Next(sys2, steps[2]), []);
  }

  /** After the retransmission the packet is in the network and both ends are as ready as before. */
  lemma RoundSends(sys: Sys, side: Side, k: Plan)
    requires Inv(sys) && IsRound(sys, side, k) && Enabled(sys, Visit(side, k.visit))
    ensures var x, p := sys.At(side), DataPacket(sys.At(side).sock);
            var sys1 := Next(sys, Visit(side, k.visit));
            && p.seqNum == x.sock.sndBase && |p.data| == Min(MAX_DATA, |x.sock.sendQ|) && p in sys1.From(side)
            && IsEstablished(sys1.At(side)) && sys1.At(side.Other()) == sys.At(side.Other())
            && sys1.At(side).sock.sndBase == x.sock.sndBase && |x.sock.sendQ| <= |sys1.At(side).sock.sendQ|
  {
    hide VisitOf, PeerOk, PacketsOk, Replies, ValidRun, UntilNul;
    var step := Visit(side, k.visit);
    NextAt(sys, step, side);
    NextAt(sys, step, side.Other());
    assert SideOk(sys, side);
    TransmitVisit(sys.At(side), k.visit);
    NextDataCut(sys.At(side));
  }

  /** Progress of one round. */
  lemma RoundAdvances(sys: Sys, side: Side, k: Plan)
    requires Inv(sys) && IsRound(sys, side, k)
    ensures var x, x' := sys.At(side), Exec(sys, RoundSteps(sys, side, k)).At(side);
            x'.sock.sndBase >= x.sock.sndBase + Min(MAX_DATA, |x.sock.sendQ|)
  {
    hide Inv, Next, HandlePacket, DataPacket;
    var x, steps := sys.At(side), RoundSteps(sys, side, k);
    RoundUnfolds(sys, side, k);
    var sys1 := Next(sys, steps[0]);
    var sys2 := Next(sys1, steps[1]);
    RoundSends(sys, side, k);
    StepOk(sys, steps[0]);
    StepOk(sys1, steps[1]);
    DataEarnsAck(sys1, side, steps[1].p, steps[1].env);
    NextAt(sys1, steps[1], side);
    AckMovesBase(sys2, side, k.ack, k.ackEnv, k.replySent);
  }

  // ---------------------------------------------------------------- draining the queue

  /** A stretch of a run: a loss-free round, or anything at all. */
  datatype Block = Round(plan: Plan) | Anything(steps: seq<Step>)

  function StepsOf(sys: Sys, side: Side, b: Block): seq<Step> {
    match b
    case Round(k) => RoundSteps(sys, side, k)
    case Anything(steps) => steps
  }

  predicate ValidBlocks(sys: Sys, side: Side, blocks: seq<Block>)
    decreases |blocks|
  {
    blocks == [] ||
    (&& ValidRun(sys, StepsOf(sys, side, blocks[0]))
     && (blocks[0].Round? ==> IsRound(sys, side, blocks[0].plan))
     && ValidBlocks(Exec(sys, StepsOf(sys, side, blocks[0])), side, blocks[1..]))
  }

  function ExecBlocks(sys: Sys, side: Side, blocks: seq<Block>): Sys
    requires ValidBlocks(sys, side, blocks)
    decreases |blocks|
  {
    if blocks == [] then sys else ExecBlocks(Exec(sys, StepsOf(sys, side, blocks[0])), side, blocks[1..])
  }

  function RoundCount(blocks: seq<Block>): nat {
    if blocks == [] then 0 else (if blocks[0].Round? then 1 else 0) + RoundCount(blocks[1..])
  }

  /** The sender's base and stream only move forward. */
  predicate Forward(x: Endpoint, x': Endpoint) {
    && !x'.phase.Idle? && x'.isn == x.isn && x.sock.sndBase <= x'.sock.sndBase
    && x.accepted <= x'.accepted
  }

  lemma StepForward(sys: Sys, step: Step, side: Side)
    requires Inv(sys) && Enabled(sys, step) && !sys.At(side).phase.Idle?
    ensures Forward(sys.At(side), Next(sys, step).At(side))
  {
    hide Inv, Before, Arriving, VisitOf, DeliverTo, Next, LocalOk, PeerOk;
    NextAt(sys, step, side);
    var me, peer, id := sys.At(side), sys.At(side.Other()), sys.IdOf(side);
    if step.Visit? && step.side == side {
      SideBefore(sys, side);
      VisitOk(me, side, id, peer, step.visit);
    } else if step.Deliver? && step.to == side {
      PacketArrives(sys, side, step.p);
      DeliverOk(me, side, id, peer, step.p, step.env, step.replySent);
    }
  }

  lemma {:induction false} RunForward(sys: Sys, steps: seq<Step>, side: Side)
    requires Inv(sys) && ValidRun(sys, steps) && !sys.At(side).phase.Idle?
    ensures Inv(Exec(sys, steps)) && Forward(sys.At(side), Exec(sys, steps).At(side))
    decreases |steps|
  {
    hide Inv, Next, Enabled;
    if steps != [] {
      StepOk(sys, steps[0]);
      StepForward(sys, steps[0], side);
      RunForward(Next(sys, steps[0]), steps[1..], side);
    }
  }

  lemma BlockForward(sys: Sys, side: Side, b: Block)
    requires Inv(sys) && ValidRun(sys, StepsOf(sys, side, b)) && !sys.At(side).phase.Idle?
    requires b.Round? ==> IsRound(sys, side, b.plan)
    ensures var next := Exec(sys, StepsOf(sys, side, b));
            && Inv(next) && Forward(sys.At(side), next.At(side))
            && (b.Round? ==> next.At(side).sock.sndBase >=
                               Min(sys.At(side).isn + |sys.At(side).accepted|, sys.At(side).sock.sndBase + MAX_DATA))
  {
    assert SideOk(sys, side);
    hide Inv, ValidRun, Exec, IsRound, PeerOk, PacketsOk;
    RunForward(sys, StepsOf(sys, side, b), side);
    if b.Round? {
      RoundAdvances(sys, side, b.plan);
    }
  }

  lemma {:induction false} RoundsAdvance(sys: Sys, side: Side, blocks: seq<Block>, target: int)
    requires Inv(sys) && ValidBlocks(sys, side, blocks) && !sys.At(side).phase.Idle?
    requires target <= sys.At(side).isn + |sys.At(side).accepted|
    ensures var x, end := sys.At(side), ExecBlocks(sys, side, blocks);
            && Inv(end) && Forward(x, end.At(side))
            && end.At(side).sock.sndBase >= Min(target, x.sock.sndBase + RoundCount(blocks) * MAX_DATA)
    decreases |blocks|
  {
    hide Inv, IsRound, StepsOf, ValidRun, Exec;
    if blocks != [] {
      BlockForward(sys, side, blocks[0]);
      RoundsAdvance(Exec(sys, StepsOf(sys, side, blocks[0])), side, blocks[1..], target);
    }
  }

  /** The queue drains: with n bytes queued, ceil(n / 128) loss-free rounds, however interleaved with other steps,
      acknowledge all n of them, and all of them have reached the peer's reader. */
  lemma QueueDrains(init: Sys, before: seq<Step>, side: Side, blocks: seq<Block>)
    requires Init(init) && ValidRun(init, before) && ValidBlocks(Exec(init, before), side, blocks)
    requires IsEstablished(Exec(init, before).At(side))
    requires IsEstablished(ExecBlocks(Exec(init, before), side, blocks).At(side))
    requires RoundCount(blocks) * MAX_DATA >= |Exec(init, before).At(side).sock.sendQ|
    ensures var sys, end := Exec(init, before), ExecBlocks(Exec(init, before), side, blocks);
            && end.At(side).sock.sndBase >= sys.At(side).isn + |sys.At(side).accepted|
            && sys.At(side).accepted <= end.At(side.Other()).delivered
  {
    hide Init, Inv, ValidBlocks, ExecBlocks, ValidRun, Exec, LocalOk;
    var sys := Exec(init, before);
    Reached(init, before, side);
    RoundsAdvance(sys, side, blocks, sys.At(side).isn + |sys.At(side).accepted|);
    QueueIsUnacknowledged(init, before, side);
    AllDelivered(sys, ExecBlocks(sys, side, blocks), side);
  }

  lemma AllDelivered(sys: Sys, end: Sys, side: Side)
    requires Inv(end) && IsEstablished(end.At(side)) && Forward(sys.At(side), end.At(side))
    requires end.At(side).sock.sndBase >= sys.At(side).isn + |sys.At(side).accepted|
    ensures sys.At(side).accepted <= end.At(side.Other()).delivered
  {
    assert SideOk(end, side) && SideOk(end, side.Other());
    ShorterPrefix(sys.At(side).accepted, end.At(side.Other()).delivered, end.At(side).accepted);
  }

  lemma ShorterPrefix(a: string, b: string, whole: string)
    requires a <= whole && b <= whole && |a| <= |b|
    ensures a <= b
  {
    assert b == whole[..|b|] && a == whole[..|a|];
  }
}
