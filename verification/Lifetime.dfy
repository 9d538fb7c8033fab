/** Sockets come to an end: every change of state uses up a bounded measure, the data phase is never re-entered, and
    a socket its user has closed is removed after at most three visits that find a timer expired. */
module Lifetime {
  import opened Common
  import opened Packets
  import opened ReceiveWindow
  import opened SocketModel
  import opened Protocol
  import opened Invariant
  import opened Safety

  // ---------------------------------------------------------------- bounded changes of state

  /** Lexicographic pair (closes left, distance to CLOSED), as one number. */
  function Life(e: Endpoint): nat {
    if e.phase.Live? then 11 * e.closesLeft + Distance(e.sock.state) else 0
  }

  /** Neither packets, genuine or not, nor visits let a socket change state without using up some of its life. */
  lemma DeliverUsesLife(e: Endpoint, p: Packet, env: Env, replySent: bool)
    requires e.phase.Live? && e.sock.Shaped()
    ensures var e' := DeliverTo(e, p, env, replySent).0;
            e'.phase.Live? && Life(e') <= Life(e) && (e'.sock.state != e.sock.state ==> Life(e') < Life(e))
  {
    PacketDescends(e.sock, p, e.sock.id.srcIp, env);
  }

  lemma VisitUsesLife(e: Endpoint, v: VisitEnv)
    requires e.phase.Live? && e.sock.Shaped() && (v.close ==> e.closesLeft > 0)
    ensures var e' := VisitOf(e, v).0;
            Life(e') <= Life(e) && (e'.sock.state != e.sock.state || !e'.phase.Live? ==> Life(e') < Life(e))
  {
    var e1 := if v.close then CloseBy(e, v.now) else e;
    var e2 := Reap(e1, v.now);
    assert Life(e1) <= Life(e) && (v.close ==> Life(e1) < Life(e));
    if e2.phase.Live? {
      var e3 := Transmit(e2, v).0;
      StatusDescends(e3.sock, v);
    }
  }

  /** How often a side's state changes in a run; being set up does not count. */
  function StateChanges(sys: Sys, steps: seq<Step>, side: Side): nat
    requires ValidRun(sys, steps)
    decreases |steps|
  {
    if steps == [] then 0
    else
      var next := Next(sys, steps[0]);
      (if !sys.At(side).phase.Idle? && next.At(side).sock.state != sys.At(side).sock.state then 1 else 0)
      + StateChanges(next, steps[1..], side)
  }

  lemma StepUsesLife(sys: Sys, step: Step, side: Side)
    requires Enabled(sys, step) && !sys.At(side).phase.Idle?
    ensures var e, e' := sys.At(side), Next(sys, step).At(side);
            && !e'.phase.Idle? && Life(e') <= Life(e)
            && (e'.sock.state != e.sock.state ==> Life(e') < Life(e))
  {
    NextAt(sys, step, side);
    if step.Visit? && step.side == side {
      VisitUsesLife(sys.At(side), step.visit);
    } else if step.Deliver? && step.to == side {
      DeliverUsesLife(sys.At(side), step.p, step.env, step.replySent);
    }
  }

  /** The lifetime measure over whole runs: at most Life(start) changes of state, so at most 20 for a socket that
      has just been connected. */
  lemma {:induction false} StateChangesBounded(sys: Sys, steps: seq<Step>, side: Side)
    requires ValidRun(sys, steps) && !sys.At(side).phase.Idle?
    ensures StateChanges(sys, steps, side) + Life(Exec(sys, steps).At(side)) <= Life(sys.At(side))
    decreases |steps|
  {
    if steps != [] {
      StepUsesLife(sys, steps[0], side);
      StateChangesBounded(Next(sys, steps[0]), steps[1..], side);
    }
  }

  /** ESTABLISHED is never re-entered. */
  lemma {:induction false} NeverEstablishedAgain(sys: Sys, steps: seq<Step>, side: Side)
    requires Inv(sys) && ValidRun(sys, steps) && PastData(sys.At(side))
    ensures PastData(Exec(sys, steps).At(side)) && !IsEstablished(Exec(sys, steps).At(side))
    ensures Exec(sys, steps).At(side).accepted == sys.At(side).accepted
    decreases |steps|
  {
    if steps != [] {
      StepOk(sys, steps[0]);
      PastStep(sys, steps[0], side);
      NeverEstablishedAgain(Next(sys, steps[0]), steps[1..], side);
    }
  }

  lemma PastStep(sys: Sys, step: Step, side: Side)
    requires Enabled(sys, step) && PastData(sys.At(side))
    ensures PastData(Next(sys, step).At(side)) && Next(sys, step).At(side).accepted == sys.At(side).accepted
  {
    NextAt(sys, step, side);
    var e := sys.At(side);
    if step.Visit? && step.side == side {
      PastVisit(e, step.visit);
    } else if step.Deliver? && step.to == side {
      PacketDescends(e.sock, step.p, e.sock.id.srcIp, step.env);
    }
  }

  lemma PastVisit(e: Endpoint, v: VisitEnv)
    requires e.phase.Live? && e.sock.Shaped() && (v.close ==> e.closesLeft > 0) && Past(e.sock.state)
    ensures PastData(VisitOf(e, v).0) && VisitOf(e, v).0.accepted == e.accepted
  {
    var e1 := if v.close then CloseBy(e, v.now) else e;
    StatusDescends(Transmit(Reap(e1, v.now), v).0.sock, v);
  }

  // ---------------------------------------------------------------- a closed socket is removed

  /** Timers still to expire for a socket its user has closed. */
  function Rank(e: Endpoint): nat {
    if e.phase.Gone? then 0
    else match e.sock.state
      case Closed => 1
      case TimeWait => 2
      case _ => 3
  }

  /** A visit that finds the timer of the socket's state expired; before TIME_WAIT its reset must also go out. */
  predicate Ripe(e: Endpoint, v: VisitEnv) {
    match e.sock.state
    case Closed => Elapsed(v.now, e.sock.created, SOCKET_TIMEOUT)
    case TimeWait => Elapsed(v.now, e.sock.lastSend, TIME_WAIT_TIMEOUT)
    case _ => Elapsed(v.now, e.sock.finSent, FIN_RST_TIME) && v.rstSend.Sent?
  }

  function RipeVisits(sys: Sys, steps: seq<Step>, side: Side): nat
    requires ValidRun(sys, steps)
    decreases |steps|
  {
    if steps == [] then 0
    else
      (if steps[0].Visit? && steps[0].side == side && Ripe(sys.At(side), steps[0].visit) then 1 else 0)
      + RipeVisits(Next(sys, steps[0]), steps[1..], side)
  }

  lemma ClosedByUserVisit(me: Endpoint, side: Side, id: Id, peer: Endpoint, v: VisitEnv)
    requires Before(me, side, id, peer) && me.closesLeft == 0 && !v.close
    ensures var e := VisitOf(me, v).0; !e.phase.Idle? && e.closesLeft == 0 && Rank(e) <= Rank(me)
    ensures Ripe(me, v) ==> Rank(VisitOf(me, v).0) == Rank(me) - 1
  {
    hide Consistent, PacketOk;
    assert AfterClose(me.sock.state);
    assert me.sock.state.Closing? ==> !IsEmptyIp(me.sock.id.dstIp);
  }

  lemma ClosedByUserDeliver(me: Endpoint, side: Side, id: Id, peer: Endpoint, p: Packet, env: Env, replySent: bool)
    requires Arriving(me, side, id, peer, p) && me.closesLeft == 0
    ensures var e := DeliverTo(me, p, env, replySent).0; e.closesLeft == 0 && e.phase.Live? && Rank(e) <= Rank(me)
  {
    hide Receive, Consistent, Acknowledge;
    PacketDescends(me.sock, p, me.sock.id.srcIp, env);
    DeliverOk(me, side, id, peer, p, env, replySent);
  }

  lemma ClosedByUserStep(sys: Sys, step: Step, side: Side)
    requires Inv(sys) && Enabled(sys, step)
    requires !sys.At(side).phase.Idle? && sys.At(side).closesLeft == 0
    ensures var e, e' := sys.At(side), Next(sys, step).At(side);
            && !e'.phase.Idle? && e'.closesLeft == 0 && Rank(e') <= Rank(e)
            && (step.Visit? && step.side == side && Ripe(e, step.visit) ==> Rank(e') == Rank(e) - 1)
  {
    hide Inv, Before, Arriving, VisitOf, DeliverTo, Next;
    NextAt(sys, step, side);
    if step.Visit? && step.side == side {
      SideBefore(sys, side);
      ClosedByUserVisit(sys.At(side), side, sys.IdOf(side), sys.At(side.Other()), step.visit);
    } else if step.Deliver? && step.to == side {
      PacketArrives(sys, side, step.p);
      ClosedByUserDeliver(sys.At(side), side, sys.IdOf(side), sys.At(side.Other()), step.p, step.env, step.replySent);
    }
  }

  /** Every ripe visit brings removal one timer nearer, and nothing takes it back. */
  lemma {:induction false} RankFalls(sys: Sys, steps: seq<Step>, side: Side)
    requires Inv(sys) && ValidRun(sys, steps)
    requires !sys.At(side).phase.Idle? && sys.At(side).closesLeft == 0
    ensures var e := Exec(sys, steps).At(side);
            && !e.phase.Idle? && Rank(e) + RipeVisits(sys, steps, side) <= Rank(sys.At(side))
    decreases |steps|
  {
    hide Inv, Next, Rank, Ripe;
    if steps != [] {
      StepOk(sys, steps[0]);
      ClosedByUserStep(sys, steps[0], side);
      RankFalls(Next(sys, steps[0]), steps[1..], side);
    }
  }

  /** Close terminates: after the user's close, whatever else happens on either side or in the network, as many ripe
      visits as the socket has rank, at most three, find it removed from the table. Removal.Farewell is a run that
      makes exactly that many. */
  lemma CloseTerminates(init: Sys, before: seq<Step>, after: seq<Step>, side: Side)
    requires Init(init) && ValidRun(init, before) && ValidRun(Exec(init, before), after)
    requires !Exec(init, before).At(side).phase.Idle? && Exec(init, before).At(side).closesLeft == 0
    requires RipeVisits(Exec(init, before), after, side) >= Rank(Exec(init, before).At(side))
    ensures Exec(Exec(init, before), after).At(side).phase.Gone?
    ensures Rank(Exec(init, before).At(side)) <= 3
  {
    hide Init, ValidRun, Exec, Inv, RipeVisits;
    Reached(init, before, side);
    RankFalls(Exec(init, before), after, side);
  }
}
