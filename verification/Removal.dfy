/** How long a close takes on the clock of the closing process, and a run that takes exactly that long. */
module Removal {
  import opened Common
  import opened Packets
  import opened ReceiveWindow
  import opened SocketModel
  import opened Protocol
  import opened Invariant
  import opened Safety
  import opened Lifetime

  // ---------------------------------------------------------------- one side's clock

  /** Whose process takes the step. */
  predicate Acts(step: Step, side: Side) {
    match step
    case Connect(_, _) => side.Client?
    case Spawn(_, _) => side.Server?
    case Visit(s, _) => s == side
    case Deliver(to, _, _, _) => to == side
  }

  function TimeOf(step: Step): int {
    match step
    case Connect(_, now) => now
    case Spawn(_, env) => env.now
    case Visit(_, v) => v.now
    case Deliver(_, _, env, _) => env.now
  }

  /** The side's clock after a step, if it showed c before. */
  function Clock(step: Step, side: Side, c: int): int {
    if Acts(step, side) then TimeOf(step) else c
  }

  function ClockAfter(steps: seq<Step>, side: Side, c: int): int {
    if steps == [] then c else ClockAfter(steps[1..], side, Clock(steps[0], side, c))
  }

  /** The side's clock never goes back. */
  predicate Forward(steps: seq<Step>, side: Side, c: int) {
    steps == [] || (c <= Clock(steps[0], side, c) && Forward(steps[1..], side, Clock(steps[0], side, c)))
  }

  /** Every time the socket has noted lies in the past. */
  predicate Stamped(e: Endpoint, c: int) {
    e.sock.created <= c && e.sock.lastSend <= c && e.sock.finSent <= c
  }

  lemma VisitStamps(e: Endpoint, v: VisitEnv, c: int)
    requires e.sock.Shaped() && (v.close ==> e.closesLeft > 0) && Stamped(e, c) && c <= v.now
    ensures Stamped(VisitOf(e, v).0, v.now)
  {
  }

  lemma DeliverStamps(e: Endpoint, p: Packet, env: Env, replySent: bool, c: int)
    requires e.sock.Shaped() && Stamped(e, c) && c <= env.now
    ensures Stamped(DeliverTo(e, p, env, replySent).0, env.now)
  {
    hide Receive, SpawnedSock;
  }

  lemma StepStamps(sys: Sys, step: Step, side: Side, c: int)
    requires Enabled(sys, step) && Stamped(sys.At(side), c) && c <= Clock(step, side, c)
    ensures Stamped(Next(sys, step).At(side), Clock(step, side, c))
  {
    hide VisitOf, DeliverTo;
    NextAt(sys, step, side);
    match step
    case Connect(isn, now) =>
    case Spawn(p, env) =>
    case Visit(s, v) => if s == side { VisitStamps(sys.At(side), v, c); }
    case Deliver(to, p, env, replySent) => if to == side { DeliverStamps(sys.At(side), p, env, replySent, c); }
  }

  lemma {:induction false} RunStamps(sys: Sys, steps: seq<Step>, side: Side, c: int)
    requires ValidRun(sys, steps) && Stamped(sys.At(side), c) && Forward(steps, side, c)
    ensures Stamped(Exec(sys, steps).At(side), ClockAfter(steps, side, c))
    decreases |steps|
  {
    hide Next, Stamped;
    if steps != [] {
      StepStamps(sys, steps[0], side, c);
      RunStamps(Next(sys, steps[0]), steps[1..], side, Clock(steps[0], side, c));
    }
  }

  // ---------------------------------------------------------------- visits ten seconds apart

  /** A visit whose reset can be sent, more than ten seconds after the time given. */
  predicate Spaced(step: Step, side: Side, since: int) {
    step.Visit? && step.side == side && step.visit.rstSend.Sent? && Elapsed(step.visit.now, since, SOCKET_TIMEOUT)
  }

  function Since(step: Step, side: Side, since: int): int {
    if Spaced(step, side, since) then step.visit.now else since
  }

  /** How many visits can be picked from a run, each more than ten seconds after the one picked before. */
  function SpacedVisits(steps: seq<Step>, side: Side, since: int): nat {
    if steps == [] then 0
    else (if Spaced(steps[0], side, since) then 1 else 0) + SpacedVisits(steps[1..], side, Since(steps[0], side, since))
  }

  /** The peer's FIN starts the long timer again: FIN_WAIT_1 becomes CLOSING. */
  predicate Postpones(sys: Sys, step: Step, side: Side)
    requires Enabled(sys, step)
  {
    sys.At(side).sock.state.FinWait1? && Next(sys, step).At(side).sock.state.Closing?
  }

  function Postponements(sys: Sys, steps: seq<Step>, side: Side): nat
    requires ValidRun(sys, steps)
    decreases |steps|
  {
    if steps == [] then 0
    else (if Postpones(sys, steps[0], side) then 1 else 0) + Postponements(Next(sys, steps[0]), steps[1..], side)
  }

  /** Spaced visits still needed: one more than the rank if the running timer was started after the last of them. */
  function Due(e: Endpoint, since: int): nat {
    if e.phase.Live? && ((e.sock.state.TimeWait? && e.sock.lastSend > since) ||
                         (e.sock.state.Closing? && e.sock.finSent > since))
    then Rank(e) + 1 else Rank(e)
  }

  /** The two timers no packet starts again. */
  predicate Settled(e: Endpoint, since: int) {
    e.sock.created <= since && (e.sock.state.FinWait1? ==> e.sock.finSent <= since)
  }

  lemma DueVisit(me: Endpoint, side: Side, id: Id, peer: Endpoint, v: VisitEnv, since: int)
    requires Before(me, side, id, peer) && me.closesLeft == 0 && !v.close
    requires Settled(me, since) && since <= v.now && Stamped(me, v.now)
    ensures var e := VisitOf(me, v).0; Settled(e, since) && Settled(e, v.now) && Due(e, since) <= Due(me, since)
    ensures v.rstSend.Sent? && Elapsed(v.now, since, SOCKET_TIMEOUT) ==>
              var e := VisitOf(me, v).0; Due(e, v.now) < Due(me, since)
  {
    hide Consistent, PacketOk;
    assert AfterClose(me.sock.state);
    assert me.sock.state.Closing? ==> !IsEmptyIp(me.sock.id.dstIp);
  }

  lemma DueDeliver(me: Endpoint, side: Side, id: Id, peer: Endpoint, p: Packet, env: Env, replySent: bool, since: int)
    requires Arriving(me, side, id, peer, p) && me.closesLeft == 0 && Settled(me, since)
    ensures var e := DeliverTo(me, p, env, replySent).0;
            && Settled(e, since)
            && Due(e, since) <=
                 Due(me, since) + if me.sock.state.FinWait1? && e.sock.state.Closing? then 1 else 0
  {
    hide Receive, Consistent, Acknowledge, PacketOk;
    assert AfterClose(me.sock.state);
    LaterStates(me.sock, p, env);
  }

  lemma LaterStates(s: Sock, p: Packet, env: Env)
    requires s.Shaped() && AfterClose(s.state)
    ensures var o := HandlePacket(s, p, s.id.srcIp, env);
            && o.reply.None?
            && o.sock.created == s.created
            && (o.sock.state.FinWait1? ==> s.state.FinWait1? && o.sock.finSent == s.finSent)
            && (s.state.TimeWait? ==> o.sock.state.Closed? || o.sock == s)
            && (s.state.Closed? ==> o.sock.state.Closed?)
            && (s.state.Closing? ==> o.sock == s || o.sock.state.TimeWait? || o.sock.state.Closed?)
            && (s.state.FinWait1? ==> !o.sock.state.Listen? && !o.sock.state.Established?)
  {
  }

  lemma DueStep(sys: Sys, step: Step, side: Side, since: int, c: int)
    requires Inv(sys) && Enabled(sys, step)
    requires !sys.At(side).phase.Idle? && sys.At(side).closesLeft == 0
    requires Settled(sys.At(side), since) && since <= c <= Clock(step, side, c) && Stamped(sys.At(side), c)
    ensures var e, e' := sys.At(side), Next(sys, step).At(side);
            && !e'.phase.Idle? && e'.closesLeft == 0
            && Settled(e', Since(step, side, since)) && Since(step, side, since) <= Clock(step, side, c)
            && Due(e', Since(step, side, since)) + (if Spaced(step, side, since) then 1 else 0)
                 <= Due(e, since) + if Postpones(sys, step, side) then 1 else 0
  {
    hide Inv, Before, Arriving, VisitOf, DeliverTo, Next, Due, Settled;
    ClosedByUserStep(sys, step, side);
    NextAt(sys, step, side);
    if step.Visit? && step.side == side {
      SideBefore(sys, side);
      DueVisit(sys.At(side), side, sys.IdOf(side), sys.At(side.Other()), step.visit, since);
    } else if step.Deliver? && step.to == side {
      PacketArrives(sys, side, step.p);
      DueDeliver(sys.At(side), side, sys.IdOf(side), sys.At(side.Other()), step.p, step.env, step.replySent, since);
    }
  }

  lemma {:induction false} DueFalls(sys: Sys, steps: seq<Step>, side: Side, since: int, c: int)
    requires Inv(sys) && ValidRun(sys, steps) && Forward(steps, side, c)
    requires !sys.At(side).phase.Idle? && sys.At(side).closesLeft == 0
    requires Settled(sys.At(side), since) && since <= c && Stamped(sys.At(side), c)
    ensures Rank(Exec(sys, steps).At(side)) + SpacedVisits(steps, side, since)
              <= Due(sys.At(side), since) + Postponements(sys, steps, side)
    decreases |steps|
  {
    hide Inv, Next, Rank, Settled, Stamped, Spaced, Since, Postpones;
    if steps != [] {
      var next := Next(sys, steps[0]);
      StepOk(sys, steps[0]);
      StepStamps(sys, steps[0], side, c);
      DueStep(sys, steps[0], side, since, c);
      DueFalls(next, steps[1..], side, Since(steps[0], side, since), Clock(steps[0], side, c));
    }
  }

  /** Closing takes three spaced visits by the clock, one more if the peer's FIN postpones them: if no clock goes back
      and resets can be sent, a closed socket that has been visited that often, however often in between and whatever
      arrives, is out of the table. */
  lemma CloseTakesThreeVisits(init: Sys, before: seq<Step>, after: seq<Step>, side: Side)
    requires Init(init) && ValidRun(init, before) && ValidRun(Exec(init, before), after)
    requires Forward(before, side, 0) && Forward(after, side, ClockAfter(before, side, 0))
    requires !Exec(init, before).At(side).phase.Idle? && Exec(init, before).At(side).closesLeft == 0
    requires SpacedVisits(after, side, ClockAfter(before, side, 0)) >=
             3 + Postponements(Exec(init, before), after, side)
    ensures Exec(Exec(init, before), after).At(side).phase.Gone?
    ensures Postponements(Exec(init, before), after, side) <= 1
  {
    hide ValidRun, Exec, Inv, SpacedVisits, Postponements, Forward, ClockAfter;
    Reached(init, before, side);
    PostponedOnce(Exec(init, before), after, side);
    RunStamps(init, before, side, 0);
    var c := ClockAfter(before, side, 0);
    DueFalls(Exec(init, before), after, side, c, c);
  }

  /** A FIN can postpone the close only once. */
  lemma {:induction false} PostponedOnce(sys: Sys, steps: seq<Step>, side: Side)
    requires Inv(sys) && ValidRun(sys, steps)
    requires !sys.At(side).phase.Idle? && sys.At(side).closesLeft == 0
    ensures Postponements(sys, steps, side) <= if sys.At(side).sock.state.FinWait1? then 1 else 0
    decreases |steps|
  {
    hide Inv, Next;
    if steps != [] {
      StepOk(sys, steps[0]);
      ClosedByUserStep(sys, steps[0], side);
      LeavesFinWait1(sys, steps[0], side);
      PostponedOnce(Next(sys, steps[0]), steps[1..], side);
    }
  }

  lemma LeavesFinWait1(sys: Sys, step: Step, side: Side)
    requires Inv(sys) && Enabled(sys, step)
    requires !sys.At(side).phase.Idle? && sys.At(side).closesLeft == 0
    ensures Next(sys, step).At(side).sock.state.FinWait1? ==> sys.At(side).sock.state.FinWait1?
  {
    hide Inv, VisitOf, DeliverTo, Next;
    NextAt(sys, step, side);
    if step.Visit? && step.side == side {
      SideBefore(sys, side);
      StaysOutVisit(sys.At(side), step.visit);
    } else if step.Deliver? && step.to == side {
      PacketArrives(sys, side, step.p);
      LaterStates(sys.At(side).sock, step.p, step.env);
      StaysOutDeliver(sys.At(side), step.p, step.env, step.replySent);
    }
  }

  lemma StaysOutVisit(e: Endpoint, v: VisitEnv)
    requires e.sock.Shaped() && !v.close && AfterClose(e.sock.state)
    ensures VisitOf(e, v).0.sock.state.FinWait1? ==> e.sock.state.FinWait1?
  {
  }

  lemma StaysOutDeliver(e: Endpoint, p: Packet, env: Env, replySent: bool)
    requires e.sock.Shaped() && AfterClose(e.sock.state)
    ensures DeliverTo(e, p, env, replySent).0.sock.state.FinWait1? ==> e.sock.state.FinWait1?
  {
    LaterStates(e.sock, p, env);
  }

  // ---------------------------------------------------------------- such a run exists

  const PAUSE: int := 11 * CLOCKS_PER_SEC

  /** Visits on which every send succeeds, eleven seconds apart. */
  function Partings(side: Side, c: int, n: nat): seq<Step>
    decreases n
  {
    if n == 0 then []
    else [Visit(side, VisitEnv(c + PAUSE, false, "", Sent, Sent, Sent))] + Partings(side, c + PAUSE, n - 1)
  }

  /** From every reachable state in which the user has closed, the bound of CloseTerminates and CloseTakesThreeVisits
      is met by a run that makes exactly as many visits, and it ends with the socket gone. */
  lemma {:induction false} Farewell(sys: Sys, side: Side, c: int, n: nat)
    requires Inv(sys) && sys.At(side).closesLeft == 0 && Stamped(sys.At(side), c)
    requires !sys.At(side).phase.Idle? && n == Rank(sys.At(side))
    ensures var steps := Partings(side, c, n);
            && ValidRun(sys, steps) && Forward(steps, side, c)
            && RipeVisits(sys, steps, side) == n && SpacedVisits(steps, side, c) == n
            && Postponements(sys, steps, side) == 0
            && Exec(sys, steps).At(side).phase.Gone?
    decreases n
  {
    hide Inv, Next, Stamped, VisitOf;
    if n > 0 {
      var step := Partings(side, c, n)[0];
      SideBefore(sys, side);
      StepOk(sys, step);
      StepStamps(sys, step, side, c);
      PartingIsRipe(sys.At(side), side, sys.IdOf(side), sys.At(side.Other()), step.visit, c);
      ClosedByUserStep(sys, step, side);
      NextAt(sys, step, side);
      Farewell(Next(sys, step), side, c + PAUSE, n - 1);
      assert Partings(side, c, n)[1..] == Partings(side, c + PAUSE, n - 1);
    }
  }

  lemma PartingIsRipe(me: Endpoint, side: Side, id: Id, peer: Endpoint, v: VisitEnv, c: int)
    requires Before(me, side, id, peer) && me.closesLeft == 0 && Stamped(me, c) && me.phase.Live?
    requires v == VisitEnv(c + PAUSE, false, "", Sent, Sent, Sent)
    ensures Ripe(me, v)
    ensures me.sock.state.FinWait1? ==> !VisitOf(me, v).0.sock.state.Closing?
  {
    hide Consistent, PacketOk;
  }

  function Kept(now: int): VisitEnv { VisitEnv(now, false, "", Sent, Sent, Sent) }

  /** The client connects, is answered, and closes. */
  function Meeting(id: Id): seq<Step> {
    [Connect(1, 0), Visit(Client, Kept(4_000_000)),
     Spawn(MakePacket(id.srcPort, id.dstPort, 0, 0, SYN, ""), Env(0, 0, true, 7, true)),
     Visit(Server, Kept(4_000_000)),
     Deliver(Client, MakePacket(id.dstPort, id.srcPort, 6, 1, SYN_ACK, ""), Env(4_000_000, 0, true, 0, true), false),
     Visit(Client, Kept(4_000_000).(close := true))]
  }

  lemma Meets(init: Sys)
    requires Init(init)
    ensures var steps := Meeting(init.id);
            && ValidRun(init, steps) && Forward(steps, Client, 0)
            && Exec(init, steps).client.everEstablished && Exec(init, steps).client.closesLeft == 0
            && Exec(init, steps).client.phase.Live? && Exec(init, steps).client.sock.state.FinWait1?
  {
    var steps := Meeting(init.id);
    var s3 := Asked(init);
    var s5 := Answered(s3);
    var s6 := Leaves(s5);
    MeetingForward(init.id);
    hide Meeting, Enabled, Next, Init, Forward, ValidRun, Exec;
    SixSteps(steps, init, Next(init, steps[0]), Next(Next(init, steps[0]), steps[1]), s3, Next(s3, steps[3]), s5);
  }

  lemma MeetingForward(id: Id)
    ensures Forward(Meeting(id), Client, 0)
  {
    var steps := Meeting(id);
    assert Forward(steps[5..], Client, 4_000_000) && steps[4..][1..] == steps[5..] && steps[3..][1..] == steps[4..];
    assert Forward(steps[3..], Client, 4_000_000) && steps[2..][1..] == steps[3..] && steps[1..][1..] == steps[2..];
  }

  lemma Leaves(s5: Sys) returns (s6: Sys)
    requires IsEstablished(s5.client) && s5.client.everEstablished && s5.client.closesLeft == 1
    requires s5.client.sock.Shaped()
    ensures var step := Meeting(s5.id)[5]; Enabled(s5, step) && s6 == Next(s5, step)
    ensures s6.client.everEstablished == s5.client.everEstablished
    ensures s6.client.closesLeft == 0 && s6.client.phase.Live? && s6.client.sock.state.FinWait1?
  {
    s6 := Next(s5, Meeting(s5.id)[5]);
  }

  lemma SixSteps(steps: seq<Step>, s0: Sys, s1: Sys, s2: Sys, s3: Sys, s4: Sys, s5: Sys)
    requires |steps| == 6
    requires Enabled(s0, steps[0]) && s1 == Next(s0, steps[0])
    requires Enabled(s1, steps[1]) && s2 == Next(s1, steps[1])
    requires Enabled(s2, steps[2]) && s3 == Next(s2, steps[2])
    requires Enabled(s3, steps[3]) && s4 == Next(s3, steps[3])
    requires Enabled(s4, steps[4]) && s5 == Next(s4, steps[4])
    requires Enabled(s5, steps[5])
    ensures ValidRun(s0, steps) && Exec(s0, steps) == Next(s5, steps[5])
  {
    hide Enabled, Next;
    Onto(s5, steps, 5);
    Onto(s4, steps, 4);
    Onto(s3, steps, 3);
    Onto(s2, steps, 2);
    Onto(s1, steps, 1);
    Onto(s0, steps, 0);
    assert steps[0..] == steps;
  }

  lemma Onto(sys: Sys, steps: seq<Step>, k: nat)
    requires k < |steps| && Enabled(sys, steps[k])
    requires ValidRun(Next(sys, steps[k]), steps[k + 1..]) || k + 1 == |steps|
    ensures ValidRun(sys, steps[k..])
    ensures Exec(sys, steps[k..]) == if k + 1 == |steps| then Next(sys, steps[k])
                                     else Exec(Next(sys, steps[k]), steps[k + 1..])
  {
    hide Next, Enabled;
    assert steps[k..][0] == steps[k] && steps[k..][1..] == steps[k + 1..];
  }

  lemma Asked(init: Sys) returns (s3: Sys)
    requires Init(init)
    ensures var steps := Meeting(init.id);
            && Enabled(init, steps[0]) && Enabled(Next(init, steps[0]), steps[1])
            && Enabled(Next(Next(init, steps[0]), steps[1]), steps[2])
            && s3 == Next(Next(Next(init, steps[0]), steps[1]), steps[2])
    ensures s3.id == init.id && GoodId(init.id) && s3.client.phase.Live? && s3.server.phase.Live?
    ensures var s := s3.client.sock;
            s.id == init.id && s.state.SynSent? && s.sndBase == 1 && s.Shaped()
    ensures s3.client.closesLeft == 1
    ensures var s := s3.server.sock;
            && s.id == Mirror(init.id) && s.state.SynReceived? && s.sndBase == 7 && s.Shaped()
            && s.recv.base == 1 && s.lastSend == 0
  {
    var steps := Meeting(init.id);
    var s1 := Next(init, steps[0]);
    var s2 := Next(s1, steps[1]);
    assert steps[2].p in s2.toServer;
    s3 := Next(s2, steps[2]);
  }

  lemma Answered(s3: Sys) returns (s5: Sys)
    requires GoodId(s3.id) && s3.client.phase.Live? && s3.server.phase.Live? && s3.client.closesLeft == 1
    requires var s := s3.client.sock; s.id == s3.id && s.state.SynSent? && s.sndBase == 1 && s.Shaped()
    requires var s := s3.server.sock;
             && s.id == Mirror(s3.id) && s.state.SynReceived? && s.sndBase == 7 && s.Shaped()
             && s.recv.base == 1 && s.lastSend == 0
    ensures var steps := Meeting(s3.id);
            && Enabled(s3, steps[3]) && Enabled(Next(s3, steps[3]), steps[4])
            && s5 == Next(Next(s3, steps[3]), steps[4])
    ensures s5.id == s3.id && IsEstablished(s5.client) && s5.client.everEstablished && s5.client.closesLeft == 1
    ensures s5.client.sock.Shaped()
  {
    var steps := Meeting(s3.id);
    var s4 := Next(s3, steps[3]);
    assert steps[4].p in s4.toClient;
    s5 := Next(s4, steps[4]);
  }

  /** So both theorems speak of real runs: from every initial state there is one in which the client connects, becomes
      ESTABLISHED, closes, is visited three times, and is gone. */
  lemma ThreeVisitsHappen(init: Sys)
    requires Init(init)
    ensures var before := Meeting(init.id);
            && ValidRun(init, before) && Forward(before, Client, 0)
            && var sys, c := Exec(init, before), ClockAfter(before, Client, 0);
            && var after := Partings(Client, c, 3);
            && sys.client.everEstablished && sys.client.closesLeft == 0 && Rank(sys.client) == 3
            && ValidRun(sys, after) && Forward(after, Client, c)
            && RipeVisits(sys, after, Client) == 3 && SpacedVisits(after, Client, c) == 3
            && Postponements(sys, after, Client) == 0
            && Exec(sys, after).client.phase.Gone?
  {
    var before := Meeting(init.id);
    Meets(init);
    assert Stamped(init.client, 0);
    hide Init, ValidRun, Exec, Inv, SpacedVisits, RipeVisits, Postponements, Forward, ClockAfter, Meeting, Partings;
    Reached(init, before, Client);
    RunStamps(init, before, Client, 0);
    Farewell(Exec(init, before), Client, ClockAfter(before, Client, 0), 3);
  }
}
