/** How connections end when both sides live to see it: from every reachable state in which both are ESTABLISHED
    there is a run in which one user closes and the other side answers, and one in which both close at once. */
module Closing {
  import opened Common
  import opened Packets
  import opened SocketModel
  import opened Protocol
  import opened Invariant
  import opened Safety
  import opened Handling
  import opened Timers
  import opened Exchange

  /** One more step. */
  lemma {:induction false} StepOn(sys: Sys, steps: seq<Step>, step: Step)
    requires ValidRun(sys, steps) && Enabled(Exec(sys, steps), step)
    ensures ValidRun(sys, steps + [step]) && Exec(sys, steps + [step]) == Next(Exec(sys, steps), step)
    decreases |steps|
  {
    hide Enabled, Next;
    if steps == [] {
      assert [] + [step] == [step] && [step][1..] == [];
      assert ValidRun(Next(sys, step), []) && Exec(Next(sys, step), []) == Next(sys, step);
    } else {
      StepOn(Next(sys, steps[0]), steps[1..], step);
      assert (steps + [step])[1..] == steps[1..] + [step];
    }
  }

  /** Both sides are ESTABLISHED. */
  predicate Both(sys: Sys) {
    Inv(sys) && IsEstablished(sys.client) && IsEstablished(sys.server)
  }

  lemma EstablishedMeans(sys: Sys, side: Side)
    requires Inv(sys) && IsEstablished(sys.At(side))
    ensures var e, id := sys.At(side), sys.IdOf(side);
            && e.sock.Shaped() && e.sock.id == id && e.closesLeft == 1
            && !IsEmptyIp(id.dstIp) && id.dstPort != EMPTY_PORT
            && sys.IdOf(side.Other()) == Mirror(id)
  {
    assert SideOk(sys, side);
  }

  /** A FIN of a closing side. */
  function Fin(s: Sock): Packet {
    MakePacket(s.id.srcPort, s.id.dstPort, s.sndBase + |s.sendQ|, s.recv.base, FIN, "")
  }

  function Now(sys: Sys): int {
    Max(sys.client.sock.lastSend, sys.server.sock.lastSend) + 4_000_000
  }

  function Closes(now: int): VisitEnv { VisitEnv(now, true, "", Sent, Sent, Sent) }

  function Keeps(now: int): VisitEnv { VisitEnv(now, false, "", Sent, Sent, Sent) }

  function Quietly(now: int): Env { Env(now, 0, true, 0, true) }

  /** A user closes: the FIN leaves. */
  lemma UserCloses(sys: Sys, side: Side, now: int) returns (sys': Sys)
    requires Inv(sys) && IsEstablished(sys.At(side)) && now - sys.At(side).sock.lastSend > 3_000_000
    ensures Enabled(sys, Visit(side, Closes(now))) && sys' == Next(sys, Visit(side, Closes(now))) && Inv(sys')
    ensures var s := sys.At(side).sock;
            && sys'.At(side).phase.Live? && sys'.At(side.Other()) == sys.At(side.Other()) && sys'.id == sys.id
            && sys'.At(side).sock ==
               s.(state := FinWait1, sndBase := s.sndBase + |s.sendQ|, finSent := now, lastSend := now)
            && Fin(s) in sys'.From(side) && sys.From(side.Other()) <= sys'.From(side.Other())
  {
    var v, e := Closes(now), sys.At(side);
    EstablishedMeans(sys, side);
    CloseSendsFin(e, v);
    sys' := Next(sys, Visit(side, v));
    NextAt(sys, Visit(side, v), side);
    NextAt(sys, Visit(side, v), side.Other());
    StepOk(sys, Visit(side, v));
    hide Inv, VisitOf;
    assert VisitOf(e, v).1[0] == Fin(e.sock);
    assert VisitOf(e, v).1[0] in sys'.From(side);
  }

  /** Its peer's end, ESTABLISHED, hears of it. */
  lemma PeerHears(sys: Sys, side: Side, p: Packet, now: int) returns (sys': Sys)
    requires Inv(sys) && IsEstablished(sys.At(side)) && p in sys.From(side.Other()) && p.flags == FIN
    requires p.srcPort == sys.IdOf(side).dstPort
    ensures var step := Deliver(side, p, Quietly(now), true); Enabled(sys, step) && sys' == Next(sys, step) && Inv(sys')
    ensures var s := sys.At(side).sock;
            && sys'.At(side).phase.Live? && sys'.At(side.Other()) == sys.At(side.Other()) && sys'.id == sys.id
            && sys'.At(side).sock == s.(state := CloseWait, recv := s.recv.(base := p.seqNum + 1),
                                        sndBase := s.sndBase + |s.sendQ|)
            && sys'.At(side).viaCloseWait
  {
    var step := Deliver(side, p, Quietly(now), true);
    EstablishedMeans(sys, side);
    FinToEstablished(sys.At(side), p, Quietly(now), true);
    sys' := Next(sys, step);
    NextAt(sys, step, side);
    NextAt(sys, step, side.Other());
    StepOk(sys, step);
    DeliverTracks(sys.At(side), p, Quietly(now));
    hide Inv, DeliverTo;
  }

  lemma DeliverTracks(e: Endpoint, p: Packet, env: Env)
    requires e.sock.Shaped()
    ensures var e' := DeliverTo(e, p, env, true).0;
            e'.phase == e.phase && (e'.sock.state.CloseWait? || e.viaCloseWait ==> e'.viaCloseWait)
  {
    hide HandlePacket;
  }

  /** A visit without a close, and what it leaves alone. */
  lemma Visited(sys: Sys, side: Side, v: VisitEnv) returns (sys': Sys)
    requires Inv(sys) && Plain(sys.At(side), v) && NoNul(v.offered)
    ensures Enabled(sys, Visit(side, v)) && sys' == Next(sys, Visit(side, v)) && Inv(sys') && sys'.id == sys.id
    ensures var (e, sent) := VisitOf(sys.At(side), v);
            && sys'.At(side) == e && (forall p :: p in sent ==> p in sys'.From(side))
            && sys'.At(side.Other()) == sys.At(side.Other())
            && sys.From(Client) <= sys'.From(Client) && sys.From(Server) <= sys'.From(Server)
            && (sys.At(side).viaCloseWait ==> e.viaCloseWait)
  {
    sys' := Next(sys, Visit(side, v));
    NextAt(sys, Visit(side, v), side);
    NextAt(sys, Visit(side, v), side.Other());
    StepOk(sys, Visit(side, v));
    VisitTracks(sys.At(side), v);
    hide Inv, VisitOf;
  }

  lemma VisitTracks(e: Endpoint, v: VisitEnv)
    requires e.sock.Shaped() && !v.close
    ensures e.viaCloseWait ==> VisitOf(e, v).0.viaCloseWait
  {
    hide SendWindow, StatusMessages;
  }

  /** The answer of a side that has passed CLOSE_WAIT. */
  function FinAnswer(s: Sock): Packet {
    MakePacket(s.id.srcPort, s.id.dstPort, s.sndBase, s.recv.base, FIN_ACK, "")
  }

  /** The peer's end passes through CLOSE_WAIT to LAST_ACK, and sends its FIN+ACK. */
  lemma PeerAnswers(sys: Sys, side: Side, now: int) returns (sys1: Sys, sys2: Sys)
    requires Inv(sys) && sys.At(side).phase.Live? && sys.At(side).sock.state.CloseWait? && sys.At(side).viaCloseWait
    requires sys.At(side).sock.Shaped() && !IsEmptyIp(sys.At(side).sock.id.dstIp)
    requires now - sys.At(side).sock.lastSend > 3_000_000
    ensures Enabled(sys, Visit(side, Keeps(now))) && sys1 == Next(sys, Visit(side, Keeps(now)))
    ensures Enabled(sys1, Visit(side, Keeps(now))) && sys2 == Next(sys1, Visit(side, Keeps(now))) && Inv(sys2)
    ensures sys1.At(side).sock.state.LastAck?
    ensures var s := sys.At(side).sock; var t := s.(state := LastAck, sndBase := s.sndBase + |s.sendQ|);
            && sys2.At(side).phase.Live? && sys2.At(side).sock == t.(lastSend := now) && sys2.At(side).viaCloseWait
            && FinAnswer(t) in sys2.From(side) && sys2.At(side.Other()) == sys.At(side.Other()) && sys2.id == sys.id
            && sys.From(side.Other()) <= sys2.From(side.Other())
  {
    var v := Keeps(now);
    CloseWaitPasses(sys.At(side), v);
    hide Inv, VisitOf, Next, Enabled, Repeats;
    sys1 := Visited(sys, side, v);
    LastAckRepeats(sys1.At(side), v);
    sys2 := Visited(sys1, side, v);
    AnswerRepeated(sys1.At(side), v);
  }

  lemma AnswerRepeated(e: Endpoint, v: VisitEnv)
    requires Plain(e, v) && e.sock.state.LastAck? && v.now - e.sock.lastSend > 3_000_000 && v.statusSend.Sent?
    ensures var (e', sent) := VisitOf(e, v);
            sent == [FinAnswer(e.sock)] && e'.sock == e.sock.(lastSend := v.now) && e'.phase.Live?
  {
    LastAckRepeats(e, v);
    hide VisitOf;
    assert VisitOf(e, v).1[0] == FinAnswer(e.sock);
  }

  /** The same, as what the other side sees of it. */
  lemma PeerReplies(sys: Sys, side: Side, now: int) returns (sys1: Sys, sys2: Sys, answer: Packet)
    requires Inv(sys) && sys.At(side).phase.Live? && sys.At(side).sock.state.CloseWait? && sys.At(side).viaCloseWait
    requires sys.At(side).sock.Shaped() && !IsEmptyIp(sys.At(side).sock.id.dstIp)
    requires now - sys.At(side).sock.lastSend > 3_000_000
    ensures Enabled(sys, Visit(side, Keeps(now))) && sys1 == Next(sys, Visit(side, Keeps(now)))
    ensures Enabled(sys1, Visit(side, Keeps(now))) && sys2 == Next(sys1, Visit(side, Keeps(now))) && Inv(sys2)
    ensures sys2.At(side).sock.state.LastAck? && sys2.At(side).viaCloseWait
    ensures sys2.At(side.Other()) == sys.At(side.Other()) && answer in sys2.From(side) && answer.flags == FIN_ACK
    ensures answer.srcPort == sys.At(side).sock.id.srcPort && answer.ackNum == sys.At(side).sock.recv.base
  {
    hide Inv, Next, Enabled;
    sys1, sys2 := PeerAnswers(sys, side, now);
    var s := sys.At(side).sock;
    answer := FinAnswer(s.(state := LastAck, sndBase := s.sndBase + |s.sendQ|));
  }

  /** The FIN+ACK acknowledges the FIN, so the side that has closed goes to TIME_WAIT. */
  lemma AnswerEnds(sys: Sys, side: Side, p: Packet, now: int) returns (sys': Sys)
    requires Inv(sys) && sys.At(side).phase.Live? && sys.At(side).sock.state.FinWait1? && p in sys.From(side.Other())
    requires sys.At(side).sock.Shaped() && p.flags == FIN_ACK && p.srcPort == sys.At(side).sock.id.dstPort
    requires p.ackNum == sys.At(side).sock.sndBase + 1
    ensures var step := Deliver(side, p, Quietly(now), true); Enabled(sys, step) && sys' == Next(sys, step)
    ensures sys'.At(side).sock.state.TimeWait? && sys'.At(side).phase.Live?
    ensures sys'.At(side.Other()) == sys.At(side.Other())
  {
    var step := Deliver(side, p, Quietly(now), true);
    FinWait1Means(sys.At(side), p, Quietly(now), true);
    sys' := Next(sys, step);
    NextAt(sys, step, side);
    NextAt(sys, step, side.Other());
    DeliverTracks(sys.At(side), p, Quietly(now));
    hide Inv, DeliverTo;
  }

  lemma FourSteps(s0: Sys, a: Step, b: Step, c: Step, d: Step)
    requires Enabled(s0, a) && Enabled(Next(s0, a), b) && Enabled(Next(Next(s0, a), b), c)
    requires Enabled(Next(Next(Next(s0, a), b), c), d)
    ensures ValidRun(s0, [a, b, c, d])
    ensures Exec(s0, [a, b, c, d]) == Next(Next(Next(Next(s0, a), b), c), d)
  {
    hide Enabled, Next;
    assert ValidRun(s0, []) && Exec(s0, []) == s0;
    StepOn(s0, [], a);
    assert [] + [a] == [a];
    StepOn(s0, [a], b);
    assert [a] + [b] == [a, b];
    StepOn(s0, [a, b], c);
    assert [a, b] + [c] == [a, b, c];
    StepOn(s0, [a, b, c], d);
    assert [a, b, c] + [d] == [a, b, c, d];
  }

  /** The steps of an orderly close by one side, up to its peer's answer. */
  function Parting(sys: Sys, side: Side): seq<Step> {
    var now := Now(sys);
    [Visit(side, Closes(now)), Deliver(side.Other(), Fin(sys.At(side).sock), Quietly(now), true),
     Visit(side.Other(), Keeps(now)), Visit(side.Other(), Keeps(now))]
  }

  /** An end whose user has just closed it. */
  predicate Waits(e: Endpoint, s: Sock, now: int) {
    && e.phase.Live? && e.sock.state.FinWait1? && e.sock.Shaped()
    && e.sock.sndBase == s.sndBase + |s.sendQ| && e.sock.finSent == now
  }

  /** Up to CLOSE_WAIT. */
  lemma CloseIsHeard(sys: Sys, side: Side, now: int) returns (sys1: Sys, sys2: Sys)
    requires Both(sys) && now == Now(sys)
    ensures var a, b := Visit(side, Closes(now)), Deliver(side.Other(), Fin(sys.At(side).sock), Quietly(now), true);
            Enabled(sys, a) && sys1 == Next(sys, a) && Enabled(sys1, b) && sys2 == Next(sys1, b) && Inv(sys2)
    ensures Waits(sys2.At(side), sys.At(side).sock, now)
    ensures var e := sys2.At(side.Other());
            && e.phase.Live? && e.sock.Shaped() && e.sock.state.CloseWait? && e.viaCloseWait
            && !IsEmptyIp(e.sock.id.dstIp) && now - e.sock.lastSend > 3_000_000
            && e.sock.recv.base == sys2.At(side).sock.sndBase + 1
            && e.sock.id.srcPort == sys2.At(side).sock.id.dstPort
  {
    var other := side.Other();
    assert other.Other() == side;
    EstablishedMeans(sys, side);
    EstablishedMeans(sys, other);
    hide Inv, Next, Enabled;
    sys1 := UserCloses(sys, side, now);
    sys2 := PeerHears(sys1, other, Fin(sys.At(side).sock), now);
  }

  /** The states that the first four steps pass through. */
  predicate Passes(sys: Sys, side: Side, now: int, sys1: Sys, sys2: Sys, sys3: Sys, sys4: Sys) {
    var other := side.Other();
    var a, b := Visit(side, Closes(now)), Deliver(other, Fin(sys.At(side).sock), Quietly(now), true);
    var c := Visit(other, Keeps(now));
    && Enabled(sys, a) && sys1 == Next(sys, a) && Enabled(sys1, b) && sys2 == Next(sys1, b)
    && Enabled(sys2, c) && sys3 == Next(sys2, c) && Enabled(sys3, c) && sys4 == Next(sys3, c)
  }

  /** Up to the answer. */
  lemma CloseIsRepliedTo(sys: Sys, side: Side, now: int)
    returns (sys1: Sys, sys2: Sys, sys3: Sys, sys4: Sys, answer: Packet)
    requires Both(sys) && now == Now(sys)
    ensures Passes(sys, side, now, sys1, sys2, sys3, sys4) && Inv(sys4)
    ensures Waits(sys4.At(side), sys.At(side).sock, now)
    ensures sys4.At(side.Other()).sock.state.LastAck? && sys4.At(side.Other()).viaCloseWait
    ensures answer in sys4.From(side.Other()) && answer.flags == FIN_ACK
    ensures answer.srcPort == sys4.At(side).sock.id.dstPort && answer.ackNum == sys4.At(side).sock.sndBase + 1
  {
    var other := side.Other();
    assert other.Other() == side;
    hide Inv, Next, Enabled, Both, Waits, Now;
    sys1, sys2 := CloseIsHeard(sys, side, now);
    sys3, sys4, answer := PeerReplies(sys2, other, now);
  }

  lemma PartingRuns(sys: Sys, side: Side, sys1: Sys, sys2: Sys, sys3: Sys, sys4: Sys)
    requires Passes(sys, side, Now(sys), sys1, sys2, sys3, sys4)
    ensures ValidRun(sys, Parting(sys, side)) && sys4 == Exec(sys, Parting(sys, side))
  {
    hide Next, Enabled, Now, ValidRun, Exec;
    var now, other := Now(sys), side.Other();
    FourSteps(sys, Visit(side, Closes(now)), Deliver(other, Fin(sys.At(side).sock), Quietly(now), true),
              Visit(other, Keeps(now)), Visit(other, Keeps(now)));
  }

  /** From every reachable state in which both sides are ESTABLISHED, whatever is queued, in the windows or in the
      network: one user closes, its FIN takes the other side through CLOSE_WAIT to LAST_ACK, and the FIN+ACK of
      that side takes the first to TIME_WAIT. */
  lemma CloseIsAnswered(sys: Sys, side: Side) returns (answer: Packet)
    requires Both(sys)
    ensures ValidRun(sys, Parting(sys, side))
    ensures var sys' := Exec(sys, Parting(sys, side)); var last := Deliver(side, answer, Quietly(Now(sys)), true);
            && sys'.At(side).sock.state.FinWait1? && sys'.At(side.Other()).sock.state.LastAck?
            && sys'.At(side.Other()).viaCloseWait && answer in sys'.From(side.Other()) && answer.flags == FIN_ACK
            && Enabled(sys', last) && Next(sys', last).At(side).sock.state.TimeWait?
  {
    hide Inv, Next, Enabled, ValidRun, Exec, Both, Parting, Passes, Now;
    var sys1, sys2, sys3, sys4, reply := CloseIsRepliedTo(sys, side, Now(sys));
    PartingRuns(sys, side, sys1, sys2, sys3, sys4);
    answer := reply;
    var _ := AnswerEnds(sys4, side, answer, Now(sys));
  }

  // ---------------------------------------------------------------- both at once

  /** A FIN that crosses one's own: CLOSING. */
  lemma FinCrosses(sys: Sys, side: Side, p: Packet, now: int) returns (sys': Sys)
    requires Inv(sys) && sys.At(side).phase.Live? && sys.At(side).sock.state.FinWait1? && p in sys.From(side.Other())
    requires sys.At(side).sock.Shaped() && p.flags == FIN && p.srcPort == sys.At(side).sock.id.dstPort
    ensures var step := Deliver(side, p, Quietly(now), true);
            Enabled(sys, step) && sys' == Next(sys, step) && Inv(sys') && sys'.id == sys.id
    ensures sys'.At(side).phase.Live? && sys'.At(side).sock.state.Closing?
    ensures sys'.At(side).sock.recv.base == p.seqNum + 1 && sys'.At(side).sock.finSent == now
    ensures sys'.At(side).sock.sndBase == sys.At(side).sock.sndBase
    ensures sys'.At(side.Other()) == sys.At(side.Other()) && sys.From(side) <= sys'.From(side)
  {
    var step := Deliver(side, p, Quietly(now), true);
    FinWait1Means(sys.At(side), p, Quietly(now), true);
    sys' := Next(sys, step);
    NextAt(sys, step, side);
    NextAt(sys, step, side.Other());
    StepOk(sys, step);
    DeliverTracks(sys.At(side), p, Quietly(now));
    hide Inv, DeliverTo;
  }

  function Crossing(sys: Sys): seq<Step> {
    var now := Now(sys);
    [Visit(Client, Closes(now)), Visit(Server, Closes(now)),
     Deliver(Server, Fin(sys.client.sock), Quietly(now), true),
     Deliver(Client, Fin(sys.server.sock), Quietly(now), true)]
  }

  lemma BothClose(sys: Sys, now: int) returns (sys1: Sys, sys2: Sys)
    requires Both(sys) && now == Now(sys)
    ensures Enabled(sys, Visit(Client, Closes(now))) && sys1 == Next(sys, Visit(Client, Closes(now)))
    ensures Enabled(sys1, Visit(Server, Closes(now))) && sys2 == Next(sys1, Visit(Server, Closes(now))) && Inv(sys2)
    ensures Fin(sys.client.sock) in sys2.toServer && Fin(sys.server.sock) in sys2.toClient
    ensures Fin(sys.client.sock).srcPort == sys2.server.sock.id.dstPort
    ensures Fin(sys.server.sock).srcPort == sys2.client.sock.id.dstPort
    ensures Waits(sys2.client, sys.client.sock, now) && Waits(sys2.server, sys.server.sock, now)
  {
    EstablishedMeans(sys, Client);
    EstablishedMeans(sys, Server);
    hide Inv, Next, Enabled;
    sys1 := UserCloses(sys, Client, now);
    sys2 := UserCloses(sys1, Server, now);
  }

  /** From every such state both users may also close at once: the FINs cross, and each side goes to CLOSING,
      expects what is behind the other's FIN, and waits for its reset timer. */
  lemma ClosesCross(sys: Sys)
    requires Both(sys)
    ensures ValidRun(sys, Crossing(sys))
    ensures var sys' := Exec(sys, Crossing(sys));
            && sys'.client.sock.state.Closing? && sys'.server.sock.state.Closing?
            && sys'.client.sock.recv.base == sys'.server.sock.sndBase + 1
            && sys'.server.sock.recv.base == sys'.client.sock.sndBase + 1
            && sys'.client.sock.finSent == sys'.server.sock.finSent == Now(sys)
  {
    var now := Now(sys);
    hide Inv, Next, Enabled, ValidRun, Exec, Both;
    var sys1, sys2 := BothClose(sys, now);
    var sys3 := FinCrosses(sys2, Server, Fin(sys.client.sock), now);
    var sys4 := FinCrosses(sys3, Client, Fin(sys.server.sock), now);
    FourSteps(sys, Visit(Client, Closes(now)), Visit(Server, Closes(now)),
              Deliver(Server, Fin(sys.client.sock), Quietly(now), true),
              Deliver(Client, Fin(sys.server.sock), Quietly(now), true));
  }

  // ---------------------------------------------------------------- such states are reached

  /** A visit to an end, by what it makes of its socket. */
  lemma SockVisited(sys: Sys, side: Side, v: VisitEnv, s: Sock, p: Packet) returns (sys': Sys)
    requires Inv(sys) && sys.At(side).phase.Live? && sys.At(side).sock.Shaped() && !v.close && NoNul(v.offered)
    requires VisitSock(sys.At(side).sock, v) == (s, false, [p])
    ensures Enabled(sys, Visit(side, v)) && sys' == Next(sys, Visit(side, v)) && Inv(sys') && sys'.id == sys.id
    ensures sys'.At(side).phase.Live? && sys'.At(side).sock == s && sys'.At(side.Other()) == sys.At(side.Other())
    ensures p in sys'.From(side) && sys.From(side.Other()) <= sys'.From(side.Other())
  {
    var e := sys.At(side);
    VisitRecords(e, v);
    VisitOfSock(e, v);
    sys' := Next(sys, Visit(side, v));
    NextAt(sys, Visit(side, v), side);
    NextAt(sys, Visit(side, v), side.Other());
    StepOk(sys, Visit(side, v));
    hide Inv, VisitOf, VisitSock;
    assert VisitOf(e, v).1[0] == p;
  }

  /** A delivery to an end, by what it makes of its socket. */
  lemma SockReads(sys: Sys, side: Side, p: Packet, env: Env, s: Sock) returns (sys': Sys)
    requires Inv(sys) && sys.At(side).phase.Live? && sys.At(side).sock.Shaped() && p in sys.From(side.Other())
    requires var t := sys.At(side).sock; AfterReply(HandlePacket(t, p, t.id.srcIp, env), true, env.now) == s
    ensures var step := Deliver(side, p, env, true);
            Enabled(sys, step) && sys' == Next(sys, step) && Inv(sys') && sys'.id == sys.id
    ensures sys'.At(side).phase.Live? && sys'.At(side).sock == s && sys'.At(side.Other()) == sys.At(side.Other())
  {
    var step := Deliver(side, p, env, true);
    DeliveryRecords(sys.At(side), p, env);
    DeliverTracks(sys.At(side), p, env);
    sys' := Next(sys, step);
    NextAt(sys, step, side);
    NextAt(sys, step, side.Other());
    StepOk(sys, step);
    hide Inv, DeliverTo, HandlePacket;
  }

  /** The handshake on a loss-free network. */
  function Greeting(id: Id): seq<Step> {
    [Connect(1, 0), Visit(Client, Look(4, "")), Spawn(Syn(id), Calm(4)), Visit(Server, Look(8, "")),
     Deliver(Client, SynAck(id), Calm(8), true), Visit(Client, Look(8, "")),
     Deliver(Server, Segment(id, ""), Calm(8), true)]
  }

  /** Both ends stand, the client waiting for an answer and the server spawned by its SYN. */
  lemma Greets(init: Sys) returns (s1: Sys, s2: Sys, s3: Sys)
    requires Init(init)
    ensures Enabled(init, Connect(1, 0)) && s1 == Next(init, Connect(1, 0))
    ensures Enabled(s1, Visit(Client, Look(4, ""))) && s2 == Next(s1, Visit(Client, Look(4, "")))
    ensures Enabled(s2, Spawn(Syn(init.id), Calm(4))) && s3 == Next(s2, Spawn(Syn(init.id), Calm(4))) && Inv(s3)
    ensures s3.id == init.id && s3.client.phase.Live? && s3.server.phase.Live?
    ensures s3.client.sock == Caller(init.id).(lastSend := Second(4)) && s3.server.sock == Spawned(init.id)
  {
    var id := init.id;
    InitOk(init);
    CallerVisited(id);
    s1 := Next(init, Connect(1, 0));
    StepOk(init, Connect(1, 0));
    assert s1.client.sock == Caller(id) && s1.client.phase.Live? && s1.id == id && s1.server == init.server;
    hide Inv, VisitSock, Caller;
    s2 := SockVisited(s1, Client, Look(4, ""), Caller(id).(lastSend := Second(4)), Syn(id));
    assert Syn(id).flags.syn && Calm(4).isn == 0 && s2.server.phase.Idle?;
    s3 := Next(s2, Spawn(Syn(id), Calm(4)));
    StepOk(s2, Spawn(Syn(id), Calm(4)));
  }

  lemma Meets(init: Sys, s3: Sys) returns (s4: Sys, s5: Sys, s6: Sys, s7: Sys)
    requires Inv(s3) && s3.id == init.id && s3.client.phase.Live? && s3.server.phase.Live?
    requires s3.client.sock == Caller(init.id).(lastSend := Second(4)) && s3.server.sock == Spawned(init.id)
    ensures var id := init.id;
            && Enabled(s3, Visit(Server, Look(8, ""))) && s4 == Next(s3, Visit(Server, Look(8, "")))
            && Enabled(s4, Deliver(Client, SynAck(id), Calm(8), true))
            && s5 == Next(s4, Deliver(Client, SynAck(id), Calm(8), true))
            && Enabled(s5, Visit(Client, Look(8, ""))) && s6 == Next(s5, Visit(Client, Look(8, "")))
            && Enabled(s6, Deliver(Server, Segment(id, ""), Calm(8), true))
            && s7 == Next(s6, Deliver(Server, Segment(id, ""), Calm(8), true))
    ensures Both(s7)
  {
    var id := init.id;
    assert !IsEmptyIp(id.dstIp) && Caller(id).id.srcIp == id.srcIp && Spawned(id).id.srcIp == id.dstIp;
    SpawnedVisited(id);
    CallerAnswered(id, id.srcIp);
    ConnectedVisited(id, "");
    SpawnedAnswered(id, id.dstIp);
    assert Writing(id, "").state == Established && Open(id).state == Established;
    hide Inv, VisitSock, HandlePacket, Caller, Spawned, Connected, Writing, Open, AfterReply, Next, Enabled;
    s4 := SockVisited(s3, Server, Look(8, ""), Spawned(id).(lastSend := Second(8)), SynAck(id));
    s5 := SockReads(s4, Client, SynAck(id), Calm(8), Connected(id));
    s6 := SockVisited(s5, Client, Look(8, ""), Writing(id, ""), Segment(id, ""));
    s7 := SockReads(s6, Server, Segment(id, ""), Calm(8), Open(id));
  }

  lemma SevenSteps(s0: Sys, g: seq<Step>, s4: Sys, s5: Sys, s6: Sys)
    requires |g| == 7 && ValidRun(s0, g[..4]) && s4 == Exec(s0, g[..4])
    requires Enabled(s4, g[4]) && s5 == Next(s4, g[4]) && Enabled(s5, g[5]) && s6 == Next(s5, g[5]) && Enabled(s6, g[6])
    ensures ValidRun(s0, g) && Exec(s0, g) == Next(s6, g[6])
  {
    hide Next, Enabled, ValidRun, Exec;
    StepOn(s0, g[..4], g[4]);
    assert g[..4] + [g[4]] == g[..5];
    StepOn(s0, g[..5], g[5]);
    assert g[..5] + [g[5]] == g[..6];
    StepOn(s0, g[..6], g[6]);
    assert g[..6] + [g[6]] == g;
  }

  lemma GreetingIs(id: Id)
    ensures var g := Greeting(id);
            && |g| == 7
            && g[..4] ==
               [Connect(1, 0), Visit(Client, Look(4, "")), Spawn(Syn(id), Calm(4)), Visit(Server, Look(8, ""))]
            && g[4] == Deliver(Client, SynAck(id), Calm(8), true) && g[5] == Visit(Client, Look(8, ""))
            && g[6] == Deliver(Server, Segment(id, ""), Calm(8), true)
  {
    hide Syn, SynAck, Segment, Look, Calm;
  }

  /** So both theorems speak of real runs: from every initial state one leads to where both sides are ESTABLISHED. */
  lemma BothMeet(init: Sys)
    requires Init(init)
    ensures ValidRun(init, Greeting(init.id)) && Both(Exec(init, Greeting(init.id)))
  {
    var s1, s2, s3 := Greets(init);
    var s4, s5, s6, s7 := Meets(init, s3);
    var id := init.id;
    hide Inv, Next, Enabled, Init, Both, ValidRun, Exec, Greeting, Syn, SynAck, Segment, Look, Calm;
    GreetingIs(id);
    FourSteps(init, Connect(1, 0), Visit(Client, Look(4, "")), Spawn(Syn(id), Calm(4)), Visit(Server, Look(8, "")));
    SevenSteps(init, Greeting(id), s4, s5, s6);
  }
}
