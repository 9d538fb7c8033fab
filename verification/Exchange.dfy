/** A run of the closed loop in which a text gets across: two ports are bound, one listens, the other connects, and the
    text is written, sent, received and handed over. So what ClosedLoop asks of a run can be met by one that matters. */
module Exchange {
  import opened Common
  import opened Packets
  import opened Decimal
  import opened SocketModel
  import opened Protocol
  import opened Invariant
  import opened Safety
  import Progress
  import opened IpWire
  import SocketTable
  import opened NetworkManager
  import opened ManagerModel
  import opened Delivery
  import opened Coupling
  import opened Surroundings
  import opened ClosedLoop

  // ---------------------------------------------------------------- runs, one event after the other

  /** The events lead from one state of protocol and manager to another. */
  predicate Leads(sys: Sys, n: Node, events: seq<Event>, wild: int -> int, sys': Sys, n': Node)
    requires Joined(sys, n)
    decreases |events|
  {
    if events == [] then sys' == sys && n' == n
    else
      && EventOk(n, events[0]) && EventFits(sys, n, events[0], wild)
      && (EventRefines(sys, n, events[0], wild);
          Leads(Exec(sys, StepsIn(sys, n, events[0], wild)), NodeAfter(n, events[0], wild), events[1..], wild,
                sys', n'))
  }

  /** One event, as a step of both. */
  predicate Advances(sys: Sys, n: Node, e: Event, wild: int -> int, sys': Sys, n': Node) {
    && Keyed(n.table) && EventOk(n, e) && EventFits(sys, n, e, wild)
    && ValidRun(sys, StepsIn(sys, n, e, wild)) && sys' == Exec(sys, StepsIn(sys, n, e, wild))
    && n' == NodeAfter(n, e, wild)
  }

  lemma LeadsFirst(sys: Sys, n: Node, e: Event, sys1: Sys, n1: Node, rest: seq<Event>, wild: int -> int, sys2: Sys,
                   n2: Node)
    requires Joined(sys, n) && Advances(sys, n, e, wild, sys1, n1)
    requires Joined(sys1, n1) && Leads(sys1, n1, rest, wild, sys2, n2)
    ensures Leads(sys, n, [e] + rest, wild, sys2, n2)
  {
    hide Joined, Keyed, EventOk, EventFits, StepsIn, NodeAfter;
    assert ([e] + rest)[1..] == rest;
  }

  /** The first of the events. */
  lemma LeadsBy(sys: Sys, n: Node, events: seq<Event>, wild: int -> int, sys2: Sys, n2: Node)
    returns (sys1: Sys, n1: Node)
    requires Joined(sys, n) && Leads(sys, n, events, wild, sys2, n2) && events != []
    ensures Advances(sys, n, events[0], wild, sys1, n1) && Joined(sys1, n1)
    ensures Leads(sys1, n1, events[1..], wild, sys2, n2)
  {
    JoinedIs(sys, n);
    hide Joined, Coupled, Keyed, EventOk, EventFits, StepsIn, NodeAfter;
    EventRefines(sys, n, events[0], wild);
    sys1, n1 := Exec(sys, StepsIn(sys, n, events[0], wild)), NodeAfter(n, events[0], wild);
  }

  lemma AdvanceKeeps(sys: Sys, n: Node, e: Event, wild: int -> int, sys': Sys, n': Node)
    requires Joined(sys, n) && Advances(sys, n, e, wild, sys', n')
    ensures Joined(sys', n') && Keyed(n'.table) && sys'.id == sys.id && n'.ip == n.ip
  {
    hide Joined, EventOk, EventFits, StepsIn, NodeAfter;
    EventRefines(sys, n, e, wild);
    IdStays(sys, StepsIn(sys, n, e, wild));
  }

  lemma {:induction false} LeadsFurther(sys: Sys, n: Node, events: seq<Event>, wild: int -> int, sys1: Sys, n1: Node,
                                        e: Event, sys2: Sys, n2: Node)
    requires Joined(sys, n) && Leads(sys, n, events, wild, sys1, n1) && Advances(sys1, n1, e, wild, sys2, n2)
    ensures Leads(sys, n, events + [e], wild, sys2, n2)
    decreases |events|
  {
    hide Joined, Advances;
    if events == [] {
      AdvanceKeeps(sys, n, e, wild, sys2, n2);
      LeadsFirst(sys, n, e, sys2, n2, [], wild, sys2, n2);
      assert [e] + [] == [] + [e];
    } else {
      hide Leads;
      var sys', n' := LeadsBy(sys, n, events, wild, sys1, n1);
      LeadsFurther(sys', n', events[1..], wild, sys1, n1, e, sys2, n2);
      LeadsFirst(sys, n, events[0], sys', n', events[1..] + [e], wild, sys2, n2);
      assert [events[0]] + (events[1..] + [e]) == events + [e];
    }
  }

  /** So the events are a run, and what it leads to is the protocol's state and the manager's at its end. */
  lemma {:induction false} LeadsMeans(sys: Sys, n: Node, events: seq<Event>, wild: int -> int, sys': Sys, n': Node)
    requires Joined(sys, n) && Leads(sys, n, events, wild, sys', n')
    ensures EventsFit(sys, n, events, wild) && n' == AfterAll(n, events, wild)
    ensures Coupled(sys, n.table, n.ip) && CallsOk(sys, n.table, n.ip, CallsOf(n, events, wild), wild)
    ensures var steps := RunOf(sys, n.table, n.ip, CallsOf(n, events, wild), wild);
            ValidRun(sys, steps) && sys' == Exec(sys, steps)
    decreases |events|
  {
    JoinedIs(sys, n);
    hide Joined, Coupled, EventFits, EventOk, StepsIn, NodeAfter, CallOf, CallOk, StepsOf, EffectOf, Keyed;
    if events == [] {
      assert RunOf(sys, n.table, n.ip, CallsOf(n, events, wild), wild) == [];
    } else {
      EventRefines(sys, n, events[0], wild);
      var sys1, n1 := Exec(sys, StepsIn(sys, n, events[0], wild)), NodeAfter(n, events[0], wild);
      JoinedIs(sys1, n1);
      LeadsMeans(sys1, n1, events[1..], wild, sys', n');
      FirstFits(sys, n, events[0], CallsOf(n1, events[1..], wild), wild);
      hide CallsOk;
      RunsJoin(sys, StepsIn(sys, n, events[0], wild),
               RunOf(sys1, n1.table, n.ip, CallsOf(n1, events[1..], wild), wild));
    }
  }

  // ---------------------------------------------------------------- what single events do

  lemma VisitGives(n: Node, key: Id, v: VisitEnv, wild: int -> int)
    requires Keyed(n.table) && key in n.table && key.dstIp == n.ip && !v.close && !VisitSock(n.table[key], v).1
    ensures var e := Event.Visit(key, v); var (s, removed, sent) := VisitSock(n.table[key], v);
            && NodeAfter(n, e, wild) == n.(table := n.table[key := s], inbox := n.inbox + Owned(sent))
            && Looped(n, e, wild) == sent
  {
    VisitShaped(n.table[key], v);
    hide VisitSock;
    assert (n.table - {key})[key := VisitSock(n.table[key], v).0] == n.table[key := VisitSock(n.table[key], v).0];
  }

  lemma StandsUnder(sys: Sys, n: Node, side: Side)
    requires Joined(sys, n) && sys.IdOf(side) in n.table
    ensures var key := sys.IdOf(side);
            && Keyed(n.table) && key.dstIp == n.ip && EndAt(sys, key) == Some(side)
            && sys.At(side).phase.Live? && sys.At(side).sock == n.table[key] && sys.At(side).sock.Shaped()
  {
    assert Holds(sys, side, n.table);
    KeysApart(sys, side);
    EndFound(sys, side);
    hide Inv, Sole, FrameOk;
  }

  /** A visit to an end that stands under the connection's key. */
  lemma VisitEnd(sys: Sys, n: Node, side: Side, v: VisitEnv, wild: int -> int)
    requires Joined(sys, n) && n.running && Small(sys) && sys.IdOf(side) in n.table
    requires !v.close && NoNul(v.offered) && !VisitSock(n.table[sys.IdOf(side)], v).1
    ensures var key, e := sys.IdOf(side), Event.Visit(sys.IdOf(side), v);
            && Keyed(n.table) && EventOk(n, e) && EventFits(sys, n, e, wild)
            && sys.At(side).phase.Live? && sys.At(side).sock == n.table[key] && sys.At(side).sock.Shaped()
            && StepsIn(sys, n, e, wild) == [Protocol.Visit(side, v)] && Enabled(sys, Protocol.Visit(side, v))
            && var (s, removed, sent) := VisitSock(n.table[key], v);
            && NodeAfter(n, e, wild) == n.(table := n.table[key := s], inbox := n.inbox + Owned(sent))
  {
    var key := sys.IdOf(side);
    StandsUnder(sys, n, side);
    VisitSent(n.table[key], v);
    VisitGives(n, key, v, wild);
    hide Joined, VisitSock, Small, Sendable, NodeAfter, Looped, Keyed, EndAt;
  }

  /** A frame of the other end's is next in the fifo, and the end stands under the connection's key. */
  predicate Due(sys: Sys, n: Node, side: Side, p: Packet, wild: int -> int) {
    && Joined(sys, n) && n.running && Small(sys)
    && n.inbox != [] && n.inbox[0] == Own(p) && Between(sys, side.Other(), p) && !LostOnWire(p, wild)
  }

  lemma DueMeans(sys: Sys, n: Node, side: Side, p: Packet, wild: int -> int)
    requires Due(sys, n, side, p, wild)
    ensures p in sys.From(side.Other()) && Sendable(p) && Admitted(Unframed(n.inbox[0], n.ip), n.ip, wild) == Some(p)
    ensures Unframed(n.inbox[0], n.ip).srcIp == n.ip
    ensures PacketKey(n.ip, n.ip, p) == sys.IdOf(side)
  {
    assert FrameOk(sys, n.inbox[0], n.ip);
    OwnSendable(sys, p, n.ip);
    EnvelopeArrives(p, n.ip, n.ip, wild);
    KeysApart(sys, side);
    hide Inv, Sole, Admitted, LostOnWire, Sendable, Keyed, Holds;
  }

  /** What a turn reads: the segment, for the socket that stands under the connection's key. */
  predicate Reads(n: Node, p: Packet, key: Id, wild: int -> int) {
    && Keyed(n.table) && n.running && !IsEmptyIp(n.ip) && n.inbox != []
    && var packet := Unframed(n.inbox[0], n.ip);
    && packet.srcIp == n.ip && Admitted(packet, n.ip, wild) == Some(p)
    && Lookup(n.table, n.ip, n.ip, p) == Some(key) && PacketKey(n.ip, n.ip, p) == key
    && key in n.table && !n.table[key].state.Listen?
  }

  /** And that all fifos can be made. */
  predicate Sees(n: Node, p: Packet, key: Id, env: Env, wild: int -> int) {
    && Reads(n, p, key, wild)
    && var packet := Unframed(n.inbox[0], n.ip);
    && Made(n, packet, true, wild) && WorldOf(n, packet, env, true, true, wild) == World(env, true, true)
    && MakingFor(n, packet, wild) == (if Answered(n.table[key], p) then Announcing(key) else Nobody)
  }

  lemma ReadsEnd(sys: Sys, n: Node, side: Side, p: Packet, wild: int -> int)
    requires Due(sys, n, side, p, wild) && sys.IdOf(side) in n.table && Keyed(n.table)
    ensures Reads(n, p, sys.IdOf(side), wild)
    ensures sys.At(side).phase.Live? && sys.At(side).sock == n.table[sys.IdOf(side)]
  {
    DueMeans(sys, n, side, p, wild);
    assert Holds(sys, side, n.table);
    KeysApart(sys, side);
    hide Inv, Admitted, Unframed, LostOnWire, Sendable, Small, Sole, FrameOk, Holds, Keyed, Answered;
  }

  lemma ReadsSees(n: Node, p: Packet, key: Id, env: Env, wild: int -> int)
    requires Reads(n, p, key, wild) && (Answered(n.table[key], p) ==> Surroundings.Free(n.disk, key))
    ensures Sees(n, p, key, env, wild)
  {
    hide Admitted, Unframed, Lookup, Keyed;
  }

  lemma ArrivesAtEnd(sys: Sys, m: Sockets, ip: string, side: Side, p: Packet, env: Env)
    requires Coupled(sys, m, ip) && p in sys.From(side.Other()) && sys.At(side).phase.Live?
    requires Lookup(m, ip, ip, p) == Some(sys.IdOf(side)) && !m[sys.IdOf(side)].state.Listen?
    ensures ArrivalFits(sys, m, ip, ip, p, World(env, true, true))
    ensures PacketSteps(sys, m, ip, ip, p, World(env, true, true)) == [Deliver(side, p, env, true)]
    ensures Enabled(sys, Deliver(side, p, env, true))
  {
    KeysApart(sys, side);
    DeliverIsPacketStep(sys, m, ip, side, p, World(env, true, true));
    EndsDoNotSpawn(m, ip, p, World(env, true, true));
    hide Inv, Lookup, PacketSteps, SpawnsAt, PacketOkFor;
  }

  lemma DispatchGives(m: Sockets, ip: string, p: Packet, key: Id, env: Env)
    requires Keyed(m) && key in m && !m[key].state.Listen? && !IsEmptyIp(ip)
    requires Lookup(m, ip, ip, p) == Some(key) && PacketKey(ip, ip, p) == key
    ensures var o := HandlePacket(m[key], p, ip, env);
            DispatchIn(m, ip, ip, p, World(env, true, true)) ==
            Effect(m[key := AfterReply(o, true, env.now)], if o.reply.Some? then [o.reply.value] else [], o.written)
  {
    OnlyListenersSpawn(m[key], p, ip, env, |m| < SocketTable.TABLE_SIZE && SpawnKey(m[key].id, ip, p) !in m);
    hide HandlePacket, Lookup;
  }

  function RepliesTo(s: Sock, p: Packet, ip: string, env: Env): seq<Packet>
    requires s.Shaped()
  {
    var o := HandlePacket(s, p, ip, env);
    if o.reply.Some? then [o.reply.value] else []
  }

  lemma TurnEffect(n: Node, p: Packet, key: Id, env: Env, wild: int -> int)
    requires Sees(n, p, key, env, wild)
    ensures var e := EffectAt(n, Turn(env, true, true), wild);
            && e.table == n.table[key := AfterReply(HandlePacket(n.table[key], p, n.ip, env), true, env.now)]
            && e.sent == RepliesTo(n.table[key], p, n.ip, env)
  {
    var packet := Unframed(n.inbox[0], n.ip);
    DispatchGives(n.table, n.ip, p, key, env);
    TurnMeans(n, env, true, true, wild);
    ReceiveMeans(n.table, n.ip, packet, p, World(env, true, true), wild);
    hide Admitted, Unframed, WorldOf, MakingFor, Made, Lookup, HandlePacket, DispatchIn, AfterReply, Answered, Keyed;
    hide ReceiveIn, EffectAt, PacketKey, IsEmptyIp, NodeAfter;
  }

  lemma ReceiveMeans(m: Sockets, ip: string, packet: IpPacket, p: Packet, w: World, wild: int -> int)
    requires Keyed(m) && Admitted(packet, ip, wild) == Some(p)
    ensures ReceiveIn(m, ip, packet, wild, w) == DispatchIn(m, ip, packet.srcIp, p, w)
  {
    hide Admitted, DispatchIn;
  }

  lemma TurnDisk(n: Node, p: Packet, key: Id, env: Env, wild: int -> int)
    requires Sees(n, p, key, env, wild)
    ensures DiskAfter(n, Turn(env, true, true), wild) ==
            n.disk + if Answered(n.table[key], p) then Ends(key) else {}
  {
    hide Admitted, Unframed, MakingFor, Made, WorldOf, EffectAt, Lookup, Answered;
  }

  /** What the handling of a segment makes of a connected socket. */
  lemma TurnGives(n: Node, p: Packet, key: Id, env: Env, wild: int -> int)
    requires Sees(n, p, key, env, wild)
    ensures NodeAfter(n, Turn(env, true, true), wild) ==
            n.(table := n.table[key := AfterReply(HandlePacket(n.table[key], p, n.ip, env), true, env.now)],
               disk := n.disk + (if Answered(n.table[key], p) then Ends(key) else {}),
               granted := GrantedAfter(n, Turn(env, true, true), wild),
               inbox := n.inbox[1..] + Owned(RepliesTo(n.table[key], p, n.ip, env)))
    ensures Looped(n, Turn(env, true, true), wild) == RepliesTo(n.table[key], p, n.ip, env)
  {
    TurnEffect(n, p, key, env, wild);
    TurnDisk(n, p, key, env, wild);
    hide Admitted, Unframed, WorldOf, MakingFor, Made, Lookup, EffectAt, DiskAfter, GrantedAfter, HandlePacket;
    hide AfterReply, RepliesTo, Answered;
  }

  lemma RepliesNotElsewhere(sys: Sys, n: Node, side: Side, p: Packet, env: Env, wild: int -> int, q: Packet)
    requires Sees(n, p, sys.IdOf(side), env, wild) && Between(sys, side.Other(), p)
    requires sys.id.srcPort != sys.id.dstPort && q in Looped(n, Turn(env, true, true), wild)
    ensures !Elsewhere(sys, q)
  {
    TurnGives(n, p, sys.IdOf(side), env, wild);
    ReplySent(n.table[sys.IdOf(side)], p, n.ip, env);
    hide Sees, Looped, HandlePacket;
    assert side.Client? || side.Server?;
  }

  lemma TurnCalls(n: Node, env: Env, wild: int -> int)
    requires n.inbox != []
    ensures var packet := Unframed(n.inbox[0], n.ip);
            CallOf(n, Turn(env, true, true), wild) ==
            Some(ReceiveCall(packet, WorldOf(n, packet, env, true, true, wild)))
  {
    hide Unframed, WorldOf;
  }

  lemma ReceiveSteps(sys: Sys, m: Sockets, ip: string, packet: IpPacket, p: Packet, w: World, wild: int -> int)
    requires Keyed(m) && Admitted(packet, ip, wild) == Some(p)
    ensures StepsOf(sys, m, ip, ReceiveCall(packet, w), wild) == PacketSteps(sys, m, ip, packet.srcIp, p, w)
  {
    hide Admitted, PacketSteps;
  }

  lemma TurnSteps(sys: Sys, n: Node, p: Packet, key: Id, env: Env, wild: int -> int)
    requires Sees(n, p, key, env, wild)
    ensures StepsIn(sys, n, Turn(env, true, true), wild) ==
            PacketSteps(sys, n.table, n.ip, n.ip, p, World(env, true, true))
  {
    TurnCalls(n, env, wild);
    ReceiveSteps(sys, n.table, n.ip, Unframed(n.inbox[0], n.ip), p, World(env, true, true), wild);
    hide Admitted, Unframed, WorldOf, MakingFor, Made, Lookup, PacketSteps, StepsOf, CallOf, Answered, Keyed, PacketKey;
  }

  lemma TurnFits(sys: Sys, n: Node, p: Packet, key: Id, env: Env, wild: int -> int)
    requires Small(sys) && Sees(n, p, key, env, wild)
    requires ArrivalFits(sys, n.table, n.ip, n.ip, p, World(env, true, true))
    requires forall q :: q in Looped(n, Turn(env, true, true), wild) ==> !Elsewhere(sys, q)
    ensures EventOk(n, Turn(env, true, true)) && EventFits(sys, n, Turn(env, true, true), wild)
  {
    hide Admitted, Unframed, WorldOf, MakingFor, Made, Lookup, Answered, Keyed, PacketKey, ArrivalFits, Small;
    hide Elsewhere, Looped, Sendable;
  }

  /** An end reads its peer's segment: one delivery of the protocol. */
  lemma TurnEnd(sys: Sys, n: Node, side: Side, p: Packet, env: Env, wild: int -> int)
    requires Due(sys, n, side, p, wild) && Keyed(n.table) && sys.IdOf(side) in n.table
    requires Answered(n.table[sys.IdOf(side)], p) ==> Surroundings.Free(n.disk, sys.IdOf(side))
    ensures var e, key := Turn(env, true, true), sys.IdOf(side);
            && EventOk(n, e) && EventFits(sys, n, e, wild)
            && sys.At(side).sock == n.table[key] && Enabled(sys, Deliver(side, p, env, true))
            && StepsIn(sys, n, e, wild) == [Deliver(side, p, env, true)]
            && NodeAfter(n, e, wild) ==
               n.(table := n.table[key := AfterReply(HandlePacket(n.table[key], p, n.ip, env), true, env.now)],
                  disk := n.disk + (if Answered(n.table[key], p) then Ends(key) else {}),
                  granted := GrantedAfter(n, e, wild),
                  inbox := n.inbox[1..] + Owned(RepliesTo(n.table[key], p, n.ip, env)))
  {
    var key := sys.IdOf(side);
    DueMeans(sys, n, side, p, wild);
    ReadsEnd(sys, n, side, p, wild);
    ReadsSees(n, p, key, env, wild);
    KeysApart(sys, side);
    ArrivesAtEnd(sys, n.table, n.ip, side, p, env);
    forall q | q in Looped(n, Turn(env, true, true), wild) ensures !Elsewhere(sys, q) {
      RepliesNotElsewhere(sys, n, side, p, env, wild, q);
    }
    hide Sees, Joined, Coupled, ArrivalFits, Elsewhere, Small, EventFits, StepsIn, PacketSteps, NodeAfter, GrantedAfter;
    hide HandlePacket, AfterReply, RepliesTo, Looped, Answered, Enabled, LostOnWire, Lookup, Admitted;
    TurnFits(sys, n, p, key, env, wild);
    TurnSteps(sys, n, p, key, env, wild);
    TurnGives(n, p, key, env, wild);
  }

  // ---------------------------------------------------------------- a listener reads a SYN

  /** A listener with room for a connection reads a SYN for which there is none yet. */
  predicate Welcomes(n: Node, p: Packet, wild: int -> int) {
    && Keyed(n.table) && n.running && !IsEmptyIp(n.ip) && n.inbox != []
    && var packet, a := Unframed(n.inbox[0], n.ip), BoundId(n.ip, p.dstPort);
    && packet.srcIp == n.ip && Admitted(packet, n.ip, wild) == Some(p) && p.flags.syn
    && PacketKey(n.ip, n.ip, p) !in n.table && a in n.table
    && n.table[a].state.Listen? && n.table[a].maxConnections > 0
    && |n.table| < SocketTable.TABLE_SIZE && Surroundings.Free(n.disk, PacketKey(n.ip, n.ip, p))
  }

  lemma WelcomeMakes(n: Node, p: Packet, env: Env, wild: int -> int)
    requires Welcomes(n, p, wild)
    ensures var packet := Unframed(n.inbox[0], n.ip);
            && MakingFor(n, packet, wild) == Spawning(PacketKey(n.ip, n.ip, p)) && Made(n, packet, true, wild)
            && WorldOf(n, packet, env, true, true, wild) == World(env, true, true)
  {
    hide Admitted, Unframed, Keyed;
  }

  lemma WelcomeDispatch(n: Node, p: Packet, env: Env, wild: int -> int)
    requires Welcomes(n, p, wild)
    ensures var a, key, w := BoundId(n.ip, p.dstPort), PacketKey(n.ip, n.ip, p), World(env, true, true);
            && DispatchIn(n.table, n.ip, n.ip, p, w) ==
               Effect(n.table[a := n.table[a].(maxConnections := n.table[a].maxConnections - 1)]
                             [key := SpawnedSock(a, p, n.ip, env)], [], "")
            && SpawnsAt(n.table, n.ip, n.ip, p, w) == Some(key) && Lookup(n.table, n.ip, n.ip, p) == Some(a)
  {
    var a := BoundId(n.ip, p.dstPort);
    var s, e := n.table[a], env.(spawnOk := true);
    assert s.id == a;
    assert HandlePacket(s, p, n.ip, e) == HandleListen(s, p, n.ip, e);
    hide Admitted, Unframed, HandlePacket;
  }

  lemma WelcomeEffect(n: Node, p: Packet, env: Env, wild: int -> int)
    requires Welcomes(n, p, wild)
    ensures var a, key, e := BoundId(n.ip, p.dstPort), PacketKey(n.ip, n.ip, p), Turn(env, true, true);
            && EffectAt(n, e, wild) ==
               Effect(n.table[a := n.table[a].(maxConnections := n.table[a].maxConnections - 1)]
                             [key := SpawnedSock(a, p, n.ip, env)], [], "")
            && DiskAfter(n, e, wild) == n.disk + Ends(key)
  {
    var packet := Unframed(n.inbox[0], n.ip);
    WelcomeMakes(n, p, env, wild);
    WelcomeDispatch(n, p, env, wild);
    TurnMeans(n, env, true, true, wild);
    ReceiveMeans(n.table, n.ip, packet, p, World(env, true, true), wild);
    hide Admitted, Unframed, WorldOf, MakingFor, Made, DispatchIn, Keyed, ReceiveIn, EffectAt, NodeAfter;
  }

  lemma WelcomeFits(sys: Sys, m: Sockets, ip: string, p: Packet, env: Env)
    requires Coupled(sys, m, ip) && p in sys.toServer && sys.server.phase.Idle? && 0 <= env.isn
    requires Lookup(m, ip, ip, p) == Some(BoundId(ip, p.dstPort)) && m[BoundId(ip, p.dstPort)].state.Listen?
    requires SpawnsAt(m, ip, ip, p, World(env, true, true)) == Some(sys.IdOf(Server)) && p.flags.syn
    ensures ArrivalFits(sys, m, ip, ip, p, World(env, true, true))
    ensures PacketSteps(sys, m, ip, ip, p, World(env, true, true)) == [Spawn(p, env)] && Enabled(sys, Spawn(p, env))
  {
    KeysApart(sys, Client);
    KeysApart(sys, Server);
    hide Inv, SpawnsAt, Lookup, Keyed;
    assert EndAt(sys, BoundId(ip, p.dstPort)).None?;
  }

  lemma SpawnSteps(sys: Sys, n: Node, p: Packet, env: Env, wild: int -> int)
    requires Welcomes(n, p, wild)
    ensures StepsIn(sys, n, Turn(env, true, true), wild) ==
            PacketSteps(sys, n.table, n.ip, n.ip, p, World(env, true, true))
  {
    WelcomeMakes(n, p, env, wild);
    TurnCalls(n, env, wild);
    ReceiveSteps(sys, n.table, n.ip, Unframed(n.inbox[0], n.ip), p, World(env, true, true), wild);
    hide Admitted, Unframed, WorldOf, MakingFor, Made, PacketSteps, StepsOf, CallOf, Keyed, PacketKey;
  }

  lemma SpawnFits(sys: Sys, n: Node, p: Packet, env: Env, wild: int -> int)
    requires Small(sys) && Welcomes(n, p, wild)
    requires ArrivalFits(sys, n.table, n.ip, n.ip, p, World(env, true, true))
    ensures EventOk(n, Turn(env, true, true)) && EventFits(sys, n, Turn(env, true, true), wild)
    ensures Looped(n, Turn(env, true, true), wild) == []
  {
    WelcomeMakes(n, p, env, wild);
    WelcomeEffect(n, p, env, wild);
    hide Admitted, Unframed, WorldOf, MakingFor, Made, Keyed, PacketKey, ArrivalFits, Small, EffectAt, SpawnedSock;
  }

  /** A connection is spawned: the protocol's spawn. */
  lemma SpawnEnd(sys: Sys, n: Node, p: Packet, env: Env, wild: int -> int)
    requires Due(sys, n, Server, p, wild) && sys.server.phase.Idle? && Welcomes(n, p, wild) && 0 <= env.isn
    ensures var e, a := Turn(env, true, true), BoundId(n.ip, p.dstPort);
            && EventOk(n, e) && EventFits(sys, n, e, wild)
            && StepsIn(sys, n, e, wild) == [Spawn(p, env)] && Enabled(sys, Spawn(p, env))
            && NodeAfter(n, e, wild) ==
               n.(table := n.table[a := n.table[a].(maxConnections := n.table[a].maxConnections - 1)]
                                  [sys.IdOf(Server) := SpawnedSock(a, p, n.ip, env)],
                  disk := n.disk + Ends(sys.IdOf(Server)), granted := GrantedAfter(n, e, wild),
                  inbox := n.inbox[1..])
  {
    DueMeans(sys, n, Server, p, wild);
    WelcomeEffect(n, p, env, wild);
    WelcomeDispatch(n, p, env, wild);
    WelcomeFits(sys, n.table, n.ip, p, env);
    hide Joined, Coupled, ArrivalFits, Small, EventFits, StepsIn, PacketSteps, GrantedAfter, DiskAfter, EffectAt;
    hide Looped, Enabled, LostOnWire, Lookup, Admitted, SpawnedSock, DispatchIn, SpawnsAt, PacketKey;
    SpawnFits(sys, n, p, env, wild);
    SpawnSteps(sys, n, p, env, wild);
    assert n.inbox[1..] + Owned([]) == n.inbox[1..];
  }

  // ---------------------------------------------------------------- the run

  function Second(k: int): int {
    k * CLOCKS_PER_SEC
  }

  function Look(seconds: int, offered: string): VisitEnv {
    VisitEnv(Second(seconds), false, offered, Sent, Sent, Sent)
  }

  function Calm(seconds: int): Env {
    Env(Second(seconds), WINDOW_SIZE, true, 0, true)
  }

  /** After some events on a manager that has just been made. */
  predicate Told(init: Sys, events: seq<Event>, wild: int -> int, sys: Sys, n: Node) {
    && Init(init) && IsAddress(init.id.srcIp)
    && (Opens(init, {});
        Leads(init, Fresh(init.id.srcIp, {}), events, wild, sys, n))
    && Joined(sys, n) && Keyed(n.table) && sys.id == init.id && n.ip == init.id.srcIp
  }

  lemma TellOn(init: Sys, events: seq<Event>, wild: int -> int, sys: Sys, n: Node, e: Event, sys': Sys, n': Node)
    requires Told(init, events, wild, sys, n) && Advances(sys, n, e, wild, sys', n')
    ensures Told(init, events + [e], wild, sys', n')
  {
    Opens(init, {});
    AdvanceKeeps(sys, n, e, wild, sys', n');
    hide Joined, Leads, Advances, Init, Fresh;
    LeadsFurther(init, Fresh(init.id.srcIp, {}), events, wild, sys, n, e, sys', n');
  }

  predicate GoodPorts(id: Id) {
    1 <= id.srcPort <= 99999 && 1 <= id.dstPort <= 99999
  }

  /** Where the run stands: the two sockets, what has been accepted, and what is in the fifo. */
  predicate Scene(sys: Sys, n: Node, client: Sock, server: Option<Sock>, accepted: string, inbox: seq<Packet>) {
    var id, mirror, a := sys.id, Mirror(sys.id), BoundId(sys.id.dstIp, sys.id.dstPort);
    && Joined(sys, n) && Keyed(n.table) && n.running && n.inbox == Owned(inbox) && GoodPorts(id)
    && id in n.table && n.table[id] == client && (client.state.SynSent? ==> Surroundings.Free(n.disk, id))
    && sys.client.isn == 1 && sys.client.accepted == accepted && |accepted| <= MAX_DATA
    && sys.server.isn == 0 && sys.server.accepted == ""
    && (server.None? ==>
          && sys.server.phase.Idle? && mirror !in n.table && Surroundings.Free(n.disk, mirror)
          && a in n.table && n.table[a].state.Listen? && n.table[a].maxConnections > 0
          && |n.table| < SocketTable.TABLE_SIZE)
    && (server.Some? ==> mirror in n.table && n.table[mirror] == server.value && !server.value.state.SynSent?)
  }

  lemma SceneSmall(sys: Sys, n: Node, client: Sock, server: Option<Sock>, accepted: string, inbox: seq<Packet>)
    requires Scene(sys, n, client, server, accepted, inbox)
    ensures Small(sys)
  {
    hide Joined;
  }

  /** What a visit makes of an endpoint's history. */
  lemma VisitRecords(e: Endpoint, v: VisitEnv)
    requires e.phase.Live? && e.sock.Shaped() && !v.close && !VisitSock(e.sock, v).1
    ensures var e' := VisitOf(e, v).0;
            && e'.sock == VisitSock(e.sock, v).0 && e'.phase.Live? && e'.isn == e.isn && e'.delivered == e.delivered
            && e'.accepted == e.accepted + (if e.sock.state.Established? then Taken(e.sock, v.offered) else "")
  {
    VisitOfSock(e, v);
  }

  lemma OwnedJoins(a: seq<Packet>, b: seq<Packet>)
    ensures Owned(a) + Owned(b) == Owned(a + b)
  {
  }

  /** A visit to an end, as a step of the protocol. */
  lemma VisitAdvances(sys: Sys, n: Node, side: Side, v: VisitEnv, wild: int -> int) returns (sys': Sys, n': Node)
    requires Joined(sys, n) && n.running && Small(sys) && Keyed(n.table) && sys.IdOf(side) in n.table
    requires !v.close && NoNul(v.offered) && !VisitSock(n.table[sys.IdOf(side)], v).1
    ensures Advances(sys, n, Event.Visit(sys.IdOf(side), v), wild, sys', n')
    ensures var s := n.table[sys.IdOf(side)];
            && sys.At(side).sock == s && sys'.id == sys.id && sys'.At(side.Other()) == sys.At(side.Other())
            && sys'.At(side).isn == sys.At(side).isn && sys'.At(side).delivered == sys.At(side).delivered
            && sys'.At(side).accepted ==
               sys.At(side).accepted + (if s.state.Established? then Taken(s, v.offered) else "")
            && n' == n.(table := n.table[sys.IdOf(side) := VisitSock(s, v).0],
                        inbox := n.inbox + Owned(VisitSock(s, v).2))
  {
    var step, e := Protocol.Visit(side, v), Event.Visit(sys.IdOf(side), v);
    VisitEnd(sys, n, side, v, wild);
    VisitRecords(sys.At(side), v);
    sys', n' := Next(sys, step), NodeAfter(n, e, wild);
    NextAt(sys, step, side);
    NextAt(sys, step, side.Other());
    assert sys'.id == sys.id;
    hide Joined, VisitOf, VisitSock, NodeAfter, EventFits, EventOk, StepsIn, Enabled, Next, Small;
    OneStep(sys, step);
  }

  lemma ClientVisit(sys: Sys, n: Node, client: Sock, server: Option<Sock>, accepted: string, inbox: seq<Packet>,
                    v: VisitEnv, wild: int -> int) returns (sys': Sys, n': Node)
    requires Scene(sys, n, client, server, accepted, inbox) && client.Shaped()
    requires !v.close && NoNul(v.offered) && !VisitSock(client, v).1
    requires client.state.Established? ==> |accepted| + |Taken(client, v.offered)| <= MAX_DATA
    ensures Advances(sys, n, Event.Visit(sys.id, v), wild, sys', n')
    ensures Scene(sys', n', VisitSock(client, v).0, server,
                  accepted + (if client.state.Established? then Taken(client, v.offered) else ""),
                  inbox + VisitSock(client, v).2)
  {
    SceneSmall(sys, n, client, server, accepted, inbox);
    VisitStays(client, v);
    hide Joined, Small, Advances, VisitSock;
    sys', n' := VisitAdvances(sys, n, Client, v, wild);
    AdvanceKeeps(sys, n, Event.Visit(sys.id, v), wild, sys', n');
    OwnedJoins(inbox, VisitSock(client, v).2);
  }

  lemma VisitStays(s: Sock, v: VisitEnv)
    requires s.Shaped() && !v.close
    ensures VisitSock(s, v).0.id == s.id && (VisitSock(s, v).0.state.SynSent? ==> s.state.SynSent?)
    ensures s.state.Listen? ==> VisitSock(s, v).0 == s
  {
  }

  lemma ServerVisit(sys: Sys, n: Node, client: Sock, server: Sock, accepted: string, inbox: seq<Packet>,
                    v: VisitEnv, wild: int -> int) returns (sys': Sys, n': Node)
    requires Scene(sys, n, client, Some(server), accepted, inbox) && server.Shaped()
    requires !v.close && v.offered == "" && !VisitSock(server, v).1
    ensures Advances(sys, n, Event.Visit(Mirror(sys.id), v), wild, sys', n')
    ensures Scene(sys', n', client, Some(VisitSock(server, v).0), accepted, inbox + VisitSock(server, v).2)
  {
    SceneSmall(sys, n, client, Some(server), accepted, inbox);
    VisitStays(server, v);
    KeysDiffer(sys, n);
    hide Joined, Small, Advances, VisitSock;
    sys', n' := VisitAdvances(sys, n, Server, v, wild);
    AdvanceKeeps(sys, n, Event.Visit(Mirror(sys.id), v), wild, sys', n');
    OwnedJoins(inbox, VisitSock(server, v).2);
  }

  lemma KeysDiffer(sys: Sys, n: Node)
    requires Joined(sys, n)
    ensures var id := sys.id;
            && id != Mirror(id) && id.srcPort != id.dstPort && id.srcIp == id.dstIp == n.ip && !IsEmptyIp(n.ip)
            && id != BoundId(id.dstIp, id.dstPort) && Mirror(id) != BoundId(id.dstIp, id.dstPort)
  {
    KeysApart(sys, Client);
    hide Inv, Sole, Keyed;
  }

  /** What a delivery makes of an endpoint's history. */
  lemma DeliveryRecords(e: Endpoint, p: Packet, env: Env)
    requires e.sock.Shaped()
    ensures var e' := DeliverTo(e, p, env, true).0;
            && e'.sock == AfterReply(HandlePacket(e.sock, p, e.sock.id.srcIp, env), true, env.now)
            && e'.isn == e.isn && e'.accepted == e.accepted
            && e'.delivered == e.delivered + HandlePacket(e.sock, p, e.sock.id.srcIp, env).written
  {
    hide HandlePacket;
  }

  /** A delivery to an end, as a step of the protocol. */
  lemma TurnAdvances(sys: Sys, n: Node, side: Side, p: Packet, env: Env, wild: int -> int) returns (sys': Sys, n': Node)
    requires Due(sys, n, side, p, wild) && Keyed(n.table) && sys.IdOf(side) in n.table
    requires Answered(n.table[sys.IdOf(side)], p) ==> Surroundings.Free(n.disk, sys.IdOf(side))
    ensures Advances(sys, n, Turn(env, true, true), wild, sys', n')
    ensures var s := n.table[sys.IdOf(side)]; var o := HandlePacket(s, p, n.ip, env);
            && sys.At(side).sock == s && sys'.id == sys.id && sys'.At(side.Other()) == sys.At(side.Other())
            && sys'.At(side).isn == sys.At(side).isn && sys'.At(side).accepted == sys.At(side).accepted
            && sys'.At(side).delivered == sys.At(side).delivered + o.written
            && n'.ip == n.ip && n'.running && n'.table == n.table[sys.IdOf(side) := AfterReply(o, true, env.now)]
            && n'.disk == n.disk + (if Answered(s, p) then Ends(sys.IdOf(side)) else {})
            && n'.inbox == n.inbox[1..] + Owned(RepliesTo(s, p, n.ip, env))
  {
    var step, e := Deliver(side, p, env, true), Turn(env, true, true);
    TurnEnd(sys, n, side, p, env, wild);
    KeysDiffer(sys, n);
    DeliveryRecords(sys.At(side), p, env);
    sys', n' := Next(sys, step), NodeAfter(n, e, wild);
    NextAt(sys, step, side);
    NextAt(sys, step, side.Other());
    assert sys'.id == sys.id;
    hide Joined, DeliverTo, HandlePacket, NodeAfter, EventFits, EventOk, StepsIn, Enabled, Next, Small, AfterReply;
    hide Answered, RepliesTo, LostOnWire, Between;
    OneStep(sys, step);
  }

  lemma OneOwned(p: Packet, ps: seq<Packet>)
    ensures Owned([p]) != [] && Owned([p])[0] == Own(p) && Owned([p])[1..] + Owned(ps) == Owned(ps)
    ensures Owned([p])[1..] == []
  {
  }

  /** The client reads the answer to its SYN. */
  lemma ClientTurn(sys: Sys, n: Node, client: Sock, server: Sock, accepted: string, p: Packet, env: Env,
                   wild: int -> int) returns (sys': Sys, n': Node)
    requires Scene(sys, n, client, Some(server), accepted, [p]) && client.Shaped() && Answered(client, p)
    requires Between(sys, Server, p) && !LostOnWire(p, wild) && env.notifyOk
    ensures Advances(sys, n, Turn(env, true, true), wild, sys', n')
    ensures Scene(sys', n', AfterReply(HandlePacket(client, p, n.ip, env), true, env.now), Some(server), accepted,
                  RepliesTo(client, p, n.ip, env))
  {
    SceneSmall(sys, n, client, Some(server), accepted, [p]);
    KeysDiffer(sys, n);
    OneOwned(p, RepliesTo(client, p, n.ip, env));
    assert HandlePacket(client, p, n.ip, env).sock.state.Established? && Due(sys, n, Client, p, wild);
    hide Joined, Small, Advances, HandlePacket, LostOnWire, Due, Between, RepliesTo, Answered;
    sys', n' := TurnAdvances(sys, n, Client, p, env, wild);
    AdvanceKeeps(sys, n, Turn(env, true, true), wild, sys', n');
  }

  /** The server's end reads a segment. */
  lemma ServerTurn(sys: Sys, n: Node, client: Sock, server: Sock, accepted: string, p: Packet, env: Env,
                   wild: int -> int) returns (sys': Sys, n': Node)
    requires Scene(sys, n, client, Some(server), accepted, [p]) && server.Shaped()
    requires Between(sys, Client, p) && !LostOnWire(p, wild)
    ensures Advances(sys, n, Turn(env, true, true), wild, sys', n') && sys.server.sock == server
    ensures Scene(sys', n', client, Some(AfterReply(HandlePacket(server, p, n.ip, env), true, env.now)), accepted,
                  RepliesTo(server, p, n.ip, env))
  {
    SceneSmall(sys, n, client, Some(server), accepted, [p]);
    KeysDiffer(sys, n);
    OneOwned(p, RepliesTo(server, p, n.ip, env));
    HandlingMeans(server, p, n.ip, env);
    assert Due(sys, n, Server, p, wild) && !Answered(server, p);
    hide Joined, Small, Advances, HandlePacket, LostOnWire, Due, Between, RepliesTo, Answered;
    sys', n' := TurnAdvances(sys, n, Server, p, env, wild);
    AdvanceKeeps(sys, n, Turn(env, true, true), wild, sys', n');
  }

  lemma SpawnAdvances(sys: Sys, n: Node, p: Packet, env: Env, wild: int -> int) returns (sys': Sys, n': Node)
    requires Due(sys, n, Server, p, wild) && sys.server.phase.Idle? && Welcomes(n, p, wild) && env.isn == 0
    ensures Advances(sys, n, Turn(env, true, true), wild, sys', n')
    ensures var a := BoundId(n.ip, p.dstPort);
            && sys'.id == sys.id && sys'.client == sys.client
            && sys'.server.isn == 0 && sys'.server.accepted == sys.server.accepted
            && n'.running && n'.disk == n.disk + Ends(Mirror(sys.id)) && n'.inbox == n.inbox[1..]
            && n'.table == n.table[a := n.table[a].(maxConnections := n.table[a].maxConnections - 1)]
                                  [Mirror(sys.id) := SpawnedSock(a, p, n.ip, env)]
  {
    SpawnEnd(sys, n, p, env, wild);
    sys', n' := Next(sys, Spawn(p, env)), NodeAfter(n, Turn(env, true, true), wild);
    SpawnRecords(sys, p, env);
    hide Joined, NodeAfter, EventFits, EventOk, StepsIn, Enabled, Next, Small, LostOnWire, SpawnedSock, Admitted;
    hide Unframed, Between;
    OneStep(sys, Spawn(p, env));
  }

  lemma SynWelcome(sys: Sys, n: Node, client: Sock, accepted: string, p: Packet, wild: int -> int)
    requires Scene(sys, n, client, None, accepted, [p])
    requires Between(sys, Client, p) && !LostOnWire(p, wild) && p.flags.syn
    ensures Due(sys, n, Server, p, wild) && Welcomes(n, p, wild) && p.dstPort == sys.id.dstPort
  {
    SceneSmall(sys, n, client, None, accepted, [p]);
    KeysDiffer(sys, n);
    OneOwned(p, []);
    assert Due(sys, n, Server, p, wild);
    DueMeans(sys, n, Server, p, wild);
    hide Joined, Small, LostOnWire, Admitted, Unframed, Sendable, Due;
  }

  lemma SpawnScene(sys: Sys, n: Node, client: Sock, accepted: string, p: Packet, a: Id, listener: Sock, conn: Sock,
                   sys': Sys, n': Node)
    requires Scene(sys, n, client, None, accepted, [p]) && Joined(sys', n') && Keyed(n'.table) && n'.running
    requires sys'.id == sys.id && sys'.client == sys.client && sys'.server.isn == 0 && sys'.server.accepted == ""
    requires a != sys.id && a != Mirror(sys.id) && sys.id != Mirror(sys.id) && !conn.state.SynSent?
    requires n'.table == n.table[a := listener][Mirror(sys.id) := conn]
    requires n'.disk == n.disk + Ends(Mirror(sys.id)) && n'.inbox == Owned([])
    ensures Scene(sys', n', client, Some(conn), accepted, [])
  {
    hide Joined, Keyed;
  }

  /** The listener reads the SYN. */
  lemma ServerSpawn(sys: Sys, n: Node, client: Sock, accepted: string, p: Packet, env: Env, wild: int -> int)
    returns (sys': Sys, n': Node)
    requires Scene(sys, n, client, None, accepted, [p])
    requires Between(sys, Client, p) && !LostOnWire(p, wild) && p.flags.syn && env.isn == 0
    ensures Advances(sys, n, Turn(env, true, true), wild, sys', n')
    ensures Scene(sys', n', client, Some(SpawnedSock(BoundId(n.ip, p.dstPort), p, n.ip, env)), accepted, [])
  {
    var a := BoundId(n.ip, p.dstPort);
    SynWelcome(sys, n, client, accepted, p, wild);
    KeysDiffer(sys, n);
    OneOwned(p, []);
    var conn := SpawnedSock(a, p, n.ip, env);
    assert conn.state == SynReceived;
    hide Joined, Due, Welcomes, SpawnedSock, Advances, LostOnWire, Between, Keyed;
    sys', n' := SpawnAdvances(sys, n, p, env, wild);
    AdvanceKeeps(sys, n, Turn(env, true, true), wild, sys', n');
    assert n'.inbox == Owned([]);
    SpawnScene(sys, n, client, accepted, p, a, n'.table[a], conn, sys', n');
  }

  lemma SpawnRecords(sys: Sys, p: Packet, env: Env)
    requires Enabled(sys, Spawn(p, env))
    ensures var sys' := Next(sys, Spawn(p, env));
            && sys'.id == sys.id && sys'.client == sys.client
            && sys'.server.isn == env.isn && sys'.server.accepted == sys.server.accepted
  {
  }

  // ---------------------------------------------------------------- opening

  predicate Begins(init: Sys) {
    Init(init) && IsAddress(init.id.srcIp) && GoodPorts(init.id)
  }

  lemma BeginsApart(init: Sys)
    requires Begins(init)
    ensures var id := init.id;
            && id.srcIp == id.dstIp && !IsEmptyIp(id.srcIp) && id.srcPort != id.dstPort && Small(init)
            && Kind(BoundId(id.srcIp, id.srcPort)).BoundOnlySocket?
            && Kind(BoundId(id.srcIp, id.dstPort)).BoundOnlySocket?
            && BoundId(id.srcIp, id.srcPort) != id && !NoDestination(id) && Mirror(id) != id
    ensures forall key :: EndAt(init, key).None?
  {
    assert IsEmptyIp(EMPTY_IP);
  }

  /** An event that is no step of the protocol and does not fill the fifo. */
  lemma IdleAdvances(sys: Sys, n: Node, e: Event, wild: int -> int)
    requires Keyed(n.table) && EventOk(n, e) && Small(sys)
    requires e.Bind? || (e.Listen? && EndAt(sys, e.key).None?)
    ensures Advances(sys, n, e, wild, sys, NodeAfter(n, e, wild))
  {
  }

  /** A bound socket starts to listen. */
  lemma StartsListening(n: Node, a: Id, wild: int -> int)
    requires Keyed(n.table) && n.running && a in n.table && Kind(a).BoundOnlySocket? && !n.table[a].state.Listen?
    ensures EventOk(n, Event.Listen(a, 1, true, true))
    ensures NodeAfter(n, Event.Listen(a, 1, true, true), wild) ==
            n.(table := n.table[a := n.table[a].(state := TcpState.Listen, maxConnections := 1)])
  {
    var e := Event.Listen(a, 1, true, true);
    assert Looped(n, e, wild) == [] && Owned([]) == [];
    assert InboxAfter(n, e, wild) == n.inbox;
  }

  /** The client connects: the protocol's connect. */
  lemma ConnectAdvances(init: Sys, n: Node, wild: int -> int) returns (sys: Sys, n': Node)
    requires Begins(init) && Joined(init, n) && Keyed(n.table) && n.running
    requires var a := BoundId(init.id.srcIp, init.id.srcPort); a in n.table && n.table[a] == NewSock(a, Closed, 0)
    requires init.id !in n.table
    ensures var id, a := init.id, BoundId(init.id.srcIp, init.id.srcPort);
            && Advances(init, n, Event.Connect(a, id.dstIp, id.dstPort, 1), wild, sys, n')
            && sys.id == id && sys.client.isn == 1 && sys.client.accepted == "" && sys.server == init.server
            && n' == n.(table := (n.table - {a})[id := ConnectCommand(n.table[a], id.dstIp, id.dstPort, 1)])
  {
    var id, a := init.id, BoundId(init.id.srcIp, init.id.srcPort);
    var e := Event.Connect(a, id.dstIp, id.dstPort, 1);
    BeginsApart(init);
    assert n.ip == id.srcIp;
    Surroundings.Connecting(n, id.srcPort, id.dstIp, id.dstPort, 1, wild);
    sys, n' := Next(init, Protocol.Connect(1, 0)), NodeAfter(n, e, wild);
    assert StepsIn(init, n, e, wild) == [Protocol.Connect(1, 0)] && EventFits(init, n, e, wild) by {
      hide Inv, Sole, NodeAfter, Joined;
    }
    hide Joined, StepsIn, EventFits, NodeAfter;
    OneStep(init, Protocol.Connect(1, 0));
  }

  function Caller(id: Id): Sock {
    ConnectCommand(NewSock(BoundId(id.srcIp, id.srcPort), Closed, 0), id.dstIp, id.dstPort, 1)
  }

  function Hearer(a: Id): Sock {
    NewSock(a, TcpState.Listen, 0).(maxConnections := 1)
  }

  function OpeningEvents(id: Id): seq<Event> {
    [Bind(id.dstPort, 0, true, true)] + [Event.Listen(BoundId(id.dstIp, id.dstPort), 1, true, true)]
    + [Bind(id.srcPort, 0, true, true)] + [Event.Connect(BoundId(id.srcIp, id.srcPort), id.dstIp, id.dstPort, 1)]
  }

  /** The manager when one port listens and the other is bound. */
  function BothBound(id: Id): Node {
    var a, b := BoundId(id.dstIp, id.dstPort), BoundId(id.srcIp, id.srcPort);
    Fresh(id.srcIp, {}).(table := map[a := Hearer(a), b := NewSock(b, Closed, 0)], disk := Ends(a) + Ends(b))
  }

  /** The manager when one port listens. */
  function OneHears(id: Id): Node {
    var a := BoundId(id.dstIp, id.dstPort);
    Fresh(id.srcIp, {}).(table := map[a := Hearer(a)], disk := Ends(a))
  }

  lemma FirstHears(init: Sys, wild: int -> int) returns (n: Node)
    requires Begins(init)
    ensures var id := init.id;
            && Advances(init, Fresh(id.srcIp, {}), Bind(id.dstPort, 0, true, true), wild, init, n)
            && Advances(init, n, Event.Listen(BoundId(id.dstIp, id.dstPort), 1, true, true), wild, init, OneHears(id))
  {
    var id := init.id;
    var a, n0 := BoundId(id.dstIp, id.dstPort), Fresh(id.srcIp, {});
    BeginsApart(init);
    Binding(n0, id.dstPort, 0, wild);
    hide Advances, NodeAfter, Small, Begins;
    IdleAdvances(init, n0, Bind(id.dstPort, 0, true, true), wild);
    n := NodeAfter(n0, Bind(id.dstPort, 0, true, true), wild);
    StartsListening(n, a, wild);
    IdleAdvances(init, n, Event.Listen(a, 1, true, true), wild);
    assert NodeAfter(n, Event.Listen(a, 1, true, true), wild).table == map[a := Hearer(a)];
  }

  lemma SecondBound(init: Sys, wild: int -> int)
    requires Begins(init)
    ensures Advances(init, OneHears(init.id), Bind(init.id.srcPort, 0, true, true), wild, init, BothBound(init.id))
  {
    var id := init.id;
    BeginsApart(init);
    assert OneHears(id).table.Keys == {BoundId(id.dstIp, id.dstPort)};
    assert Keyed(OneHears(id).table);
    hide Advances, NodeAfter, Small, Begins, Hearer;
    Binding(OneHears(id), id.srcPort, 0, wild);
    IdleAdvances(init, OneHears(id), Bind(id.srcPort, 0, true, true), wild);
    assert NodeAfter(OneHears(id), Bind(id.srcPort, 0, true, true), wild) == BothBound(id);
  }

  lemma BothBoundTold(init: Sys, wild: int -> int)
    requires Begins(init)
    ensures var id := init.id; var a := BoundId(id.dstIp, id.dstPort);
            Told(init, [Bind(id.dstPort, 0, true, true)] + [Event.Listen(a, 1, true, true)]
                       + [Bind(id.srcPort, 0, true, true)], wild, init, BothBound(id))
  {
    var id := init.id;
    var n0, a := Fresh(id.srcIp, {}), BoundId(id.dstIp, id.dstPort);
    var e0, e1, e2 := Bind(id.dstPort, 0, true, true), Event.Listen(a, 1, true, true), Bind(id.srcPort, 0, true, true);
    Opens(init, {});
    assert Told(init, [], wild, init, n0) by { hide Joined; }
    hide Advances, Told, Joined, BothBound, OneHears, Fresh, Begins;
    var n1 := FirstHears(init, wild);
    SecondBound(init, wild);
    TellOn(init, [], wild, init, n0, e0, init, n1);
    TellOn(init, [] + [e0], wild, init, n1, e1, init, OneHears(id));
    TellOn(init, [] + [e0] + [e1], wild, init, OneHears(id), e2, init, BothBound(id));
    assert [] + [e0] == [e0];
  }

  lemma BothBoundFree(id: Id)
    requires id.srcIp == id.dstIp && id.srcPort != id.dstPort && !NoDestination(id) && !NoDestination(Mirror(id))
    ensures Surroundings.Free(BothBound(id).disk, id) && Surroundings.Free(BothBound(id).disk, Mirror(id))
    ensures var a, b := BoundId(id.dstIp, id.dstPort), BoundId(id.srcIp, id.srcPort);
            && (BothBound(id).table - {b})[id := Caller(id)] == map[a := Hearer(a), id := Caller(id)]
            && a != id && a != Mirror(id) && id != Mirror(id)
  {
    assert IsEmptyIp(EMPTY_IP);
    hide Hearer, Caller;
  }

  lemma OpeningSocks(id: Id)
    ensures Caller(id).state.SynSent? && BothBound(id).running && BothBound(id).inbox == []
    ensures Hearer(id).state.Listen? && Hearer(id).maxConnections == 1
  {
  }

  lemma OpeningIds(init: Sys)
    requires Begins(init)
    ensures var id := init.id;
            && id.srcIp == id.dstIp && id.srcPort != id.dstPort && !NoDestination(id) && !NoDestination(Mirror(id))
            && GoodPorts(id)
    ensures init.server.phase.Idle? && init.server.isn == 0 && init.server.accepted == ""
  {
  }

  lemma OpeningScene(init: Sys, sys: Sys, n: Node)
    requires Begins(init) && Joined(sys, n) && Keyed(n.table)
    requires sys.id == init.id && sys.client.isn == 1 && sys.client.accepted == "" && sys.server == init.server
    requires var id, b := init.id, BoundId(init.id.srcIp, init.id.srcPort);
             n == BothBound(id).(table := (BothBound(id).table - {b})[id := Caller(id)])
    ensures Scene(sys, n, Caller(init.id), None, "", [])
  {
    var id := init.id;
    var a := BoundId(id.dstIp, id.dstPort);
    hide Joined, Keyed, BothBound, Caller, Hearer, Begins, NoDestination, GoodPorts, Surroundings.Free;
    OpeningIds(init);
    BothBoundFree(id);
    OpeningSocks(id);
    OpeningSocks(a);
    TwoEntries(a, Hearer(a), id, Caller(id));
    assert Owned([]) == [];
  }

  lemma TwoEntries(a: Id, s: Sock, b: Id, t: Sock)
    requires a != b
    ensures |map[a := s, b := t]| == 2
  {
    assert map[a := s, b := t] == map[a := s][b := t];
  }

  lemma Opening(init: Sys, wild: int -> int) returns (sys: Sys, n: Node)
    requires Begins(init)
    ensures Told(init, OpeningEvents(init.id), wild, sys, n) && Scene(sys, n, Caller(init.id), None, "", [])
  {
    var id, bound := init.id, BothBound(init.id);
    var a, b := BoundId(id.dstIp, id.dstPort), BoundId(id.srcIp, id.srcPort);
    BeginsApart(init);
    BothBoundTold(init, wild);
    assert bound.table[b] == NewSock(b, Closed, 0) && id !in bound.table && bound.running;
    hide Leads, Advances, NodeAfter, Keyed, Joined, Begins, BothBound, Scene;
    sys, n := ConnectAdvances(init, bound, wild);
    AdvanceKeeps(init, bound, Event.Connect(b, id.dstIp, id.dstPort, 1), wild, sys, n);
    OpeningScene(init, sys, n);
    hide Told;
    TellOn(init, [Bind(id.dstPort, 0, true, true)] + [Event.Listen(a, 1, true, true)]
                 + [Bind(id.srcPort, 0, true, true)], wild, init, bound,
           Event.Connect(b, id.dstIp, id.dstPort, 1), sys, n);
  }

  // ---------------------------------------------------------------- the segments

  function Syn(id: Id): Packet {
    MakePacket(id.srcPort, id.dstPort, 0, 0, SYN, "")
  }

  function SynAck(id: Id): Packet {
    MakePacket(id.dstPort, id.srcPort, -1, 1, SYN_ACK, "")
  }

  function Segment(id: Id, text: string): Packet {
    MakePacket(id.srcPort, id.dstPort, 1, 0, ACK, text)
  }

  function Spawned(id: Id): Sock {
    SpawnedSock(BoundId(id.dstIp, id.dstPort), Syn(id), id.dstIp, Calm(4))
  }

  function Connected(id: Id): Sock {
    Caller(id).(state := Established, recv := Caller(id).recv.(base := 0), lastSend := Second(4))
  }

  lemma CallerVisited(id: Id)
    requires !IsEmptyIp(id.dstIp)
    ensures Caller(id).Shaped()
    ensures VisitSock(Caller(id), Look(4, "")) == (Caller(id).(lastSend := Second(4)), false, [Syn(id)])
  {
    var s, v := Caller(id), Look(4, "");
    assert SendWindow(s, v) == Action(s, []);
    assert StatusMessages(s, v) == Action(s.(lastSend := Second(4)), [Syn(id)]);
    assert [] + [Syn(id)] == [Syn(id)];
  }

  lemma SpawnedVisited(id: Id)
    requires !IsEmptyIp(id.dstIp)
    ensures Spawned(id).Shaped()
    ensures VisitSock(Spawned(id), Look(8, "")) == (Spawned(id).(lastSend := Second(8)), false, [SynAck(id)])
  {
    var s, v := Spawned(id), Look(8, "");
    assert SendWindow(s, v) == Action(s, []);
    assert StatusMessages(s, v) == Action(s.(lastSend := Second(8)), [SynAck(id)]);
    assert [] + [SynAck(id)] == [SynAck(id)];
  }

  lemma ConnectedVisited(id: Id, text: string)
    requires !IsEmptyIp(id.dstIp) && |text| <= MAX_DATA && NoNul(text)
    ensures Connected(id).Shaped() && Taken(Connected(id), text) == text
    ensures VisitSock(Connected(id), Look(8, text)) == (Writing(id, text), false, [Segment(id, "")])
  {
    var s, v := Connected(id), Look(8, text);
    assert UntilNul("") == "" && text[..|text|] == text;
    assert SendWindow(s, v) == Action(s.(lastSend := Second(8)), [Segment(id, "")]);
    assert StatusMessages(s.(lastSend := Second(8)), v) == Action(Writing(id, text), []);
    assert [Segment(id, "")] + [] == [Segment(id, "")];
  }

  function Writing(id: Id, text: string): Sock {
    Connected(id).(lastSend := Second(8), sendQ := text)
  }

  lemma WritingVisited(id: Id, text: string)
    requires !IsEmptyIp(id.dstIp) && |text| <= MAX_DATA && NoNul(text)
    ensures Writing(id, text).Shaped() && Taken(Writing(id, text), "") == ""
    ensures VisitSock(Writing(id, text), Look(12, "")) ==
            (Writing(id, text).(lastSend := Second(12)), false, [Segment(id, text)])
  {
    var s, v := Writing(id, text), Look(12, "");
    assert UntilNul(text) == text && text[..|text|] == text;
    assert SendWindow(s, v) == Action(s.(lastSend := Second(12)), [Segment(id, text)]);
    assert text + "" == text;
    assert StatusMessages(s.(lastSend := Second(12)), v) == Action(s.(lastSend := Second(12)), []);
    assert [Segment(id, text)] + [] == [Segment(id, text)];
  }

  lemma NotLost(id: Id, text: string, wild: int -> int)
    requires text == "" || !IsDigit(text[0])
    ensures !LostOnWire(Syn(id), wild) && !LostOnWire(SynAck(id), wild) && !LostOnWire(Segment(id, text), wild)
  {
  }

  // ---------------------------------------------------------------- the story

  function SynEvents(id: Id): seq<Event> {
    OpeningEvents(id) + [Event.Visit(id, Look(4, ""))] + [Turn(Calm(4), true, true)]
  }

  function HandshakeEvents(id: Id): seq<Event> {
    SynEvents(id) + [Event.Visit(Mirror(id), Look(8, ""))] + [Turn(Calm(8), true, true)]
  }

  function WritingEvents(id: Id, text: string): seq<Event> {
    HandshakeEvents(id) + [Event.Visit(id, Look(8, text))] + [Turn(Calm(8), true, true)]
  }

  /** Both ports are bound, one listens, the other connects; then every four seconds somebody sends what is due, and all
      of it is read. */
  function Story(id: Id, text: string): seq<Event> {
    WritingEvents(id, text) + [Event.Visit(id, Look(12, ""))] + [Turn(Calm(12), true, true)]
  }

  /** The client reads the answer. */
  lemma CallerAnswered(id: Id, ip: string)
    ensures var s, p := Caller(id).(lastSend := Second(4)), SynAck(id);
            && s.Shaped() && Answered(s, p) && RepliesTo(s, p, ip, Calm(8)) == []
            && AfterReply(HandlePacket(s, p, ip, Calm(8)), true, Second(8)) == Connected(id)
  {
  }

  lemma ToldIds(init: Sys, events: seq<Event>, wild: int -> int, sys: Sys, n: Node)
    requires Told(init, events, wild, sys, n)
    ensures sys.id == init.id && n.ip == init.id.srcIp
  {
  }

  lemma SynIsSent(init: Sys, wild: int -> int) returns (sys: Sys, n: Node)
    requires Begins(init)
    ensures Told(init, OpeningEvents(init.id) + [Event.Visit(init.id, Look(4, ""))], wild, sys, n)
    ensures Scene(sys, n, Caller(init.id).(lastSend := Second(4)), None, "", [Syn(init.id)])
  {
    var id := init.id;
    BeginsApart(init);
    CallerVisited(id);
    assert Caller(id).state == SynSent && [] + [Syn(id)] == [Syn(id)] && "" + "" == "";
    hide VisitSock, Caller, Told, Advances, Begins, Scene, Syn, OpeningEvents;
    var sys0, n0 := Opening(init, wild);
    ToldIds(init, OpeningEvents(id), wild, sys0, n0);
    sys, n := ClientVisit(sys0, n0, Caller(id), None, "", [], Look(4, ""), wild);
    TellOn(init, OpeningEvents(id), wild, sys0, n0, Event.Visit(id, Look(4, "")), sys, n);
  }

  lemma SynIsRead(init: Sys, wild: int -> int) returns (sys: Sys, n: Node)
    requires Begins(init)
    ensures Told(init, SynEvents(init.id), wild, sys, n)
    ensures Scene(sys, n, Caller(init.id).(lastSend := Second(4)), Some(Spawned(init.id)), "", [])
  {
    var id := init.id;
    BeginsApart(init);
    NotLost(id, "", wild);
    var sys0, n0 := SynIsSent(init, wild);
    var before := OpeningEvents(id) + [Event.Visit(id, Look(4, ""))];
    ToldIds(init, before, wild, sys0, n0);
    assert Between(sys0, Client, Syn(id)) && Syn(id).flags.syn && Syn(id).dstPort == id.dstPort;
    hide Caller, Told, Advances, Begins, Scene, Syn, OpeningEvents, LostOnWire, Between, SpawnedSock;
    sys, n := ServerSpawn(sys0, n0, Caller(id).(lastSend := Second(4)), "", Syn(id), Calm(4), wild);
    TellOn(init, before, wild, sys0, n0, Turn(Calm(4), true, true), sys, n);
  }

  lemma AnswerIsSent(init: Sys, wild: int -> int) returns (sys: Sys, n: Node)
    requires Begins(init)
    ensures Told(init, SynEvents(init.id) + [Event.Visit(Mirror(init.id), Look(8, ""))], wild, sys, n)
    ensures Scene(sys, n, Caller(init.id).(lastSend := Second(4)), Some(Spawned(init.id).(lastSend := Second(8))), "",
                  [SynAck(init.id)])
  {
    var id := init.id;
    BeginsApart(init);
    SpawnedVisited(id);
    assert [] + [SynAck(id)] == [SynAck(id)];
    var sys0, n0 := SynIsRead(init, wild);
    ToldIds(init, SynEvents(id), wild, sys0, n0);
    hide Caller, Spawned, VisitSock, Told, Advances, Begins, Scene, SynAck, SynEvents;
    sys, n := ServerVisit(sys0, n0, Caller(id).(lastSend := Second(4)), Spawned(id), "", [], Look(8, ""), wild);
    TellOn(init, SynEvents(id), wild, sys0, n0, Event.Visit(Mirror(id), Look(8, "")), sys, n);
  }

  lemma AnswerIsRead(init: Sys, wild: int -> int) returns (sys: Sys, n: Node)
    requires Begins(init)
    ensures Told(init, HandshakeEvents(init.id), wild, sys, n)
    ensures Scene(sys, n, Connected(init.id), Some(Spawned(init.id).(lastSend := Second(8))), "", [])
  {
    var id := init.id;
    BeginsApart(init);
    CallerAnswered(id, id.srcIp);
    NotLost(id, "", wild);
    var sys0, n0 := AnswerIsSent(init, wild);
    var before := SynEvents(id) + [Event.Visit(Mirror(id), Look(8, ""))];
    ToldIds(init, before, wild, sys0, n0);
    assert Between(sys0, Server, SynAck(id)) && Calm(8).notifyOk;
    hide Caller, Spawned, Connected, Told, Advances, Begins, Scene, SynAck, SynEvents, LostOnWire, Between;
    hide HandlePacket, AfterReply, RepliesTo, Answered;
    var s := Caller(id).(lastSend := Second(4));
    sys, n := ClientTurn(sys0, n0, s, Spawned(id).(lastSend := Second(8)), "", SynAck(id), Calm(8), wild);
    TellOn(init, before, wild, sys0, n0, Turn(Calm(8), true, true), sys, n);
  }

  lemma TextIsTaken(init: Sys, text: string, wild: int -> int) returns (sys: Sys, n: Node)
    requires Begins(init) && |text| <= MAX_DATA && NoNul(text)
    ensures Told(init, HandshakeEvents(init.id) + [Event.Visit(init.id, Look(8, text))], wild, sys, n)
    ensures Scene(sys, n, Writing(init.id, text), Some(Spawned(init.id).(lastSend := Second(8))), text,
                  [Segment(init.id, "")])
  {
    var id := init.id;
    BeginsApart(init);
    ConnectedVisited(id, text);
    assert Connected(id).state == Established && [] + [Segment(id, "")] == [Segment(id, "")] && "" + text == text;
    var sys0, n0 := AnswerIsRead(init, wild);
    ToldIds(init, HandshakeEvents(id), wild, sys0, n0);
    hide Connected, Writing, Spawned, VisitSock, Told, Advances, Begins, Scene, Segment, HandshakeEvents, Taken;
    var server := Some(Spawned(id).(lastSend := Second(8)));
    sys, n := ClientVisit(sys0, n0, Connected(id), server, "", [], Look(8, text), wild);
    TellOn(init, HandshakeEvents(id), wild, sys0, n0, Event.Visit(id, Look(8, text)), sys, n);
  }

  function Open(id: Id): Sock {
    Spawned(id).(lastSend := Second(8), state := Established)
  }

  lemma SpawnedAnswered(id: Id, ip: string)
    ensures var s, p := Spawned(id).(lastSend := Second(8)), Segment(id, "");
            && s.Shaped() && RepliesTo(s, p, ip, Calm(8)) == []
            && AfterReply(HandlePacket(s, p, ip, Calm(8)), true, Second(8)) == Open(id)
  {
  }

  lemma ServerOpens(init: Sys, text: string, wild: int -> int) returns (sys: Sys, n: Node)
    requires Begins(init) && |text| <= MAX_DATA && NoNul(text)
    ensures Told(init, WritingEvents(init.id, text), wild, sys, n)
    ensures Scene(sys, n, Writing(init.id, text), Some(Open(init.id)), text, [])
  {
    var id := init.id;
    BeginsApart(init);
    SpawnedAnswered(id, id.srcIp);
    NotLost(id, "", wild);
    var sys0, n0 := TextIsTaken(init, text, wild);
    var before := HandshakeEvents(id) + [Event.Visit(id, Look(8, text))];
    ToldIds(init, before, wild, sys0, n0);
    assert Between(sys0, Client, Segment(id, ""));
    hide Writing, Spawned, Open, Told, Advances, Begins, Scene, Segment, HandshakeEvents, LostOnWire, Between;
    hide HandlePacket, AfterReply, RepliesTo;
    var s := Spawned(id).(lastSend := Second(8));
    sys, n := ServerTurn(sys0, n0, Writing(id, text), s, text, Segment(id, ""), Calm(8), wild);
    TellOn(init, before, wild, sys0, n0, Turn(Calm(8), true, true), sys, n);
  }

  lemma TextIsSent(init: Sys, text: string, wild: int -> int) returns (sys: Sys, n: Node)
    requires Begins(init) && |text| <= MAX_DATA && NoNul(text)
    ensures Told(init, WritingEvents(init.id, text) + [Event.Visit(init.id, Look(12, ""))], wild, sys, n)
    ensures Scene(sys, n, Writing(init.id, text).(lastSend := Second(12)), Some(Open(init.id)), text,
                  [Segment(init.id, text)])
  {
    var id := init.id;
    BeginsApart(init);
    WritingVisited(id, text);
    assert Writing(id, text).state == Established && text + "" == text;
    assert [] + [Segment(id, text)] == [Segment(id, text)];
    var sys0, n0 := ServerOpens(init, text, wild);
    ToldIds(init, WritingEvents(id, text), wild, sys0, n0);
    hide Writing, Open, VisitSock, Told, Advances, Begins, Scene, Segment, WritingEvents, Taken;
    sys, n := ClientVisit(sys0, n0, Writing(id, text), Some(Open(id)), text, [], Look(12, ""), wild);
    TellOn(init, WritingEvents(id, text), wild, sys0, n0, Event.Visit(id, Look(12, "")), sys, n);
  }

  lemma ReplyTellsBase(s: Sock, p: Packet, ip: string, env: Env)
    requires s.Shaped() && s.state.Established? && !p.flags.fin && !p.flags.rst
    ensures var o := HandlePacket(s, p, ip, env);
            o.reply.Some? ==> o.sock.state.Established? && o.reply.value.ackNum == o.sock.recv.base
  {
  }

  /** An ESTABLISHED end whose base is past its peer's stream has handed over all of it. */
  lemma BaseIsDelivered(sys: Sys, n: Node, text: string)
    requires Joined(sys, n) && Mirror(sys.id) in n.table && n.table[Mirror(sys.id)].state.Established?
    requires sys.client.isn == 1 && sys.client.accepted == text
    requires n.table[Mirror(sys.id)].recv.base >= 1 + |text|
    ensures sys.server.delivered == text
  {
    assert Holds(sys, Server, n.table) && SideOk(sys, Server) && PeerOk(sys.server, sys.client);
    hide Sole, Keyed, FrameOk, PacketsOk, LocalOk;
    assert sys.server.sock == n.table[Mirror(sys.id)];
    assert |sys.server.delivered| >= |text| && sys.server.delivered <= text;
  }

  lemma TextIsRead(init: Sys, text: string, wild: int -> int) returns (sys: Sys, n: Node)
    requires Begins(init) && text != "" && |text| <= MAX_DATA && NoNul(text) && !IsDigit(text[0])
    ensures Told(init, Story(init.id, text), wild, sys, n)
    ensures sys.client.accepted == text && sys.server.delivered == text
  {
    var id, p := init.id, Segment(init.id, text);
    BeginsApart(init);
    NotLost(id, text, wild);
    var sys0, n0 := TextIsSent(init, text, wild);
    var before := WritingEvents(id, text) + [Event.Visit(id, Look(12, ""))];
    ToldIds(init, before, wild, sys0, n0);
    assert Between(sys0, Client, p) && Open(id).state == Established && Open(id).Shaped();
    assert p.data == text && p.flags == ACK && Calm(12).room == WINDOW_SIZE;
    var client := Writing(id, text).(lastSend := Second(12));
    LastSegment(sys0, n0, client, Open(id), text, p, wild);
    hide Writing, Open, Told, Advances, Begins, Segment, WritingEvents, LostOnWire, Between, HandlePacket, RepliesTo;
    hide Joined, Keyed, Calm;
    sys, n := ServerTurn(sys0, n0, client, Open(id), text, p, Calm(12), wild);
    TellOn(init, before, wild, sys0, n0, Turn(Calm(12), true, true), sys, n);
    ToldIds(init, before + [Turn(Calm(12), true, true)], wild, sys, n);
    BaseIsDelivered(sys, n, text);
  }

  /** What reading the text makes of the reader. */
  lemma LastSegment(sys: Sys, n: Node, client: Sock, server: Sock, text: string, p: Packet, wild: int -> int)
    requires Scene(sys, n, client, Some(server), text, [p]) && server.state.Established? && server.Shaped()
    requires Between(sys, Client, p) && !LostOnWire(p, wild) && p.data == text && text != "" && p.flags == ACK
    requires p.seqNum == 1
    ensures var s := AfterReply(HandlePacket(server, p, n.ip, Calm(12)), true, Second(12));
            s.state.Established? && s.recv.base >= 1 + |text|
  {
    var env := Calm(12);
    SceneSmall(sys, n, client, Some(server), text, [p]);
    KeysDiffer(sys, n);
    OneOwned(p, []);
    assert Due(sys, n, Server, p, wild);
    DueMeans(sys, n, Server, p, wild);
    assert Inv(sys) && Holds(sys, Server, n.table) && sys.server.sock == server;
    ReplyTellsBase(server, p, n.ip, env);
    assert server.id.srcIp == n.ip;
    hide Inv, Joined, Sole, Keyed, HandlePacket, LostOnWire, Sendable, Admitted, Unframed;
    Progress.DataEarnsAck(sys, Client, p, env);
  }

  /** In this run the text written on one side is what the other's reader is given: any text of at most one packet's
      length that does not start with a digit. */
  lemma TextArrives(init: Sys, text: string, wild: int -> int) returns (sys: Sys)
    requires Begins(init) && text != "" && |text| <= MAX_DATA && NoNul(text) && !IsDigit(text[0])
    ensures Served(init, {}, Story(init.id, text), wild)
    ensures var ip := init.id.srcIp; var calls := CallsOf(Fresh(ip, {}), Story(init.id, text), wild);
            && Accounts(init, ip, calls, wild, sys) && sys.client.accepted == text && Keyed(map[])
            && BytesFor(LogOf(map[], ip, calls, wild), init.IdOf(Server)) == text
  {
    var ip, n0 := init.id.srcIp, Fresh(init.id.srcIp, {});
    var calls := CallsOf(n0, Story(init.id, text), wild);
    Opens(init, {});
    NothingYet(init, Server);
    var n;
    sys, n := TextIsRead(init, text, wild);
    hide Joined, Story, NodeAfter, EventFits, EventOk, StepsIn, Init, Inv, Keyed, Holds, GoodPorts;
    LeadsMeans(init, n0, Story(init.id, text), wild, sys, n);
    hide Leads, CallsOf, CallsOk, RunOf, LogOf, BytesFor, EventsFit, AfterAll, ValidRun, Exec;
    LogIsDelivered(init, map[], ip, calls, wild, Server);
    assert "" + BytesFor(LogOf(map[], ip, calls, wild), init.IdOf(Server)) ==
           BytesFor(LogOf(map[], ip, calls, wild), init.IdOf(Server));
  }
}
