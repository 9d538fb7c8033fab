/** The protocol model and the program are the same: every run of calls on one manager that holds both ends of a
    connection is a run of the protocol. */
module Coupling {
  import opened Common
  import opened Packets
  import opened SocketModel
  import opened Protocol
  import opened Invariant
  import opened Safety
  import opened SocketTable
  import opened IpWire
  import opened TcpWire
  import opened NetworkManager
  import opened ManagerModel
  import opened Delivery

  // ---------------------------------------------------------------- the relation

  /** A live end stands in the table as the protocol has it; the connection's key belongs to nobody else. */
  predicate Holds(sys: Sys, side: Side, m: Sockets) {
    var e := sys.At(side);
    && (e.phase.Live? ==> e.sock.id in m && m[e.sock.id] == e.sock)
    && (sys.IdOf(side) in m ==> e.phase.Live? && e.sock.id == sys.IdOf(side))
  }

  /** The manager with this table and ip holds both ends. */
  predicate Coupled(sys: Sys, m: Sockets, ip: string) {
    && Inv(sys) && Keyed(m) && ip == sys.id.srcIp
    && Holds(sys, Client, m) && Holds(sys, Server, m)
  }

  /** The keys an end can stand under are nobody else's. */
  lemma KeysApart(sys: Sys, side: Side)
    requires Inv(sys)
    ensures var id, other := sys.IdOf(side), sys.IdOf(side.Other());
            && id.srcIp == id.dstIp == sys.id.srcIp && !IsEmptyIp(id.srcIp) && other == Mirror(id)
            && id != other && id.srcPort != other.srcPort && id.srcPort == other.dstPort && id.dstPort == other.srcPort
            && id.dstPort != EMPTY_PORT && id.dstIp != EMPTY_IP
    ensures var e, id := sys.At(side), sys.IdOf(side);
            !e.phase.Idle? ==> (e.sock.id == id || e.sock.id == BoundId(id.srcIp, id.srcPort)) && !e.sock.state.Listen?
    ensures sys.At(side).sock.Shaped()
  {
    assert SideOk(sys, side);
  }

  // ---------------------------------------------------------------- receiving

  lemma OnlyListenersSpawn(s: Sock, p: Packet, ip: string, env: Env, spawnOk: bool)
    requires s.Shaped() && !s.state.Listen?
    ensures HandlePacket(s, p, ip, env.(spawnOk := spawnOk)) == HandlePacket(s, p, ip, env)
    ensures HandlePacket(s, p, ip, env).spawned.None?
  {
  }

  /** A packet of one live end reaches the other, under its own key or, if it has none, under its address. */
  lemma Reaches(sys: Sys, m: Sockets, ip: string, to: Side, p: Packet)
    requires Coupled(sys, m, ip) && p in sys.From(to.Other()) && sys.At(to).phase.Live?
    ensures Lookup(m, ip, ip, p) == Some(sys.At(to).sock.id)
    ensures PacketKey(ip, ip, p) == sys.IdOf(to)
  {
    KeysApart(sys, to);
    PacketArrives(sys, to, p);
  }

  /** Whether a reply can leave: the end must stand under the connection's key. */
  predicate Leaves(sys: Sys, to: Side, m: Sockets, w: World) {
    w.replySent && sys.IdOf(to) in m
  }

  lemma DeliverRefines(sys: Sys, m: Sockets, ip: string, to: Side, p: Packet, w: World)
    requires Coupled(sys, m, ip) && p in sys.From(to.Other()) && sys.At(to).phase.Live?
    ensures var e, step := DispatchIn(m, ip, ip, p, w), Deliver(to, p, w.env, Leaves(sys, to, m, w));
            && Enabled(sys, step)
            && (Next(sys, step).At(to), e.sent) == DeliverTo(sys.At(to), p, w.env, Leaves(sys, to, m, w))
            && Next(sys, step).At(to).delivered == sys.At(to).delivered + e.written
            && e.table == m[sys.At(to).sock.id := Next(sys, step).At(to).sock]
  {
    var s := sys.At(to).sock;
    KeysApart(sys, to);
    Reaches(sys, m, ip, to, p);
    NextAt(sys, Deliver(to, p, w.env, Leaves(sys, to, m, w)), to);
    OnlyListenersSpawn(s, p, ip, w.env, w.fifosOk && |m| < TABLE_SIZE && SpawnKey(s.id, ip, p) !in m);
    hide Inv, HandlePacket, Lookup, Next;
  }

  /** A step of one end that moves its entry in the table keeps the relation. */
  lemma StillCoupled(sys: Sys, m: Sockets, ip: string, side: Side, sys': Sys, m': Sockets)
    requires Coupled(sys, m, ip) && sys.At(side).phase.Live?
    requires Inv(sys') && Keyed(m') && sys'.id == sys.id && sys'.At(side.Other()) == sys.At(side.Other())
    requires var e, e' := sys.At(side), sys'.At(side);
             && !e'.phase.Idle?
             && m' == if e'.phase.Gone? then m - {e.sock.id} else (m - {e.sock.id})[e'.sock.id := e'.sock]
    ensures Coupled(sys', m', ip)
  {
    KeysApart(sys, side);
    KeysApart(sys, side.Other());
    KeysApart(sys', side);
    hide Inv, Keyed;
    assert Holds(sys', side, m') && Holds(sys', side.Other(), m');
  }

  lemma DeliverCoupled(sys: Sys, m: Sockets, ip: string, to: Side, p: Packet, w: World)
    requires Coupled(sys, m, ip) && p in sys.From(to.Other()) && sys.At(to).phase.Live?
    ensures var e, step := DispatchIn(m, ip, ip, p, w), Deliver(to, p, w.env, Leaves(sys, to, m, w));
            Enabled(sys, step) && Coupled(Next(sys, step), e.table, ip)
  {
    var step := Deliver(to, p, w.env, Leaves(sys, to, m, w));
    DeliverRefines(sys, m, ip, to, p, w);
    var sys' := Next(sys, step);
    var e := DispatchIn(m, ip, ip, p, w);
    StepOk(sys, step);
    NextAt(sys, step, to.Other());
    DeliverKeepsId(sys.At(to), p, w.env, Leaves(sys, to, m, w));
    assert sys'.id == sys.id;
    var key := sys.At(to).sock.id;
    assert e.table == (m - {key})[key := sys'.At(to).sock];
    hide Inv, Next, DeliverTo, DispatchIn, Enabled;
    StillCoupled(sys, m, ip, to, sys', e.table);
  }

  lemma DeliverKeepsId(e: Endpoint, p: Packet, env: Env, replySent: bool)
    requires e.sock.Shaped()
    ensures var e' := DeliverTo(e, p, env, replySent).0; e'.sock.id == e.sock.id && e'.phase == e.phase
  {
    ManagerModel.IdsStay(e.sock, p, e.sock.id.srcIp, env);
  }

  // ---------------------------------------------------------------- visiting

  lemma VisitCoupled(sys: Sys, m: Sockets, ip: string, side: Side, v: VisitEnv)
    requires Coupled(sys, m, ip) && Enabled(sys, Visit(side, v)) && !ClashIn(m, sys.At(side).sock.id, v)
    ensures var e, step := VisitIn(m, sys.At(side).sock.id, v), Visit(side, v);
            Coupled(Next(sys, step), e.table, ip) && e.sent == VisitOf(sys.At(side), v).1
  {
    var step, x := Visit(side, v), sys.At(side);
    var sys' := Next(sys, step);
    StepOk(sys, step);
    NextAt(sys, step, side);
    NextAt(sys, step, side.Other());
    VisitOfSock(x, v);
    assert sys'.id == sys.id;
    hide Inv, Next, VisitOf, VisitSock;
    StillCoupled(sys, m, ip, side, sys', VisitIn(m, x.sock.id, v).table);
  }

  // ---------------------------------------------------------------- opening

  /** The client's user connects a freshly bound socket. */
  lemma ConnectCoupled(sys: Sys, m: Sockets, ip: string, isn: int, now: int)
    requires Coupled(sys, m, ip) && Enabled(sys, Connect(isn, now))
    requires var bound := BoundId(ip, sys.id.srcPort); bound in m && m[bound] == NewSock(bound, Closed, now)
    ensures var bound := BoundId(ip, sys.id.srcPort);
            && sys.id !in m
            && Coupled(Next(sys, Connect(isn, now)),
                       (m - {bound})[sys.id := ConnectCommand(m[bound], ip, sys.id.dstPort, isn)], ip)
  {
    var bound, sys' := BoundId(ip, sys.id.srcPort), Next(sys, Connect(isn, now));
    var m' := (m - {bound})[sys.id := ConnectCommand(m[bound], ip, sys.id.dstPort, isn)];
    StepOk(sys, Connect(isn, now));
    KeysApart(sys, Client);
    KeysApart(sys, Server);
    NextAt(sys, Connect(isn, now), Server);
    hide Inv;
    assert Keyed(m');
    assert Holds(sys', Client, m') && Holds(sys', Server, m');
  }

  /** A SYN that no connection takes: a listener at the server's address may spawn the server's end. */
  lemma SpawnCoupled(sys: Sys, m: Sockets, ip: string, p: Packet, w: World)
    requires Coupled(sys, m, ip) && p in sys.toServer && sys.server.phase.Idle? && 0 <= w.env.isn
    requires var bound := BoundId(ip, sys.id.dstPort);
             bound in m && m[bound].state.Listen? && ResponseIn(m, bound, p, ip, ip, w).spawned.Some?
    ensures var e, step := DispatchIn(m, ip, ip, p, w), Spawn(p, w.env);
            Enabled(sys, step) && Coupled(Next(sys, step), e.table, ip) && e.sent == [] && e.written == ""
  {
    var bound, step := BoundId(ip, sys.id.dstPort), Spawn(p, w.env);
    KeysApart(sys, Client);
    KeysApart(sys, Server);
    assert SideOk(sys, Client);
    assert PacketOk(sys.client, Client, sys.id, sys.server, p);
    var r := ResponseIn(m, bound, p, ip, ip, w);
    ResponseKeyed(m, bound, p, ip, ip, w);
    assert p.flags.syn && r.spawned.value == SpawnedSock(bound, p, ip, w.env);
    StepOk(sys, step);
    var sys' := Next(sys, step);
    var m' := DispatchIn(m, ip, ip, p, w).table;
    hide Inv, ResponseIn;
    assert m' == m[bound := r.sock][sys.IdOf(Server) := r.spawned.value];
    assert Holds(sys', Client, m') && Holds(sys', Server, m');
  }

  // ---------------------------------------------------------------- calls on the manager

  predicate StandsAt(sys: Sys, side: Side, key: Id) {
    sys.At(side).phase.Live? && sys.At(side).sock.id == key
  }

  /** The end that stands under a key. */
  function EndAt(sys: Sys, key: Id): Option<Side> {
    if StandsAt(sys, Client, key) then Some(Client)
    else if StandsAt(sys, Server, key) then Some(Server)
    else None
  }

  /** The key under which a packet makes a listener file a new connection. */
  function SpawnsAt(m: Sockets, ip: string, srcIp: string, p: Packet, w: World): Option<Id>
    requires Keyed(m)
  {
    var key := Lookup(m, ip, srcIp, p);
    if key.Some? && ResponseIn(m, key.value, p, ip, srcIp, w).spawned.Some? then Some(SpawnKey(key.value, ip, p))
    else None
  }

  /** The protocol step a call amounts to: none, if the packet is not admitted or concerns other sockets. */
  function StepsOf(sys: Sys, m: Sockets, ip: string, call: Call, wild: int -> int): seq<Step>
    requires Keyed(m)
  {
    match call
    case BindCall(port, now, fifosOk, replyOk) => []
    case ListenCall(key, limit, acceptFifoOk, replyOk) => []
    case ConnectCall(key, dstIp, dstPort, isn) =>
      if Connects(m, key, dstIp, dstPort) && key.(dstIp := dstIp, dstPort := dstPort) == sys.id
      then [Connect(isn, m[key].created)] else []
    case VisitCall(key, v) => if EndAt(sys, key).Some? then [Visit(EndAt(sys, key).value, v)] else []
    case ReceiveCall(packet, w) =>
      var p := Admitted(packet, ip, wild);
      if p.None? then [] else PacketSteps(sys, m, ip, packet.srcIp, p.value, w)
  }

  /** The step a segment from some ip amounts to. */
  function PacketSteps(sys: Sys, m: Sockets, ip: string, srcIp: string, p: Packet, w: World): seq<Step>
    requires Keyed(m)
  {
    var key := Lookup(m, ip, srcIp, p);
    if key.None? then []
    else if EndAt(sys, key.value).Some? then
      var to := EndAt(sys, key.value).value;
      [Deliver(to, p, w.env, Leaves(sys, to, m, w))]
    else if SpawnsAt(m, ip, srcIp, p, w) == Some(sys.IdOf(Server)) then [Spawn(p, w.env)]
    else []
  }

  /** Calls the theorem is about. Binding: any. Listening: not the two ends, once they have closed. Connecting: the
      client's freshly bound socket once, the two ends never again, others at will, if not in the place of the server's
      end. Visits: any, but the two users close once at most and keep their bytes free of NUL, and no close leaves two
      sockets under one key. Packets that are admitted: for the two ends only segments the other has sent, and no second
      connection of the same ports; for other sockets, anything. */
  predicate CallOk(sys: Sys, m: Sockets, ip: string, call: Call, wild: int -> int)
    requires Keyed(m)
  {
    match call
    case BindCall(port, now, fifosOk, replyOk) => true
    case ListenCall(key, limit, acceptFifoOk, replyOk) => EndAt(sys, key).None?
    case ConnectCall(key, dstIp, dstPort, isn) =>
      && EndAt(sys, key).None? && key.(dstIp := dstIp, dstPort := dstPort) != sys.IdOf(Server)
      && (Connects(m, key, dstIp, dstPort) && key.(dstIp := dstIp, dstPort := dstPort) == sys.id ==>
            && sys.client.phase.Idle? && 1 <= isn <= 2000
            && key == BoundId(ip, sys.id.srcPort) && m[key] == NewSock(key, Closed, m[key].created))
    case VisitCall(key, v) =>
      && (key in m ==> !ClashIn(m, key, v))
      && (EndAt(sys, key).Some? ==> Enabled(sys, Visit(EndAt(sys, key).value, v)))
    case ReceiveCall(packet, w) =>
      var p := Admitted(packet, ip, wild);
      p.Some? ==> PacketOkFor(sys, m, ip, packet.srcIp, p.value, w)
  }

  predicate PacketOkFor(sys: Sys, m: Sockets, ip: string, srcIp: string, p: Packet, w: World)
    requires Keyed(m)
  {
    var key := Lookup(m, ip, srcIp, p);
    && (key.Some? && EndAt(sys, key.value).Some? ==>
          srcIp == ip && p in sys.From(EndAt(sys, key.value).value.Other()))
    && (SpawnsAt(m, ip, srcIp, p, w) == Some(sys.IdOf(Server)) ==>
          srcIp == ip && sys.server.phase.Idle? && p in sys.toServer && 0 <= w.env.isn)
    && SpawnsAt(m, ip, srcIp, p, w) != Some(sys.id)
  }

  /** The other sockets' business does not touch the two ends. */
  lemma ElsewhereCoupled(sys: Sys, m: Sockets, ip: string, m': Sockets)
    requires Coupled(sys, m, ip) && Keyed(m')
    requires forall side: Side :: sys.At(side).phase.Live? ==>
               sys.At(side).sock.id in m' && m'[sys.At(side).sock.id] == m[sys.At(side).sock.id]
    requires forall side: Side :: sys.IdOf(side) in m' ==> sys.IdOf(side) in m
    ensures Coupled(sys, m', ip)
  {
    hide Inv;
    assert Holds(sys, Client, m') && Holds(sys, Server, m');
  }

  lemma OtherVisit(sys: Sys, m: Sockets, ip: string, key: Id, v: VisitEnv)
    requires Coupled(sys, m, ip) && key in m && EndAt(sys, key).None? && !ClashIn(m, key, v)
    ensures Coupled(sys, VisitIn(m, key, v).table, ip)
  {
    KeysApart(sys, Client);
    KeysApart(sys, Server);
    VisitShaped(m[key], v);
    hide Inv, VisitSock;
    var m' := VisitIn(m, key, v).table;
    forall side: Side | sys.IdOf(side) in m' ensures sys.IdOf(side) in m {
      assert side.Client? || side.Server?;
    }
    ElsewhereCoupled(sys, m, ip, m');
  }

  lemma OtherPacket(sys: Sys, m: Sockets, ip: string, srcIp: string, p: Packet, w: World)
    requires Coupled(sys, m, ip)
    requires var key := Lookup(m, ip, srcIp, p); key.Some? ==> EndAt(sys, key.value).None?
    requires forall side: Side :: SpawnsAt(m, ip, srcIp, p, w) != Some(sys.IdOf(side))
    ensures Coupled(sys, DispatchIn(m, ip, srcIp, p, w).table, ip)
  {
    var key := Lookup(m, ip, srcIp, p);
    if key.Some? {
      ResponseKeyed(m, key.value, p, ip, srcIp, w);
      hide Inv, ResponseIn;
      ElsewhereCoupled(sys, m, ip, DispatchIn(m, ip, srcIp, p, w).table);
    }
  }

  lemma SpawnsFromAddress(sys: Sys, m: Sockets, ip: string, p: Packet, w: World)
    requires Coupled(sys, m, ip) && SpawnsAt(m, ip, ip, p, w) == Some(sys.IdOf(Server)) && EndAtLookup(sys, m, ip, p)
    ensures var bound := BoundId(ip, sys.id.dstPort);
            bound in m && m[bound].state.Listen? && ResponseIn(m, bound, p, ip, ip, w).spawned.Some?
  {
    var key := Lookup(m, ip, ip, p).value;
    ResponseKeyed(m, key, p, ip, ip, w);
    if !m[key].state.Listen? {
      OnlyListenersSpawn(m[key], p, ip, w.env, w.fifosOk && |m| < TABLE_SIZE && SpawnKey(m[key].id, ip, p) !in m);
    }
    hide Inv, HandlePacket;
  }

  predicate EndAtLookup(sys: Sys, m: Sockets, ip: string, p: Packet) {
    var key := Lookup(m, ip, ip, p);
    key.Some? && EndAt(sys, key.value).None?
  }

  lemma OneStep(sys: Sys, step: Step)
    requires Enabled(sys, step)
    ensures ValidRun(sys, [step]) && Exec(sys, [step]) == Next(sys, step)
  {
    hide Enabled, Next;
    assert [step][1..] == [];
    assert ValidRun(Next(sys, step), []) && Exec(Next(sys, step), []) == Next(sys, step);
  }

  /** Every such call is a step of the protocol, or none. */
  lemma CallRefines(sys: Sys, m: Sockets, ip: string, call: Call, wild: int -> int)
    requires Coupled(sys, m, ip) && CallOk(sys, m, ip, call, wild)
    ensures var steps := StepsOf(sys, m, ip, call, wild);
            ValidRun(sys, steps) && Coupled(Exec(sys, steps), EffectOf(m, ip, call, wild).table, ip)
  {
    match call
    case BindCall(port, now, fifosOk, replyOk) =>
      BindRefines(sys, m, ip, BindIn(m, ip, port, now, fifosOk, replyOk).table, BoundId(ip, port));
    case ListenCall(key, limit, acceptFifoOk, replyOk) =>
      ListenRefines(sys, m, ip, key, limit, acceptFifoOk, replyOk);
    case ConnectCall(key, dstIp, dstPort, isn) => ConnectRefines(sys, m, ip, key, dstIp, dstPort, isn, wild);
    case VisitCall(key, v) =>
      var end := EndAt(sys, key);
      hide Inv, Next, VisitIn, Enabled;
      if end.Some? {
        VisitCoupled(sys, m, ip, end.value, v);
        OneStep(sys, Visit(end.value, v));
      } else if key in m {
        OtherVisit(sys, m, ip, key, v);
      }
    case ReceiveCall(packet, w) =>
      var p := Admitted(packet, ip, wild);
      if p.Some? {
        PacketRefines(sys, m, ip, p.value, packet.srcIp, w);
      }
  }

  lemma BindRefines(sys: Sys, m: Sockets, ip: string, m': Sockets, key: Id)
    requires Coupled(sys, m, ip) && Keyed(m') && key == BoundId(ip, key.srcPort)
    requires m' == m || (key !in m && key in m' && m' == m[key := m'[key]])
    ensures Coupled(sys, m', ip)
  {
    KeysApart(sys, Client);
    KeysApart(sys, Server);
    hide Inv;
    forall side: Side | sys.IdOf(side) in m' ensures sys.IdOf(side) in m {
      assert side.Client? || side.Server?;
    }
    ElsewhereCoupled(sys, m, ip, m');
  }

  lemma ListenRefines(sys: Sys, m: Sockets, ip: string, key: Id, limit: int, acceptFifoOk: bool, replyOk: bool)
    requires Coupled(sys, m, ip) && EndAt(sys, key).None?
    ensures Coupled(sys, ListenIn(m, key, limit, acceptFifoOk, replyOk).table, ip)
  {
    hide Inv, ListenCommand, Kind;
    ElsewhereCoupled(sys, m, ip, ListenIn(m, key, limit, acceptFifoOk, replyOk).table);
  }

  lemma ConnectRefines(sys: Sys, m: Sockets, ip: string, key: Id, dstIp: string, dstPort: int, isn: int,
                       wild: int -> int)
    requires Coupled(sys, m, ip) && CallOk(sys, m, ip, ConnectCall(key, dstIp, dstPort, isn), wild)
    ensures var call := ConnectCall(key, dstIp, dstPort, isn); var steps := StepsOf(sys, m, ip, call, wild);
            ValidRun(sys, steps) && Coupled(Exec(sys, steps), EffectOf(m, ip, call, wild).table, ip)
  {
    hide Inv, Next;
    if !Connects(m, key, dstIp, dstPort) {
    } else if key.(dstIp := dstIp, dstPort := dstPort) == sys.id {
      var step := Connect(isn, m[key].created);
      ConnectCoupled(sys, m, ip, isn, m[key].created);
      hide Enabled;
      OneStep(sys, step);
    } else {
      var m' := ConnectIn(m, key, dstIp, dstPort, isn).table;
      forall side: Side | sys.IdOf(side) in m' ensures sys.IdOf(side) in m {
        assert side.Client? || side.Server?;
      }
      ElsewhereCoupled(sys, m, ip, m');
    }
  }

  lemma PacketRefines(sys: Sys, m: Sockets, ip: string, p: Packet, srcIp: string, w: World)
    requires Coupled(sys, m, ip) && PacketOkFor(sys, m, ip, srcIp, p, w)
    ensures var steps := PacketSteps(sys, m, ip, srcIp, p, w);
            ValidRun(sys, steps) && Coupled(Exec(sys, steps), DispatchIn(m, ip, srcIp, p, w).table, ip)
  {
    var key := Lookup(m, ip, srcIp, p);
    hide Inv, Next, Enabled, DispatchIn;
    if key.Some? && EndAt(sys, key.value).Some? {
      var to := EndAt(sys, key.value).value;
      hide Lookup, SpawnsAt;
      DeliverCoupled(sys, m, ip, to, p, w);
      OneStep(sys, Deliver(to, p, w.env, Leaves(sys, to, m, w)));
    } else if SpawnsAt(m, ip, srcIp, p, w) == Some(sys.IdOf(Server)) {
      SpawnsFromAddress(sys, m, ip, p, w);
      hide Lookup, SpawnsAt;
      SpawnCoupled(sys, m, ip, p, w);
      OneStep(sys, Spawn(p, w.env));
    } else {
      hide Lookup, SpawnsAt;
      assert forall side: Side :: SpawnsAt(m, ip, srcIp, p, w) != Some(sys.IdOf(side)) by {
        forall side: Side ensures SpawnsAt(m, ip, srcIp, p, w) != Some(sys.IdOf(side)) {
          assert side.Client? || side.Server?;
        }
      }
      OtherPacket(sys, m, ip, srcIp, p, w);
    }
  }

  // ---------------------------------------------------------------- whole runs of calls

  predicate CallsOk(sys: Sys, m: Sockets, ip: string, calls: seq<Call>, wild: int -> int)
    requires Coupled(sys, m, ip)
    decreases |calls|
  {
    calls == [] ||
    (CallOk(sys, m, ip, calls[0], wild) &&
     (CallRefines(sys, m, ip, calls[0], wild);
      CallsOk(Exec(sys, StepsOf(sys, m, ip, calls[0], wild)), EffectOf(m, ip, calls[0], wild).table, ip,
              calls[1..], wild)))
  }

  /** The protocol run the calls amount to. */
  function RunOf(sys: Sys, m: Sockets, ip: string, calls: seq<Call>, wild: int -> int): seq<Step>
    requires Coupled(sys, m, ip) && CallsOk(sys, m, ip, calls, wild)
    decreases |calls|
  {
    if calls == [] then []
    else
      CallRefines(sys, m, ip, calls[0], wild);
      var steps := StepsOf(sys, m, ip, calls[0], wild);
      steps + RunOf(Exec(sys, steps), EffectOf(m, ip, calls[0], wild).table, ip, calls[1..], wild)
  }

  lemma {:induction false} RunsJoin(sys: Sys, a: seq<Step>, b: seq<Step>)
    requires ValidRun(sys, a) && ValidRun(Exec(sys, a), b)
    ensures ValidRun(sys, a + b) && Exec(sys, a + b) == Exec(Exec(sys, a), b)
    decreases |a|
  {
    hide Next, Enabled;
    if a == [] {
      assert a + b == b;
    } else {
      assert (a + b)[1..] == a[1..] + b;
      RunsJoin(Next(sys, a[0]), a[1..], b);
    }
  }

  /** Every run of calls is a run of the protocol: the table after the calls holds the two ends as the protocol run
      leaves them. */
  lemma {:induction false} CallsRefine(sys: Sys, m: Sockets, ip: string, calls: seq<Call>, wild: int -> int)
    requires Coupled(sys, m, ip) && CallsOk(sys, m, ip, calls, wild)
    ensures var steps := RunOf(sys, m, ip, calls, wild);
            ValidRun(sys, steps) && Coupled(Exec(sys, steps), TableAfter(m, ip, calls, wild), ip)
    decreases |calls|
  {
    hide Inv, Holds, CallOk, EffectOf, StepsOf;
    if calls != [] {
      CallRefines(sys, m, ip, calls[0], wild);
      var steps := StepsOf(sys, m, ip, calls[0], wild);
      var sys', m' := Exec(sys, steps), EffectOf(m, ip, calls[0], wild).table;
      CallsRefine(sys', m', ip, calls[1..], wild);
      RunsJoin(sys, steps, RunOf(sys', m', ip, calls[1..], wild));
    }
  }

  // ---------------------------------------------------------------- and back: steps are calls

  lemma EndFound(sys: Sys, side: Side)
    requires Inv(sys) && sys.At(side).phase.Live?
    ensures EndAt(sys, sys.At(side).sock.id) == Some(side)
  {
    KeysApart(sys, Client);
    KeysApart(sys, Server);
    hide Inv;
  }

  /** Every visit of the protocol is a call the theorem is about, if the close does not clash. */
  lemma VisitIsCall(sys: Sys, m: Sockets, ip: string, side: Side, v: VisitEnv, wild: int -> int)
    requires Coupled(sys, m, ip) && Enabled(sys, Visit(side, v)) && !ClashIn(m, sys.At(side).sock.id, v)
    ensures var call := VisitCall(sys.At(side).sock.id, v);
            CallOk(sys, m, ip, call, wild) && StepsOf(sys, m, ip, call, wild) == [Visit(side, v)]
  {
    EndFound(sys, side);
  }

  lemma SendableIsCall(sys: Sys, m: Sockets, ip: string, to: Side, p: Packet, w: World, wild: int -> int)
    requires Coupled(sys, m, ip) && p in sys.From(to.Other()) && sys.At(to).phase.Live?
    requires Sendable(p) && !LostOnWire(p, wild)
    ensures var call := ReceiveCall(Envelope(p, ip, ip), w);
            && CallOk(sys, m, ip, call, wild)
            && StepsOf(sys, m, ip, call, wild) == [Deliver(to, p, w.env, Leaves(sys, to, m, w))]
  {
    EnvelopeArrives(p, ip, ip, wild);
    hide Admitted, LostOnWire, Sendable, Inv, Envelope;
    DeliverIsPacketStep(sys, m, ip, to, p, w);
  }

  /** So is every delivery, in any run within the arithmetic bound, of a packet that is not lost on the wire: the packet
      is what arrives of the frame it was sent in, and its handling is the delivery. */
  lemma DeliverIsCall(init: Sys, steps: seq<Step>, m: Sockets, ip: string, to: Side, p: Packet, w: World,
                      wild: int -> int)
    requires Init(init) && ValidRun(init, steps) && Coupled(Exec(init, steps), m, ip)
    requires 1 <= init.id.srcPort <= 99999 && 1 <= init.id.dstPort <= 99999
    requires SmallEnough(Exec(init, steps).At(to.Other()), Exec(init, steps).At(to))
    requires p in Exec(init, steps).From(to.Other()) && Exec(init, steps).At(to).phase.Live? && !LostOnWire(p, wild)
    ensures var sys, call := Exec(init, steps), ReceiveCall(Envelope(p, ip, ip), w);
            && CallOk(sys, m, ip, call, wild)
            && StepsOf(sys, m, ip, call, wild) == [Deliver(to, p, w.env, Leaves(sys, to, m, w))]
  {
    hide Init, ValidRun, Exec, Coupled, CallOk, StepsOf, LostOnWire, Envelope, Sendable;
    RunPacketSendable(init, steps, to.Other(), p);
    SendableIsCall(Exec(init, steps), m, ip, to, p, w, wild);
  }

  lemma DeliverIsPacketStep(sys: Sys, m: Sockets, ip: string, to: Side, p: Packet, w: World)
    requires Coupled(sys, m, ip) && p in sys.From(to.Other()) && sys.At(to).phase.Live?
    ensures PacketOkFor(sys, m, ip, ip, p, w)
    ensures PacketSteps(sys, m, ip, ip, p, w) == [Deliver(to, p, w.env, Leaves(sys, to, m, w))]
  {
    EndFound(sys, to);
    Reaches(sys, m, ip, to, p);
    KeysApart(sys, to);
    hide Inv, Lookup, SpawnsAt, EndAt;
    EndsDoNotSpawn(m, ip, p, w);
    assert to.Client? || to.Server?;
  }

  lemma EndsDoNotSpawn(m: Sockets, ip: string, p: Packet, w: World)
    requires Keyed(m)
    requires var key := Lookup(m, ip, ip, p); key.Some? && key.value in m && !m[key.value].state.Listen?
    ensures SpawnsAt(m, ip, ip, p, w) == None
  {
    var s := m[Lookup(m, ip, ip, p).value];
    OnlyListenersSpawn(s, p, ip, w.env, w.fifosOk && |m| < TABLE_SIZE && SpawnKey(s.id, ip, p) !in m);
    hide HandlePacket, Lookup;
  }

  // ---------------------------------------------------------------- what leaves and what is handed over

  /** Which end a call is a step of. */
  predicate ActsAt(sys: Sys, m: Sockets, ip: string, call: Call, wild: int -> int, side: Side)
    requires Keyed(m)
  {
    IsOf(StepsOf(sys, m, ip, call, wild), side)
  }

  predicate IsOf(steps: seq<Step>, side: Side) {
    steps != [] && ((steps[0].Visit? && steps[0].side == side) || (steps[0].Deliver? && steps[0].to == side))
  }

  /** What one call adds to the protocol's network and to what its readers have been handed. */
  predicate Adds(sys: Sys, sys': Sys, e: Effect, acts: bool, side: Side) {
    && sys'.From(side) == sys.From(side) + (if acts then set p | p in e.sent else {})
    && sys'.At(side).delivered == sys.At(side).delivered + if acts then e.written else ""
  }

  lemma VisitCallSends(sys: Sys, m: Sockets, ip: string, key: Id, v: VisitEnv, wild: int -> int, side: Side)
    requires Coupled(sys, m, ip) && CallOk(sys, m, ip, VisitCall(key, v), wild)
    ensures var call := VisitCall(key, v); var steps := StepsOf(sys, m, ip, call, wild);
            ValidRun(sys, steps) &&
            Adds(sys, Exec(sys, steps), EffectOf(m, ip, call, wild), ActsAt(sys, m, ip, call, wild, side), side)
  {
    var end := EndAt(sys, key);
    hide Inv, Next, VisitIn, Enabled;
    if end.Some? {
      VisitCoupled(sys, m, ip, end.value, v);
      OneStep(sys, Visit(end.value, v));
      VisitSends(sys, end.value, v, side);
      VisitWrites(m, key, v);
    }
  }

  lemma NothingSent(sys: Sys, m: Sockets, ip: string, call: Call, wild: int -> int, side: Side)
    requires Keyed(m) && (call.BindCall? || call.ListenCall?)
    ensures var steps := StepsOf(sys, m, ip, call, wild);
            ValidRun(sys, steps) &&
            Adds(sys, Exec(sys, steps), EffectOf(m, ip, call, wild), ActsAt(sys, m, ip, call, wild, side), side)
  {
  }

  lemma ConnectCallSends(sys: Sys, m: Sockets, ip: string, key: Id, dstIp: string, dstPort: int, isn: int,
                         wild: int -> int, side: Side)
    requires Coupled(sys, m, ip) && CallOk(sys, m, ip, ConnectCall(key, dstIp, dstPort, isn), wild)
    ensures var call := ConnectCall(key, dstIp, dstPort, isn); var steps := StepsOf(sys, m, ip, call, wild);
            ValidRun(sys, steps) &&
            Adds(sys, Exec(sys, steps), EffectOf(m, ip, call, wild), ActsAt(sys, m, ip, call, wild, side), side)
  {
    var steps := StepsOf(sys, m, ip, ConnectCall(key, dstIp, dstPort, isn), wild);
    ConnectRefines(sys, m, ip, key, dstIp, dstPort, isn, wild);
    if steps != [] {
      hide Inv;
      OneStep(sys, steps[0]);
    }
  }

  lemma VisitWrites(m: Sockets, key: Id, v: VisitEnv)
    requires Keyed(m) && key in m
    ensures VisitIn(m, key, v).written == ""
  {
  }

  /** Which step a segment amounts to. */
  lemma WhichStep(sys: Sys, m: Sockets, ip: string, p: Packet, srcIp: string, w: World)
    requires Coupled(sys, m, ip) && PacketOkFor(sys, m, ip, srcIp, p, w)
    ensures var steps := PacketSteps(sys, m, ip, srcIp, p, w);
            && (steps != [] ==> |steps| == 1 && (steps[0].Spawn? || steps[0].Deliver?))
            && (steps != [] && steps[0].Deliver? ==>
                  var to := steps[0].to;
                  && steps[0] == Deliver(to, p, w.env, Leaves(sys, to, m, w))
                  && sys.At(to).phase.Live? && p in sys.From(to.Other()) && srcIp == ip)
  {
    hide Inv, Lookup, SpawnsAt;
  }

  lemma PacketSends(sys: Sys, m: Sockets, ip: string, p: Packet, srcIp: string, w: World, side: Side)
    requires Coupled(sys, m, ip) && PacketOkFor(sys, m, ip, srcIp, p, w)
    ensures var steps := PacketSteps(sys, m, ip, srcIp, p, w);
            && ValidRun(sys, steps)
            && Adds(sys, Exec(sys, steps), DispatchIn(m, ip, srcIp, p, w), IsOf(steps, side), side)
  {
    PacketRefines(sys, m, ip, p, srcIp, w);
    WhichStep(sys, m, ip, p, srcIp, w);
    var steps := PacketSteps(sys, m, ip, srcIp, p, w);
    hide Inv, Holds, Next, Enabled, DispatchIn, PacketOkFor, PacketSteps;
    if steps != [] {
      assert steps == [steps[0]];
      StepSends(sys, m, ip, p, w, steps[0], side);
    }
  }

  lemma ReceiveCallSends(sys: Sys, m: Sockets, ip: string, packet: IpPacket, w: World, wild: int -> int, side: Side)
    requires Coupled(sys, m, ip) && CallOk(sys, m, ip, ReceiveCall(packet, w), wild)
    ensures var call := ReceiveCall(packet, w); var steps := StepsOf(sys, m, ip, call, wild);
            ValidRun(sys, steps) &&
            Adds(sys, Exec(sys, steps), EffectOf(m, ip, call, wild), ActsAt(sys, m, ip, call, wild, side), side)
  {
    var p := Admitted(packet, ip, wild);
    hide Inv, Holds, Next, Enabled, DispatchIn, Admitted, PacketOkFor, PacketSteps, IsOf;
    if p.Some? {
      PacketSends(sys, m, ip, p.value, packet.srcIp, w, side);
    }
  }

  lemma StepSends(sys: Sys, m: Sockets, ip: string, p: Packet, w: World, step: Step, side: Side)
    requires Coupled(sys, m, ip) && ValidRun(sys, [step]) && (step.Spawn? || step.Deliver?)
    requires step.Deliver? ==>
               && step == Deliver(step.to, p, w.env, Leaves(sys, step.to, m, w))
               && sys.At(step.to).phase.Live? && p in sys.From(step.to.Other())
    ensures step.Spawn? ==> forall e :: Adds(sys, Exec(sys, [step]), e, false, side)
    ensures step.Deliver? ==> Adds(sys, Exec(sys, [step]), DispatchIn(m, ip, ip, p, w), step.to == side, side)
  {
    hide Inv, Next, Enabled, DispatchIn, DeliverTo;
    OneStep(sys, step);
    if step.Deliver? {
      DeliverRefines(sys, m, ip, step.to, p, w);
      DeliverSends(sys, step, side);
    } else {
      SpawnSends(sys, step, side);
    }
  }

  /** The protocol's network holds what the manager sent for its ends, and its readers have been handed what the
      manager wrote for them. */
  lemma CallSends(sys: Sys, m: Sockets, ip: string, call: Call, wild: int -> int, side: Side)
    requires Coupled(sys, m, ip) && CallOk(sys, m, ip, call, wild)
    ensures var steps := StepsOf(sys, m, ip, call, wild);
            ValidRun(sys, steps) &&
            Adds(sys, Exec(sys, steps), EffectOf(m, ip, call, wild), ActsAt(sys, m, ip, call, wild, side), side)
  {
    hide Adds, ActsAt, EffectOf, StepsOf, Inv, Holds, CallOk;
    match call
    case BindCall(port, now, fifosOk, replyOk) => NothingSent(sys, m, ip, call, wild, side);
    case ListenCall(key, limit, acceptFifoOk, replyOk) => NothingSent(sys, m, ip, call, wild, side);
    case ConnectCall(key, dstIp, dstPort, isn) => ConnectCallSends(sys, m, ip, key, dstIp, dstPort, isn, wild, side);
    case VisitCall(key, v) => VisitCallSends(sys, m, ip, key, v, wild, side);
    case ReceiveCall(packet, w) => ReceiveCallSends(sys, m, ip, packet, w, wild, side);
  }

  lemma VisitSends(sys: Sys, end: Side, v: VisitEnv, side: Side)
    requires Enabled(sys, Visit(end, v))
    ensures var sys' := Next(sys, Visit(end, v));
            && sys'.From(side) ==
                 sys.From(side) + (if end == side then set p | p in VisitOf(sys.At(end), v).1 else {})
            && sys'.At(side).delivered == sys.At(side).delivered
  {
    NextAt(sys, Visit(end, v), side);
    VisitHands(sys.At(end), v);
    hide VisitOf;
  }

  lemma VisitHands(e: Endpoint, v: VisitEnv)
    requires e.sock.Shaped() && (v.close ==> e.closesLeft > 0)
    ensures VisitOf(e, v).0.delivered == e.delivered
  {
  }

  lemma DeliverSends(sys: Sys, step: Step, side: Side)
    requires step.Deliver? && Enabled(sys, step)
    ensures var sys' := Next(sys, step); var (e, sent) := DeliverTo(sys.At(step.to), step.p, step.env, step.replySent);
            && sys'.From(side) == sys.From(side) + (if step.to == side then set p | p in sent else {})
            && (step.to != side ==> sys'.At(side) == sys.At(side))
  {
    hide DeliverTo;
  }

  lemma SpawnSends(sys: Sys, step: Step, side: Side)
    requires step.Spawn? && Enabled(sys, step)
    ensures Next(sys, step).From(side) == sys.From(side)
    ensures Next(sys, step).At(side).delivered == sys.At(side).delivered
  {
  }

  /** An end that has given up its destination writes nothing any more. */
  lemma GivenUpWritesNothing(sys: Sys, side: Side, p: Packet, ip: string, env: Env)
    requires Inv(sys) && sys.At(side).phase.Live? && sys.At(side).sock.id != sys.IdOf(side)
    ensures sys.At(side).sock.Shaped() && HandlePacket(sys.At(side).sock, p, ip, env).written == ""
  {
    assert SideOk(sys, side);
    assert AfterClose(sys.At(side).sock.state);
    hide PeerOk, PacketsOk;
  }

  /** A call hands bytes to an end's reader exactly if it writes to the reader of the connection's key. */
  lemma ReaderIsEnd(sys: Sys, m: Sockets, ip: string, call: Call, wild: int -> int, side: Side)
    requires Coupled(sys, m, ip) && CallOk(sys, m, ip, call, wild)
    ensures var written := EffectOf(m, ip, call, wild).written;
            (if ReaderOf(m, ip, call, wild) == Some(sys.IdOf(side)) then written else "") ==
            (if ActsAt(sys, m, ip, call, wild, side) then written else "")
  {
    if call.ReceiveCall? {
      var p := Admitted(call.packet, ip, wild);
      hide Inv, Admitted, DispatchIn;
      if p.Some? {
        PacketReader(sys, m, ip, p.value, call.packet.srcIp, call.world, side);
      }
    } else if call.VisitCall? && call.key in m {
      VisitWrites(m, call.key, call.visit);
    }
  }

  lemma PacketReader(sys: Sys, m: Sockets, ip: string, p: Packet, srcIp: string, w: World, side: Side)
    requires Coupled(sys, m, ip) && PacketOkFor(sys, m, ip, srcIp, p, w)
    ensures var written := DispatchIn(m, ip, srcIp, p, w).written;
            (if Lookup(m, ip, srcIp, p) == Some(sys.IdOf(side)) then written else "") ==
            (if IsOf(PacketSteps(sys, m, ip, srcIp, p, w), side) then written else "")
  {
    var key := Lookup(m, ip, srcIp, p);
    if key == Some(sys.IdOf(side)) {
      EndFound(sys, side);
    } else if key.Some? && EndAt(sys, key.value) == Some(side) {
      var env := w.env.(spawnOk := w.fifosOk && |m| < TABLE_SIZE && SpawnKey(m[key.value].id, ip, p) !in m);
      GivenUpWritesNothing(sys, side, p, ip, env);
    }
    hide Inv, HandlePacket, Lookup, SpawnsAt;
  }

  lemma CallHands(sys: Sys, m: Sockets, ip: string, call: Call, wild: int -> int, side: Side)
    requires Coupled(sys, m, ip) && CallOk(sys, m, ip, call, wild)
    ensures var steps := StepsOf(sys, m, ip, call, wild);
            && ValidRun(sys, steps) && Coupled(Exec(sys, steps), EffectOf(m, ip, call, wild).table, ip)
            && Exec(sys, steps).IdOf(side) == sys.IdOf(side)
            && Exec(sys, steps).At(side).delivered ==
               sys.At(side).delivered +
               if ReaderOf(m, ip, call, wild) == Some(sys.IdOf(side)) then EffectOf(m, ip, call, wild).written else ""
  {
    assert Keyed(m);
    hide Inv, Coupled, Keyed, CallOk, EffectOf, StepsOf, ActsAt, ReaderOf;
    CallRefines(sys, m, ip, call, wild);
    CallSends(sys, m, ip, call, wild, side);
    ReaderIsEnd(sys, m, ip, call, wild, side);
    IdStays(sys, StepsOf(sys, m, ip, call, wild));
  }

  lemma LogFirst(m: Sockets, ip: string, calls: seq<Call>, wild: int -> int, key: Id)
    requires Keyed(m) && calls != []
    ensures var e := EffectOf(m, ip, calls[0], wild);
            BytesFor(LogOf(m, ip, calls, wild), key) ==
            (if ReaderOf(m, ip, calls[0], wild) == Some(key) then e.written else "")
            + BytesFor(LogOf(e.table, ip, calls[1..], wild), key)
  {
    hide EffectOf, ReaderOf, Keyed;
    var e := EffectOf(m, ip, calls[0], wild);
    var first := [Line(ReaderOf(m, ip, calls[0], wild), e.written)];
    assert (first + LogOf(e.table, ip, calls[1..], wild))[1..] == LogOf(e.table, ip, calls[1..], wild);
  }

  lemma Regroup(a: string, b: string, c: string)
    ensures (a + b) + c == a + (b + c)
  {
  }

  lemma {:induction false} LogIsDelivered(sys: Sys, m: Sockets, ip: string, calls: seq<Call>, wild: int -> int,
                                          side: Side)
    requires Coupled(sys, m, ip) && CallsOk(sys, m, ip, calls, wild)
    ensures ValidRun(sys, RunOf(sys, m, ip, calls, wild))
    ensures Exec(sys, RunOf(sys, m, ip, calls, wild)).At(side).delivered ==
            sys.At(side).delivered + BytesFor(LogOf(m, ip, calls, wild), sys.IdOf(side))
    decreases |calls|
  {
    assert Keyed(m);
    hide Inv, Coupled, Keyed, CallOk, EffectOf, StepsOf, ReaderOf;
    if calls != [] {
      hide LogOf, BytesFor;
      LogFirst(m, ip, calls, wild, sys.IdOf(side));
      CallHands(sys, m, ip, calls[0], wild, side);
      var steps := StepsOf(sys, m, ip, calls[0], wild);
      var sys', m' := Exec(sys, steps), EffectOf(m, ip, calls[0], wild).table;
      LogIsDelivered(sys', m', ip, calls[1..], wild, side);
      RunsJoin(sys, steps, RunOf(sys', m', ip, calls[1..], wild));
      var written := if ReaderOf(m, ip, calls[0], wild) == Some(sys.IdOf(side))
                     then EffectOf(m, ip, calls[0], wild).written else "";
      Regroup(sys.At(side).delivered, written, BytesFor(LogOf(m', ip, calls[1..], wild), sys.IdOf(side)));
    }
  }

  /** Reliable delivery, of the program's own calls: what one manager with both ends writes to a reader is a prefix of
      what it accepted from the other end's writer. */
  lemma ManagerDeliversPrefix(init: Sys, m: Sockets, ip: string, calls: seq<Call>, wild: int -> int, side: Side)
    requires Init(init) && Coupled(init, m, ip) && CallsOk(init, m, ip, calls, wild)
    ensures var steps := RunOf(init, m, ip, calls, wild);
            && ValidRun(init, steps)
            && Coupled(Exec(init, steps), TableAfter(m, ip, calls, wild), ip)
            && BytesFor(LogOf(m, ip, calls, wild), init.IdOf(side)) <= Exec(init, steps).At(side.Other()).accepted
  {
    NothingYet(init, side);
    hide Init, Coupled, CallsOk, RunOf, LogOf, BytesFor, Exec, ValidRun, TableAfter;
    LogIsDelivered(init, m, ip, calls, wild, side);
    CallsRefine(init, m, ip, calls, wild);
    DeliveredIsPrefix(init, RunOf(init, m, ip, calls, wild), side);
  }

  lemma NothingYet(init: Sys, side: Side)
    requires Init(init)
    ensures init.At(side).delivered == ""
  {
  }

  /** A manager that knows neither end yet is where a run of calls can start. */
  lemma Starts(init: Sys, m: Sockets)
    requires Init(init) && Keyed(m) && init.id !in m && init.IdOf(Server) !in m
    ensures Coupled(init, m, init.id.srcIp)
  {
    InitOk(init);
  }

  /** No call of such a run leaves two sockets under one key, so the program computes the table after it. */
  lemma {:induction false} CallsKeepMap(sys: Sys, m: Sockets, ip: string, calls: seq<Call>, wild: int -> int)
    requires Coupled(sys, m, ip) && CallsOk(sys, m, ip, calls, wild)
    ensures KeepMap(m, ip, calls, wild)
    decreases |calls|
  {
    hide Inv, Holds, EffectOf, StepsOf;
    if calls != [] {
      CallRefines(sys, m, ip, calls[0], wild);
      CallsKeepMap(Exec(sys, StepsOf(sys, m, ip, calls[0], wild)), EffectOf(m, ip, calls[0], wild).table, ip,
                   calls[1..], wild);
    }
  }

  /** What a run of calls on a manager that knows neither end yet may be. */
  predicate Admissible(init: Sys, m: Sockets, ip: string, calls: seq<Call>, wild: int -> int) {
    && Init(init) && Keyed(m) && ip == init.id.srcIp && init.id !in m && init.IdOf(Server) !in m
    && (Starts(init, m);
        CallsOk(init, m, ip, calls, wild))
  }

  /** The calls run on the manager itself: what it writes to either end's reader is a prefix of what it accepted from
      the other's writer. */
  method PlayDelivers(mgr: Manager, calls: seq<Call>, wild: int -> int, ghost init: Sys)
    returns (sent: seq<seq<Packet>>, log: seq<Line>, ghost m: Sockets, ghost steps: seq<Step>)
    requires mgr.Valid()
    requires forall m :: Shows(mgr, m) ==> Admissible(init, m, mgr.ip, calls, wild)
    modifies mgr.sockets`numberOfSockets, mgr.sockets`members, mgr.sockets.table, mgr.sockets.socketId
    modifies set s, o | s in mgr.sockets.members && o in s.Repr :: o
    ensures old(Shows(mgr, m)) && Keyed(m) && Shows(mgr, TableAfter(m, mgr.ip, calls, wild))
    ensures SentBy(m, mgr.ip, calls, wild, sent) && log == LogOf(m, mgr.ip, calls, wild)
    ensures Coupled(init, m, mgr.ip) && CallsOk(init, m, mgr.ip, calls, wild)
    ensures steps == RunOf(init, m, mgr.ip, calls, wild)
    ensures ValidRun(init, steps) && Coupled(Exec(init, steps), TableAfter(m, mgr.ip, calls, wild), mgr.ip)
    ensures forall side: Side :: BytesFor(log, init.IdOf(side)) <= Exec(init, steps).At(side.Other()).accepted
  {
    m := ShowsSome(mgr);
    assert Admissible(init, m, mgr.ip, calls, wild);
    Starts(init, m);
    CallsKeepMap(init, m, mgr.ip, calls, wild);
    steps := RunOf(init, m, mgr.ip, calls, wild);
    ManagerDeliversPrefix(init, m, mgr.ip, calls, wild, Client);
    ManagerDeliversPrefix(init, m, mgr.ip, calls, wild, Server);
    hide Shows, Init, ValidRun, Exec, Coupled, CallsOk, RunOf, LogOf, BytesFor, TableAfter, KeepMap, Admissible;
    hide SentBy;
    sent, log := Play(mgr, m, calls, wild);
    assert forall side: Side :: side.Client? || side.Server?;
  }

  /** A segment the program sends is an ip packet that the receiver admits, if it is not lost on the wire. */
  lemma EnvelopeArrives(p: Packet, srcIp: string, ip: string, wild: int -> int)
    requires Sendable(p)
    ensures Admitted(Envelope(p, srcIp, ip), ip, wild) == if LostOnWire(p, wild) then None else Some(p)
  {
    hide PrintTcp, Accept, LostOnWire, Printable;
    LostMeans(p, wild);
  }
}
