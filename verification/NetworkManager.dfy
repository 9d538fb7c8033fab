/** The manager's work on its socket table (network_manager.c): dispatch of incoming packets, spawning by listeners,
    binding, connecting, closing and removing. */
module NetworkManager {
  import opened Common
  import opened Packets
  import opened ReceiveWindow
  import opened ArrayQueue
  import opened SocketModel
  import opened SocketObject
  import opened SocketTable
  import opened IpWire
  import opened TcpWire

  /** The key a packet is looked up under: the receiver's view of the connection. */
  function PacketKey(dstIp: string, srcIp: string, p: Packet): Id {
    Id(dstIp, p.dstPort, srcIp, p.srcPort)
  }

  /** The socket a packet goes to: exact 4-tuple first, then the socket bound to its destination. */
  ghost function Target(m: map<Id, Socket>, dstIp: string, srcIp: string, p: Packet): Socket? {
    var key := PacketKey(dstIp, srcIp, p);
    var bound := BoundId(dstIp, p.dstPort);
    if key in m then m[key] else if bound in m then m[bound] else null
  }

  /** The key a listener files a new connection under; it takes its own ip for the peer's. */
  function SpawnKey(listener: Id, ip: string, p: Packet): Id {
    listener.(dstIp := ip, dstPort := p.srcPort)
  }

  /** The segment of an IP packet that is for this ip and passes both checksum tests. */
  function Admitted(packet: IpPacket, ip: string, wild: int -> int): Option<Packet> {
    if packet.headerChecksum != IpChecksum(packet) || packet.dstIp != ip then None else Accept(packet.data, wild)
  }

  /** What the handlers make of a packet for a socket of a table with contents m: a new connection can be filed if its
      fifos could be made, there is room, and its key is free. */
  ghost function Answer(s: Sock, p: Packet, ip: string, env: Env, fifosOk: bool, m: map<Id, Socket>): Outcome
    requires s.Shaped()
  {
    SocketModel.HandlePacket(s, p, ip, env.(spawnOk := fifosOk && |m| < TABLE_SIZE && SpawnKey(s.id, ip, p) !in m))
  }

  /** What the outside world does while one packet is handled. */
  datatype World = World(env: Env, fifosOk: bool, replySent: bool)

  /** The socket afterwards, the reply if it left, the bytes written to the reader, and the connection spawned. */
  datatype Response = Response(sock: Sock, replied: seq<Packet>, written: string, spawned: Option<Sock>)

  /** What handle_incoming_ip_packet makes of a packet for a socket. A reply can leave only to a named peer. */
  ghost function ResponseTo(s: Sock, p: Packet, ip: string, srcIp: string, w: World, m: map<Id, Socket>): Response
    requires s.Shaped()
  {
    var o := Answer(s, p, ip, w.env, w.fifosOk, m);
    var leaves := w.replySent && PacketKey(ip, srcIp, p) in m && !IsEmptyIp(srcIp);
    Response(AfterReply(o, leaves, w.env.now), if o.reply.Some? && leaves then [o.reply.value] else [],
             o.written, o.spawned)
  }

  /** handle_incoming_ip_packet reports an error: the packet is for this ip and correct, but holds no segment. */
  predicate IsError(packet: IpPacket, ip: string, wild: int -> int) {
    packet.headerChecksum == IpChecksum(packet) && packet.dstIp == ip && ParseTcp(packet.data, wild).None?
  }

  /** Only listeners ask whether they can spawn, and only they do. */
  lemma WhoAnswers(s: Sock, p: Packet, ip: string, env: Env, fifosOk: bool, m: map<Id, Socket>)
    requires s.Shaped()
    ensures var o := Answer(s, p, ip, env, fifosOk, m);
            && (!s.state.Listen? ==> o == SocketModel.HandlePacket(s, p, ip, env) && o.spawned.None?)
            && (s.state.Listen? ==>
                  && o == SocketModel.HandleListen(s, p, ip,
                            env.(spawnOk := fifosOk && |m| < TABLE_SIZE && SpawnKey(s.id, ip, p) !in m))
                  && o.written == "")
  {
  }

  /** Closing this socket brings it under a key that another one holds. */
  ghost predicate Clashes(s: Sock, env: VisitEnv, m: map<Id, Socket>) {
    env.close && s.state.SynSent? && BoundId(s.id.srcIp, s.id.srcPort) in m - {s.id}
  }

  predicate NoDestination(id: Id) {
    IsEmptyIp(id.dstIp) && id.dstPort == EMPTY_PORT
  }

  /** Every socket is well formed, and only sockets without a destination listen. */
  ghost predicate Proper(members: set<Socket>)
    reads members, set s, o | s in members && o in s.Repr :: o
  {
    forall s :: s in members ==> s.Valid() && (s.state.Listen? ==> NoDestination(s.id.View()))
  }

  /** No socket shares any state with another or with the table. */
  ghost predicate Separate(members: set<Socket>, table: set<object>) {
    && (forall s :: s in members ==> s.Repr !! table)
    && (forall s, t :: s in members && t in members && s != t ==> s.Repr !! t.Repr)
  }

  method NewConnection(listener: Id, ip: string, p: Packet, env: Env) returns (conn: Socket)
    ensures fresh(conn) && fresh(conn.Repr) && conn.Valid() && conn.View() == SpawnedSock(listener, p, ip, env)
  {
    var newId := new SocketID(SpawnKey(listener, ip, p));
    conn := new Socket(newId, SynReceived, env.now);
    conn.seqOfFirstSendWindow := env.isn;
    conn.seqOfFirstRecvWindow := p.seqNum + 1;
  }

  class Manager {
    const ip: string
    const sockets: HashMap

    ghost function Table(): set<object> {
      {sockets, sockets.table, sockets.socketId}
    }

    /** All but the keys' being distinct. */
    ghost predicate Sound()
      reads Table(), sockets.Ids(), sockets.members, set s, o | s in sockets.members && o in s.Repr :: o
    {
      sockets.Filed() && Proper(sockets.members) && Separate(sockets.members, Table())
    }

    ghost predicate Valid()
      reads Table(), sockets.Ids(), sockets.members, set s, o | s in sockets.members && o in s.Repr :: o
    {
      sockets.Valid() && Proper(sockets.members) && Separate(sockets.members, Table())
    }

    constructor (ip: string)
      ensures Valid() && fresh(Table()) && sockets.Contents() == map[] && sockets.members == {} && this.ip == ip
    {
      this.ip := ip;
      sockets := new HashMap();
    }

    // ---------------------------------------------------------------- incoming packets

    /** The two lookups of handle_incoming_ip_packet. */
    method FindTarget(dstIp: string, srcIp: string, p: Packet) returns (s: Socket?, replyIp: string)
      requires Valid()
      ensures Valid() && sockets.Contents() == old(sockets.Contents())
      ensures s == Target(sockets.Contents(), dstIp, srcIp, p)
      ensures s != null ==> s in sockets.members
      ensures replyIp == if PacketKey(dstIp, srcIp, p) in sockets.Contents() then srcIp else EMPTY_IP
      ensures s != null && s.state.Listen? ==> IsEmptyIp(replyIp)
      ensures forall t :: t in sockets.members ==> t.View() == old(t.View())
    {
      hide HashMap.Contents, HashMap.Valid, HashMap.Slots, HashMap.Ids;
      replyIp := srcIp;
      s := Find(PacketKey(dstIp, srcIp, p));
      if s == null {
        s := Find(BoundId(dstIp, p.dstPort));
        replyIp := EMPTY_IP;
      }
    }

    method Find(key: Id) returns (s: Socket?)
      requires Valid()
      ensures Valid() && sockets.Contents() == old(sockets.Contents())
      ensures key in sockets.Contents() ==> s == sockets.Contents()[key] && s in sockets.members && s.id.View() == key
      ensures key !in sockets.Contents() ==> s == null
      ensures forall t :: t in sockets.members ==> t.View() == old(t.View())
    {
      hide HashMap.Slots, AsMap, UniqueIds, Count, HashMap.MembersAreSlots, HashMap.Contents;
      hide Queue.Valid, Queue.Contents;
      var id := new SocketID(key);
      sockets.Untouched();
      s := sockets.GetSocket(id);
      sockets.ContentsAreMembers();
    }

    /** The socket handle_packet_listen sets up for a SYN. */
    method MakeConnection(listener: Socket, p: Packet, env: Env) returns (conn: Socket)
      requires Valid() && listener in sockets.members
      ensures fresh(conn) && fresh(conn.Repr) && conn.Valid()
      ensures conn.View() == SpawnedSock(listener.id.View(), p, ip, env)
      ensures Valid() && sockets.Contents() == old(sockets.Contents()) && listener.View() == old(listener.View())
    {
      hide HashMap.Slots, Separate, AsMap, UniqueIds, Count, HashMap.MembersAreSlots, HashMap.Contents, SpawnedSock;
      conn := NewConnection(listener.id.View(), ip, p, env);
      sockets.Untouched();
    }

    /** The RST a full listener answers with. */
    method Refuse(listener: Socket, p: Packet) returns (rst: Packet)
      requires Valid() && listener in sockets.members
      ensures rst == Construct(listener.View(), "", RST, p.srcPort)
      ensures Valid() && sockets.Contents() == old(sockets.Contents()) && listener.View() == old(listener.View())
    {
      rst := listener.ConstructPacket("", RST, p.srcPort);
      sockets.Untouched();
    }

    /** Files a socket that shares nothing with the others, unless its key is taken or the table is full. */
    method File(conn: Socket) returns (ok: bool)
      requires Valid() && conn.Valid() && conn.Repr !! Table() && !conn.state.Listen?
      requires forall s :: s in sockets.members ==> s.Repr !! conn.Repr
      modifies sockets`numberOfSockets, sockets`members, sockets.table, sockets.socketId
      ensures Valid()
      ensures ok <==> |old(sockets.Contents())| < TABLE_SIZE && conn.id.View() !in old(sockets.Contents())
      ensures sockets.Contents() ==
              if ok then old(sockets.Contents())[conn.id.View() := conn] else old(sockets.Contents())
      ensures sockets.members == if ok then old(sockets.members) + {conn} else old(sockets.members)
      ensures conn.View() == old(conn.View()) && forall s :: s in old(sockets.members) ==> s.View() == old(s.View())
    {
      ok := sockets.Insert(conn);
    }

    /** handle_packet_listen: `fifosOk` says whether the new connection's fifos could be made. */
    method HandleListen(sock: Socket, p: Packet, env: Env, fifosOk: bool)
      returns (reply: Option<Packet>, spawned: Socket?)
      requires Valid() && sock in sockets.members && sock.state.Listen?
      modifies sock`maxConnections, sockets`numberOfSockets, sockets`members, sockets.table, sockets.socketId
      ensures Valid() && sock.Valid()
      ensures var m := old(sockets.Contents()); var key := SpawnKey(old(sock.id.View()), ip, p);
              var o := SocketModel.HandleListen(old(sock.View()), p, ip,
                         env.(spawnOk := fifosOk && |m| < TABLE_SIZE && key !in m));
              && sock.View() == o.sock && reply == o.reply
              && (spawned == null <==> o.spawned.None?)
              && (spawned == null ==> sockets.Contents() == m && sockets.members == old(sockets.members))
              && (spawned != null ==>
                    && fresh(spawned) && fresh(spawned.Repr) && spawned.Valid() && Some(spawned.View()) == o.spawned
                    && sockets.Contents() == m[key := spawned] && sockets.members == old(sockets.members) + {spawned})
    {
      hide HashMap.Contents, HashMap.Valid, HashMap.Ids, HashMap.Slots;
      reply, spawned := None, null;
      if !p.flags.syn {
        return;
      }
      if sock.maxConnections == 0 {
        var rst := Refuse(sock, p);
        reply := Some(rst);
        return;
      }
      if !fifosOk {
        return;
      }
      spawned := AddConnection(sock, p, env);
      if spawned != null {
        UseUpOne(sock);
      }
    }

    method UseUpOne(sock: Socket)
      requires Valid() && sock in sockets.members
      modifies sock`maxConnections
      ensures Valid() && sock.View() == old(sock.View()).(maxConnections := old(sock.View()).maxConnections - 1)
      ensures sockets.Contents() == old(sockets.Contents()) && sockets.members == old(sockets.members)
      ensures forall s :: s in sockets.members && s != sock ==> s.View() == old(s.View())
    {
      Apart(sock);
      hide HashMap.Contents, HashMap.Slots, UniqueIds, Count, Separate;
      sock.maxConnections := sock.maxConnections - 1;
      OneChanged(sock);
    }

    /** Makes and files the connection socket. */
    method AddConnection(listener: Socket, p: Packet, env: Env) returns (conn: Socket?)
      requires Valid() && listener in sockets.members
      modifies sockets`numberOfSockets, sockets`members, sockets.table, sockets.socketId
      ensures Valid() && listener.View() == old(listener.View())
      ensures var m := old(sockets.Contents()); var key := SpawnKey(listener.id.View(), ip, p);
              && (conn != null <==> |m| < TABLE_SIZE && key !in m)
              && (conn == null ==> sockets.Contents() == m && sockets.members == old(sockets.members))
              && (conn != null ==>
                    && fresh(conn) && fresh(conn.Repr) && conn.Valid()
                    && conn.View() == SpawnedSock(listener.id.View(), p, ip, env)
                    && sockets.Contents() == m[key := conn] && sockets.members == old(sockets.members) + {conn})
    {
      hide HashMap.Contents, HashMap.Slots, HashMap.Valid, HashMap.Ids;
      var made := MakeConnection(listener, p, env);
      assert made.id.View() == SpawnKey(listener.id.View(), ip, p);
      hide SpawnedSock;
      var ok := File(made);
      return if ok then made else null;
    }

    /** A connection socket handles a packet: nothing but that socket changes. */
    method HandleOne(sock: Socket, p: Packet, env: Env) returns (reply: Option<Packet>, written: string)
      requires Valid() && sock in sockets.members && !sock.state.Listen?
      modifies sock.Repr - {sock.id}
      ensures Valid() && sockets.Contents() == old(sockets.Contents()) && sockets.members == old(sockets.members)
      ensures Outcome(sock.View(), reply, written, None) == SocketModel.HandlePacket(old(sock.View()), p, ip, env)
      ensures forall s :: s in sockets.members && s != sock ==> s.View() == old(s.View())
    {
      Apart(sock);
      PacketDescends(sock.View(), p, ip, env);
      hide SocketModel.HandlePacket, HashMap.Contents, HashMap.Slots, UniqueIds, Count, Separate;
      reply, written := sock.HandlePacket(p, ip, env);
      OneChanged(sock);
    }

    /** What the other sockets consist of. */
    ghost function Others(sock: Socket): set<object>
      reads sockets
    {
      set s, o | s in sockets.members && s != sock && o in s.Repr :: o
    }

    /** A socket's footprint touches neither the others nor the table, and holds no id but its own. */
    lemma Apart(sock: Socket)
      requires Sound() && sock in sockets.members
      ensures Others(sock) !! sock.Repr && sock.Repr !! Table()
    {
    }

    /** A step that changes one socket, and not its id, changes nothing else. */
    twostate lemma OneChanged(sock: Socket)
      requires old(Sound()) && sock in old(sockets.members)
      requires unchanged(sockets) && unchanged(sockets.table) && unchanged(sockets.socketId) && unchanged(sock.id)
      requires forall o :: o in old(Others(sock)) ==> unchanged(o)
      requires sock.Valid() && (sock.state.Listen? ==> NoDestination(sock.id.View()))
      ensures Sound() && (Valid() <==> old(Valid())) && sockets.Contents() == old(sockets.Contents())
      ensures forall s :: s in sockets.members && s != sock ==> s.View() == old(s.View())
    {
      hide HashMap.Contents, HashMap.Slots, UniqueIds, Count, Separate;
      forall o | o in old(sockets.Ids()) ensures unchanged(o) {
        var i :| 0 <= i < TABLE_SIZE && old(sockets.socketId[i]) == o;
        var s := old(sockets.table[i]);
        assert s in old(sockets.members) && o == s.id;
        if s != sock {
          assert o in old(Others(sock));
        }
      }
      sockets.Untouched();
      forall s | s in sockets.members && s != sock
        ensures s.Valid() && s.View() == old(s.View()) && s.state == old(s.state) && s.id.View() == old(s.id.View())
      {
        assert forall o :: o in s.Repr ==> o in old(Others(sock));
      }
    }

    ghost function All(): set<object>
      reads sockets
    {
      set s, o | s in sockets.members && o in s.Repr :: o
    }

    /** A step outside the table and its sockets. */
    twostate lemma NoneChanged()
      requires old(Sound()) && unchanged(sockets) && unchanged(sockets.table) && unchanged(sockets.socketId)
      requires forall o :: o in old(All()) ==> unchanged(o)
      ensures Sound() && (Valid() <==> old(Valid())) && sockets.Contents() == old(sockets.Contents())
      ensures forall s :: s in sockets.members ==> s.View() == old(s.View())
    {
      hide HashMap.Contents, HashMap.Slots, UniqueIds, Count, Separate;
      forall o | o in old(sockets.Ids()) ensures unchanged(o) {
        var i :| 0 <= i < TABLE_SIZE && old(sockets.socketId[i]) == o;
        var s := old(sockets.table[i]);
        assert s in old(sockets.members) && o == s.id;
        assert o in old(All());
      }
      sockets.Untouched();
      forall s | s in sockets.members
        ensures s.Valid() && s.View() == old(s.View()) && s.state == old(s.state) && s.id.View() == old(s.id.View())
      {
        assert forall o :: o in s.Repr ==> o in old(All());
      }
    }

    /** The lookups and the handler of handle_incoming_ip_packet. */
    method Dispatch(p: Packet, srcIp: string, env: Env, fifosOk: bool)
      returns (target: Socket?, reply: Option<Packet>, replyIp: string, written: string, spawned: Socket?)
      requires Valid()
      modifies sockets`numberOfSockets, sockets`members, sockets.table, sockets.socketId
      modifies set s, o | s in sockets.members && o in s.Repr :: o
      ensures Valid()
      ensures target == old(Target(sockets.Contents(), ip, srcIp, p))
      ensures forall s :: s in old(sockets.members) && s != target ==> s in sockets.members && s.View() == old(s.View())
      ensures spawned == null ==> sockets.members == old(sockets.members)
      ensures spawned != null ==> sockets.members == old(sockets.members) + {spawned}
      ensures spawned == null ==> sockets.Contents() == old(sockets.Contents())
      ensures target == null ==> reply.None? && written == "" && spawned == null
      ensures target != null ==>
                && target in old(sockets.members)
                && var o := Answer(old(target.View()), p, ip, env, fifosOk, old(sockets.Contents()));
                && target.View() == o.sock && reply == o.reply && written == o.written
                && (if spawned == null then None else Some(spawned.View())) == o.spawned
      ensures spawned != null ==>
                && fresh(spawned) && fresh(spawned.Repr) && spawned.Valid()
                && sockets.Contents() == old(sockets.Contents())[SpawnKey(old(target.View()).id, ip, p) := spawned]
      ensures reply.Some? ==>
                && replyIp == (if PacketKey(ip, srcIp, p) in old(sockets.Contents()) then srcIp else EMPTY_IP)
                && (old(target.View()).state.Listen? ==> IsEmptyIp(replyIp))
    {
      hide HashMap.Contents, HashMap.Valid, HashMap.Filed, HashMap.Slots, HashMap.Ids;
      hide SocketModel.HandlePacket, SocketModel.HandleListen, Target;
      target, reply, replyIp, written, spawned := null, None, srcIp, "", null;
      target, replyIp := FindTarget(ip, srcIp, p);
      if target == null {
        return;
      }
      reply, written, spawned := Handle(target, p, env, fifosOk);
    }

    /** handle_packet: a listener may spawn, any other socket changes by itself. */
    method Handle(sock: Socket, p: Packet, env: Env, fifosOk: bool)
      returns (reply: Option<Packet>, written: string, spawned: Socket?)
      requires Valid() && sock in sockets.members
      modifies sockets`numberOfSockets, sockets`members, sockets.table, sockets.socketId, sock.Repr - {sock.id}
      ensures Valid()
      ensures forall s :: s in old(sockets.members) && s != sock ==> s.View() == old(s.View())
      ensures spawned == null ==> sockets.members == old(sockets.members)
      ensures spawned != null ==> sockets.members == old(sockets.members) + {spawned}
      ensures spawned == null ==> sockets.Contents() == old(sockets.Contents())
      ensures var o := Answer(old(sock.View()), p, ip, env, fifosOk, old(sockets.Contents()));
              && sock.View() == o.sock && reply == o.reply && written == o.written
              && (if spawned == null then None else Some(spawned.View())) == o.spawned
      ensures spawned != null ==>
                && fresh(spawned) && fresh(spawned.Repr) && spawned.Valid()
                && sockets.Contents() == old(sockets.Contents())[SpawnKey(old(sock.View()).id, ip, p) := spawned]
    {
      WhoAnswers(sock.View(), p, ip, env, fifosOk, sockets.Contents());
      hide HashMap.Contents, HashMap.Valid, HashMap.Filed, HashMap.Slots, HashMap.Ids, Answer, SpawnKey;
      hide SocketModel.HandlePacket, Separate;
      written, spawned := "", null;
      if sock.state.Listen? {
        reply, spawned := HandleAtListener(sock, p, env, fifosOk);
      } else {
        reply, written := HandleOne(sock, p, env);
      }
    }

    /** The same for a listener. */
    method HandleAtListener(sock: Socket, p: Packet, env: Env, fifosOk: bool)
      returns (reply: Option<Packet>, spawned: Socket?)
      requires Valid() && sock in sockets.members && sock.state.Listen?
      modifies sock`maxConnections, sockets`numberOfSockets, sockets`members, sockets.table, sockets.socketId
      ensures Valid()
      ensures forall s :: s in old(sockets.members) && s != sock ==> s.View() == old(s.View())
      ensures spawned == null ==> sockets.members == old(sockets.members)
      ensures spawned != null ==> sockets.members == old(sockets.members) + {spawned}
      ensures spawned == null ==> sockets.Contents() == old(sockets.Contents())
      ensures var o := Answer(old(sock.View()), p, ip, env, fifosOk, old(sockets.Contents()));
              && sock.View() == o.sock && reply == o.reply && o.written == ""
              && (if spawned == null then None else Some(spawned.View())) == o.spawned
      ensures spawned != null ==>
                && fresh(spawned) && fresh(spawned.Repr) && spawned.Valid()
                && sockets.Contents() == old(sockets.Contents())[SpawnKey(old(sock.View()).id, ip, p) := spawned]
    {
      WhoAnswers(sock.View(), p, ip, env, fifosOk, sockets.Contents());
      hide HashMap.Contents, HashMap.Valid, HashMap.Filed, HashMap.Slots, HashMap.Ids, Answer, SpawnKey;
      hide SocketModel.HandleListen, Separate;
      reply, spawned := HandleListen(sock, p, env, fifosOk);
    }

    /** handle_incoming_ip_packet up to its reply. A packet for another ip or with a wrong checksum is ignored; one
        whose data are no segment is an error. A reply of a socket found by its bound address goes to the empty ip the
        lookup left in the id, so a listener's always does. */
    method HandleIncoming(packet: IpPacket, wild: int -> int, env: Env, fifosOk: bool)
      returns (ok: bool, target: Socket?, reply: Option<Packet>, replyIp: string, written: string, spawned: Socket?)
      requires Valid()
      modifies sockets`numberOfSockets, sockets`members, sockets.table, sockets.socketId
      modifies set s, o | s in sockets.members && o in s.Repr :: o
      ensures Valid()
      ensures ok <==> !IsError(packet, ip, wild)
      ensures var a := Admitted(packet, ip, wild);
              target == if a.Some? then old(Target(sockets.Contents(), ip, packet.srcIp, a.value)) else null
      ensures forall s :: s in old(sockets.members) && s != target ==> s in sockets.members && s.View() == old(s.View())
      ensures spawned == null ==> sockets.members == old(sockets.members)
      ensures spawned != null ==> sockets.members == old(sockets.members) + {spawned}
      ensures spawned == null ==> sockets.Contents() == old(sockets.Contents())
      ensures target == null ==> reply.None? && written == "" && spawned == null
      ensures target != null ==>
                && target in old(sockets.members) && Admitted(packet, ip, wild).Some?
                && var o := Answer(old(target.View()), Admitted(packet, ip, wild).value, ip, env, fifosOk,
                                   old(sockets.Contents()));
                && target.View() == o.sock && reply == o.reply && written == o.written
                && (if spawned == null then None else Some(spawned.View())) == o.spawned
      ensures spawned != null ==>
                && fresh(spawned) && fresh(spawned.Repr) && spawned.Valid()
                && sockets.Contents() == old(sockets.Contents())[
                     SpawnKey(old(target.View()).id, ip, Admitted(packet, ip, wild).value) := spawned]
      ensures reply.Some? ==>
                && var key := PacketKey(ip, packet.srcIp, Admitted(packet, ip, wild).value);
                && replyIp == (if key in old(sockets.Contents()) then packet.srcIp else EMPTY_IP)
                && (old(target.View()).state.Listen? ==> IsEmptyIp(replyIp))
    {
      hide HashMap.Contents, HashMap.Valid, HashMap.Filed, HashMap.Slots, HashMap.Ids, Answer, ParseTcp, Target;
      ok, target, reply, replyIp, written, spawned := true, null, None, "", "", null;
      if packet.headerChecksum != IpChecksum(packet) || packet.dstIp != ip {
        return;
      }
      var p := ParseTcp(packet.data, wild);
      if p.None? {
        ok := false;
        return;
      }
      if p.value.packet.checksum != SumOf(p.value) {
        return;
      }
      target, reply, replyIp, written, spawned := Dispatch(p.value.packet, packet.srcIp, env, fifosOk);
    }

    /** handle_incoming_ip_packet with its end: a reply that could be sent, which none to the empty ip can, resets the
        retransmission clock. */
    method Receive(packet: IpPacket, wild: int -> int, w: World)
      returns (ok: bool, target: Socket?, replied: seq<Packet>, written: string, spawned: Socket?)
      requires Valid()
      modifies sockets`numberOfSockets, sockets`members, sockets.table, sockets.socketId
      modifies set s, o | s in sockets.members && o in s.Repr :: o
      ensures Valid() && (ok <==> !IsError(packet, ip, wild))
      ensures var a := Admitted(packet, ip, wild);
              target == if a.Some? then old(Target(sockets.Contents(), ip, packet.srcIp, a.value)) else null
      ensures forall s :: s in old(sockets.members) && s != target ==> s in sockets.members && s.View() == old(s.View())
      ensures spawned == null ==> sockets.members == old(sockets.members)
      ensures spawned != null ==> sockets.members == old(sockets.members) + {spawned}
      ensures spawned == null ==> sockets.Contents() == old(sockets.Contents())
      ensures target == null ==> replied == [] && written == "" && spawned == null
      ensures target != null ==>
                && target in old(sockets.members) && Admitted(packet, ip, wild).Some?
                && Response(target.View(), replied, written, if spawned == null then None else Some(spawned.View())) ==
                   ResponseTo(old(target.View()), Admitted(packet, ip, wild).value, ip, packet.srcIp, w,
                              old(sockets.Contents()))
      ensures target != null && old(target.View()).state.Listen? ==> replied == []
      ensures spawned != null ==>
                && fresh(spawned) && fresh(spawned.Repr) && spawned.Valid()
                && sockets.Contents() == old(sockets.Contents())[
                     SpawnKey(old(target.View()).id, ip, Admitted(packet, ip, wild).value) := spawned]
    {
      hide HashMap.Contents, HashMap.Valid, HashMap.Filed, HashMap.Slots, HashMap.Ids, Answer, ParseTcp, Target;
      hide Admitted;
      var reply, replyIp;
      replied := [];
      ok, target, reply, replyIp, written, spawned := HandleIncoming(packet, wild, w.env, w.fifosOk);
      if target != null && reply.Some? && w.replySent && !IsEmptyIp(replyIp) {
        Touch(target, w.env.now);
        replied := [reply.value];
      }
    }

    method Touch(sock: Socket, now: int)
      requires Valid() && sock in sockets.members
      modifies sock`lastSendClock
      ensures Valid() && sock.View() == old(sock.View()).(lastSend := now)
      ensures sockets.Contents() == old(sockets.Contents()) && sockets.members == old(sockets.members)
      ensures forall s :: s in sockets.members && s != sock ==> s.View() == old(s.View())
    {
      Apart(sock);
      hide HashMap.Contents, HashMap.Slots, UniqueIds, Count, Separate;
      sock.lastSendClock := now;
      OneChanged(sock);
    }

    // ---------------------------------------------------------------- binding, connecting, closing

    /** A new manager's first user binds and connects. */
    method Connecting(port: int, dstIp: string, dstPort: int, isn: int) returns (first: Socket)
      requires Valid() && sockets.Contents() == map[] && sockets.members == {} && dstPort != EMPTY_PORT
      requires !IsEmptyIp(ip) && ip != "" && port != EMPTY_PORT
      modifies sockets`numberOfSockets, sockets`members, sockets.table, sockets.socketId
      ensures Valid() && fresh(first) && fresh(first.Repr) && sockets.members == {first}
      ensures first.View() == ConnectCommand(NewSock(BoundId(ip, port), Closed, 0), dstIp, dstPort, isn)
      ensures sockets.Contents() == map[first.id.View() := first]
    {
      hide HashMap.Contents, HashMap.Filed, HashMap.Slots, HashMap.Ids, Separate;
      var granted, made := Bind(port, 0, true);
      first := made;
      var done := Connect(first, dstIp, dstPort, isn);
    }

    /** A second user binds the port the first one is connecting from. */
    method BindAgain(first: Socket, port: int) returns (second: Socket)
      requires Valid() && sockets.members == {first} && sockets.Contents() == map[first.id.View() := first]
      requires BoundId(ip, port) != first.id.View()
      modifies sockets`numberOfSockets, sockets`members, sockets.table, sockets.socketId
      ensures Valid() && fresh(second) && sockets.members == {first, second} && first.View() == old(first.View())
      ensures second.View() == NewSock(BoundId(ip, port), Closed, 0)
      ensures BoundId(ip, port) in sockets.Contents() && first.id.View() in sockets.Contents()
    {
      hide HashMap.Contents, HashMap.Filed, UniqueIds, HashMap.Slots, HashMap.Ids, Separate;
      var granted, made := Bind(port, 0, true);
      second := made;
    }

    /** handle_bind_request up to its reply: the port must be free. */
    method Bind(port: int, now: int, fifosOk: bool) returns (granted: bool, made: Socket?)
      requires Valid()
      modifies sockets`numberOfSockets, sockets`members, sockets.table, sockets.socketId
      ensures Valid()
      ensures var m := old(sockets.Contents()); var key := BoundId(ip, port);
              && (granted <==> key !in m && |m| < TABLE_SIZE && fifosOk) && (granted <==> made != null)
              && (!granted ==> sockets.Contents() == m && sockets.members == old(sockets.members))
              && (granted ==>
                    && fresh(made) && fresh(made.Repr) && made.Valid() && made.View() == NewSock(key, Closed, now)
                    && sockets.Contents() == m[key := made] && sockets.members == old(sockets.members) + {made})
      ensures forall s :: s in old(sockets.members) ==> s.View() == old(s.View())
    {
      hide HashMap.Contents, HashMap.Valid, HashMap.Slots, HashMap.Ids;
      var taken := Find(BoundId(ip, port));
      if taken != null || !fifosOk {
        return false, null;
      }
      var s := MakeBound(port, now);
      granted := File(s);
      made := if granted then s else null;
    }

    /** handle_bind_request with its reply: a socket whose user cannot be told is taken out again. The manager goes on
        only after a reply that could be written to a bind granted, or denied because the port is taken. */
    method HandleBind(port: int, now: int, fifosOk: bool, replyOk: bool) returns (goesOn: bool)
      requires Valid()
      modifies sockets`numberOfSockets, sockets`members, sockets.table, sockets.socketId
      ensures Valid()
      ensures var m := old(sockets.Contents()); var key := BoundId(ip, port);
              var granted := key !in m && |m| < TABLE_SIZE && fifosOk;
              && (goesOn <==> replyOk && (granted || key in m))
              && (!(granted && replyOk) ==> sockets.Contents() == m && sockets.members == old(sockets.members))
              && (granted && replyOk ==>
                    && key in sockets.Contents()
                    && var made := sockets.Contents()[key];
                    && fresh(made) && fresh(made.Repr) && made.Valid() && made.View() == NewSock(key, Closed, now)
                    && sockets.Contents() == m[key := made] && sockets.members == old(sockets.members) + {made})
      ensures forall s :: s in old(sockets.members) ==> s.View() == old(s.View())
    {
      hide HashMap.Contents, HashMap.Valid, HashMap.Filed, HashMap.Slots, HashMap.Ids, Separate;
      var taken := Find(BoundId(ip, port));
      if taken != null {
        return replyOk;
      }
      var granted, made := Bind(port, now, fifosOk);
      goesOn := granted && replyOk;
      if granted && !replyOk {
        ghost var members := sockets.members;
        RemoveSocket(made);
        assert members - {made} == old(sockets.members);
      }
    }

    /** create_bound_socket */
    method MakeBound(port: int, now: int) returns (s: Socket)
      requires Valid()
      ensures fresh(s) && fresh(s.Repr) && s.Valid() && s.View() == NewSock(BoundId(ip, port), Closed, now)
      ensures Valid() && sockets.Contents() == old(sockets.Contents())
    {
      hide HashMap.Slots, Separate, AsMap, UniqueIds, Count, HashMap.MembersAreSlots, HashMap.Contents, EmptyWindow;
      var id := new SocketID(BoundId(ip, port));
      s := new Socket(id, Closed, now);
      sockets.Untouched();
    }

    /** remove_and_destroy_socket */
    method RemoveSocket(sock: Socket)
      requires Valid() && sock in sockets.members
      modifies sockets`numberOfSockets, sockets`members, sockets.table, sockets.socketId
      ensures Valid() && sock.Valid() && sock.View() == old(sock.View())
      ensures sockets.Contents() == old(sockets.Contents()) - {sock.id.View()}
      ensures sockets.members == old(sockets.members) - {sock}
      ensures sock.id.View() in old(sockets.Contents()) && sock.id !in sockets.Ids()
      ensures |sockets.Contents()| < TABLE_SIZE
      ensures sock.Repr !! Table()
      ensures forall s :: s in sockets.members ==> s.Repr !! sock.Repr && s.View() == old(s.View())
    {
      hide HashMap.Contents, HashMap.Valid, HashMap.Slots, HashMap.Ids;
      sockets.RemoveMember(sock);
    }

    /** check_and_handle_listen_request: only a socket with nothing but an address may listen. */
    method Listen(sock: Socket, limit: int, acceptFifoOk: bool, replyOk: bool)
      requires Valid() && sock in sockets.members
      modifies sock
      ensures Valid() && sockets.Contents() == old(sockets.Contents()) && sockets.members == old(sockets.members)
      ensures sock.View() ==
              if Kind(old(sock.View()).id).BoundOnlySocket? && !old(sock.state).Listen?
              then SocketModel.ListenCommand(old(sock.View()), limit, acceptFifoOk, replyOk) else old(sock.View())
      ensures forall s :: s in sockets.members && s != sock ==> s.View() == old(s.View())
    {
      if sock.state.Listen? || Kind(sock.id.View()) != BoundOnlySocket {
        return;
      }
      hide HashMap.Contents, HashMap.Valid, HashMap.Filed, HashMap.Slots, HashMap.Ids, Kind;
      StartListening(sock, limit, acceptFifoOk, replyOk);
    }

    method StartListening(sock: Socket, limit: int, acceptFifoOk: bool, replyOk: bool)
      requires Valid() && sock in sockets.members && !sock.state.Listen? && NoDestination(sock.id.View())
      modifies sock
      ensures Valid() && sockets.Contents() == old(sockets.Contents()) && sockets.members == old(sockets.members)
      ensures sock.View() == SocketModel.ListenCommand(old(sock.View()), limit, acceptFifoOk, replyOk)
      ensures forall s :: s in sockets.members && s != sock ==> s.View() == old(s.View())
    {
      Apart(sock);
      hide HashMap.Contents, HashMap.Slots, UniqueIds, Count, Separate;
      sock.ListenCommand(limit, acceptFifoOk, replyOk);
      OneChanged(sock);
    }

    /** check_and_handle_connect_request once the destination is read, as handle_socket_in_network calls it: only a
        closed socket without a destination connects. It is taken out, given its destination, and filed again. The
        insertion cannot fail. */
    method Connect(sock: Socket, dstIp: string, dstPort: int, isn: int) returns (done: bool)
      requires Valid() && sock in sockets.members
      modifies sockets`numberOfSockets, sockets`members, sockets.table, sockets.socketId, sock, sock.id
      ensures Valid() && sock in sockets.members && sockets.members == old(sockets.members)
      ensures var m, key := old(sockets.Contents()), old(sock.id.View());
              var key' := key.(dstIp := dstIp, dstPort := dstPort);
              && (done <==> Kind(key).BoundOnlySocket? && old(sock.state).Closed? && key' !in m)
              && (!done ==> sockets.Contents() == m && sock.View() == old(sock.View()))
              && (done ==> sockets.Contents() == (m - {key})[key' := sock] &&
                           sock.View() == ConnectCommand(old(sock.View()), dstIp, dstPort, isn))
      ensures forall s :: s in sockets.members && s != sock ==> s.View() == old(s.View())
    {
      hide HashMap.Contents, HashMap.Valid, HashMap.Slots, HashMap.Ids, HashMap.Filed, Separate, ConnectCommand, Kind;
      if Kind(sock.id.View()) != BoundOnlySocket || sock.state != Closed {
        return false;
      }
      var other := Find(sock.id.View().(dstIp := dstIp, dstPort := dstPort));
      if other != null {
        return false;
      }
      Refile(sock, dstIp, dstPort, isn);
      done := true;
    }

    method Refile(sock: Socket, dstIp: string, dstPort: int, isn: int)
      requires Valid() && sock in sockets.members && sock.state.Closed?
      requires sock.id.View().(dstIp := dstIp, dstPort := dstPort) !in sockets.Contents()
      modifies sockets`numberOfSockets, sockets`members, sockets.table, sockets.socketId, sock, sock.id
      ensures Valid() && sockets.members == old(sockets.members)
      ensures var m, key := old(sockets.Contents()), old(sock.id.View());
              sockets.Contents() == (m - {key})[key.(dstIp := dstIp, dstPort := dstPort) := sock]
      ensures sock.View() == ConnectCommand(old(sock.View()), dstIp, dstPort, isn)
      ensures forall s :: s in sockets.members && s != sock ==> s.View() == old(s.View())
    {
      hide HashMap.Contents, HashMap.Valid, HashMap.Slots, HashMap.Ids, HashMap.Filed, Separate, ConnectCommand;
      ghost var members := sockets.members;
      RemoveSocket(sock);
      ReKey(sock, dstIp, dstPort, isn);
      var ok := File(sock);
      assert members - {sock} + {sock} == members;
    }

    method ReKey(sock: Socket, dstIp: string, dstPort: int, isn: int)
      requires Valid() && sock.Valid() && sock.state.Closed? && sock !in sockets.members && sock.id !in sockets.Ids()
      requires sock.Repr !! Table() && forall s :: s in sockets.members ==> s.Repr !! sock.Repr
      modifies sock, sock.id
      ensures Valid() && sock.Valid() && sockets.Contents() == old(sockets.Contents())
      ensures sockets.members == old(sockets.members)
      ensures sock.View() == ConnectCommand(old(sock.View()), dstIp, dstPort, isn)
      ensures sock.state.SynSent? && sock.id.View() == old(sock.id.View()).(dstIp := dstIp, dstPort := dstPort)
      ensures forall s :: s in sockets.members ==> s.View() == old(s.View())
    {
      sock.ConnectCommand(dstIp, dstPort, isn);
      sockets.Untouched();
    }

    /** check_and_handle_close_command. Closing a socket that is still connecting files it back under its bound address,
        in place: the table stays a map if and only if nobody has bound that address meanwhile. */
    method Close(sock: Socket, now: int)
      requires Valid() && sock in sockets.members
      modifies sock, sock.id
      ensures sock.Valid() && sock.View() == SocketModel.CloseCommand(old(sock.View()), now)
      ensures sockets.members == old(sockets.members) && Sound()
      ensures Valid() <==>
                (old(sock.state).SynSent? ==> sock.id.View() !in old(sockets.Contents()) - {old(sock.id.View())})
      ensures Valid() ==>
                sockets.Contents() == (old(sockets.Contents()) - {old(sock.id.View())})[sock.id.View() := sock]
      ensures forall s :: s in sockets.members && s != sock ==> s.Valid() && s.View() == old(s.View())
    {
      hide HashMap.Contents, HashMap.Slots, HashMap.Valid, HashMap.Filed, HashMap.Ids;
      CloseFiled(sock, now);
    }

    /** The same, as far as the table is concerned. */
    method CloseFiled(sock: Socket, now: int)
      requires sockets.Valid() && sock in sockets.members && sock.Valid() && sock.Repr !! Table()
      modifies sock, sock.id
      ensures sock.Valid() && sock.View() == SocketModel.CloseCommand(old(sock.View()), now)
      ensures sockets.members == old(sockets.members) && sockets.Filed()
      ensures sockets.Valid() <==>
                (old(sock.state).SynSent? ==> sock.id.View() !in old(sockets.Contents()) - {old(sock.id.View())})
      ensures sockets.Valid() ==>
                sockets.Contents() == (old(sockets.Contents()) - {old(sock.id.View())})[sock.id.View() := sock]
    {
      sockets.ContentsAreMembers();
      hide HashMap.Contents, HashMap.Slots, HashMap.Valid, HashMap.Filed, Queue.Valid, Queue.Contents, Socket.RecvView;
      label Before:
      sock.CloseCommand(now);
      sockets.RekeyInPlace@Before(sock);
    }

    /** handle_socket_in_network for a connected socket: close command, removal, retransmission, status message. When
        the close leaves two sockets under one key, the last two serve whichever the lookup finds. */
    method Visit(sock: Socket, env: VisitEnv) returns (removed: bool, sent: seq<Packet>, served: Socket?)
      requires Valid() && sock in sockets.members
      modifies sockets`numberOfSockets, sockets`members, sockets.table, sockets.socketId
      modifies set s, o | s in sockets.members && o in s.Repr :: o
      ensures Sound() && sock.Valid()
      ensures Valid() <==> !Clashes(old(sock.View()), env, old(sockets.Contents()))
      ensures served == null || served == sock ==> (sock.View(), removed, sent) == VisitSock(old(sock.View()), env)
      ensures sockets.members == if removed then old(sockets.members) - {sock} else old(sockets.members)
      ensures served == null <==> removed
      ensures Valid() ==> removed || served == sock
      ensures Valid() ==>
                var rest := old(sockets.Contents()) - {old(sock.id.View())};
                sockets.Contents() == if removed then rest else rest[sock.id.View() := sock]
      ensures served != null ==> served in sockets.members && served.id.View() == sock.id.View()
      ensures served != null && served != sock ==>
                && (sock.View(), removed, []) == VisitSock(old(sock.View()), env)
                && Action(served.View(), sent) == ServeSock(old(served.View()), env)
      ensures forall s :: s in sockets.members && s != sock && s != served ==> s.View() == old(s.View())
    {
      hide HashMap.Contents, HashMap.Filed, UniqueIds, HashMap.Slots, HashMap.Ids, ServeSock, EndCheck, Separate;
      ghost var before := sock.View();
      sent, served := [], null;
      removed := HandleEndFifo(sock, env);
      if env.close && before.state.SynSent? {
        ClosedUnheard(before, env);
      }
      if !removed {
        served, sent := Serve(sock, env);
      }
    }

    /** check_and_handle_socket_end_fifo: the close command, then removal. */
    method HandleEndFifo(sock: Socket, env: VisitEnv) returns (removed: bool)
      requires Valid() && sock in sockets.members
      modifies sockets`numberOfSockets, sockets`members, sockets.table, sockets.socketId, sock, sock.id
      ensures Sound() && sock.Valid() && (Valid() <==> !Clashes(old(sock.View()), env, old(sockets.Contents())))
      ensures (sock.View(), removed) == EndCheck(old(sock.View()), env)
      ensures sockets.members == if removed then old(sockets.members) - {sock} else old(sockets.members)
      ensures Valid() ==>
                var rest := old(sockets.Contents()) - {old(sock.id.View())};
                sockets.Contents() == if removed then rest else rest[sock.id.View() := sock]
      ensures forall s :: s in sockets.members && s != sock ==> s.View() == old(s.View())
    {
      hide HashMap.Contents, HashMap.Filed, UniqueIds, HashMap.Slots, HashMap.Ids, Separate;
      ClosePhase(sock, env);
      removed := CheckClosed(sock, env.now);
    }

    /** check_and_handle_closed_socket. Only sockets that no close command has touched are due. */
    method CheckClosed(sock: Socket, now: int) returns (removed: bool)
      requires Sound() && sock in sockets.members && (sock.state.Closed? ==> Valid())
      modifies sockets`numberOfSockets, sockets`members, sockets.table, sockets.socketId
      ensures Sound() && sock.Valid() && (Valid() <==> old(Valid()))
      ensures sock.View() == old(sock.View()) && removed == ReapDue(sock.View(), now)
      ensures sockets.members == if removed then old(sockets.members) - {sock} else old(sockets.members)
      ensures sockets.Contents() ==
              if removed then old(sockets.Contents()) - {sock.id.View()} else old(sockets.Contents())
      ensures forall s :: s in sockets.members ==> s.View() == old(s.View())
    {
      hide HashMap.Contents, HashMap.Filed, UniqueIds, HashMap.Slots, HashMap.Ids, Separate;
      removed := sock.state == Closed && Elapsed(now, sock.creationTime, SOCKET_TIMEOUT);
      if removed {
        RemoveSocket(sock);
      }
    }

    method ClosePhase(sock: Socket, env: VisitEnv)
      requires Valid() && sock in sockets.members
      modifies sock, sock.id
      ensures Sound() && (Valid() <==> !Clashes(old(sock.View()), env, old(sockets.Contents())))
      ensures sockets.members == old(sockets.members) && sock.Valid()
      ensures sock.View() == if env.close then SocketModel.CloseCommand(old(sock.View()), env.now) else old(sock.View())
      ensures Valid() ==>
                sockets.Contents() == (old(sockets.Contents()) - {old(sock.id.View())})[sock.id.View() := sock]
      ensures forall s :: s in sockets.members && s != sock ==> s.View() == old(s.View())
    {
      hide HashMap.Contents, HashMap.Filed, UniqueIds, HashMap.Slots, HashMap.Ids;
      sockets.ContentsAreMembers();
      if env.close {
        Close(sock, env.now);
      }
    }

    /** The last two checks of a visit, which look the socket up again. */
    method Serve(sock: Socket, env: VisitEnv) returns (served: Socket, sent: seq<Packet>)
      requires Sound() && sock in sockets.members
      modifies set s, o | s in sockets.members && o in s.Repr :: o
      ensures Sound() && (Valid() <==> old(Valid())) && (Valid() ==> served == sock)
      ensures sockets.members == old(sockets.members)
      ensures sockets.Contents() == old(sockets.Contents()) && sock.id.View() == old(sock.id.View())
      ensures served in sockets.members && served.id.View() == sock.id.View()
      ensures Action(served.View(), sent) == ServeSock(old(served.View()), env)
      ensures forall s :: s in sockets.members && s != served ==> s.View() == old(s.View())
    {
      hide HashMap.Contents, HashMap.Filed, UniqueIds, HashMap.Slots, HashMap.Ids, Separate, ServeSock;
      served := Serving(sock);
      sent := SendPhase(served, env);
    }

    /** The socket a lookup by this one's id finds: itself, in a map. */
    method Serving(sock: Socket) returns (served: Socket)
      requires Sound() && sock in sockets.members
      ensures Sound() && (Valid() <==> old(Valid())) && (Valid() ==> served == sock)
      ensures sockets.members == old(sockets.members)
      ensures sockets.Contents() == old(sockets.Contents())
      ensures served in sockets.members && served.id.View() == sock.id.View()
      ensures forall s :: s in sockets.members ==> s.View() == old(s.View())
    {
      hide HashMap.Contents, HashMap.Slots;
      served := Found(sock.id, sock);
      sockets.Untouched();
      if Valid() {
        sockets.ContentsAreMembers();
      }
    }

    method Found(id: SocketID, ghost holder: Socket) returns (served: Socket)
      requires sockets.Filed() && holder in sockets.members && holder.id == id
      ensures served in sockets.members && served.id.View() == id.View()
      ensures sockets.Valid() && id.View() in sockets.Contents() ==> served == sockets.Contents()[id.View()]
    {
      hide HashMap.Contents, HashMap.Slots;
      var found := sockets.GetSocket(id);
      sockets.Untouched();
      sockets.MemberHeld(holder);
      return found;
    }

    method SendPhase(sock: Socket, env: VisitEnv) returns (sent: seq<Packet>)
      requires Sound() && sock in sockets.members
      modifies sock.Repr - {sock.id}
      ensures Sound() && (Valid() <==> old(Valid())) && sock.Valid() && sockets.members == old(sockets.members)
      ensures sockets.Contents() == old(sockets.Contents())
      ensures Action(sock.View(), sent) == ServeSock(old(sock.View()), env)
      ensures forall s :: s in sockets.members && s != sock ==> s.View() == old(s.View())
    {
      hide HashMap.Contents, HashMap.Valid, HashMap.Filed, HashMap.Slots, Separate;
      hide SocketModel.SendWindow, SocketModel.StatusMessages;
      var data := SendData(sock, env);
      var status := SendStatus(sock, env);
      sent := data + status;
    }

    method SendData(sock: Socket, env: VisitEnv) returns (sent: seq<Packet>)
      requires Sound() && sock in sockets.members
      modifies sock.Repr - {sock.id}
      ensures Sound() && (Valid() <==> old(Valid())) && sock.Valid() && sockets.members == old(sockets.members)
      ensures sockets.Contents() == old(sockets.Contents())
      ensures Action(sock.View(), sent) == SocketModel.SendWindow(old(sock.View()), env)
      ensures forall s :: s in sockets.members && s != sock ==> s.View() == old(s.View())
    {
      Apart(sock);
      assert SocketModel.SendWindow(sock.View(), env).sock.state == sock.state;
      hide SocketModel.SendWindow, HashMap.Contents, HashMap.Slots, UniqueIds, Count, Separate;
      sent := sock.SendWindow(env);
      OneChanged(sock);
    }

    method SendStatus(sock: Socket, env: VisitEnv) returns (sent: seq<Packet>)
      requires Sound() && sock in sockets.members
      modifies sock.Repr - {sock.id}
      ensures Sound() && (Valid() <==> old(Valid())) && sock.Valid() && sockets.members == old(sockets.members)
      ensures sockets.Contents() == old(sockets.Contents())
      ensures Action(sock.View(), sent) == SocketModel.StatusMessages(old(sock.View()), env)
      ensures forall s :: s in sockets.members && s != sock ==> s.View() == old(s.View())
    {
      Apart(sock);
      StatusDescends(sock.View(), env);
      hide SocketModel.StatusMessages, HashMap.Contents, HashMap.Slots, UniqueIds, Count, Separate;
      sent := sock.StatusMessages(env);
      OneChanged(sock);
    }
  }

  lemma ClosedBack(ip: string, port: int, dstIp: string, dstPort: int, isn: int)
    ensures var s := ConnectCommand(NewSock(BoundId(ip, port), Closed, 0), dstIp, dstPort, isn);
            && s.state.SynSent? && s.id == Id(ip, port, dstIp, dstPort)
            && CloseCommand(s, 0).id == BoundId(ip, port)
    ensures NewSock(BoundId(ip, port), Closed, 0).id == BoundId(ip, port)
  {
  }

  /** What a close can leave when somebody else has deleted the end fifos of a bound address, so that the port can be
      bound again: bind, connect, bind the port once more while the first socket waits for an answer, close that one,
      and the table is no map. If nobody else deletes them the second bind fails, and this never happens:
      Surroundings.NeverClashes. */
  method BoundTwice(ip: string, port: int, dstIp: string, dstPort: int, isn: int)
    returns (m: Manager, first: Socket, second: Socket)
    requires !IsEmptyIp(ip) && ip != "" && port != EMPTY_PORT && dstPort != EMPTY_PORT
    ensures fresh(m) && m.Sound() && !m.Valid() && m.sockets.members == {first, second} && first != second
    ensures var bound := NewSock(BoundId(ip, port), Closed, 0);
            && first.View() == CloseCommand(ConnectCommand(bound, dstIp, dstPort, isn), 0)
            && second.View() == bound && first.View().id == second.View().id
  {
    m := new Manager(ip);
    first := m.Connecting(port, dstIp, dstPort, isn);
    second := m.BindAgain(first, port);
    ClosedBack(ip, port, dstIp, dstPort, isn);
    hide HashMap.Contents, HashMap.Filed, HashMap.Slots, HashMap.Ids, Separate;
    hide ConnectCommand, CloseCommand, NewSock, HashMap.Valid, Queue.Valid, Queue.Contents;
    m.Close(first, 0);
  }
}
