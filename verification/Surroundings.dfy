/** One manager with its surroundings closed: the end fifos on disk that decide whether a socket can be made, and
    the packet fifo into which the manager's own sends to its own ip go and from which it reads. No address is ever
    held by two sockets. */
module Surroundings {
  import opened Common
  import opened Packets
  import opened SocketModel
  import opened IpWire
  import opened SocketTable
  import opened NetworkManager
  import opened ManagerModel
  import opened Delivery

  // ---------------------------------------------------------------- the surroundings

  /** The two end fifos of a socket. Their names differ for different sockets: FifoNames.NamesInjective. */
  datatype File = ReadEnd(id: Id) | WriteEnd(id: Id)

  function Ends(id: Id): set<File> {
    {ReadEnd(id), WriteEnd(id)}
  }

  /** create_socket_end_fifos can only succeed if neither name exists; when it fails it removes both. */
  predicate Free(disk: set<File>, id: Id) {
    ReadEnd(id) !in disk && WriteEnd(id) !in disk
  }

  /** A frame in the packet fifo: a segment of this manager's own, or what another process wrote. */
  datatype Frame = Own(segment: Packet) | Foreign(packet: IpPacket)

  function Unframed(f: Frame, ip: string): IpPacket {
    match f
    case Own(p) => Envelope(p, ip, ip)
    case Foreign(packet) => packet
  }

  function Owned(ps: seq<Packet>): (fs: seq<Frame>)
    ensures |fs| == |ps| && forall i :: 0 <= i < |ps| ==> fs[i] == Own(ps[i])
  {
    seq(|ps|, i requires 0 <= i < |ps| => Own(ps[i]))
  }

  /** The table, the end fifos on disk, the addresses whose users have been told of their connection and have not yet
      removed the end fifos they no longer need, the packet fifo, and whether the manager loop still runs. */
  datatype Node = Node(ip: string, table: Sockets, disk: set<File>, granted: set<Id>, inbox: seq<Frame>, running: bool)

  /** What a user, the loop or another process does next. `osOk` says whether fifos could be made if their names
      are free. A turn reads and handles the next packet. Another process writes a frame. A user who has been told
      of a connection removes the end fifos of the bare address, as SocketConnect does; closing removes the read
      end only. */
  datatype Event =
    | Bind(port: int, now: int, osOk: bool, replyOk: bool)
    | Listen(key: Id, limit: int, acceptFifoOk: bool, replyOk: bool)
    | Connect(key: Id, dstIp: string, dstPort: int, isn: int)
    | Visit(key: Id, visit: VisitEnv)
    | Turn(env: Env, osOk: bool, replySent: bool)
    | Arrives(packet: IpPacket)
    | DropEnds(address: Id)
    | DropReadEnd(id: Id)

  /** For whom the handling of a packet makes end fifos: a connection to be spawned, or one to be announced. */
  datatype Making = Nobody | Spawning(id: Id) | Announcing(id: Id)

  /** An answer to a connecting socket's SYN. */
  predicate Answered(s: Sock, p: Packet) {
    s.state.SynSent? && !p.flags.rst && p.srcPort == s.id.dstPort && p.flags.syn && p.flags.ack && p.ackNum == s.sndBase
  }

  function MakingFor(n: Node, packet: IpPacket, wild: int -> int): Making {
    var p := Admitted(packet, n.ip, wild);
    if p.None? then Nobody
    else
      var key := Lookup(n.table, n.ip, packet.srcIp, p.value);
      if key.None? then Nobody
      else
        var s := n.table[key.value];
        if s.state.Listen? && p.value.flags.syn && s.maxConnections != 0
        then Spawning(SpawnKey(key.value, n.ip, p.value))
        else if Answered(s, p.value) then Announcing(key.value)
        else Nobody
  }

  predicate Made(n: Node, packet: IpPacket, osOk: bool, wild: int -> int) {
    var c := MakingFor(n, packet, wild);
    !c.Nobody? ==> osOk && Free(n.disk, c.id)
  }

  /** The world in which a packet is handled: the disk decides whether fifos can be made. */
  function WorldOf(n: Node, packet: IpPacket, env: Env, osOk: bool, replySent: bool, wild: int -> int): World {
    var made := Made(n, packet, osOk, wild);
    World(env.(notifyOk := env.notifyOk && made), made, replySent)
  }

  /** The call the manager makes, with what the disk decides. */
  function CallOf(n: Node, e: Event, wild: int -> int): Option<Call> {
    match e
    case Bind(port, now, osOk, replyOk) => Some(BindCall(port, now, osOk && Free(n.disk, BoundId(n.ip, port)), replyOk))
    case Listen(key, limit, acceptFifoOk, replyOk) => Some(ListenCall(key, limit, acceptFifoOk, replyOk))
    case Connect(key, dstIp, dstPort, isn) => Some(ConnectCall(key, dstIp, dstPort, isn))
    case Visit(key, v) => Some(VisitCall(key, v))
    case Turn(env, osOk, replySent) =>
      if n.inbox == [] then None
      else
        var packet := Unframed(n.inbox[0], n.ip);
        Some(ReceiveCall(packet, WorldOf(n, packet, env, osOk, replySent, wild)))
    case Arrives(packet) => None
    case DropEnds(address) => None
    case DropReadEnd(id) => None
  }

  function EffectAt(n: Node, e: Event, wild: int -> int): (f: Effect)
    requires Keyed(n.table)
    ensures Keyed(f.table)
  {
    var call := CallOf(n, e, wild);
    if call.None? then Effect(n.table, [], "") else EffectOf(n.table, n.ip, call.value, wild)
  }

  /** The disk after fifos have been tried for the sockets of a packet; t is the table after its handling. */
  function DiskMade(n: Node, c: Making, made: bool, t: Sockets): set<File> {
    match c
    case Nobody => n.disk
    case Spawning(id) => if made && id !in n.table && id in t then n.disk + Ends(id) else n.disk - Ends(id)
    case Announcing(id) => if made then n.disk + Ends(id) else n.disk - Ends(id)
  }

  function DiskAfter(n: Node, e: Event, wild: int -> int): set<File>
    requires Keyed(n.table)
  {
    match e
    case Bind(port, now, osOk, replyOk) =>
      var key := BoundId(n.ip, port);
      if key in n.table then n.disk
      else if !(osOk && Free(n.disk, key)) then n.disk - Ends(key)
      else if |n.table| < TABLE_SIZE && !replyOk then n.disk + {ReadEnd(key)}
      else n.disk + Ends(key)
    case Visit(key, v) => if key in n.table && VisitSock(n.table[key], v).1 then n.disk - {WriteEnd(key)} else n.disk
    case Turn(env, osOk, replySent) =>
      if n.inbox == [] then n.disk
      else
        var packet := Unframed(n.inbox[0], n.ip);
        DiskMade(n, MakingFor(n, packet, wild), Made(n, packet, osOk, wild), EffectAt(n, e, wild).table)
    case DropEnds(address) => n.disk - Ends(address)
    case DropReadEnd(id) => n.disk - {ReadEnd(id)}
    case Listen(_, _, _, _) => n.disk
    case Connect(_, _, _, _) => n.disk
    case Arrives(_) => n.disk
  }

  /** The bare address of a socket. */
  function Address(id: Id): Id {
    BoundId(id.srcIp, id.srcPort)
  }

  /** A connection that is ESTABLISHED after the announcement has been announced. */
  function GrantedTo(n: Node, c: Making, t: Sockets): set<Id> {
    if c.Announcing? && c.id in t && t[c.id].state.Established? then n.granted + {Address(c.id)} else n.granted
  }

  function GrantedAfter(n: Node, e: Event, wild: int -> int): set<Id>
    requires Keyed(n.table)
  {
    match e
    case Turn(env, osOk, replySent) =>
      if n.inbox == [] then n.granted
      else GrantedTo(n, MakingFor(n, Unframed(n.inbox[0], n.ip), wild), EffectAt(n, e, wild).table)
    case DropEnds(address) => n.granted - {address}
    case Bind(_, _, _, _) => n.granted
    case Listen(_, _, _, _) => n.granted
    case Connect(_, _, _, _) => n.granted
    case Visit(_, _) => n.granted
    case Arrives(_) => n.granted
    case DropReadEnd(_) => n.granted
  }

  /** What the manager writes into its own packet fifo. */
  function Looped(n: Node, e: Event, wild: int -> int): seq<Packet>
    requires Keyed(n.table)
  {
    var sent := EffectAt(n, e, wild).sent;
    match e
    case Visit(key, v) => if key.dstIp == n.ip then sent else []
    case Turn(env, osOk, replySent) => if n.inbox != [] && Unframed(n.inbox[0], n.ip).srcIp == n.ip then sent else []
    case Bind(_, _, _, _) => []
    case Listen(_, _, _, _) => []
    case Connect(_, _, _, _) => []
    case Arrives(_) => []
    case DropEnds(_) => []
    case DropReadEnd(_) => []
  }

  function InboxAfter(n: Node, e: Event, wild: int -> int): seq<Frame>
    requires Keyed(n.table)
  {
    (if e.Turn? && n.inbox != [] then n.inbox[1..] else n.inbox)
    + (if e.Arrives? then [Foreign(e.packet)] else Owned(Looped(n, e, wild)))
  }

  /** A bind that fails for want of room or fifos, or a reply that cannot be written, ends the manager loop. */
  predicate RunsOn(n: Node, e: Event) {
    e.Bind? ==> e.replyOk && (BoundId(n.ip, e.port) in n.table ||
                              Binds(n.table, n.ip, e.port, e.osOk && Free(n.disk, BoundId(n.ip, e.port))))
  }

  function NodeAfter(n: Node, e: Event, wild: int -> int): (n': Node)
    requires Keyed(n.table)
    ensures Keyed(n'.table) && n'.ip == n.ip
  {
    Node(n.ip, EffectAt(n, e, wild).table, DiskAfter(n, e, wild), GrantedAfter(n, e, wild), InboxAfter(n, e, wild),
         n.running && RunsOn(n, e))
  }

  /** What may happen while the loop runs. Users remove the end fifos of an address once they have been told of their
      connection, and nobody else removes a write end. Nobody asks for a connection to an address that reads as none.
      Others write whole frames that bear their own ip. */
  predicate EventOk(n: Node, e: Event) {
    && n.running
    && (e.Connect? ==> !NoDestination(e.key.(dstIp := e.dstIp, dstPort := e.dstPort)))
    && (e.Arrives? ==> e.packet.srcIp != n.ip && WellFormed(e.packet))
    && (e.DropEnds? ==> e.address in n.granted)
  }

  // ---------------------------------------------------------------- one socket for an address

  /** The socket holds its address: it stands under it, or will when it is closed before it has been answered. */
  predicate Claims(s: Sock) {
    s.id == Address(s.id) || s.state.SynSent?
  }

  /** Sockets without a destination stand under their address, and connecting sockets do not. */
  predicate Placed(s: Sock, ip: string) {
    && s.id.srcIp == ip && (NoDestination(s.id) ==> s.id == Address(s.id))
    && (s.state.SynSent? ==> !NoDestination(s.id))
  }

  /** Every address is held by one socket at most, and its write end is on disk as long as it is held, and then until
      the user removes it. */
  predicate SoleIn(t: Sockets, ip: string, disk: set<File>, granted: set<Id>) {
    && Keyed(t) && (forall k :: k in t ==> Placed(t[k], ip))
    && (forall k :: k in t && Claims(t[k]) ==> WriteEnd(Address(k)) in disk && Address(k) !in granted)
    && (forall k, l :: k in t && l in t && Claims(t[k]) && Claims(t[l]) && Address(k) == Address(l) ==> k == l)
    && (forall a :: a in granted ==> WriteEnd(a) in disk && a == Address(a))
  }

  predicate Sole(n: Node) {
    !IsEmptyIp(n.ip) && SoleIn(n.table, n.ip, n.disk, n.granted)
  }

  /** So a close never leaves two sockets under one key. */
  lemma NoClash(n: Node, key: Id, v: VisitEnv)
    requires Sole(n) && key in n.table
    ensures !ClashIn(n.table, key, v)
  {
    if ClashIn(n.table, key, v) {
      assert Claims(n.table[Address(key)]) && Claims(n.table[key]);
    }
  }

  lemma SoleMoved(t: Sockets, ip: string, disk: set<File>, granted: set<Id>, key: Id, s: Sock)
    requires SoleIn(t, ip, disk, granted) && key in t && s.Shaped() && s.id !in t - {key}
    requires Address(s.id) == Address(key) && Placed(s, ip) && (Claims(s) ==> Claims(t[key]))
    ensures SoleIn((t - {key})[s.id := s], ip, disk, granted)
  {
  }

  lemma SoleAdded(t: Sockets, ip: string, disk: set<File>, granted: set<Id>, s: Sock)
    requires SoleIn(t, ip, disk, granted) && s.Shaped() && s.id !in t && Placed(s, ip) && !Claims(s)
    ensures SoleIn(t[s.id := s], ip, disk, granted)
  {
  }

  lemma SoleFewer(t: Sockets, ip: string, disk: set<File>, granted: set<Id>, key: Id)
    requires SoleIn(t, ip, disk, granted) && key in t
    ensures SoleIn(t - {key}, ip, disk - {WriteEnd(key)}, granted)
  {
    assert key == Address(key) ==> Claims(t[key]);
  }

  /** Fifos of sockets that have a destination do not matter. */
  lemma SoleDisk(t: Sockets, ip: string, disk: set<File>, granted: set<Id>, disk': set<File>)
    requires SoleIn(t, ip, disk, granted)
    requires forall a :: a == Address(a) && WriteEnd(a) in disk ==> WriteEnd(a) in disk'
    ensures SoleIn(t, ip, disk', granted)
  {
    assert forall k :: Address(Address(k)) == Address(k);
  }

  lemma SoleBound(t: Sockets, ip: string, disk: set<File>, granted: set<Id>, port: int, now: int)
    requires SoleIn(t, ip, disk, granted) && Free(disk, BoundId(ip, port)) && BoundId(ip, port) !in t
    ensures var key := BoundId(ip, port);
            SoleIn(t[key := NewSock(key, Closed, now)], ip, disk + Ends(key), granted)
  {
    assert IsEmptyIp(EMPTY_IP);
  }

  // ---------------------------------------------------------------- every event keeps it

  lemma VisitStaysPlaced(s: Sock, v: VisitEnv, ip: string)
    requires s.Shaped() && Placed(s, ip)
    ensures var s' := VisitSock(s, v).0;
            s'.Shaped() && Address(s'.id) == Address(s.id) && Placed(s', ip) && (Claims(s') ==> Claims(s))
  {
    VisitShaped(s, v);
    assert VisitSock(s, v).0.state.SynSent? ==> s.state.SynSent? && !v.close;
    hide VisitSock;
    assert IsEmptyIp(EMPTY_IP);
  }

  lemma VisitSole(n: Node, key: Id, v: VisitEnv, wild: int -> int)
    requires Sole(n) && key in n.table
    ensures Sole(NodeAfter(n, Visit(key, v), wild))
  {
    NoClash(n, key, v);
    VisitStaysPlaced(n.table[key], v, n.ip);
    VisitShaped(n.table[key], v);
    hide VisitSock, SoleIn, Placed, Claims, InboxAfter, ReceiveIn, ClashIn;
    var n' := NodeAfter(n, Visit(key, v), wild);
    assert n'.granted == n.granted && n'.table == VisitIn(n.table, key, v).table;
    if VisitSock(n.table[key], v).1 {
      SoleFewer(n.table, n.ip, n.disk, n.granted, key);
    } else {
      SoleMoved(n.table, n.ip, n.disk, n.granted, key, VisitSock(n.table[key], v).0);
    }
  }

  lemma HandlingMeans(s: Sock, p: Packet, ip: string, env: Env)
    requires s.Shaped()
    ensures var o := HandlePacket(s, p, ip, env);
            && (o.sock.state.SynSent? ==> s.state.SynSent?)
            && (o.spawned.Some? ==> s.state.Listen? && o.spawned.value.state.SynReceived? &&
                                    p.flags.syn && s.maxConnections != 0)
            && (Answered(s, p) && o.sock.state.SynSent? ==> !env.notifyOk)
            && (s.state.SynSent? && o.sock.state.Established? ==> env.notifyOk)
  {
  }

  /** A socket that handles a packet keeps its place, and a connection it spawns claims no address. */
  lemma ResponsePlaced(m: Sockets, key: Id, p: Packet, ip: string, srcIp: string, w: World)
    requires Keyed(m) && key in m && Placed(m[key], ip) && !IsEmptyIp(ip)
    ensures var r := ResponseIn(m, key, p, ip, srcIp, w);
            && r.sock.id == key && r.sock.Shaped() && Placed(r.sock, ip) && (Claims(r.sock) ==> Claims(m[key]))
            && (r.spawned.Some? ==>
                  var c := r.spawned.value;
                  c.Shaped() && c.id == SpawnKey(key, ip, p) && c.id !in m && Placed(c, ip) && !Claims(c))
  {
    ResponseKeyed(m, key, p, ip, srcIp, w);
    HandlingMeans(m[key], p, ip, w.env.(spawnOk := w.fifosOk && |m| < TABLE_SIZE && SpawnKey(m[key].id, ip, p) !in m));
    hide HandlePacket;
  }

  /** The user of a connecting socket is told: the address is the user's to clean up, and no socket holds it. */
  lemma SoleAnnounced(t: Sockets, ip: string, disk: set<File>, granted: set<Id>, key: Id, s: Sock)
    requires SoleIn(t, ip, disk, granted) && key in t && t[key].state.SynSent?
    requires s.id == key && s.Shaped() && s.state.Established?
    ensures SoleIn(t[key := s], ip, disk, granted + {Address(key)})
  {
    assert Claims(t[key]) && Placed(t[key], ip);
  }

  lemma DispatchSole(m: Sockets, ip: string, disk: set<File>, granted: set<Id>, srcIp: string, p: Packet, w: World)
    requires SoleIn(m, ip, disk, granted) && !IsEmptyIp(ip)
    ensures SoleIn(DispatchIn(m, ip, srcIp, p, w).table, ip, disk, granted)
  {
    var key := Lookup(m, ip, srcIp, p);
    if key.Some? {
      ResponsePlaced(m, key.value, p, ip, srcIp, w);
      var r := ResponseIn(m, key.value, p, ip, srcIp, w);
      hide ResponseIn, Lookup, SoleIn, Placed, Claims;
      assert (m - {key.value})[key.value := r.sock] == m[key.value := r.sock];
      SoleMoved(m, ip, disk, granted, key.value, r.sock);
      if r.spawned.Some? {
        SoleAdded(m[key.value := r.sock], ip, disk, granted, r.spawned.value);
      }
    }
  }

  /** No connection, made or to be announced, has an address for its key. */
  lemma MakingApart(n: Node, packet: IpPacket, wild: int -> int, a: Id)
    requires Sole(n) && a == Address(a)
    ensures var c := MakingFor(n, packet, wild); !c.Nobody? ==> c.id != a
    ensures var c := MakingFor(n, packet, wild);
            c.Announcing? ==> c.id in n.table && n.table[c.id].state.SynSent?
  {
    hide Admitted;
    assert IsEmptyIp(EMPTY_IP);
    var c := MakingFor(n, packet, wild);
    if c.Announcing? {
      assert Placed(n.table[c.id], n.ip);
    }
  }

  lemma MadeSole(n: Node, packet: IpPacket, wild: int -> int, t: Sockets, granted: set<Id>, made: bool)
    requires Sole(n) && SoleIn(t, n.ip, n.disk, granted)
    ensures SoleIn(t, n.ip, DiskMade(n, MakingFor(n, packet, wild), made, t), granted)
  {
    var c := MakingFor(n, packet, wild);
    var disk' := DiskMade(n, c, made, t);
    hide MakingFor, SoleIn, Sole;
    forall a | a == Address(a) && WriteEnd(a) in n.disk ensures WriteEnd(a) in disk' {
      MakingApart(n, packet, wild, a);
    }
    SoleDisk(t, n.ip, n.disk, granted, disk');
  }

  lemma AnnouncedSole(n: Node, packet: IpPacket, wild: int -> int, w: World)
    requires Sole(n)
    requires var c, t := MakingFor(n, packet, wild), ReceiveIn(n.table, n.ip, packet, wild, w).table;
             c.Announcing? && c.id in t && t[c.id].state.Established?
    ensures var c, t := MakingFor(n, packet, wild), ReceiveIn(n.table, n.ip, packet, wild, w).table;
            SoleIn(t, n.ip, n.disk, n.granted + {Address(c.id)})
  {
    var p := Admitted(packet, n.ip, wild).value;
    var key := Lookup(n.table, n.ip, packet.srcIp, p).value;
    hide Admitted;
    ResponsePlaced(n.table, key, p, n.ip, packet.srcIp, w);
    var r := ResponseIn(n.table, key, p, n.ip, packet.srcIp, w);
    assert r.spawned.None? by {
      var free := SpawnKey(n.table[key].id, n.ip, p) !in n.table;
      HandlingMeans(n.table[key], p, n.ip, w.env.(spawnOk := w.fifosOk && |n.table| < TABLE_SIZE && free));
      hide HandlePacket;
    }
    hide ResponseIn, Lookup, Placed, Claims, SoleIn;
    SoleAnnounced(n.table, n.ip, n.disk, n.granted, key, r.sock);
  }

  lemma HandledSole(n: Node, packet: IpPacket, wild: int -> int, w: World)
    requires Sole(n)
    ensures var t := ReceiveIn(n.table, n.ip, packet, wild, w).table;
            SoleIn(t, n.ip, n.disk, GrantedTo(n, MakingFor(n, packet, wild), t))
  {
    var c, t := MakingFor(n, packet, wild), ReceiveIn(n.table, n.ip, packet, wild, w).table;
    hide SoleIn, MakingFor, DispatchIn, Admitted;
    if c.Announcing? && c.id in t && t[c.id].state.Established? {
      AnnouncedSole(n, packet, wild, w);
    } else if Admitted(packet, n.ip, wild).Some? {
      DispatchSole(n.table, n.ip, n.disk, n.granted, packet.srcIp, Admitted(packet, n.ip, wild).value, w);
    }
  }

  /** What a turn leaves, in terms of the packet it reads. */
  lemma TurnMeans(n: Node, env: Env, osOk: bool, replySent: bool, wild: int -> int)
    requires Keyed(n.table) && n.inbox != []
    ensures var packet, n' := Unframed(n.inbox[0], n.ip), NodeAfter(n, Turn(env, osOk, replySent), wild);
            var c, w := MakingFor(n, packet, wild), WorldOf(n, packet, env, osOk, replySent, wild);
            && EffectAt(n, Turn(env, osOk, replySent), wild) == ReceiveIn(n.table, n.ip, packet, wild, w)
            && n'.table == ReceiveIn(n.table, n.ip, packet, wild, w).table
            && n'.disk == DiskMade(n, c, Made(n, packet, osOk, wild), n'.table)
            && n'.granted == GrantedTo(n, c, n'.table)
  {
    hide InboxAfter, MakingFor, WorldOf, Made, Unframed, ReceiveIn, DiskMade, GrantedTo;
  }

  lemma TurnSole(n: Node, env: Env, osOk: bool, replySent: bool, wild: int -> int)
    requires Sole(n) && n.inbox != []
    ensures Sole(NodeAfter(n, Turn(env, osOk, replySent), wild))
  {
    var packet := Unframed(n.inbox[0], n.ip);
    var w := WorldOf(n, packet, env, osOk, replySent, wild);
    TurnMeans(n, env, osOk, replySent, wild);
    HandledSole(n, packet, wild, w);
    var n' := NodeAfter(n, Turn(env, osOk, replySent), wild);
    hide SoleIn, MakingFor, WorldOf, Made, Unframed, ReceiveIn, DiskMade, GrantedTo, NodeAfter;
    MadeSole(n, packet, wild, n'.table, n'.granted, Made(n, packet, osOk, wild));
  }

  lemma BindSole(n: Node, port: int, now: int, osOk: bool, replyOk: bool, wild: int -> int)
    requires Sole(n) && RunsOn(n, Bind(port, now, osOk, replyOk))
    ensures Sole(NodeAfter(n, Bind(port, now, osOk, replyOk), wild))
  {
    var key := BoundId(n.ip, port);
    hide InboxAfter, SoleIn, ReceiveIn, VisitIn;
    if key !in n.table {
      SoleBound(n.table, n.ip, n.disk, n.granted, port, now);
    }
  }

  lemma ListenSole(n: Node, key: Id, limit: int, acceptFifoOk: bool, replyOk: bool, wild: int -> int)
    requires Sole(n)
    ensures Sole(NodeAfter(n, Event.Listen(key, limit, acceptFifoOk, replyOk), wild))
  {
    var n' := NodeAfter(n, Event.Listen(key, limit, acceptFifoOk, replyOk), wild);
    assert n' == n.(table := ListenIn(n.table, key, limit, acceptFifoOk, replyOk).table, running := n.running);
    if key in n.table && Kind(key).BoundOnlySocket? && !n.table[key].state.Listen? {
      var s := ListenCommand(n.table[key], limit, acceptFifoOk, replyOk);
      assert Placed(s, n.ip) && Claims(n.table[key]);
      assert (n.table - {key})[key := s] == n.table[key := s];
      hide SoleIn, Placed, Claims;
      SoleMoved(n.table, n.ip, n.disk, n.granted, key, s);
    }
  }

  lemma ConnectSole(n: Node, key: Id, dstIp: string, dstPort: int, isn: int, wild: int -> int)
    requires Sole(n) && !NoDestination(key.(dstIp := dstIp, dstPort := dstPort))
    ensures Sole(NodeAfter(n, Connect(key, dstIp, dstPort, isn), wild))
  {
    var n' := NodeAfter(n, Connect(key, dstIp, dstPort, isn), wild);
    assert n' == n.(table := ConnectIn(n.table, key, dstIp, dstPort, isn).table, running := n.running);
    if Connects(n.table, key, dstIp, dstPort) {
      var s := ConnectCommand(n.table[key], dstIp, dstPort, isn);
      assert Placed(n.table[key], n.ip) && Placed(s, n.ip) && Claims(n.table[key]);
      hide SoleIn, Placed, Claims;
      SoleMoved(n.table, n.ip, n.disk, n.granted, key, s);
    }
  }

  lemma DropSole(n: Node, e: Event, wild: int -> int)
    requires Sole(n) && EventOk(n, e) && (e.DropEnds? || e.DropReadEnd? || e.Arrives?)
    ensures Sole(NodeAfter(n, e, wild))
  {
    var n' := NodeAfter(n, e, wild);
    assert n'.table == n.table;
    hide InboxAfter;
  }

  /** As long as the loop runs, no address is held by two sockets. */
  lemma StepSole(n: Node, e: Event, wild: int -> int)
    requires Sole(n) && EventOk(n, e) && NodeAfter(n, e, wild).running
    ensures Sole(NodeAfter(n, e, wild))
  {
    assert RunsOn(n, e);
    hide Sole, NodeAfter;
    match e
    case Bind(port, now, osOk, replyOk) => BindSole(n, port, now, osOk, replyOk, wild);
    case Listen(key, limit, acceptFifoOk, replyOk) => ListenSole(n, key, limit, acceptFifoOk, replyOk, wild);
    case Connect(key, dstIp, dstPort, isn) => ConnectSole(n, key, dstIp, dstPort, isn, wild);
    case Visit(key, v) => if key in n.table { VisitSole(n, key, v, wild); } else { IdleSole(n, e, wild); }
    case Turn(env, osOk, replySent) =>
      if n.inbox != [] { TurnSole(n, env, osOk, replySent, wild); } else { IdleSole(n, e, wild); }
    case Arrives(packet) => DropSole(n, e, wild);
    case DropEnds(address) => DropSole(n, e, wild);
    case DropReadEnd(id) => DropSole(n, e, wild);
  }

  lemma IdleSole(n: Node, e: Event, wild: int -> int)
    requires Sole(n) && ((e.Visit? && e.key !in n.table) || (e.Turn? && n.inbox == []))
    ensures Sole(NodeAfter(n, e, wild))
  {
    hide InboxAfter, SoleIn;
  }

  // ---------------------------------------------------------------- whole runs

  predicate EventsOk(n: Node, events: seq<Event>, wild: int -> int)
    requires Keyed(n.table)
    decreases |events|
  {
    events == [] || (EventOk(n, events[0]) && EventsOk(NodeAfter(n, events[0], wild), events[1..], wild))
  }

  function AfterAll(n: Node, events: seq<Event>, wild: int -> int): (n': Node)
    requires Keyed(n.table)
    ensures Keyed(n'.table) && n'.ip == n.ip
    decreases |events|
  {
    if events == [] then n else AfterAll(NodeAfter(n, events[0], wild), events[1..], wild)
  }

  /** The calls on the manager in a run. */
  function CallsOf(n: Node, events: seq<Event>, wild: int -> int): seq<Call>
    requires Keyed(n.table)
    decreases |events|
  {
    if events == [] then []
    else
      var call := CallOf(n, events[0], wild);
      (if call.None? then [] else [call.value]) + CallsOf(NodeAfter(n, events[0], wild), events[1..], wild)
  }

  /** The manager before its first request, with whatever fifos are on disk. */
  function Fresh(ip: string, disk: set<File>): Node {
    Node(ip, map[], disk, {}, [], true)
  }

  lemma FreshIsSole(ip: string, disk: set<File>)
    requires !IsEmptyIp(ip)
    ensures Sole(Fresh(ip, disk))
  {
  }

  /** The call of an event in front of others. */
  lemma CallFirst(n: Node, e: Event, rest: seq<Call>, wild: int -> int)
    requires Sole(n) && KeepMap(NodeAfter(n, e, wild).table, n.ip, rest, wild)
    ensures var call := CallOf(n, e, wild); var calls := (if call.None? then [] else [call.value]) + rest;
            && KeepMap(n.table, n.ip, calls, wild)
            && TableAfter(n.table, n.ip, calls, wild) == TableAfter(NodeAfter(n, e, wild).table, n.ip, rest, wild)
  {
    CallKeepsMap(n, e, wild);
    hide SoleIn, EffectOf, CallOf, DiskAfter, GrantedAfter, InboxAfter, RunsOn, KeepsMap;
    var call := CallOf(n, e, wild);
    if call.Some? {
      assert ([call.value] + rest)[1..] == rest;
    } else {
      assert [] + rest == rest;
    }
  }

  /** Over any run, no address is ever held by two sockets, and no close leaves two under one key: so the manager's
      calls make of the table what the run makes of it. */
  lemma {:induction false} NeverClashes(n: Node, events: seq<Event>, wild: int -> int)
    requires Sole(n) && EventsOk(n, events, wild)
    ensures KeepMap(n.table, n.ip, CallsOf(n, events, wild), wild)
    ensures TableAfter(n.table, n.ip, CallsOf(n, events, wild), wild) == AfterAll(n, events, wild).table
    ensures AfterAll(n, events, wild).running ==> Sole(AfterAll(n, events, wild))
    decreases |events|
  {
    if events != [] {
      var n' := NodeAfter(n, events[0], wild);
      hide SoleIn, EventOk, CallOf, NodeAfter;
      if n'.running {
        StepSole(n, events[0], wild);
        NeverClashes(n', events[1..], wild);
      } else {
        StoppedEnds(n', events[1..], wild);
      }
      CallFirst(n, events[0], CallsOf(n', events[1..], wild), wild);
    }
  }

  lemma StoppedEnds(n: Node, events: seq<Event>, wild: int -> int)
    requires Keyed(n.table) && EventsOk(n, events, wild) && !n.running
    ensures events == []
  {
  }

  lemma CallKeepsMap(n: Node, e: Event, wild: int -> int)
    requires Sole(n)
    ensures var call := CallOf(n, e, wild); call.Some? ==> KeepsMap(n.table, call.value)
  {
    if e.Visit? && e.key in n.table {
      NoClash(n, e.key, e.visit);
    }
  }

  // ---------------------------------------------------------------- ports that are lost

  /** An end fifo of an address is on disk, but no socket holds the address and no user has been told to remove
      both. */
  predicate Orphaned(n: Node, a: Id) {
    && a == Address(a) && !Free(n.disk, a) && a !in n.granted
    && forall k :: k in n.table && Claims(n.table[k]) ==> Address(k) != a
  }

  /** The removal of a socket that stands under its address leaves it so, unless the read end is gone already: a bound
      socket that nobody uses for ten seconds is removed, and its user has not closed it. */
  lemma RemovalOrphans(n: Node, a: Id, v: VisitEnv, wild: int -> int)
    requires Sole(n) && a in n.table && a == Address(a) && VisitSock(n.table[a], v).1
    ensures Orphaned(NodeAfter(n, Visit(a, v), wild), a) <==> ReadEnd(a) in n.disk
  {
    hide InboxAfter, VisitSock, ReceiveIn;
    var n' := NodeAfter(n, Visit(a, v), wild);
    assert Claims(n.table[a]);
    assert n'.table == n.table - {a} && n'.disk == n.disk - {WriteEnd(a)} && n'.granted == n.granted;
  }

  /** So does a reset in answer to a connection request. */
  lemma RefusalOrphans(n: Node, env: Env, osOk: bool, replySent: bool, wild: int -> int, key: Id)
    requires Sole(n) && n.inbox != [] && key in n.table && n.table[key].state.SynSent?
    requires var packet := Unframed(n.inbox[0], n.ip); var p := Admitted(packet, n.ip, wild);
             p.Some? && p.value.flags.rst && Lookup(n.table, n.ip, packet.srcIp, p.value) == Some(key)
    ensures var n' := NodeAfter(n, Turn(env, osOk, replySent), wild);
            Orphaned(n', Address(key)) && WriteEnd(Address(key)) in n'.disk
  {
    var packet := Unframed(n.inbox[0], n.ip);
    TurnMeans(n, env, osOk, replySent, wild);
    Refused(n, packet, WorldOf(n, packet, env, osOk, replySent, wild), wild, key);
    var n' := NodeAfter(n, Turn(env, osOk, replySent), wild);
    hide Admitted, Unframed, Lookup, NodeAfter, WorldOf, Made, MakingFor, ReceiveIn;
    assert Claims(n.table[key]) && Placed(n.table[key], n.ip) && IsEmptyIp(EMPTY_IP);
    assert n'.table == n.table[key := n.table[key].(state := Closed)] && n'.disk == n.disk && n'.granted == n.granted;
  }

  lemma Refused(n: Node, packet: IpPacket, w: World, wild: int -> int, key: Id)
    requires Sole(n) && key in n.table && n.table[key].state.SynSent?
    requires var p := Admitted(packet, n.ip, wild);
             p.Some? && p.value.flags.rst && Lookup(n.table, n.ip, packet.srcIp, p.value) == Some(key)
    ensures MakingFor(n, packet, wild) == Nobody
    ensures ReceiveIn(n.table, n.ip, packet, wild, w).table == n.table[key := n.table[key].(state := Closed)]
  {
    hide Admitted, Lookup;
  }

  lemma OrphanNotHeld(n: Node, a: Id)
    requires Sole(n) && Orphaned(n, a)
    ensures a !in n.table
  {
    assert a in n.table ==> Claims(n.table[a]);
  }

  /** Whoever binds its port ends the manager loop. */
  lemma OrphanNotBound(n: Node, e: Event, a: Id, wild: int -> int)
    requires Sole(n) && Orphaned(n, a) && e.Bind? && BoundId(n.ip, e.port) == a
    ensures !NodeAfter(n, e, wild).running
  {
    OrphanNotHeld(n, a);
    hide SoleIn, Claims, EffectOf, InboxAfter, DiskAfter;
  }

  /** An orphaned address is in the position of one whose user will never come to remove its fifos. */
  function Abandoned(n: Node, a: Id): Node {
    n.(granted := n.granted + {a}, disk := n.disk + {WriteEnd(a)})
  }

  lemma OrphanedMeans(n: Node, a: Id)
    requires Sole(n)
    ensures Orphaned(n, a) <==> !Free(n.disk, a) && a !in n.granted && Sole(Abandoned(n, a))
  {
  }

  lemma SameMaking(n: Node, a: Id, packet: IpPacket, osOk: bool, wild: int -> int)
    requires Sole(n) && Orphaned(n, a)
    ensures MakingFor(Abandoned(n, a), packet, wild) == MakingFor(n, packet, wild)
    ensures Made(Abandoned(n, a), packet, osOk, wild) == Made(n, packet, osOk, wild)
  {
    MakingApart(n, packet, wild, a);
    hide Admitted, SoleIn;
  }

  lemma SameCall(n: Node, a: Id, e: Event, wild: int -> int)
    requires Sole(n) && Orphaned(n, a)
    ensures CallOf(Abandoned(n, a), e, wild) == CallOf(n, e, wild)
    ensures RunsOn(Abandoned(n, a), e) == RunsOn(n, e)
  {
    if e.Turn? && n.inbox != [] {
      SameMaking(n, a, Unframed(n.inbox[0], n.ip), e.osOk, wild);
    }
    hide Unframed, MakingFor, Made, SoleIn, Claims;
  }

  lemma SameEffect(n: Node, a: Id, e: Event, wild: int -> int)
    requires Sole(n) && Orphaned(n, a)
    ensures EffectAt(Abandoned(n, a), e, wild) == EffectAt(n, e, wild)
    ensures InboxAfter(Abandoned(n, a), e, wild) == InboxAfter(n, e, wild)
  {
    SameCall(n, a, e, wild);
    hide Unframed, CallOf, EffectOf, RunsOn;
  }

  lemma SameDisk(n: Node, a: Id, e: Event, wild: int -> int)
    requires Sole(n) && Orphaned(n, a) && RunsOn(n, e) && e != DropEnds(a)
    ensures DiskAfter(Abandoned(n, a), e, wild) == DiskAfter(n, e, wild) + {WriteEnd(a)}
  {
    SameEffect(n, a, e, wild);
    OrphanNotHeld(n, a);
    if e.Turn? && n.inbox != [] {
      SameMaking(n, a, Unframed(n.inbox[0], n.ip), e.osOk, wild);
      MakingApart(n, Unframed(n.inbox[0], n.ip), wild, a);
    }
    hide Unframed, MakingFor, Made, EffectAt, VisitSock, SoleIn, Claims;
  }

  lemma SameGranted(n: Node, a: Id, e: Event, wild: int -> int)
    requires Sole(n) && Orphaned(n, a) && e != DropEnds(a)
    ensures GrantedAfter(Abandoned(n, a), e, wild) == GrantedAfter(n, e, wild) + {a}
  {
    SameEffect(n, a, e, wild);
    if e.Turn? && n.inbox != [] {
      SameMaking(n, a, Unframed(n.inbox[0], n.ip), e.osOk, wild);
    }
    hide Unframed, MakingFor, EffectAt, SoleIn, Claims;
  }

  /** The manager knows nothing of the users' duties, and the second fifo makes no difference where the first is. */
  lemma SameStep(n: Node, a: Id, e: Event, wild: int -> int)
    requires Sole(n) && Orphaned(n, a) && RunsOn(n, e) && e != DropEnds(a)
    ensures NodeAfter(Abandoned(n, a), e, wild) == Abandoned(NodeAfter(n, e, wild), a)
  {
    SameCall(n, a, e, wild);
    SameEffect(n, a, e, wild);
    SameDisk(n, a, e, wild);
    SameGranted(n, a, e, wild);
    hide CallOf, EffectAt, DiskAfter, GrantedAfter, InboxAfter, RunsOn, Orphaned, SoleIn;
  }

  lemma OrphanNotTold(n: Node, packet: IpPacket, a: Id, wild: int -> int, t: Sockets)
    requires Sole(n) && Orphaned(n, a)
    ensures a !in GrantedTo(n, MakingFor(n, packet, wild), t)
  {
    MakingApart(n, packet, wild, a);
    hide MakingFor, SoleIn;
    var c := MakingFor(n, packet, wild);
    assert c.Announcing? ==> Claims(n.table[c.id]);
  }

  lemma OrphanNotGranted(n: Node, e: Event, a: Id, wild: int -> int)
    requires Sole(n) && Orphaned(n, a)
    ensures a !in NodeAfter(n, e, wild).granted
  {
    if e.Turn? && n.inbox != [] {
      TurnMeans(n, e.env, e.osOk, e.replySent, wild);
      hide MakingFor, Unframed, WorldOf, Made, DiskMade, ReceiveIn, NodeAfter, SoleIn, GrantedTo, Orphaned;
      OrphanNotTold(n, Unframed(n.inbox[0], n.ip), a, wild, NodeAfter(n, e, wild).table);
    } else {
      hide EffectAt, InboxAfter, DiskAfter, SoleIn;
    }
  }

  /** Only a user's removal of the read end takes a fifo of such an address off the disk. */
  lemma OrphanFileStays(n: Node, e: Event, a: Id, f: File, wild: int -> int)
    requires Sole(n) && Orphaned(n, a) && EventOk(n, e) && RunsOn(n, e)
    requires f in n.disk && f in Ends(a) && (f == WriteEnd(a) || e != DropReadEnd(a))
    ensures f in DiskAfter(n, e, wild)
  {
    OrphanNotHeld(n, a);
    if e.Turn? && n.inbox != [] {
      MakingApart(n, Unframed(n.inbox[0], n.ip), wild, a);
    }
    hide Unframed, MakingFor, Made, EffectAt, VisitSock, SoleIn, Claims;
  }

  /** As long as the loop runs, and the read end is not the only one and removed, it stays so. */
  lemma OrphanStays(n: Node, e: Event, a: Id, wild: int -> int)
    requires Sole(n) && EventOk(n, e) && Orphaned(n, a) && NodeAfter(n, e, wild).running
    requires WriteEnd(a) in n.disk || e != DropReadEnd(a)
    ensures var n' := NodeAfter(n, e, wild);
            Sole(n') && Orphaned(n', a) && (WriteEnd(a) in n.disk ==> WriteEnd(a) in n'.disk)
  {
    OrphanedMeans(n, a);
    assert EventOk(Abandoned(n, a), e) && e != DropEnds(a) && RunsOn(n, e);
    var f := if WriteEnd(a) in n.disk then WriteEnd(a) else ReadEnd(a);
    assert f in n.disk && f in Ends(a);
    OrphanFileStays(n, e, a, f, wild);
    assert f in NodeAfter(n, e, wild).disk;
    hide Orphaned, EventOk, Sole, NodeAfter, RunsOn;
    SameStep(n, a, e, wild);
    StepSole(n, e, wild);
    StepSole(Abandoned(n, a), e, wild);
    OrphanedMeans(NodeAfter(n, e, wild), a);
    OrphanNotGranted(n, e, a, wild);
  }

  /** So such a port is lost: as long as the loop runs, nobody has bound it again. */
  lemma {:induction false} PortLost(n: Node, events: seq<Event>, a: Id, wild: int -> int)
    requires Sole(n) && EventsOk(n, events, wild) && Orphaned(n, a) && AfterAll(n, events, wild).running
    requires WriteEnd(a) in n.disk || DropReadEnd(a) !in events
    ensures Orphaned(AfterAll(n, events, wild), a)
    ensures forall e :: e in events && e.Bind? ==> BoundId(n.ip, e.port) != a
    decreases |events|
  {
    if events != [] {
      var n' := NodeAfter(n, events[0], wild);
      hide SoleIn, EventOk, NodeAfter, Orphaned;
      if !n'.running {
        StoppedEnds(n', events[1..], wild);
      }
      OrphanStays(n, events[0], a, wild);
      if events[0].Bind? && BoundId(n.ip, events[0].port) == a {
        OrphanNotBound(n, events[0], a, wild);
      }
      PortLost(n', events[1..], a, wild);
      assert events == [events[0]] + events[1..];
    }
  }

  // ---------------------------------------------------------------- two runs

  /** A port is bound. */
  lemma Binding(n: Node, port: int, now: int, wild: int -> int)
    requires Keyed(n.table) && n.running && BoundId(n.ip, port) !in n.table && |n.table| < TABLE_SIZE
    requires Free(n.disk, BoundId(n.ip, port))
    ensures var a, e := BoundId(n.ip, port), Bind(port, now, true, true);
            && EventOk(n, e)
            && NodeAfter(n, e, wild) == n.(table := n.table[a := NewSock(a, Closed, now)], disk := n.disk + Ends(a))
  {
    var e := Bind(port, now, true, true);
    assert Looped(n, e, wild) == [] && Owned([]) == [];
    assert InboxAfter(n, e, wild) == n.inbox;
  }

  lemma TwoEvents(n: Node, e: Event, f: Event, wild: int -> int)
    requires Keyed(n.table) && EventOk(n, e) && EventOk(NodeAfter(n, e, wild), f)
    ensures EventsOk(n, [e, f], wild)
    ensures AfterAll(n, [e, f], wild) == NodeAfter(NodeAfter(n, e, wild), f, wild)
  {
    hide EventOk, NodeAfter;
    var n' := NodeAfter(n, e, wild);
    assert [e, f][1..] == [f] && [f][1..] == [];
    assert EventsOk(n', [f], wild) && AfterAll(n', [f], wild) == NodeAfter(n', f, wild) by {
      assert EventsOk(NodeAfter(n', f, wild), [], wild);
    }
  }

  /** How a port is lost: somebody binds it and does nothing for ten seconds. The next bind ends the manager loop. */
  lemma IdlePortLost(ip: string, disk: set<File>, port: int, now: int, v: VisitEnv, e: Event, wild: int -> int)
    requires !IsEmptyIp(ip) && Free(disk, BoundId(ip, port))
    requires !v.close && Elapsed(v.now, now, SOCKET_TIMEOUT) && e.Bind? && e.port == port
    ensures var a := BoundId(ip, port);
            var events := [Bind(port, now, true, true), Visit(a, v)];
            && EventsOk(Fresh(ip, disk), events, wild)
            && var n := AfterAll(Fresh(ip, disk), events, wild);
            && n.running && Orphaned(n, a) && !NodeAfter(n, e, wild).running
  {
    var n, a := Fresh(ip, disk), BoundId(ip, port);
    var b, w := Bind(port, now, true, true), Event.Visit(a, v);
    FreshIsSole(ip, disk);
    Binding(n, port, now, wild);
    var n1 := NodeAfter(n, b, wild);
    BindSole(n, port, now, true, true, wild);
    assert VisitSock(n1.table[a], v).1;
    VisitSole(n1, a, v, wild);
    RemovalOrphans(n1, a, v, wild);
    assert EventOk(n1, w) && RunsOn(n1, w);
    hide EventOk, Sole, Orphaned, VisitSock;
    TwoEvents(n, b, w, wild);
    OrphanNotBound(NodeAfter(n1, w, wild), e, a, wild);
  }

  /** A freshly bound socket connects. */
  lemma Connecting(n: Node, port: int, dstIp: string, dstPort: int, isn: int, wild: int -> int)
    requires Keyed(n.table) && n.running && BoundId(n.ip, port) in n.table
    requires Kind(BoundId(n.ip, port)).BoundOnlySocket? && n.table[BoundId(n.ip, port)].state.Closed?
    requires var key := Id(n.ip, port, dstIp, dstPort); key !in n.table && !NoDestination(key)
    ensures var a, e := BoundId(n.ip, port), Connect(BoundId(n.ip, port), dstIp, dstPort, isn);
            var key := Id(n.ip, port, dstIp, dstPort);
            && EventOk(n, e)
            && NodeAfter(n, e, wild) ==
               n.(table := (n.table - {a})[key := ConnectCommand(n.table[a], dstIp, dstPort, isn)])
  {
    var e := Connect(BoundId(n.ip, port), dstIp, dstPort, isn);
    assert Looped(n, e, wild) == [] && Owned([]) == [];
    assert InboxAfter(n, e, wild) == n.inbox;
  }

  /** Why nobody else may delete the end fifos: a port is bound and its socket connects. A second bind of the port
      would end the manager loop; but once somebody has deleted the fifos it is granted, and then a close of the
      first socket brings two under one key. */
  lemma DeletedFifosClash(ip: string, disk: set<File>, port: int, dstIp: string, dstPort: int, isn: int, v: VisitEnv,
                          wild: int -> int)
    requires !IsEmptyIp(ip) && port != EMPTY_PORT && Free(disk, BoundId(ip, port)) && v.close
    requires !NoDestination(Id(ip, port, dstIp, dstPort))
    ensures var a, key := BoundId(ip, port), Id(ip, port, dstIp, dstPort);
            var bind, connect := Bind(port, 0, true, true), Connect(a, dstIp, dstPort, isn);
            && EventsOk(Fresh(ip, disk), [bind, connect], wild)
            && var n := AfterAll(Fresh(ip, disk), [bind, connect], wild);
            && n.running && !NodeAfter(n, bind, wild).running
            && var deleted := n.(disk := n.disk - Ends(a));
            && EventOk(deleted, bind)
            && var n' := NodeAfter(deleted, bind, wild);
            && n'.running && key in n'.table && ClashIn(n'.table, key, v)
  {
    var n, a, key := Fresh(ip, disk), BoundId(ip, port), Id(ip, port, dstIp, dstPort);
    var bind, connect := Bind(port, 0, true, true), Connect(a, dstIp, dstPort, isn);
    assert IsEmptyIp(EMPTY_IP) && NoDestination(a) && key != a;
    Binding(n, port, 0, wild);
    var n1 := NodeAfter(n, bind, wild);
    Connecting(n1, port, dstIp, dstPort, isn, wild);
    var n2 := NodeAfter(n1, connect, wild);
    TwoEvents(n, bind, connect, wild);
    assert !RunsOn(n2, bind);
    assert |n2.table| == 1 by {
      assert n2.table == map[key := n2.table[key]];
    }
    Binding(n2.(disk := n2.disk - Ends(a)), port, 0, wild);
  }

  // ---------------------------------------------------------------- what is left on disk

  /** A bind that fails for its fifos leaves neither on disk, even one that was there before; one that is granted
      leaves both, and one whose user cannot be told the read end only. */
  lemma BindLeaves(n: Node, port: int, now: int, osOk: bool, replyOk: bool, wild: int -> int)
    requires Keyed(n.table) && BoundId(n.ip, port) !in n.table && |n.table| < TABLE_SIZE
    ensures var a, n' := BoundId(n.ip, port), NodeAfter(n, Bind(port, now, osOk, replyOk), wild);
            var made := osOk && ReadEnd(a) !in n.disk && WriteEnd(a) !in n.disk;
            && (a in n'.table <==> made && replyOk) && (WriteEnd(a) in n'.disk <==> made && replyOk)
            && (ReadEnd(a) in n'.disk <==> made)
            && (n'.running <==> n.running && made && replyOk)
            && forall f :: f !in Ends(a) ==> (f in n'.disk <==> f in n.disk)
  {
    hide InboxAfter, NewSock, VisitIn, ReceiveIn;
  }

  /** Without fifos no connection is made. */
  lemma SpawnNeedsFifos(m: Sockets, ip: string, packet: IpPacket, wild: int -> int, w: World)
    requires Keyed(m) && !w.fifosOk
    ensures ReceiveIn(m, ip, packet, wild, w).table.Keys == m.Keys
  {
    var p := Admitted(packet, ip, wild);
    hide Admitted;
    if p.Some? {
      var key := Lookup(m, ip, packet.srcIp, p.value);
      if key.Some? {
        ResponseKeyed(m, key.value, p.value, ip, packet.srcIp, w);
        NotSpawned(m[key.value], p.value, ip, w.env.(spawnOk := false));
      }
      hide HandlePacket;
    }
  }

  lemma NotSpawned(s: Sock, p: Packet, ip: string, env: Env)
    requires s.Shaped() && !env.spawnOk
    ensures HandlePacket(s, p, ip, env).spawned.None?
  {
  }

  /** A packet makes fifos at most for one connection: both are there afterwards if the connection was spawned, or
      its user could be told of it; if they could not be made, or it could not be filed, neither is. */
  lemma PacketLeaves(n: Node, env: Env, osOk: bool, replySent: bool, wild: int -> int)
    requires Sole(n) && n.inbox != []
    ensures var packet, n' := Unframed(n.inbox[0], n.ip), NodeAfter(n, Turn(env, osOk, replySent), wild);
            var c := MakingFor(n, packet, wild);
            && (c.Nobody? ==> n'.disk == n.disk)
            && (!c.Nobody? ==>
                  && (forall f :: f !in Ends(c.id) ==> (f in n'.disk <==> f in n.disk))
                  && (!(osOk && ReadEnd(c.id) !in n.disk && WriteEnd(c.id) !in n.disk) ==> n'.disk !! Ends(c.id))
                  && (c.Spawning? && c.id in n'.table && c.id !in n.table ==> Ends(c.id) <= n'.disk)
                  && (c.Spawning? && (c.id !in n'.table || c.id in n.table) ==> n'.disk !! Ends(c.id))
                  && (c.Announcing? && osOk && ReadEnd(c.id) !in n.disk && WriteEnd(c.id) !in n.disk ==>
                        Ends(c.id) <= n'.disk))
            && n'.granted == n.granted + if c.Announcing? && c.id in n'.table && n'.table[c.id].state.Established?
                                         then {BoundId(c.id.srcIp, c.id.srcPort)} else {}
  {
    TurnMeans(n, env, osOk, replySent, wild);
    var packet := Unframed(n.inbox[0], n.ip);
    var w := WorldOf(n, packet, env, osOk, replySent, wild);
    assert w.fifosOk == Made(n, packet, osOk, wild);
    if !w.fifosOk {
      SpawnNeedsFifos(n.table, n.ip, packet, wild, w);
    }
    hide MakingFor, WorldOf, Unframed, ReceiveIn, NodeAfter, SoleIn;
  }
}
