/** The manager's table as a map from ids to socket values, and what its calls make of it. */
module ManagerModel {
  import opened Common
  import opened Packets
  import opened SocketModel
  import opened IpWire
  import opened Framing
  import opened SocketObject
  import opened SocketTable
  import opened NetworkManager

  type Sockets = map<Id, Sock>

  /** Every value stands under its own id. */
  predicate Keyed(m: Sockets) {
    forall k :: k in m ==> m[k].id == k && m[k].Shaped()
  }

  /** The two lookups of handle_incoming_ip_packet. */
  function Lookup(m: Sockets, ip: string, srcIp: string, p: Packet): Option<Id> {
    var key, bound := PacketKey(ip, srcIp, p), BoundId(ip, p.dstPort);
    if key in m then Some(key) else if bound in m then Some(bound) else None
  }

  /** What the handlers make of a packet for the socket under a key. */
  function AnswerIn(m: Sockets, key: Id, p: Packet, ip: string, w: World): Outcome
    requires key in m && m[key].Shaped()
  {
    HandlePacket(m[key], p, ip,
                 w.env.(spawnOk := w.fifosOk && |m| < TABLE_SIZE && SpawnKey(m[key].id, ip, p) !in m))
  }

  /** The table after a call, the packets that left, and the bytes written to a reader. */
  datatype Effect = Effect(table: Sockets, sent: seq<Packet>, written: string)

  /** handle_incoming_ip_packet */
  function ReceiveIn(m: Sockets, ip: string, packet: IpPacket, wild: int -> int, w: World): (e: Effect)
    requires Keyed(m)
    ensures Keyed(e.table)
  {
    var a := Admitted(packet, ip, wild);
    if a.None? then Effect(m, [], "") else DispatchIn(m, ip, packet.srcIp, a.value, w)
  }

  function DispatchIn(m: Sockets, ip: string, srcIp: string, p: Packet, w: World): (e: Effect)
    requires Keyed(m)
    ensures Keyed(e.table)
  {
    var key := Lookup(m, ip, srcIp, p);
    if key.None? then Effect(m, [], "")
    else
      var r := ResponseIn(m, key.value, p, ip, srcIp, w);
      ResponseKeyed(m, key.value, p, ip, srcIp, w);
      var m' := m[key.value := r.sock];
      Effect(if r.spawned.None? then m' else m'[SpawnKey(key.value, ip, p) := r.spawned.value], r.replied, r.written)
  }

  /** What handling makes of the socket under a key. */
  function ResponseIn(m: Sockets, key: Id, p: Packet, ip: string, srcIp: string, w: World): Response
    requires key in m && m[key].Shaped()
  {
    var o := AnswerIn(m, key, p, ip, w);
    var leaves := w.replySent && PacketKey(ip, srcIp, p) in m && !IsEmptyIp(srcIp);
    Response(AfterReply(o, leaves, w.env.now), if o.reply.Some? && leaves then [o.reply.value] else [],
             o.written, o.spawned)
  }

  /** Handlers leave a socket's id alone, and a connection is made under its free key. */
  lemma ResponseKeyed(m: Sockets, key: Id, p: Packet, ip: string, srcIp: string, w: World)
    requires key in m && m[key].Shaped()
    ensures var r := ResponseIn(m, key, p, ip, srcIp, w);
            && r.sock.id == m[key].id && r.sock.Shaped()
            && (r.spawned.Some? ==>
                  && r.spawned.value.Shaped() && r.spawned.value.id == SpawnKey(m[key].id, ip, p)
                  && SpawnKey(m[key].id, ip, p) !in m)
  {
    var env := w.env.(spawnOk := w.fifosOk && |m| < TABLE_SIZE && SpawnKey(m[key].id, ip, p) !in m);
    PacketDescends(m[key], p, ip, env);
    IdsStay(m[key], p, ip, env);
  }

  lemma IdsStay(s: Sock, p: Packet, ip: string, env: Env)
    requires s.Shaped()
    ensures var o := HandlePacket(s, p, ip, env);
            && o.sock.id == s.id
            && (o.spawned.Some? ==>
                  o.spawned.value.id == SpawnKey(s.id, ip, p) && o.spawned.value.Shaped() && env.spawnOk)
  {
  }

  /** handle_socket_in_network for the socket under a key, where the close command leaves the table a map. */
  function VisitIn(m: Sockets, key: Id, env: VisitEnv): (e: Effect)
    requires Keyed(m) && key in m
    ensures Keyed(e.table)
  {
    var (s, removed, sent) := VisitSock(m[key], env);
    VisitShaped(m[key], env);
    Effect(if removed then m - {key} else (m - {key})[s.id := s], sent, "")
  }

  /** handle_bind_request: the address must be free, the table have room and the fifos be made. */
  predicate Binds(m: Sockets, ip: string, port: int, fifosOk: bool) {
    BoundId(ip, port) !in m && |m| < TABLE_SIZE && fifosOk
  }

  /** A socket whose user cannot be told does not stay. */
  function BindIn(m: Sockets, ip: string, port: int, now: int, fifosOk: bool, replyOk: bool): (e: Effect)
    requires Keyed(m)
    ensures Keyed(e.table)
  {
    var key := BoundId(ip, port);
    Effect(if Binds(m, ip, port, fifosOk) && replyOk then m[key := NewSock(key, Closed, now)] else m, [], "")
  }

  /** check_and_handle_listen_request, for sockets without a destination. */
  function ListenIn(m: Sockets, key: Id, limit: int, acceptFifoOk: bool, replyOk: bool): (e: Effect)
    requires Keyed(m)
    ensures Keyed(e.table)
  {
    if key in m && Kind(key).BoundOnlySocket? && !m[key].state.Listen?
    then Effect(m[key := ListenCommand(m[key], limit, acceptFifoOk, replyOk)], [], "") else Effect(m, [], "")
  }

  /** check_and_handle_connect_request is granted: only a closed socket without a destination connects, and only to a
      free key. */
  predicate Connects(m: Sockets, key: Id, dstIp: string, dstPort: int) {
    && key in m && Kind(key).BoundOnlySocket? && m[key].state.Closed?
    && key.(dstIp := dstIp, dstPort := dstPort) !in m
  }

  function ConnectIn(m: Sockets, key: Id, dstIp: string, dstPort: int, isn: int): (e: Effect)
    requires Keyed(m)
    ensures Keyed(e.table)
  {
    if !Connects(m, key, dstIp, dstPort) then Effect(m, [], "")
    else
      var s := ConnectCommand(m[key], dstIp, dstPort, isn);
      Effect((m - {key})[s.id := s], [], "")
  }

  /** A visit changes an id only by closing a connecting socket. */
  lemma VisitShaped(s: Sock, env: VisitEnv)
    requires s.Shaped()
    ensures var s' := VisitSock(s, env).0;
            && s'.Shaped()
            && s'.id == if env.close && s.state.SynSent? then BoundId(s.id.srcIp, s.id.srcPort) else s.id
  {
  }

  /** The close command would bring the socket under a key that another one holds. */
  predicate ClashIn(m: Sockets, key: Id, env: VisitEnv)
    requires key in m
  {
    env.close && m[key].state.SynSent? && BoundId(key.srcIp, key.srcPort) in m - {key}
  }

  /** One call: a user's request to bind, to listen or to connect, a visit to the socket under a key, or an ip packet
      that arrives. */
  datatype Call =
    | BindCall(port: int, now: int, fifosOk: bool, replyOk: bool)
    | ListenCall(key: Id, limit: int, acceptFifoOk: bool, replyOk: bool)
    | ConnectCall(key: Id, dstIp: string, dstPort: int, isn: int)
    | VisitCall(key: Id, visit: VisitEnv)
    | ReceiveCall(packet: IpPacket, world: World)

  function EffectOf(m: Sockets, ip: string, call: Call, wild: int -> int): (e: Effect)
    requires Keyed(m)
    ensures Keyed(e.table)
  {
    match call
    case BindCall(port, now, fifosOk, replyOk) => BindIn(m, ip, port, now, fifosOk, replyOk)
    case ListenCall(key, limit, acceptFifoOk, replyOk) => ListenIn(m, key, limit, acceptFifoOk, replyOk)
    case ConnectCall(key, dstIp, dstPort, isn) => ConnectIn(m, key, dstIp, dstPort, isn)
    case VisitCall(key, v) => if key in m then VisitIn(m, key, v) else Effect(m, [], "")
    case ReceiveCall(packet, w) => ReceiveIn(m, ip, packet, wild, w)
  }

  /** The socket whose reader a call writes to. */
  function ReaderOf(m: Sockets, ip: string, call: Call, wild: int -> int): Option<Id> {
    if !call.ReceiveCall? then None
    else
      var p := Admitted(call.packet, ip, wild);
      if p.None? then None else Lookup(m, ip, call.packet.srcIp, p.value)
  }

  function TableAfter(m: Sockets, ip: string, calls: seq<Call>, wild: int -> int): (t: Sockets)
    requires Keyed(m)
    ensures Keyed(t)
    decreases |calls|
  {
    if calls == [] then m else TableAfter(EffectOf(m, ip, calls[0], wild).table, ip, calls[1..], wild)
  }

  /** The bytes one call writes, and to whose reader. */
  datatype Line = Line(reader: Option<Id>, written: string)

  function LogOf(m: Sockets, ip: string, calls: seq<Call>, wild: int -> int): seq<Line>
    requires Keyed(m)
    decreases |calls|
  {
    if calls == [] then []
    else
      var e := EffectOf(m, ip, calls[0], wild);
      [Line(ReaderOf(m, ip, calls[0], wild), e.written)] + LogOf(e.table, ip, calls[1..], wild)
  }

  /** The packets each call sends. */
  predicate SentBy(m: Sockets, ip: string, calls: seq<Call>, wild: int -> int, sent: seq<seq<Packet>>)
    requires Keyed(m)
  {
    && |sent| == |calls|
    && forall i :: 0 <= i < |calls| ==>
         sent[i] == EffectOf(TableAfter(m, ip, calls[..i], wild), ip, calls[i], wild).sent
  }

  /** All that a log says was written to one reader. */
  function BytesFor(log: seq<Line>, key: Id): string {
    if log == [] then "" else (if log[0].reader == Some(key) then log[0].written else "") + BytesFor(log[1..], key)
  }

  lemma {:induction false} LogNext(m: Sockets, ip: string, calls: seq<Call>, wild: int -> int, i: nat)
    requires Keyed(m) && i < |calls|
    ensures var t := TableAfter(m, ip, calls[..i], wild);
            LogOf(m, ip, calls[..i + 1], wild) ==
            LogOf(m, ip, calls[..i], wild)
            + [Line(ReaderOf(t, ip, calls[i], wild), EffectOf(t, ip, calls[i], wild).written)]
    decreases i
  {
    hide EffectOf, ReaderOf;
    if i > 0 {
      LogNext(EffectOf(m, ip, calls[0], wild).table, ip, calls[1..], wild, i - 1);
      assert calls[1..][..i] == calls[..i + 1][1..] && calls[1..][..i - 1] == calls[..i][1..];
    } else {
      assert calls[..1][1..] == [];
    }
  }

  predicate KeepsMap(m: Sockets, call: Call) {
    call.VisitCall? && call.key in m ==> !ClashIn(m, call.key, call.visit)
  }

  /** No call leaves two sockets under one key. */
  predicate KeepMap(m: Sockets, ip: string, calls: seq<Call>, wild: int -> int)
    requires Keyed(m)
    decreases |calls|
  {
    calls == [] || (KeepsMap(m, calls[0]) && KeepMap(EffectOf(m, ip, calls[0], wild).table, ip, calls[1..], wild))
  }

  lemma {:induction false} TableNext(m: Sockets, ip: string, calls: seq<Call>, wild: int -> int, i: nat)
    requires Keyed(m) && i < |calls| && KeepMap(m, ip, calls, wild)
    ensures var t := TableAfter(m, ip, calls[..i], wild);
            && TableAfter(m, ip, calls[..i + 1], wild) == EffectOf(t, ip, calls[i], wild).table
            && KeepsMap(t, calls[i])
    decreases i
  {
    hide EffectOf, KeepsMap;
    if i > 0 {
      TableNext(EffectOf(m, ip, calls[0], wild).table, ip, calls[1..], wild, i - 1);
      assert calls[1..][..i] == calls[..i + 1][1..] && calls[1..][..i - 1] == calls[..i][1..];
    } else {
      assert calls[..1][1..] == [];
    }
  }

  // ---------------------------------------------------------------- the object computes the model

  /** The values of the sockets in a table. */
  ghost function Views(mgr: Manager): (views: map<Socket, Sock>)
    reads mgr.sockets, set s, o | s in mgr.sockets.members && o in s.Repr :: o
    requires Proper(mgr.sockets.members)
    ensures views.Keys == mgr.sockets.members
  {
    map s | s in mgr.sockets.members :: s.View()
  }

  /** The map of values and the values of the sockets are the same thing. */
  ghost predicate Lists(m: Sockets, views: map<Socket, Sock>) {
    && (forall s :: s in views ==> views[s].id in m && m[views[s].id] == views[s] && views[s].Shaped())
    && (forall k :: k in m ==> exists s :: s in views && views[s].id == k)
    && (forall s, t :: s in views && t in views && views[s].id == views[t].id ==> s == t)
  }

  /** The table of a manager, as values. */
  ghost predicate Shows(mgr: Manager, m: Sockets)
    reads mgr.Table(), mgr.sockets.Ids(), mgr.sockets.members
    reads set s, o | s in mgr.sockets.members && o in s.Repr :: o
  {
    mgr.Valid() && Lists(m, Views(mgr))
  }

  lemma ListedIsKeyed(m: Sockets, views: map<Socket, Sock>)
    requires Lists(m, views)
    ensures Keyed(m)
  {
  }

  lemma ListsUpdated(m: Sockets, views: map<Socket, Sock>, target: Socket, v: Sock)
    requires Lists(m, views) && target in views && v.id == views[target].id && v.Shaped()
    ensures Lists(m[v.id := v], views[target := v])
  {
    var views' := views[target := v];
    var m' := m[v.id := v];
    forall k | k in m' ensures exists s :: s in views' && views'[s].id == k {
      var s: Socket :| s in views && views[s].id == k;
      assert views'[s].id == k;
    }
  }

  lemma ListsAdded(m: Sockets, views: map<Socket, Sock>, spawned: Socket, v: Sock)
    requires Lists(m, views) && spawned !in views && v.id !in m && v.Shaped()
    ensures Lists(m[v.id := v], views[spawned := v])
  {
    var views' := views[spawned := v];
    var m' := m[v.id := v];
    forall k | k in m' ensures exists s :: s in views' && views'[s].id == k {
      if k == v.id {
        assert views'[spawned].id == k;
      } else {
        var s: Socket :| s in views && views[s].id == k;
        assert views'[s].id == k;
      }
    }
  }

  lemma ListsErased(m: Sockets, views: map<Socket, Sock>, gone: Socket)
    requires Lists(m, views) && gone in views
    ensures Lists(m - {views[gone].id}, views - {gone})
  {
    var views' := views - {gone};
    var m' := m - {views[gone].id};
    forall k | k in m' ensures exists s :: s in views' && views'[s].id == k {
      var s: Socket :| s in views && views[s].id == k;
      assert views'[s].id == k;
    }
  }

  /** Lookups in the object and in the model agree. */
  lemma ShownContents(mgr: Manager, m: Sockets)
    requires Shows(mgr, m)
    ensures m.Keys == mgr.sockets.Contents().Keys && |m| == |mgr.sockets.Contents()|
    ensures var t, views := mgr.sockets.Contents(), Views(mgr);
            forall k :: k in m ==> t[k] in views && views[t[k]] == m[k] && m[k].id == k
  {
    mgr.sockets.ContentsAreMembers();
    var t := mgr.sockets.Contents();
    assert forall k :: k in t ==> t[k] in mgr.sockets.members && Views(mgr)[t[k]].id == k;
    assert m.Keys == t.Keys;
    assert |m| == |m.Keys| && |t| == |t.Keys|;
  }

  lemma ListsBuilt(t: map<Id, Socket>, views: map<Socket, Sock>) returns (m: Sockets)
    requires forall k :: k in t ==> t[k] in views && views[t[k]].id == k
    requires forall s :: s in views ==> views[s].Shaped() && views[s].id in t && t[views[s].id] == s
    ensures Lists(m, views)
  {
    m := map k | k in t :: views[t[k]];
    forall k | k in m ensures exists s :: s in views && views[s].id == k {
      assert views[t[k]].id == k;
    }
  }

  /** Every manager shows a table. */
  lemma ShowsSome(mgr: Manager) returns (m: Sockets)
    requires mgr.Valid()
    ensures Shows(mgr, m)
  {
    mgr.sockets.ContentsAreMembers();
    var t, views := mgr.sockets.Contents(), Views(mgr);
    hide HashMap.Contents, HashMap.Slots, HashMap.Filed, HashMap.Aligned, UniqueIds, Separate, Lists;
    assert forall s :: s in views ==> views[s].id == s.id.View();
    m := ListsBuilt(t, views);
  }

  /** The socket a packet goes to stands under the key the lookups find. */
  lemma LookupIsTarget(t: map<Id, Socket>, m: Sockets, ip: string, srcIp: string, p: Packet)
    requires m.Keys == t.Keys
    ensures var target, key := Target(t, ip, srcIp, p), Lookup(m, ip, srcIp, p);
            && (target == null <==> key.None?) && (target != null ==> key.value in m && target == t[key.value])
  {
  }

  lemma ResponsesAgree(t: map<Id, Socket>, m: Sockets, key: Id, p: Packet, ip: string, srcIp: string, w: World)
    requires m.Keys == t.Keys && |m| == |t| && key in m && m[key].Shaped()
    ensures ResponseTo(m[key], p, ip, srcIp, w, t) == ResponseIn(m, key, p, ip, srcIp, w)
  {
    hide HandlePacket;
  }

  /** What Receive's contract says, in terms of values. */
  lemma EffectShown(m: Sockets, views: map<Socket, Sock>, ip: string, srcIp: string, p: Packet, w: World,
                    target: Socket, spawned: Socket?, views': map<Socket, Sock>)
    requires Lists(m, views) && target in views && Lookup(m, ip, srcIp, p) == Some(views[target].id)
    requires var r := ResponseIn(m, views[target].id, p, ip, srcIp, w);
             && (spawned == null <==> r.spawned.None?) && (spawned != null ==> spawned !in views)
             && views' == if spawned == null then views[target := r.sock]
                          else views[target := r.sock][spawned := r.spawned.value]
    ensures Keyed(m) && Lists(DispatchIn(m, ip, srcIp, p, w).table, views')
    ensures ResponseIn(m, views[target].id, p, ip, srcIp, w).sock.id == views[target].id
  {
    var key := views[target].id;
    var r := ResponseIn(m, key, p, ip, srcIp, w);
    ResponseKeyed(m, key, p, ip, srcIp, w);
    hide ResponseIn;
    ListsUpdated(m, views, target, r.sock);
    if spawned != null {
      ListsAdded(m[key := r.sock], views[target := r.sock], spawned, r.spawned.value);
    }
  }

  lemma ViewsMean(mgr: Manager)
    requires Proper(mgr.sockets.members)
    ensures forall s :: s in mgr.sockets.members ==> s in Views(mgr) && Views(mgr)[s] == s.View()
  {
  }

  lemma ViewsSame(mgr: Manager, views: map<Socket, Sock>)
    requires Proper(mgr.sockets.members) && mgr.sockets.members == views.Keys
    requires forall s :: s in views ==> s.View() == views[s]
    ensures Views(mgr) == views
  {
  }

  /** Views after a step that changed one socket and added one at most. */
  lemma ViewsAre(mgr: Manager, views: map<Socket, Sock>, target: Socket, spawned: Socket?)
    requires Proper(mgr.sockets.members) && target in views
    requires if spawned == null then mgr.sockets.members == views.Keys
             else mgr.sockets.members == views.Keys + {spawned}
    requires forall s :: s in views && s != target && s != spawned ==> s.View() == views[s]
    ensures var next := views[target := target.View()];
            Views(mgr) == if spawned == null then next else next[spawned := spawned.View()]
  {
  }

  /** Views after a step that changed one socket. */
  lemma ViewsChanged(mgr: Manager, views: map<Socket, Sock>, sock: Socket)
    requires Proper(mgr.sockets.members) && sock in views && mgr.sockets.members == views.Keys
    requires forall s :: s in views && s != sock ==> s.View() == views[s]
    ensures sock in mgr.sockets.members && Views(mgr) == views[sock := sock.View()]
  {
  }

  /** Views after a step that removed one. */
  lemma ViewsWithout(mgr: Manager, views: map<Socket, Sock>, sock: Socket)
    requires Proper(mgr.sockets.members) && mgr.sockets.members == views.Keys - {sock}
    requires forall s :: s in views && s != sock ==> s.View() == views[s]
    ensures Views(mgr) == views - {sock}
  {
  }

  /** What the model expects of a packet, against the table as it is. */
  lemma Expected(mgr: Manager, m: Sockets, packet: IpPacket, wild: int -> int, w: World)
    returns (target: Socket?, key: Id, r: Response)
    requires Shows(mgr, m)
    ensures Keyed(m)
    ensures var a := Admitted(packet, mgr.ip, wild);
            target == if a.Some? then Target(mgr.sockets.Contents(), mgr.ip, packet.srcIp, a.value) else null
    ensures target == null ==> ReceiveIn(m, mgr.ip, packet, wild, w) == Effect(m, [], "")
    ensures ReaderOf(m, mgr.ip, ReceiveCall(packet, w), wild) == if target == null then None else Some(key)
    ensures target != null ==>
              && target in Views(mgr) && Views(mgr)[target].id == key && Views(mgr)[target].Shaped()
              && Admitted(packet, mgr.ip, wild).Some?
              && var p := Admitted(packet, mgr.ip, wild).value;
              && Lookup(m, mgr.ip, packet.srcIp, p) == Some(key) && key in m && m[key].Shaped()
              && r == ResponseIn(m, key, p, mgr.ip, packet.srcIp, w)
              && r == ResponseTo(Views(mgr)[target], p, mgr.ip, packet.srcIp, w, mgr.sockets.Contents())
              && ReceiveIn(m, mgr.ip, packet, wild, w) ==
                 Effect(DispatchIn(m, mgr.ip, packet.srcIp, p, w).table, r.replied, r.written)
  {
    ListedIsKeyed(m, Views(mgr));
    ShownContents(mgr, m);
    var a := Admitted(packet, mgr.ip, wild);
    target, key, r := null, BoundId(mgr.ip, 0), *;
    hide HashMap.Contents, HashMap.Filed, HashMap.Slots, UniqueIds, Separate, Lists, AnswerIn, Answer, Admitted;
    if a.Some? {
      var t := mgr.sockets.Contents();
      LookupIsTarget(t, m, mgr.ip, packet.srcIp, a.value);
      target := Target(t, mgr.ip, packet.srcIp, a.value);
      var k := Lookup(m, mgr.ip, packet.srcIp, a.value);
      hide Lookup, Target;
      if k.Some? {
        key := k.value;
        ResponsesAgree(t, m, key, a.value, mgr.ip, packet.srcIp, w);
        r := ResponseIn(m, key, a.value, mgr.ip, packet.srcIp, w);
      }
    }
  }

  /** handle_incoming_ip_packet, as far as the values of the sockets go. */
  method ReceiveViews(mgr: Manager, packet: IpPacket, wild: int -> int, w: World, ghost views: map<Socket, Sock>)
    returns (ok: bool, target: Socket?, replied: seq<Packet>, written: string, ghost spawned: Socket?)
    requires mgr.Valid() && views == Views(mgr)
    modifies mgr.sockets`numberOfSockets, mgr.sockets`members, mgr.sockets.table, mgr.sockets.socketId
    modifies set s, o | s in mgr.sockets.members && o in s.Repr :: o
    ensures mgr.Valid() && (ok <==> !IsError(packet, mgr.ip, wild))
    ensures var a := Admitted(packet, mgr.ip, wild);
            target == if a.Some? then old(Target(mgr.sockets.Contents(), mgr.ip, packet.srcIp, a.value)) else null
    ensures target == null ==> Views(mgr) == views && replied == [] && written == ""
    ensures target != null ==>
              && Admitted(packet, mgr.ip, wild).Some? && target in views && target.Valid()
              && views[target].Shaped() && (spawned != null ==> spawned !in views && spawned.Valid())
              && Response(target.View(), replied, written, if spawned == null then None else Some(spawned.View())) ==
                 ResponseTo(views[target], Admitted(packet, mgr.ip, wild).value, mgr.ip, packet.srcIp, w,
                            old(mgr.sockets.Contents()))
              && var next := views[target := target.View()];
              && Views(mgr) == if spawned == null then next else next[spawned := spawned.View()]
    ensures forall s :: s in mgr.sockets.members ==> s in old(mgr.sockets.members) || fresh(s.Repr)
  {
    ViewsMean(mgr);
    hide HashMap.Contents, HashMap.Valid, HashMap.Filed, HashMap.Slots, HashMap.Ids, Separate;
    hide ResponseTo, Target, Admitted, Views, IsError;
    ok, target, replied, written, spawned := mgr.Receive(packet, wild, w);
    assert forall s :: s in views && s != target ==> s in mgr.sockets.members && s.View() == views[s];
    if target == null {
      ViewsSame(mgr, views);
    } else {
      ViewsAre(mgr, views, target, spawned);
    }
  }

  /** handle_incoming_ip_packet computes the model's effect. */
  method Receive(mgr: Manager, ghost m: Sockets, packet: IpPacket, wild: int -> int, w: World)
    returns (ok: bool, replied: seq<Packet>, written: string, reader: Option<Id>)
    requires Shows(mgr, m)
    modifies mgr.sockets`numberOfSockets, mgr.sockets`members, mgr.sockets.table, mgr.sockets.socketId
    modifies set s, o | s in mgr.sockets.members && o in s.Repr :: o
    ensures Keyed(m) && Shows(mgr, ReceiveIn(m, mgr.ip, packet, wild, w).table)
    ensures replied == ReceiveIn(m, mgr.ip, packet, wild, w).sent
    ensures written == ReceiveIn(m, mgr.ip, packet, wild, w).written
    ensures reader == ReaderOf(m, mgr.ip, ReceiveCall(packet, w), wild)
    ensures ok <==> !IsError(packet, mgr.ip, wild)
    ensures forall s :: s in mgr.sockets.members ==> s in old(mgr.sockets.members) || fresh(s.Repr)
  {
    ghost var views := Views(mgr);
    ghost var aim, key, r := Expected(mgr, m, packet, wild, w);
    hide HashMap.Contents, HashMap.Valid, HashMap.Filed, HashMap.Slots, HashMap.Ids, Separate, Proper;
    hide ResponseTo, ResponseIn, Lookup, Target, Admitted, Lists, Views, IsError, ReceiveIn, DispatchIn, ReaderOf;
    var target;
    ghost var spawned;
    ok, target, replied, written, spawned := ReceiveViews(mgr, packet, wild, w, views);
    reader := None;
    if target != null {
      EffectShown(m, views, mgr.ip, packet.srcIp, Admitted(packet, mgr.ip, wild).value, w, target, spawned, Views(mgr));
      assert target.View().id == key;
      reader := Some(target.id.View());
    }
  }

  lemma ListsRekeyed(m: Sockets, views: map<Socket, Sock>, sock: Socket, v: Sock)
    requires Lists(m, views) && sock in views && v.Shaped() && v.id !in m - {views[sock].id}
    ensures Lists((m - {views[sock].id})[v.id := v], views[sock := v])
  {
    ListsErased(m, views, sock);
    ListsAdded(m - {views[sock].id}, views - {sock}, sock, v);
    assert (views - {sock})[sock := v] == views[sock := v];
  }

  /** handle_socket_in_network where no keys clash. */
  method VisitAlone(mgr: Manager, sock: Socket, env: VisitEnv) returns (removed: bool, sent: seq<Packet>)
    requires mgr.Valid() && sock in mgr.sockets.members && !Clashes(sock.View(), env, mgr.sockets.Contents())
    modifies mgr.sockets`numberOfSockets, mgr.sockets`members, mgr.sockets.table, mgr.sockets.socketId
    modifies set s, o | s in mgr.sockets.members && o in s.Repr :: o
    ensures mgr.Valid() && sock.Valid() && (sock.View(), removed, sent) == VisitSock(old(sock.View()), env)
    ensures mgr.sockets.members == if removed then old(mgr.sockets.members) - {sock} else old(mgr.sockets.members)
    ensures forall s :: s in mgr.sockets.members && s != sock ==> s.View() == old(s.View())
  {
    hide HashMap.Contents, HashMap.Valid, HashMap.Filed, HashMap.Slots, HashMap.Ids, Separate, VisitSock, ServeSock;
    hide Clashes;
    var served;
    removed, sent, served := mgr.Visit(sock, env);
  }

  /** handle_socket_in_network computes the model's effect. */
  method Visit(mgr: Manager, ghost m: Sockets, sock: Socket, env: VisitEnv) returns (sent: seq<Packet>)
    requires Shows(mgr, m) && sock in mgr.sockets.members
    requires sock.id.View() in m && !ClashIn(m, sock.id.View(), env)
    modifies mgr.sockets`numberOfSockets, mgr.sockets`members, mgr.sockets.table, mgr.sockets.socketId
    modifies set s, o | s in mgr.sockets.members && o in s.Repr :: o
    ensures Keyed(m) && Shows(mgr, VisitIn(m, old(sock.id.View()), env).table)
    ensures sent == VisitIn(m, old(sock.id.View()), env).sent
    ensures mgr.sockets.members <= old(mgr.sockets.members)
  {
    ghost var views := Views(mgr);
    BeforeVisit(mgr, m, sock, env);
    hide HashMap.Contents, HashMap.Valid, HashMap.Filed, HashMap.Slots, HashMap.Ids, Separate;
    hide VisitSock, Lists, Clashes, ClashIn, Views, VisitIn;
    var removed;
    removed, sent := VisitAlone(mgr, sock, env);
    if removed {
      ViewsWithout(mgr, views, sock);
    } else {
      ViewsChanged(mgr, views, sock);
    }
    VisitShown(m, views, sock, env, Views(mgr));
  }

  lemma BeforeVisit(mgr: Manager, m: Sockets, sock: Socket, env: VisitEnv)
    requires Shows(mgr, m) && sock in mgr.sockets.members
    requires sock.id.View() in m && !ClashIn(m, sock.id.View(), env)
    ensures Keyed(m) && !Clashes(sock.View(), env, mgr.sockets.Contents())
    ensures Views(mgr)[sock] == sock.View() == m[sock.id.View()] && sock.View().id == sock.id.View()
    ensures VisitIn(m, sock.id.View(), env).sent == VisitSock(sock.View(), env).2
    ensures forall s :: s in mgr.sockets.members ==> s in Views(mgr) && Views(mgr)[s] == s.View()
  {
    ListedIsKeyed(m, Views(mgr));
    ShownContents(mgr, m);
    hide HashMap.Contents, HashMap.Filed, HashMap.Slots, UniqueIds, Separate, VisitSock;
    assert Views(mgr)[sock].id == sock.id.View();
  }

  lemma VisitShown(m: Sockets, views: map<Socket, Sock>, sock: Socket, env: VisitEnv, views': map<Socket, Sock>)
    requires Lists(m, views) && sock in views && views[sock].id in m && !ClashIn(m, views[sock].id, env)
    requires var (v, removed, sent) := VisitSock(views[sock], env);
             views' == if removed then views - {sock} else views[sock := v]
    ensures Keyed(m) && Lists(VisitIn(m, views[sock].id, env).table, views')
  {
    ListedIsKeyed(m, views);
    VisitShaped(views[sock], env);
    hide VisitSock;
    ListsErased(m, views, sock);
    if !VisitSock(views[sock], env).1 {
      ListsRekeyed(m, views, sock, VisitSock(views[sock], env).0);
    }
  }

  /** check_and_handle_connect_request computes the model's effect. */
  method Connect(mgr: Manager, ghost m: Sockets, sock: Socket, dstIp: string, dstPort: int, isn: int)
    requires Shows(mgr, m) && Keyed(m) && sock in mgr.sockets.members
    modifies mgr.sockets`numberOfSockets, mgr.sockets`members, mgr.sockets.table, mgr.sockets.socketId, sock, sock.id
    ensures Shows(mgr, ConnectIn(m, old(sock.id.View()), dstIp, dstPort, isn).table)
    ensures mgr.sockets.members == old(mgr.sockets.members)
  {
    ghost var views := Views(mgr);
    BeforeConnect(mgr, m, sock);
    hide HashMap.Contents, HashMap.Valid, HashMap.Filed, HashMap.Slots, HashMap.Ids, Separate, Lists, Views;
    hide ConnectIn, ConnectCommand, Kind;
    ghost var grants := Connects(m, sock.id.View(), dstIp, dstPort);
    var done := mgr.Connect(sock, dstIp, dstPort, isn);
    assert done == grants;
    hide Connects;
    assert sock.View() == if grants then ConnectCommand(views[sock], dstIp, dstPort, isn) else views[sock];
    ViewsChanged(mgr, views, sock);
    ConnectShown(m, views, sock, dstIp, dstPort, isn, Views(mgr));
  }

  lemma BeforeConnect(mgr: Manager, m: Sockets, sock: Socket)
    requires Shows(mgr, m) && sock in mgr.sockets.members
    ensures sock.id.View() in m && m.Keys == mgr.sockets.Contents().Keys
    ensures Views(mgr)[sock] == sock.View() == m[sock.id.View()] && sock.View().id == sock.id.View()
    ensures forall s :: s in mgr.sockets.members ==> s in Views(mgr) && Views(mgr)[s] == s.View()
  {
    ShownContents(mgr, m);
    assert Views(mgr)[sock].id == sock.id.View();
    hide HashMap.Contents, HashMap.Filed, HashMap.Slots, UniqueIds, Separate;
  }

  lemma ConnectShown(m: Sockets, views: map<Socket, Sock>, sock: Socket, dstIp: string, dstPort: int, isn: int,
                     views': map<Socket, Sock>)
    requires Lists(m, views) && Keyed(m) && sock in views
    requires var key := views[sock].id;
             views' == views[sock := if Connects(m, key, dstIp, dstPort)
                                     then ConnectCommand(m[key], dstIp, dstPort, isn) else views[sock]]
    ensures Lists(ConnectIn(m, views[sock].id, dstIp, dstPort, isn).table, views')
  {
    var key := views[sock].id;
    if Connects(m, key, dstIp, dstPort) {
      ListsRekeyed(m, views, sock, ConnectCommand(m[key], dstIp, dstPort, isn));
    } else {
      assert views' == views;
    }
  }

  /** The socket under a key, found by the table's own lookup. */
  method Find(mgr: Manager, ghost m: Sockets, key: Id) returns (s: Socket?)
    requires Shows(mgr, m)
    ensures Shows(mgr, m) && mgr.sockets.members == old(mgr.sockets.members)
    ensures s == null <==> key !in m
    ensures s != null ==> s in mgr.sockets.members && s.Valid() && s.id.View() == key
  {
    ghost var views := Views(mgr);
    ShownContents(mgr, m);
    ViewsMean(mgr);
    hide HashMap.Contents, HashMap.Valid, HashMap.Filed, HashMap.Slots, HashMap.Ids, Separate, Lists, Views;
    s := mgr.Find(key);
    ViewsSame(mgr, views);
  }

  /** handle_bind_request computes the model's effect. */
  method Bind(mgr: Manager, ghost m: Sockets, port: int, now: int, fifosOk: bool, replyOk: bool) returns (goesOn: bool)
    requires Shows(mgr, m) && Keyed(m)
    modifies mgr.sockets`numberOfSockets, mgr.sockets`members, mgr.sockets.table, mgr.sockets.socketId
    ensures Shows(mgr, BindIn(m, mgr.ip, port, now, fifosOk, replyOk).table)
    ensures goesOn <==> replyOk && (BoundId(mgr.ip, port) in m || Binds(m, mgr.ip, port, fifosOk))
    ensures forall s :: s in mgr.sockets.members ==> s in old(mgr.sockets.members) || fresh(s.Repr)
  {
    ghost var views := Views(mgr);
    ghost var key := BoundId(mgr.ip, port);
    ShownContents(mgr, m);
    ViewsMean(mgr);
    hide HashMap.Contents, HashMap.Valid, HashMap.Filed, HashMap.Slots, HashMap.Ids, Separate, Lists, Views;
    goesOn := mgr.HandleBind(port, now, fifosOk, replyOk);
    if Binds(m, mgr.ip, port, fifosOk) && replyOk {
      ghost var made := mgr.sockets.Contents()[key];
      ViewsAdd(mgr, views, made);
      ListsAdded(m, views, made, NewSock(key, Closed, now));
    } else {
      ViewsSame(mgr, views);
    }
  }

  lemma ViewsAdd(mgr: Manager, views: map<Socket, Sock>, made: Socket)
    requires Proper(mgr.sockets.members) && mgr.sockets.members == views.Keys + {made} && made !in views
    requires forall s :: s in views ==> s.View() == views[s]
    ensures Views(mgr) == views[made := made.View()]
  {
  }

  /** check_and_handle_listen_request computes the model's effect. */
  method Listen(mgr: Manager, ghost m: Sockets, sock: Socket, limit: int, acceptFifoOk: bool, replyOk: bool)
    requires Shows(mgr, m) && Keyed(m) && sock in mgr.sockets.members
    modifies sock
    ensures Shows(mgr, ListenIn(m, old(sock.id.View()), limit, acceptFifoOk, replyOk).table)
    ensures mgr.sockets.members == old(mgr.sockets.members)
  {
    ghost var views := Views(mgr);
    BeforeConnect(mgr, m, sock);
    hide HashMap.Contents, HashMap.Valid, HashMap.Filed, HashMap.Slots, HashMap.Ids, Separate, Lists, Views, ListenIn;
    hide ListenCommand;
    mgr.Listen(sock, limit, acceptFifoOk, replyOk);
    ViewsChanged(mgr, views, sock);
    ListenShown(m, views, sock, limit, acceptFifoOk, replyOk, Views(mgr));
  }

  lemma ListenShown(m: Sockets, views: map<Socket, Sock>, sock: Socket, limit: int, acceptFifoOk: bool, replyOk: bool,
                    views': map<Socket, Sock>)
    requires Lists(m, views) && Keyed(m) && sock in views
    requires var s := views[sock];
             views' == views[sock := if Kind(s.id).BoundOnlySocket? && !s.state.Listen?
                                     then ListenCommand(s, limit, acceptFifoOk, replyOk) else s]
    ensures Lists(ListenIn(m, views[sock].id, limit, acceptFifoOk, replyOk).table, views')
  {
    var s := views[sock];
    if Kind(s.id).BoundOnlySocket? && !s.state.Listen? {
      ListsUpdated(m, views, sock, ListenCommand(s, limit, acceptFifoOk, replyOk));
    } else {
      assert views' == views;
    }
  }

  /** One call on the manager. */
  method Perform(mgr: Manager, ghost m: Sockets, call: Call, wild: int -> int)
    returns (sent: seq<Packet>, written: string, reader: Option<Id>)
    requires Shows(mgr, m) && Keyed(m) && KeepsMap(m, call)
    modifies mgr.sockets`numberOfSockets, mgr.sockets`members, mgr.sockets.table, mgr.sockets.socketId
    modifies set s, o | s in mgr.sockets.members && o in s.Repr :: o
    ensures Shows(mgr, EffectOf(m, mgr.ip, call, wild).table)
    ensures sent == EffectOf(m, mgr.ip, call, wild).sent && written == EffectOf(m, mgr.ip, call, wild).written
    ensures reader == ReaderOf(m, mgr.ip, call, wild)
    ensures forall s :: s in mgr.sockets.members ==> s in old(mgr.sockets.members) || fresh(s.Repr)
  {
    hide Shows, ReceiveIn, VisitSock;
    sent, written, reader := [], "", None;
    match call
    case BindCall(port, now, fifosOk, replyOk) =>
      var goesOn := Bind(mgr, m, port, now, fifosOk, replyOk);
    case ListenCall(key, limit, acceptFifoOk, replyOk) =>
      var s := Find(mgr, m, key);
      if s != null {
        Listen(mgr, m, s, limit, acceptFifoOk, replyOk);
      }
    case ConnectCall(key, dstIp, dstPort, isn) =>
      var s := Find(mgr, m, key);
      if s != null {
        Connect(mgr, m, s, dstIp, dstPort, isn);
      }
    case VisitCall(key, v) =>
      var s := Find(mgr, m, key);
      if s != null {
        sent := Visit(mgr, m, s, v);
      }
    case ReceiveCall(packet, w) =>
      var ok;
      ok, sent, written, reader := Receive(mgr, m, packet, wild, w);
  }

  /** Any number of calls. */
  method Play(mgr: Manager, ghost m: Sockets, calls: seq<Call>, wild: int -> int)
    returns (sent: seq<seq<Packet>>, log: seq<Line>)
    requires Shows(mgr, m) && Keyed(m) && KeepMap(m, mgr.ip, calls, wild)
    modifies mgr.sockets`numberOfSockets, mgr.sockets`members, mgr.sockets.table, mgr.sockets.socketId
    modifies set s, o | s in mgr.sockets.members && o in s.Repr :: o
    ensures Shows(mgr, TableAfter(m, mgr.ip, calls, wild))
    ensures SentBy(m, mgr.ip, calls, wild, sent) && log == LogOf(m, mgr.ip, calls, wild)
  {
    hide Shows, EffectOf, KeepsMap, ReaderOf;
    sent, log := [], [];
    for i := 0 to |calls|
      invariant |sent| == i && Shows(mgr, TableAfter(m, mgr.ip, calls[..i], wild))
      invariant log == LogOf(m, mgr.ip, calls[..i], wild)
      invariant forall j :: 0 <= j < i ==>
                  sent[j] == EffectOf(TableAfter(m, mgr.ip, calls[..j], wild), mgr.ip, calls[j], wild).sent
      invariant forall s :: s in mgr.sockets.members ==> s in old(mgr.sockets.members) || fresh(s.Repr)
    {
      TableNext(m, mgr.ip, calls, wild, i);
      LogNext(m, mgr.ip, calls, wild, i);
      var out, handed, reader := Perform(mgr, TableAfter(m, mgr.ip, calls[..i], wild), calls[i], wild);
      sent, log := sent + [out], log + [Line(reader, handed)];
    }
    assert calls[..|calls|] == calls;
  }

  // ---------------------------------------------------------------- one epoch of incoming packets

  const MAX_HANDLES_PER_EPOCH: nat := 10

  /** Where handle_in_packets_fifo stands: the table, the bytes unread, the packets handled, those that left, what was
      written for each, and whether it has stopped, for good if it waits for bytes. */
  datatype Inbox = Inbox(table: Sockets, bytes: string, handled: seq<IpPacket>, sent: seq<Packet>,
                         written: seq<string>, stopped: bool, waiting: bool)

  function EmptyInbox(m: Sockets, bytes: string): Inbox {
    Inbox(m, bytes, [], [], [], false, false)
  }

  /** One turn: no packet ends the epoch, and so does a packet that is an error. */
  function Turn(b: Inbox, ip: string, wild: int -> int, w: World): (r: Inbox)
    requires Keyed(b.table)
    ensures Keyed(r.table)
  {
    if b.stopped then b
    else
      var (p, rest) := NextPacket(b.bytes, wild);
      if !p.Got? then b.(bytes := rest, stopped := true, waiting := p.Waiting?)
      else
        var e := ReceiveIn(b.table, ip, p.packet, wild, w);
        Inbox(e.table, rest, b.handled + [p.packet], b.sent + e.sent, b.written + [e.written],
              IsError(p.packet, ip, wild), false)
  }

  function Turns(b: Inbox, ip: string, wild: int -> int, ws: seq<World>): (r: Inbox)
    requires Keyed(b.table)
    ensures Keyed(r.table)
    decreases |ws|
  {
    if ws == [] then b else Turn(Turns(b, ip, wild, ws[..|ws| - 1]), ip, wild, ws[|ws| - 1])
  }

  lemma TurnsNext(b: Inbox, ip: string, wild: int -> int, ws: seq<World>, i: nat)
    requires Keyed(b.table) && i < |ws|
    ensures Turns(b, ip, wild, ws[..i + 1]) == Turn(Turns(b, ip, wild, ws[..i]), ip, wild, ws[i])
  {
    assert ws[..i + 1][..i] == ws[..i];
  }

  lemma {:induction false} StoppedStays(b: Inbox, ip: string, wild: int -> int, ws: seq<World>, i: nat)
    requires Keyed(b.table) && i <= |ws| && Turns(b, ip, wild, ws[..i]).stopped
    ensures Turns(b, ip, wild, ws) == Turns(b, ip, wild, ws[..i])
    decreases |ws| - i
  {
    if i < |ws| {
      TurnsNext(b, ip, wild, ws, i);
      StoppedStays(b, ip, wild, ws, i + 1);
    } else {
      assert ws[..i] == ws;
    }
  }

  /** After k turns on a fifo of whole frames: the packets are handled in order, each once, until the frames or the
      turns run out or one is an error; the frames behind stay for the next epoch. */
  predicate InOrder(r: Inbox, ps: seq<IpPacket>, k: nat, ip: string, wild: int -> int)
    requires AllWellFormed(ps)
  {
    var n := |r.handled|;
    && n <= |ps| && n <= k && r.handled == ps[..n] && r.bytes == Stream(ps[n..])
    && (!r.stopped ==> n == k && forall i :: 0 <= i < n ==> !IsError(ps[i], ip, wild))
    && (r.stopped ==> (n == |ps| < k) || (n > 0 && IsError(ps[n - 1], ip, wild)))
    && !r.waiting
  }

  lemma TurnInOrder(c: Inbox, ps: seq<IpPacket>, k: nat, ip: string, wild: int -> int, w: World)
    requires Keyed(c.table) && AllWellFormed(ps) && InOrder(c, ps, k, ip, wild)
    ensures InOrder(Turn(c, ip, wild, w), ps, k + 1, ip, wild)
  {
    hide NextPacket, IsError, ReceiveIn;
    var n := |c.handled|;
    FirstFrame(ps[n..], wild);
    if !c.stopped && n < |ps| {
      assert ps[..n + 1] == ps[..n] + [ps[n]] && ps[n + 1..] == ps[n..][1..];
    }
  }

  lemma {:induction false} TurnsOfFrames(m: Sockets, ps: seq<IpPacket>, ip: string, wild: int -> int, ws: seq<World>)
    requires Keyed(m) && AllWellFormed(ps)
    ensures InOrder(Turns(EmptyInbox(m, Stream(ps)), ip, wild, ws), ps, |ws|, ip, wild)
    decreases |ws|
  {
    var b := EmptyInbox(m, Stream(ps));
    if ws != [] {
      var k := |ws| - 1;
      TurnsOfFrames(m, ps, ip, wild, ws[..k]);
      TurnInOrder(Turns(b, ip, wild, ws[..k]), ps, k, ip, wild, ws[k]);
      hide Turn, InOrder;
    }
  }

  /** Reading touches no socket. */
  method NextFrom(mgr: Manager, ghost m: Sockets, fifo: Fifo, wild: int -> int) returns (r: Reading)
    requires Shows(mgr, m) && !fifo.faulty
    requires fifo !in mgr.Table() && forall s :: s in mgr.sockets.members ==> fifo !in s.Repr
    modifies fifo
    ensures Shows(mgr, m) && mgr.sockets.members == old(mgr.sockets.members)
    ensures (r, fifo.bytes) == NextPacket(old(fifo.bytes), wild)
  {
    ghost var views := Views(mgr);
    hide HashMap.Contents, HashMap.Slots, HashMap.Filed, UniqueIds, Count, Separate, NextPacket, Views, Lists;
    ViewsMean(mgr);
    r := fifo.ReadIpPacket(wild);
    mgr.NoneChanged();
    ViewsSame(mgr, views);
  }

  /** handle_in_packets_fifo; `waiting` says that it has not returned. */
  method HandleInPackets(mgr: Manager, ghost m: Sockets, fifo: Fifo, wild: int -> int, ws: seq<World>)
    returns (handled: seq<IpPacket>, sent: seq<Packet>, written: seq<string>, waiting: bool)
    requires Shows(mgr, m) && Keyed(m) && !fifo.faulty && |ws| == MAX_HANDLES_PER_EPOCH
    requires fifo !in mgr.Table() && forall s :: s in mgr.sockets.members ==> fifo !in s.Repr
    modifies fifo, mgr.sockets`numberOfSockets, mgr.sockets`members, mgr.sockets.table, mgr.sockets.socketId
    modifies set s, o | s in mgr.sockets.members && o in s.Repr :: o
    ensures var r := Turns(EmptyInbox(m, old(fifo.bytes)), mgr.ip, wild, ws);
            && Shows(mgr, r.table) && fifo.bytes == r.bytes
            && handled == r.handled && sent == r.sent && written == r.written && waiting == r.waiting
  {
    hide HashMap.Contents, HashMap.Valid, HashMap.Filed, HashMap.Slots, HashMap.Ids, Separate, Shows;
    hide NextPacket, ReceiveIn, IsError, ReaderOf;
    ghost var b := EmptyInbox(m, fifo.bytes);
    ghost var c := b;
    handled, sent, written, waiting := [], [], [], false;
    for i := 0 to MAX_HANDLES_PER_EPOCH
      invariant c == Turns(b, mgr.ip, wild, ws[..i])
      invariant c == Inbox(c.table, fifo.bytes, handled, sent, written, false, false) && !waiting
      invariant Shows(mgr, c.table)
      invariant forall s :: s in mgr.sockets.members ==> fifo !in s.Repr
      invariant forall s :: s in mgr.sockets.members ==> s in old(mgr.sockets.members) || fresh(s.Repr)
    {
      TurnsNext(b, mgr.ip, wild, ws, i);
      ghost var next := Turn(c, mgr.ip, wild, ws[i]);
      if next.stopped {
        StoppedStays(b, mgr.ip, wild, ws, i + 1);
      }
      var read := NextFrom(mgr, c.table, fifo, wild);
      if !read.Got? {
        waiting := read.Waiting?;
        return;
      }
      handled := handled + [read.packet];
      var ok, replied, out, reader := Receive(mgr, c.table, read.packet, wild, ws[i]);
      sent, written := sent + replied, written + [out];
      if !ok {
        return;
      }
      c := next;
    }
    assert ws[..MAX_HANDLES_PER_EPOCH] == ws;
  }
}
