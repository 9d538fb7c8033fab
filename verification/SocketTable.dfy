/** The 100-slot socket table of Hashmap.c, refining a finite map from 4-tuples to sockets. The id stored in a slot is
    the very object its socket holds, so changing a socket's id changes the table's key. */
module SocketTable {
  import opened SocketModel
  import opened SocketObject

  const TABLE_SIZE: nat := 100   // HASH_MAP_DEFAULT_SIZE

  // ---------------------------------------------------------------- slots and the map they stand for

  datatype Slot = Free | Used(id: Id, sock: Socket)

  ghost predicate UniqueIds(slots: seq<Slot>) {
    forall i, j :: 0 <= i < j < |slots| && slots[i].Used? && slots[j].Used? ==> slots[i].id != slots[j].id
  }

  ghost function AsMap(slots: seq<Slot>): map<Id, Socket> {
    if slots == [] then map[]
    else
      var m, last := AsMap(slots[..|slots| - 1]), slots[|slots| - 1];
      if last.Used? then m[last.id := last.sock] else m
  }

  ghost function Count(slots: seq<Slot>): (n: nat)
    ensures n <= |slots|
  {
    if slots == [] then 0
    else Count(slots[..|slots| - 1]) + if slots[|slots| - 1].Used? then 1 else 0
  }

  /** The map holds exactly the used slots. */
  lemma {:induction false} MapHolds(slots: seq<Slot>)
    requires UniqueIds(slots)
    ensures forall i :: 0 <= i < |slots| && slots[i].Used? ==>
              slots[i].id in AsMap(slots) && AsMap(slots)[slots[i].id] == slots[i].sock
    ensures forall k :: k in AsMap(slots) ==> exists i :: 0 <= i < |slots| && slots[i] == Used(k, AsMap(slots)[k])
    ensures |AsMap(slots)| == Count(slots)
  {
    if slots != [] {
      var n := |slots| - 1;
      var front, last := slots[..n], slots[n];
      assert forall i :: 0 <= i < n ==> front[i] == slots[i];
      MapHolds(front);
      forall k | k in AsMap(slots) ensures exists i :: 0 <= i < |slots| && slots[i] == Used(k, AsMap(slots)[k]) {
        if last.Used? && k == last.id {
          assert slots[n] == Used(k, AsMap(slots)[k]);
        } else {
          var i :| 0 <= i < n && front[i] == Used(k, AsMap(front)[k]);
          assert slots[i] == Used(k, AsMap(slots)[k]);
        }
      }
    }
  }

  /** What the slots say of a key. */
  lemma KeyAt(slots: seq<Slot>, i: int)
    requires UniqueIds(slots) && 0 <= i < |slots| && slots[i].Used?
    ensures slots[i].id in AsMap(slots) && AsMap(slots)[slots[i].id] == slots[i].sock
  {
    MapHolds(slots);
  }

  lemma KeyNowhere(slots: seq<Slot>, key: Id)
    requires UniqueIds(slots) && forall i :: 0 <= i < |slots| && slots[i].Used? ==> slots[i].id != key
    ensures key !in AsMap(slots)
  {
    MapHolds(slots);
  }

  lemma {:induction false} CountUpdated(slots: seq<Slot>, j: nat, s: Slot)
    requires j < |slots|
    ensures Count(slots[j := s]) ==
            Count(slots) - (if slots[j].Used? then 1 else 0) + (if s.Used? then 1 else 0)
  {
    var n := |slots| - 1;
    if j < n {
      assert slots[j := s][..n] == slots[..n][j := s];
      CountUpdated(slots[..n], j, s);
    } else {
      assert slots[j := s][..n] == slots[..n];
    }
  }

  lemma {:induction false} FullWithoutFree(slots: seq<Slot>)
    requires forall i :: 0 <= i < |slots| ==> slots[i].Used?
    ensures Count(slots) == |slots|
  {
    if slots != [] {
      FullWithoutFree(slots[..|slots| - 1]);
    }
  }

  ghost predicate HoldsKey(slots: seq<Slot>, key: Id) {
    exists i :: 0 <= i < |slots| && slots[i].Used? && slots[i].id == key
  }

  /** A count of zero means that no slot is used. */
  lemma {:induction false} NoneCounted(slots: seq<Slot>)
    requires Count(slots) == 0
    ensures forall i :: 0 <= i < |slots| ==> slots[i].Free?
  {
    if slots != [] {
      NoneCounted(slots[..|slots| - 1]);
    }
  }

  lemma {:induction false} NotFullWithFree(slots: seq<Slot>, j: nat)
    requires j < |slots| && slots[j].Free?
    ensures Count(slots) < |slots|
  {
    var n := |slots| - 1;
    if j < n {
      NotFullWithFree(slots[..n], j);
    }
  }

  lemma InsertIsUpdate(slots: seq<Slot>, j: nat, key: Id, s: Socket)
    requires UniqueIds(slots) && j < |slots| && slots[j].Free? && key !in AsMap(slots)
    ensures UniqueIds(slots[j := Used(key, s)])
    ensures AsMap(slots[j := Used(key, s)]) == AsMap(slots)[key := s]
    ensures Count(slots[j := Used(key, s)]) == Count(slots) + 1
  {
    var after := slots[j := Used(key, s)];
    MapHolds(slots);
    assert UniqueIds(after);
    MapHolds(after);
    CountUpdated(slots, j, Used(key, s));
    var m, m' := AsMap(slots)[key := s], AsMap(after);
    forall k | k in m' ensures k in m && m[k] == m'[k] {
      var i :| 0 <= i < |after| && after[i] == Used(k, m'[k]);
    }
    forall k | k in m ensures k in m' {
      if k == key {
        assert after[j].id in m';
      } else {
        var i :| 0 <= i < |slots| && slots[i] == Used(k, AsMap(slots)[k]);
        assert after[i].id in m';
      }
    }
  }

  lemma RemoveIsErase(slots: seq<Slot>, j: nat)
    requires UniqueIds(slots) && j < |slots| && slots[j].Used?
    ensures UniqueIds(slots[j := Free])
    ensures AsMap(slots[j := Free]) == AsMap(slots) - {slots[j].id}
    ensures Count(slots[j := Free]) == Count(slots) - 1
  {
    var after, key := slots[j := Free], slots[j].id;
    MapHolds(slots);
    assert UniqueIds(after);
    MapHolds(after);
    CountUpdated(slots, j, Free);
    var m, m' := AsMap(slots) - {key}, AsMap(after);
    forall k | k in m' ensures k in m && m[k] == m'[k] {
      var i :| 0 <= i < |after| && after[i] == Used(k, m'[k]);
      assert slots[i] == after[i];
    }
    forall k | k in m ensures k in m' {
      var i :| 0 <= i < |slots| && slots[i] == Used(k, AsMap(slots)[k]);
      assert after[i].id in m';
    }
  }

  /** Changing the key of a slot in place keeps the table a map just when no other slot holds the new key. */
  lemma RekeyUnique(slots: seq<Slot>, j: nat, key: Id)
    requires UniqueIds(slots) && j < |slots| && slots[j].Used?
    ensures UniqueIds(slots[j := slots[j].(id := key)]) <==> key !in AsMap(slots) - {slots[j].id}
    ensures key !in AsMap(slots) - {slots[j].id} ==>
              AsMap(slots[j := slots[j].(id := key)]) == (AsMap(slots) - {slots[j].id})[key := slots[j].sock]
  {
    var freed := slots[j := Free];
    var after := slots[j := slots[j].(id := key)];
    assert after == freed[j := Used(key, slots[j].sock)];
    RemoveIsErase(slots, j);
    MapHolds(freed);
    if key in AsMap(freed) {
      var i :| 0 <= i < |freed| && freed[i] == Used(key, AsMap(freed)[key]);
      assert after[i].id == after[j].id;
    } else {
      InsertIsUpdate(freed, j, key, slots[j].sock);
    }
  }

  // ---------------------------------------------------------------- the table

  /** compareKeys: the same object, or equal fields. */
  predicate CompareKeys(key1: SocketID, key2: SocketID)
    reads key1, key2
    ensures CompareKeys(key1, key2) <==> key1.View() == key2.View()
  {
    key1 == key2 ||
    (key1.dstPort == key2.dstPort && key1.srcIp == key2.srcIp && key1.srcPort == key2.srcPort &&
     key1.dstIp == key2.dstIp)
  }

  class HashMap {
    const table: array<Socket?>
    const socketId: array<SocketID?>
    var numberOfSockets: int
    var iteratorIndex: int

    /** The sockets in the table. */
    ghost var members: set<Socket>

    ghost predicate MembersAreSlots()
      reads this`members, table
    {
      && (forall i :: 0 <= i < table.Length && table[i] != null ==> table[i] in members)
      && (forall s :: s in members ==> exists i :: 0 <= i < table.Length && table[i] == s)
    }

    ghost function Ids(): set<SocketID>
      reads socketId
    {
      set i | 0 <= i < socketId.Length && socketId[i] != null :: socketId[i]
    }

    /** Slot i holds a socket together with that socket's own id object, or nothing. */
    ghost predicate Aligned()
      reads table, socketId
    {
      && table.Length == TABLE_SIZE && socketId.Length == TABLE_SIZE
      && forall i :: 0 <= i < TABLE_SIZE ==>
           (table[i] == null ==> socketId[i] == null) && (table[i] != null ==> socketId[i] == table[i].id)
    }

    ghost function SlotAt(i: int): Slot
      reads table, socketId, Ids()
      requires Aligned() && 0 <= i < TABLE_SIZE
    {
      if table[i] == null then Free else Used(socketId[i].View(), table[i])
    }

    ghost function Slots(): (s: seq<Slot>)
      reads table, socketId, Ids()
      requires Aligned()
      ensures |s| == TABLE_SIZE && forall i :: 0 <= i < TABLE_SIZE ==> s[i] == SlotAt(i)
    {
      seq(TABLE_SIZE, i requires 0 <= i < TABLE_SIZE && Aligned() reads table, socketId, Ids() => SlotAt(i))
    }

    /** A list of sockets with their ids: a map, if the ids are distinct. */
    ghost predicate Filed()
      reads this, table, socketId, Ids()
    {
      Aligned() && numberOfSockets == Count(Slots()) && 0 <= iteratorIndex && MembersAreSlots()
    }

    ghost predicate Valid()
      reads this, table, socketId, Ids()
    {
      Filed() && UniqueIds(Slots())
    }

    ghost function Contents(): map<Id, Socket>
      reads table, socketId, Ids()
      requires Aligned()
    {
      AsMap(Slots())
    }

    /** createHashMap */
    constructor ()
      ensures Valid() && fresh(table) && fresh(socketId) && Contents() == map[] && Ids() == {} && members == {}
    {
      table := new Socket?[TABLE_SIZE](_ => null);
      socketId := new SocketID?[TABLE_SIZE](_ => null);
      numberOfSockets := 0;
      iteratorIndex := 0;
      members := {};
      new;
      NoneUsed(Slots());
    }

    method HasKey(key: SocketID) returns (found: bool)
      requires Filed()
      ensures found <==> HoldsKey(Slots(), key.View())
      ensures Valid() ==> (found <==> key.View() in Contents())
    {
      ghost var slots := Slots();
      hide AsMap, Count;
      for i := 0 to TABLE_SIZE
        invariant forall j :: 0 <= j < i && slots[j].Used? ==> slots[j].id != key.View()
      {
        assert slots[i] == SlotAt(i);
        if socketId[i] == null {
          continue;
        }
        if CompareKeys(socketId[i], key) {
          if UniqueIds(slots) {
            KeyAt(slots, i);
          }
          return true;
        }
      }
      if UniqueIds(slots) {
        KeyNowhere(slots, key.View());
      }
      return false;
    }

    /** The first socket filed under the key; in a map there is no other. */
    method GetSocket(key: SocketID) returns (s: Socket?)
      requires Filed()
      ensures s != null <==> HoldsKey(Slots(), key.View())
      ensures s != null ==> s in members && s.id.View() == key.View()
      ensures Valid() && key.View() in Contents() ==> s == Contents()[key.View()]
      ensures Valid() && key.View() !in Contents() ==> s == null
    {
      ghost var slots := Slots();
      hide AsMap;
      if numberOfSockets == 0 {
        NoneCounted(slots);
        if UniqueIds(slots) {
          KeyNowhere(slots, key.View());
        }
        return null;
      }
      var has := HasKey(key);
      assert Slots() == slots;
      hide Count;
      if !has {
        return null;
      }
      for i := 0 to TABLE_SIZE
        invariant forall j :: 0 <= j < i && slots[j].Used? ==> slots[j].id != key.View()
      {
        assert slots[i] == SlotAt(i);
        if table[i] == null || socketId[i] == null {
          continue;
        }
        if CompareKeys(key, socketId[i]) {
          if UniqueIds(slots) {
            KeyAt(slots, i);
          }
          return table[i];
        }
      }
      assert false;
      return null;
    }

    /** Fills a free slot. */
    method PutAt(j: nat, socket: Socket)
      requires Valid() && j < TABLE_SIZE && table[j] == null && socket.id.View() !in Contents()
      modifies this`numberOfSockets, this`members, table, socketId
      ensures Valid() && Ids() <= old(Ids()) + {socket.id}
      ensures Contents() == old(Contents())[socket.id.View() := socket]
      ensures members == old(members) + {socket}
    {
      ghost var slots, before := Slots(), table[..];
      MembersSame(before);
      members := members + {socket};
      table[j] := socket;
      socketId[j] := socket.id;
      numberOfSockets := numberOfSockets + 1;
      assert table[..] == before[j := socket];
      MembersAdd(before, old(members), j, socket);
      MembersSame(table[..]);
      assert Slots() == slots[j := Used(socket.id.View(), socket)];
      InsertIsUpdate(slots, j, socket.id.View(), socket);
    }

    method Insert(socket: Socket) returns (ok: bool)
      requires Valid()
      modifies this`numberOfSockets, this`members, table, socketId
      ensures Valid() && Ids() <= old(Ids()) + {socket.id}
      ensures ok <==> |old(Contents())| < TABLE_SIZE && socket.id.View() !in old(Contents())
      ensures Contents() == if ok then old(Contents())[socket.id.View() := socket] else old(Contents())
      ensures members == if ok then old(members) + {socket} else old(members)
    {
      ghost var slots := Slots();
      MapHolds(slots);
      if numberOfSockets == TABLE_SIZE {
        return false;
      }
      hide HoldsKey;
      var has := HasKey(socket.id);
      assert Slots() == slots;
      if has {
        return false;
      }
      hide AsMap, UniqueIds, Count;
      for j := 0 to TABLE_SIZE
        invariant Slots() == slots && forall i :: 0 <= i < j ==> slots[i].Used?
      {
        assert slots[j] == SlotAt(j);
        if table[j] == null {
          PutAt(j, socket);
          return true;
        }
      }
      FullWithoutFree(slots);
      assert false;
      return false;
    }

    /** Frees a used slot. */
    method ClearAt(i: nat)
      requires Valid() && i < TABLE_SIZE && table[i] != null
      modifies this`numberOfSockets, this`members, table, socketId
      ensures Valid() && Ids() <= old(Ids())
      ensures Contents() == old(Contents()) - {old(table[i].id.View())}
      ensures members == old(members) - {old(table[i])} && |Contents()| < TABLE_SIZE
    {
      ghost var slots, before := Slots(), table[..];
      assert slots[i] == SlotAt(i);
      OtherSlots(i);
      MembersSame(before);
      members := members - {table[i]};
      table[i] := null;
      socketId[i] := null;
      numberOfSockets := numberOfSockets - 1;
      assert table[..] == before[i := null];
      MembersErase(before, old(members), i);
      MembersSame(table[..]);
      assert Slots() == slots[i := Free];
      RemoveIsErase(slots, i);
      NotFullWithFree(Slots(), i);
      MapHolds(Slots());
    }

    method Remove(key: SocketID) returns (ok: bool)
      requires Valid()
      modifies this`numberOfSockets, this`members, table, socketId
      ensures Valid() && Ids() <= old(Ids())
      ensures ok <==> key.View() in old(Contents())
      ensures Contents() == old(Contents()) - {key.View()}
      ensures members == if ok then old(members) - {old(Contents())[key.View()]} else old(members)
      ensures ok ==> |Contents()| < TABLE_SIZE
    {
      ghost var slots := Slots();
      hide AsMap, UniqueIds, Count;
      for i := 0 to TABLE_SIZE
        invariant Slots() == slots
        invariant forall j :: 0 <= j < i && slots[j].Used? ==> slots[j].id != key.View()
      {
        assert slots[i] == SlotAt(i);
        if table[i] == null {
          continue;
        }
        if CompareKeys(key, table[i].id) {
          KeyAt(slots, i);
          ClearAt(i);
          return true;
        }
      }
      KeyNowhere(slots, key.View());
      return false;
    }

    /** Removing a socket of the table by its own id. */
    method RemoveMember(sock: Socket)
      requires Valid() && sock in members
      modifies this`numberOfSockets, this`members, table, socketId
      ensures Valid() && Ids() <= old(Ids()) && sock.id !in Ids()
      ensures sock.id.View() in old(Contents()) && Contents() == old(Contents()) - {sock.id.View()}
      ensures members == old(members) - {sock} && |Contents()| < TABLE_SIZE
    {
      ContentsAreMembers();
      var _ := Remove(sock.id);
      NotFiled(sock.id);
    }

    lemma MembersSame(t: seq<Socket?>)
      requires t == table[..]
      ensures MembersAreSlots() <==> HoldExactly(t, members)
    {
      assert forall i :: 0 <= i < |t| ==> t[i] == table[i];
    }

    /** No socket is in two slots. */
    lemma OtherSlots(i: nat)
      requires Valid() && i < TABLE_SIZE && table[i] != null
      ensures forall j :: 0 <= j < TABLE_SIZE && j != i && table[j] != null ==> table[j] != table[i]
    {
      forall j | 0 <= j < TABLE_SIZE && j != i && table[j] != null ensures table[j] != table[i] {
        assert Slots()[i] == SlotAt(i) && Slots()[j] == SlotAt(j);
      }
    }

    /** An id whose key is in no slot is in no slot. */
    lemma NotFiled(id: SocketID)
      requires Valid() && id.View() !in Contents()
      ensures id !in Ids() && |Contents()| <= TABLE_SIZE
    {
      MapHolds(Slots());
      forall i | 0 <= i < TABLE_SIZE && socketId[i] != null ensures socketId[i] != id {
        assert Slots()[i] == SlotAt(i);
        KeyAt(Slots(), i);
      }
    }

    lemma MemberHeld(sock: Socket)
      requires Filed() && sock in members
      ensures HoldsKey(Slots(), sock.id.View())
    {
      var i :| 0 <= i < TABLE_SIZE && table[i] == sock;
      assert Slots()[i] == SlotAt(i);
    }

    /** The values of the map are the members. */
    lemma ContentsAreMembers()
      requires Valid()
      ensures forall k :: k in Contents() ==> Contents()[k] in members && Contents()[k].id.View() == k
      ensures forall s :: s in members ==> s.id.View() in Contents() && Contents()[s.id.View()] == s
    {
      MapHolds(Slots());
      forall k | k in Contents() ensures Contents()[k] in members && Contents()[k].id.View() == k {
        var i :| 0 <= i < TABLE_SIZE && Slots()[i] == Used(k, Contents()[k]);
        assert Slots()[i] == SlotAt(i);
      }
      forall s | s in members ensures s.id.View() in Contents() && Contents()[s.id.View()] == s {
        var i :| 0 <= i < TABLE_SIZE && table[i] == s;
        assert Slots()[i] == SlotAt(i);
      }
    }

    // ---------------------------------------------------------------- iteration

    /** What the iterator, standing at `id`, has still to visit. */
    ghost function Pending(id: SocketID?): seq<SocketID>
      reads this, socketId
    {
      if id == null || iteratorIndex < 0 then [] else [id] + LiveFrom(socketId[..], iteratorIndex + 1)
    }

    /** hashMapGetFirst */
    method GetFirst() returns (id: SocketID?)
      requires Valid()
      modifies this`iteratorIndex
      ensures Valid() && Contents() == old(Contents())
      ensures 0 <= iteratorIndex && Pending(id) == LiveFrom(socketId[..], 0)
    {
      ghost var slots := Slots();
      for i := 0 to TABLE_SIZE
        invariant iteratorIndex == old(iteratorIndex)
        invariant LiveFrom(socketId[..], 0) == LiveFrom(socketId[..], i)
      {
        if socketId[i] != null {
          iteratorIndex := i;
          assert Slots() == slots;
          return socketId[i];
        }
      }
      return null;
    }

    /** hashMapGetNext */
    method GetNext() returns (id: SocketID?)
      requires Valid()
      modifies this`iteratorIndex
      ensures Valid() && Contents() == old(Contents())
      ensures 0 <= iteratorIndex && Pending(id) == LiveFrom(socketId[..], old(iteratorIndex) + 1)
    {
      ghost var slots := Slots();
      if iteratorIndex >= TABLE_SIZE {
        return null;
      }
      iteratorIndex := iteratorIndex + 1;
      assert Slots() == slots;
      for i := iteratorIndex to TABLE_SIZE
        invariant iteratorIndex == old(iteratorIndex) + 1
        invariant LiveFrom(socketId[..], old(iteratorIndex) + 1) == LiveFrom(socketId[..], i)
      {
        if socketId[i] != null {
          iteratorIndex := i;
          assert Slots() == slots;
          return socketId[i];
        }
      }
      return null;
    }

    /** HASH_MAP_FOREACH over an unchanging table: each live id exactly once. */
    method ForEach() returns (visited: seq<SocketID>)
      requires Valid()
      modifies this`iteratorIndex
      ensures Valid() && Contents() == old(Contents())
      ensures forall i, j :: 0 <= i < j < |visited| ==> visited[i].View() != visited[j].View()
      ensures forall k :: k in Contents() <==> exists i :: 0 <= i < |visited| && visited[i].View() == k
    {
      visited := CollectIds();
      LiveOnce(0);
      LiveIsKeys();
    }

    method CollectIds() returns (visited: seq<SocketID>)
      requires Valid()
      modifies this`iteratorIndex
      ensures Valid() && Contents() == old(Contents())
      ensures visited == LiveFrom(socketId[..], 0)
    {
      hide LiveFrom, Contents, UniqueIds, Count, MembersAreSlots, SlotAt;
      visited := [];
      ghost var live := LiveFrom(socketId[..], 0);
      var id := GetFirst();
      while id != null
        invariant Valid() && Contents() == old(Contents())
        invariant 0 <= iteratorIndex && live == visited + Pending(id)
        decreases |live| - |visited|
      {
        ghost var rest := LiveFrom(socketId[..], iteratorIndex + 1);
        assert visited + ([id] + rest) == (visited + [id]) + rest;
        visited := visited + [id];
        id := GetNext();
      }
    }

    /** Every live id comes up, and no key twice. */
    lemma {:induction false} LiveOnce(from: nat)
      requires Valid() && from <= TABLE_SIZE
      ensures var live := LiveFrom(socketId[..], from);
              && (forall i :: 0 <= i < |live| ==> exists m :: from <= m < TABLE_SIZE && socketId[m] == live[i])
              && (forall i, j :: 0 <= i < j < |live| ==> live[i].View() != live[j].View())
              && (forall m :: from <= m < TABLE_SIZE && socketId[m] != null ==> socketId[m] in live)
      decreases TABLE_SIZE - from
    {
      if from < TABLE_SIZE {
        LiveOnce(from + 1);
        var rest := LiveFrom(socketId[..], from + 1);
        if socketId[from] != null {
          forall i | 0 <= i < |rest| ensures rest[i].View() != socketId[from].View() {
            var m :| from + 1 <= m < TABLE_SIZE && socketId[m] == rest[i];
            assert Slots()[from] == SlotAt(from) && Slots()[m] == SlotAt(m);
          }
        }
      }
    }

    /** The live ids are the keys. */
    lemma LiveIsKeys()
      requires Valid()
      ensures var live := LiveFrom(socketId[..], 0);
              forall k :: k in Contents() <==> exists i :: 0 <= i < |live| && live[i].View() == k
    {
      LiveOnce(0);
      MapHolds(Slots());
      var live := LiveFrom(socketId[..], 0);
      forall k | k in Contents() ensures exists i :: 0 <= i < |live| && live[i].View() == k {
        var m :| 0 <= m < TABLE_SIZE && Slots()[m] == Used(k, Contents()[k]);
        assert Slots()[m] == SlotAt(m) && socketId[m] in live;
      }
      forall i | 0 <= i < |live| ensures live[i].View() in Contents() {
        var m :| 0 <= m < TABLE_SIZE && socketId[m] == live[i];
        assert Slots()[m] == SlotAt(m);
      }
    }

    /** A step that leaves the arrays and the ids alone leaves the map alone. */
    twostate lemma Untouched()
      requires old(Aligned()) && unchanged(table, socketId)
      requires forall o :: o in old(Ids()) ==> unchanged(o)
      ensures Aligned() && Slots() == old(Slots()) && Contents() == old(Contents()) && Ids() == old(Ids())
      ensures old(Filed()) && unchanged(this) ==> Filed()
      ensures old(Filed()) && unchanged(this) ==> (Valid() <==> old(Valid()))
    {
      forall i | 0 <= i < TABLE_SIZE ensures SlotAt(i) == old(SlotAt(i)) {
        assert table[i] != null ==> socketId[i] in old(Ids());
      }
      assert Slots() == old(Slots());
    }

    // ---------------------------------------------------------------- changing a key in place

    /** When the id of a socket in the table is changed in place, as closing a connecting socket does, the table is
        still a map if and only if no other socket is filed under the new key. */
    twostate lemma RekeyInPlace(sock: Socket)
      requires old(Valid()) && unchanged(this, table, socketId)
      requires old(sock.id.View() in Contents() && Contents()[sock.id.View()] == sock)
      requires forall o :: o in old(Ids()) && o != sock.id ==> unchanged(o)
      ensures Filed()
      ensures Valid() <==> sock.id.View() !in old(Contents()) - {old(sock.id.View())}
      ensures Valid() ==> Contents() == (old(Contents()) - {old(sock.id.View())})[sock.id.View() := sock]
    {
      var slots, key := old(Slots()), old(sock.id.View());
      MapHolds(slots);
      var j :| 0 <= j < TABLE_SIZE && slots[j] == Used(key, sock);
      assert slots[j] == old(SlotAt(j));
      forall i | 0 <= i < TABLE_SIZE && i != j ensures SlotAt(i) == old(SlotAt(i)) {
        assert slots[i] == old(SlotAt(i));
        if table[i] != null {
          assert slots[i].id != slots[j].id && socketId[i] != sock.id;
          assert socketId[i] in old(Ids());
        }
      }
      assert Slots() == slots[j := slots[j].(id := sock.id.View())];
      RekeyUnique(slots, j, sock.id.View());
      CountUpdated(slots, j, slots[j].(id := sock.id.View()));
    }
  }

  ghost predicate HoldExactly(t: seq<Socket?>, members: set<Socket>) {
    && (forall i :: 0 <= i < |t| && t[i] != null ==> t[i] in members)
    && (forall s :: s in members ==> exists i :: 0 <= i < |t| && t[i] == s)
  }

  lemma MembersAdd(t: seq<Socket?>, members: set<Socket>, j: nat, socket: Socket)
    requires HoldExactly(t, members) && j < |t| && t[j] == null
    ensures HoldExactly(t[j := socket], members + {socket})
  {
    var t' := t[j := socket];
    forall s | s in members + {socket} ensures exists i :: 0 <= i < |t'| && t'[i] == s {
      if s == socket {
        assert t'[j] == s;
      } else {
        var i :| 0 <= i < |t| && t[i] == s;
        assert t'[i] == s;
      }
    }
  }

  lemma MembersErase(t: seq<Socket?>, members: set<Socket>, j: nat)
    requires HoldExactly(t, members) && j < |t| && t[j] != null
    requires forall i :: 0 <= i < |t| && i != j ==> t[i] != t[j]
    ensures HoldExactly(t[j := null], members - {t[j]})
  {
    var t' := t[j := null];
    forall s | s in members - {t[j]} ensures exists i :: 0 <= i < |t'| && t'[i] == s {
      var i :| 0 <= i < |t| && t[i] == s;
      assert t'[i] == s;
    }
  }

  lemma {:induction false} NoneUsed(slots: seq<Slot>)
    requires forall i :: 0 <= i < |slots| ==> slots[i].Free?
    ensures AsMap(slots) == map[] && Count(slots) == 0
  {
    if slots != [] {
      NoneUsed(slots[..|slots| - 1]);
    }
  }

  ghost function LiveFrom(ids: seq<SocketID?>, from: nat): seq<SocketID>
    decreases |ids| - from
  {
    if from >= |ids| then []
    else if ids[from] == null then LiveFrom(ids, from + 1)
    else [ids[from]] + LiveFrom(ids, from + 1)
  }
}
