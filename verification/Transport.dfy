/** From one end's segments to the other end's table: printing, framing, the byte stream of the fifo, its splitting,
    parsing, the checksum tests and the dispatch, put together. */
module Transport {
  import opened Common
  import opened Packets
  import opened IpWire
  import opened TcpWire
  import opened Framing
  import opened NetworkManager
  import opened ManagerModel
  import opened Delivery

  /** What send_TCP_packet writes for each segment. */
  function Envelopes(ps: seq<Packet>, srcIp: string, dstIp: string): (es: seq<IpPacket>)
    ensures |es| == |ps| && forall i :: 0 <= i < |ps| ==> es[i] == Envelope(ps[i], srcIp, dstIp)
  {
    seq(|ps|, i requires 0 <= i < |ps| => Envelope(ps[i], srcIp, dstIp))
  }

  predicate AllSendable(ps: seq<Packet>) {
    forall i :: 0 <= i < |ps| ==> Sendable(ps[i])
  }

  lemma EnvelopesWellFormed(ps: seq<Packet>, srcIp: string, dstIp: string)
    requires AllSendable(ps) && IsAddress(srcIp) && IsAddress(dstIp)
    ensures AllWellFormed(Envelopes(ps, srcIp, dstIp))
  {
    hide Printable, PrintTcp;
    var es := Envelopes(ps, srcIp, dstIp);
    forall i | 0 <= i < |es| ensures WellFormed(es[i]) {
      EnvelopeWellFormed(ps[i], srcIp, dstIp);
    }
  }

  /** The table after segments have been handled one by one: those lost on the wire do nothing. */
  function Dispatched(m: Sockets, ip: string, srcIp: string, ps: seq<Packet>, wild: int -> int, ws: seq<World>)
    : (t: Sockets)
    requires Keyed(m) && |ps| <= |ws|
    ensures Keyed(t)
    decreases |ps|
  {
    if ps == [] then m
    else
      var n := |ps| - 1;
      var t := Dispatched(m, ip, srcIp, ps[..n], wild, ws);
      if LostOnWire(ps[n], wild) then t else DispatchIn(t, ip, srcIp, ps[n], ws[n]).table
  }

  lemma EnvelopeHandled(m: Sockets, ip: string, srcIp: string, p: Packet, wild: int -> int, w: World)
    requires Keyed(m) && Sendable(p)
    ensures var packet := Envelope(p, srcIp, ip);
            && !IsError(packet, ip, wild)
            && ReceiveIn(m, ip, packet, wild, w).table ==
               if LostOnWire(p, wild) then m else DispatchIn(m, ip, srcIp, p, w).table
  {
    hide PrintTcp, ParseTcp, LostOnWire, Printable, DispatchIn, Reread;
    LostMeans(p, wild);
    ParseOfPrint(p, wild);
  }

  /** One turn on a fifo of envelopes. */
  lemma EnvelopeTurn(c: Inbox, ip: string, srcIp: string, ps: seq<Packet>, k: nat, wild: int -> int, w: World)
    requires Keyed(c.table) && AllSendable(ps) && k <= |ps| && AllWellFormed(Envelopes(ps, srcIp, ip))
    requires !c.stopped && c.bytes == Stream(Envelopes(ps, srcIp, ip)[k..])
    ensures var es, r := Envelopes(ps, srcIp, ip), Turn(c, ip, wild, w);
            if k == |ps| then r == c.(bytes := "", stopped := true, waiting := false)
            else
              && r.handled == c.handled + [es[k]] && r.bytes == Stream(es[k + 1..]) && !r.stopped && !r.waiting
              && r.table == if LostOnWire(ps[k], wild) then c.table else DispatchIn(c.table, ip, srcIp, ps[k], w).table
  {
    hide NextPacket, IsError, ReceiveIn, DispatchIn, LostOnWire, Sendable;
    var es := Envelopes(ps, srcIp, ip);
    FirstFrame(es[k..], wild);
    if k < |ps| {
      EnvelopeHandled(c.table, ip, srcIp, ps[k], wild, w);
      assert es[k..][1..] == es[k + 1..];
    }
  }

  /** Where the reader stands after some turns: n envelopes handled, the others unread, and the table as if exactly
      those segments had been dispatched that are not lost. */
  predicate Arrived(r: Inbox, m: Sockets, ip: string, srcIp: string, ps: seq<Packet>, wild: int -> int, ws: seq<World>)
    requires Keyed(m) && AllWellFormed(Envelopes(ps, srcIp, ip))
  {
    var es, n := Envelopes(ps, srcIp, ip), Min(|ws|, |ps|);
    && r.handled == es[..n] && r.bytes == Stream(es[n..]) && r.stopped == (|ws| > |ps|) && !r.waiting
    && r.table == Dispatched(m, ip, srcIp, ps[..n], wild, ws)
  }

  lemma DispatchedNext(m: Sockets, ip: string, srcIp: string, ps: seq<Packet>, wild: int -> int, ws: seq<World>, k: nat)
    requires Keyed(m) && k < |ps| && k < |ws|
    ensures var t := Dispatched(m, ip, srcIp, ps[..k], wild, ws);
            Dispatched(m, ip, srcIp, ps[..k + 1], wild, ws) ==
            if LostOnWire(ps[k], wild) then t else DispatchIn(t, ip, srcIp, ps[k], ws[k]).table
  {
    hide LostOnWire, DispatchIn;
    assert ps[..k + 1][..k] == ps[..k];
  }

  lemma ArrivesOne(c: Inbox, m: Sockets, ip: string, srcIp: string, ps: seq<Packet>, wild: int -> int, ws: seq<World>,
                   k: nat)
    requires Keyed(m) && Keyed(c.table) && AllSendable(ps) && AllWellFormed(Envelopes(ps, srcIp, ip))
    requires |ws| == k + 1 && k < |ps| && !c.stopped && !c.waiting
    requires c.handled == Envelopes(ps, srcIp, ip)[..k] && c.bytes == Stream(Envelopes(ps, srcIp, ip)[k..])
    requires c.table == Dispatched(m, ip, srcIp, ps[..k], wild, ws)
    ensures Arrived(Turn(c, ip, wild, ws[k]), m, ip, srcIp, ps, wild, ws)
  {
    hide Keyed, DispatchIn, LostOnWire, AllSendable, AllWellFormed, Turn, Envelopes, Envelope, Stream, Dispatched;
    var es := Envelopes(ps, srcIp, ip);
    EnvelopeTurn(c, ip, srcIp, ps, k, wild, ws[k]);
    DispatchedNext(m, ip, srcIp, ps, wild, ws, k);
    assert es[..k + 1] == es[..k] + [es[k]];
  }

  lemma ArrivesNone(c: Inbox, m: Sockets, ip: string, srcIp: string, ps: seq<Packet>, wild: int -> int, ws: seq<World>)
    requires Keyed(m) && Keyed(c.table) && AllSendable(ps) && AllWellFormed(Envelopes(ps, srcIp, ip))
    requires |ws| > |ps| && !c.waiting
    requires c.handled == Envelopes(ps, srcIp, ip)[..|ps|] && c.bytes == Stream(Envelopes(ps, srcIp, ip)[|ps|..])
    requires c.table == Dispatched(m, ip, srcIp, ps[..|ps|], wild, ws)
    ensures Arrived(Turn(c, ip, wild, ws[|ws| - 1]), m, ip, srcIp, ps, wild, ws)
  {
    var w := ws[|ws| - 1];
    EmptyStream(Envelopes(ps, srcIp, ip));
    hide Keyed, DispatchIn, LostOnWire, AllSendable, AllWellFormed, Turn, Envelopes, Stream, Dispatched;
    if c.stopped {
      StoppedTurn(c, ip, wild, w);
    } else {
      EnvelopeTurn(c, ip, srcIp, ps, |ps|, wild, w);
    }
  }

  lemma ArrivesNext(c: Inbox, m: Sockets, ip: string, srcIp: string, ps: seq<Packet>, wild: int -> int, ws: seq<World>)
    requires Keyed(m) && Keyed(c.table) && AllSendable(ps) && AllWellFormed(Envelopes(ps, srcIp, ip)) && ws != []
    requires Arrived(c, m, ip, srcIp, ps, wild, ws[..|ws| - 1])
    ensures Arrived(Turn(c, ip, wild, ws[|ws| - 1]), m, ip, srcIp, ps, wild, ws)
  {
    var k := |ws| - 1;
    DispatchedFewer(m, ip, srcIp, ps[..Min(k, |ps|)], wild, ws, k);
    hide Keyed, AllSendable, AllWellFormed, Turn, Envelopes, Stream, Dispatched;
    if k < |ps| {
      ArrivesOne(c, m, ip, srcIp, ps, wild, ws, k);
    } else {
      ArrivesNone(c, m, ip, srcIp, ps, wild, ws);
    }
  }

  lemma EmptyStream(es: seq<IpPacket>)
    requires AllWellFormed(es)
    ensures es[|es|..] == [] && Stream(es[|es|..]) == ""
  {
  }

  /** Segments of any number, written into one fifo and read back in epochs of |ws| turns: as many as there are turns
      are handled in the order of writing, each changes the table as the dispatch of exactly that segment does, unless
      it is lost, and the rest are still in the fifo. */
  lemma {:induction false} SegmentsArrive(m: Sockets, ip: string, srcIp: string, ps: seq<Packet>, wild: int -> int,
                                          ws: seq<World>)
    requires Keyed(m) && AllSendable(ps) && IsAddress(srcIp) && IsAddress(ip)
    ensures AllWellFormed(Envelopes(ps, srcIp, ip))
    ensures var r := Turns(EmptyInbox(m, Stream(Envelopes(ps, srcIp, ip))), ip, wild, ws);
            Arrived(r, m, ip, srcIp, ps, wild, ws)
    decreases |ws|
  {
    EnvelopesWellFormed(ps, srcIp, ip);
    if ws != [] {
      SegmentsArrive(m, ip, srcIp, ps, wild, ws[..|ws| - 1]);
      var b := EmptyInbox(m, Stream(Envelopes(ps, srcIp, ip)));
      var c := Turns(b, ip, wild, ws[..|ws| - 1]);
      ArrivesNext(c, m, ip, srcIp, ps, wild, ws);
      hide Turn, Arrived, AllSendable, AllWellFormed, Stream, Envelopes;
    }
  }

  lemma StoppedTurn(c: Inbox, ip: string, wild: int -> int, w: World)
    requires Keyed(c.table) && c.stopped
    ensures Turn(c, ip, wild, w) == c
  {
  }

  lemma {:induction false} DispatchedFewer(m: Sockets, ip: string, srcIp: string, ps: seq<Packet>, wild: int -> int,
                                           ws: seq<World>, k: nat)
    requires Keyed(m) && |ps| <= k <= |ws|
    ensures Dispatched(m, ip, srcIp, ps, wild, ws[..k]) == Dispatched(m, ip, srcIp, ps, wild, ws)
    decreases |ps|
  {
    hide DispatchIn, LostOnWire;
    if ps != [] {
      DispatchedFewer(m, ip, srcIp, ps[..|ps| - 1], wild, ws, k);
    }
  }

  /** One epoch of the manager on a fifo of segments. */
  method HandleSegments(mgr: Manager, ghost m: Sockets, fifo: Fifo, ghost ps: seq<Packet>, srcIp: string,
                        wild: int -> int, ws: seq<World>)
    returns (handled: seq<IpPacket>)
    requires Shows(mgr, m) && Keyed(m) && !fifo.faulty && |ws| == MAX_HANDLES_PER_EPOCH
    requires fifo !in mgr.Table() && forall s :: s in mgr.sockets.members ==> fifo !in s.Repr
    requires AllSendable(ps) && IsAddress(srcIp) && IsAddress(mgr.ip)
    requires AllWellFormed(Envelopes(ps, srcIp, mgr.ip)) && fifo.bytes == Stream(Envelopes(ps, srcIp, mgr.ip))
    modifies fifo, mgr.sockets`numberOfSockets, mgr.sockets`members, mgr.sockets.table, mgr.sockets.socketId
    modifies set s, o | s in mgr.sockets.members && o in s.Repr :: o
    ensures var es, n := Envelopes(ps, srcIp, mgr.ip), Min(MAX_HANDLES_PER_EPOCH, |ps|);
            && handled == es[..n] && fifo.bytes == Stream(es[n..])
            && Shows(mgr, Dispatched(m, mgr.ip, srcIp, ps[..n], wild, ws))
  {
    SegmentsArrive(m, mgr.ip, srcIp, ps, wild, ws);
    hide Shows, Turns, AllWellFormed, Sendable, Dispatched;
    var sent, written, waiting;
    handled, sent, written, waiting := HandleInPackets(mgr, m, fifo, wild, ws);
  }
}
