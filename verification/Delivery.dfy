/** The protocol's packets on the wire: why the network of the protocol model may be taken to drop packets but never to
    alter them, and which packets it is bound to drop. */
module Delivery {
  import opened Common
  import opened Packets
  import opened Decimal
  import opened Formatted
  import opened IpWire
  import opened TcpWire
  import opened SocketModel
  import opened Protocol
  import opened Invariant
  import opened Safety

  /** The checksum leaves columns of its field blank and the data begin with a digit to fill them. */
  predicate DrawsDigits(p: Packet) {
    p.data != "" && IsDigit(p.data[0]) && p.checksum < 1_000_000_000
  }

  lemma ShortChecksum(n: int)
    requires 0 <= n <= INT_MAX
    ensures |Printed(n)| <= 10 && (|Printed(n)| == 10 <==> n >= 1_000_000_000)
  {
    assert Pow10(9) == 1_000_000_000 && Pow10(10) == 10_000_000_000 by {
      assert Pow10(5) == 100_000;
    }
    NaturalWidth(n, 9);
    NaturalWidth(n, 10);
  }

  lemma Columns(n: int)
    ensures -1 <= n <= INT_MAX ==> FitsColumn(n, 10)
    ensures 0 <= n <= 99999 ==> FitsColumn(n, 5)
  {
    FitsColumnMeans(n, 10);
    FitsColumnMeans(n, 5);
    TenBillion();
    assert Pow10(5) == 100_000 && Pow10(9) >= 2;
  }

  /** Such a packet is lost, unless the digits exceed int and the library stores the checksum for them all the same. */
  predicate LostOnWire(p: Packet, wild: int -> int) {
    DrawsDigits(p) && (FitsInt(Reread(p)) || wild(Reread(p)) != p.checksum)
  }

  /** Every packet of every run within the arithmetic bound: what a receiver accepts of its text is the packet itself
      or nothing, and it is nothing exactly when the checksum draws digits out of the data and the result is wrong. */
  lemma WireKeepsOrDrops(init: Sys, steps: seq<Step>, side: Side, p: Packet, wild: int -> int)
    requires Init(init) && ValidRun(init, steps)
    requires p in Exec(init, steps).From(side)
    requires 1 <= init.id.srcPort <= 99999 && 1 <= init.id.dstPort <= 99999
    requires SmallEnough(Exec(init, steps).At(side), Exec(init, steps).At(side.Other()))
    ensures Accept(PrintTcp(p), wild) == if LostOnWire(p, wild) then None else Some(p)
  {
    hide Init, ValidRun, Exec, Printed, PrintTcp, Accept, FitsColumn, LostOnWire;
    ArithmeticFits(init, steps, side, p, 0);
    PacketText(init, steps, side, p);
    PrintableInRange(p);
    LostMeans(p, wild);
  }

  lemma LostMeans(p: Packet, wild: int -> int)
    requires Printable(p) && p.checksum == Checksum(p) && 0 < p.checksum <= INT_MAX
    ensures Accept(PrintTcp(p), wild) == if LostOnWire(p, wild) then None else Some(p)
  {
    hide Printed, PrintTcp, Accept, FitsColumn, Reread;
    ShortChecksum(p.checksum);
    IntactMeans(p);
    ArrivesOrDropped(p, wild);
  }

  lemma PacketText(init: Sys, steps: seq<Step>, side: Side, p: Packet)
    requires Init(init) && ValidRun(init, steps) && p in Exec(init, steps).From(side)
    requires 1 <= init.id.srcPort <= 99999 && 1 <= init.id.dstPort <= 99999
    ensures 1 <= p.srcPort <= 99999 && 1 <= p.dstPort <= 99999
    ensures p.checksum == Checksum(p) && p.flags.Code() != 0 && NoNul(p.data)
  {
    hide Init, ValidRun, Exec;
    Reached(init, steps, side);
    IdStays(init, steps);
    var sys := Exec(init, steps);
    assert PacketOk(sys.At(side), side, sys.IdOf(side), sys.At(side.Other()), p);
    assert NoNul(sys.At(side).accepted);
  }

  lemma PrintableInRange(p: Packet)
    requires 0 <= p.srcPort <= 99999 && 0 <= p.dstPort <= 99999
    requires -1 <= p.seqNum <= INT_MAX && 0 <= p.ackNum <= INT_MAX && 0 <= p.checksum <= INT_MAX
    requires p.flags.Code() != 0 && NoNul(p.data)
    ensures Printable(p)
  {
    hide FitsColumn, Printed;
    Columns(p.srcPort);
    Columns(p.dstPort);
    Columns(p.seqNum);
    Columns(p.ackNum);
    ShortChecksum(p.checksum);
  }

  /** The same for the data packet of any socket with something to send, in terms of its queue: with a digit next and
      a short checksum it is lost, however often it is sent. */
  lemma RetransmissionStuck(s: Sock, wild: int -> int)
    requires s.Shaped() && NoNul(s.sendQ) && s.sendQ != ""
    requires 1 <= s.id.srcPort <= 99999 && 1 <= s.id.dstPort <= 99999
    requires 0 <= s.sndBase <= INT_MAX && 0 <= s.recv.base <= INT_MAX
    requires s.id.srcPort + s.id.dstPort + s.sndBase + s.recv.base + 1 <= INT_MAX
    ensures var p := DataPacket(s);
            && (DrawsDigits(p) <==> IsDigit(s.sendQ[0]) &&
                                    s.id.srcPort + s.id.dstPort + s.sndBase + s.recv.base + 1 < 1_000_000_000)
            && Accept(PrintTcp(p), wild) == if LostOnWire(p, wild) then None else Some(p)
  {
    var p := DataPacket(s);
    assert UntilNul(s.sendQ) == s.sendQ;
    assert p.data == s.sendQ[..Min(|s.sendQ|, MAX_DATA)] && p.data[0] == s.sendQ[0];
    hide Printed, PrintTcp, Accept, FitsColumn, LostOnWire;
    PrintableInRange(p);
    LostMeans(p, wild);
  }

  // ---------------------------------------------------------------- in an ip packet

  /** What construct_packet makes: fields that fit their columns, and the right checksum. */
  predicate Sendable(p: Packet) {
    Printable(p) && p.checksum == Checksum(p) && 0 < p.checksum <= INT_MAX && |p.data| <= MAX_DATA
  }

  predicate IsAddress(ip: string) {
    |ip| == ADDRESS && NoNul(ip)
  }

  /** send_TCP_packet: the printed segment as the data of an ip packet. */
  function Envelope(p: Packet, srcIp: string, dstIp: string): IpPacket {
    var text := PrintTcp(p);
    IpPacket(HEADER + |text|, srcIp, dstIp, 5, text)
  }

  lemma TextNoNul(p: Packet)
    requires Printable(p)
    ensures NoNul(PrintTcp(p)) && |PrintTcp(p)| == TCP_HEADER + |p.data|
  {
    DataFollows(p);
    NumbersNoNul(p.srcPort, 5);
    NumbersNoNul(p.dstPort, 5);
    NumbersNoNul(p.seqNum, 10);
    NumbersNoNul(p.ackNum, 10);
    NumbersNoNul(p.checksum, 10);
    FlagsOfCode(p.flags);
    hide ZeroPadded, BlankPadded, FitsColumn;
  }

  lemma NumbersNoNul(n: int, width: nat)
    ensures NoNul(ZeroPadded(n, width)) && NoNul(BlankPadded(n, width))
  {
    assert forall c :: IsDigit(c) ==> c != '\0';
    if n < 0 { ValueOfNatural(-n); } else { ValueOfNatural(n); }
  }

  /** Every packet that is sent makes a well-formed frame. */
  lemma EnvelopeWellFormed(p: Packet, srcIp: string, dstIp: string)
    requires Printable(p) && |p.data| <= MAX_DATA && IsAddress(srcIp) && IsAddress(dstIp)
    ensures WellFormed(Envelope(p, srcIp, dstIp))
  {
    hide PrintTcp, Printable;
    TextNoNul(p);
    assert Pow10(8) > 5 by {
      assert Pow10(1) == 10;
      Pow10Grows(1, 8);
    }
  }

  /** Every packet of the two ends has fields that fit, as long as their numbers stay within the arithmetic bound. */
  lemma PacketSendable(sys: Sys, side: Side, p: Packet)
    requires Inv(sys) && p in sys.From(side)
    requires 1 <= sys.id.srcPort <= 99999 && 1 <= sys.id.dstPort <= 99999
    requires SmallEnough(sys.At(side), sys.At(side.Other()))
    ensures Sendable(p)
  {
    hide Printed, FitsColumn;
    var x, y := sys.At(side), sys.At(side.Other());
    assert SideOk(sys, side) && SideOk(sys, side.Other()) && PacketOk(x, side, sys.IdOf(side), y, p);
    hide PeerOk, Inv, SideOk;
    PacketFits(x, side, sys.IdOf(side), y, p);
    assert NoNul(x.accepted);
    hide LocalOk;
    PrintableInRange(p);
  }

  lemma RunPacketSendable(init: Sys, steps: seq<Step>, side: Side, p: Packet)
    requires Init(init) && ValidRun(init, steps)
    requires p in Exec(init, steps).From(side)
    requires 1 <= init.id.srcPort <= 99999 && 1 <= init.id.dstPort <= 99999
    requires SmallEnough(Exec(init, steps).At(side), Exec(init, steps).At(side.Other()))
    ensures Sendable(p)
  {
    hide Init, ValidRun, Exec, Inv, SmallEnough, Sendable;
    Reached(init, steps, side);
    IdStays(init, steps);
    PacketSendable(Exec(init, steps), side, p);
  }

  /** Every packet of every run within the arithmetic bound makes a well-formed frame between two addresses. */
  lemma RunPacketFramed(init: Sys, steps: seq<Step>, side: Side, p: Packet, srcIp: string, dstIp: string)
    requires Init(init) && ValidRun(init, steps)
    requires p in Exec(init, steps).From(side)
    requires 1 <= init.id.srcPort <= 99999 && 1 <= init.id.dstPort <= 99999
    requires SmallEnough(Exec(init, steps).At(side), Exec(init, steps).At(side.Other()))
    requires IsAddress(srcIp) && IsAddress(dstIp)
    ensures WellFormed(Envelope(p, srcIp, dstIp))
  {
    hide Init, ValidRun, Exec, Printable, WellFormed, Envelope;
    RunPacketSendable(init, steps, side, p);
    EnvelopeWellFormed(p, srcIp, dstIp);
  }
}
