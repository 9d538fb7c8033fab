/** The text form of a TCP segment (tcp.c): a header of 41 columns and the data. */
module TcpWire {
  import opened Common
  import opened Packets
  import opened Decimal
  import opened Formatted

  const TCP_HEADER: nat := 41

  /** A parsed segment, with its whole flag byte: the handlers look at four bits of it, the checksum test adds it
      all. */
  datatype Segment = Segment(packet: Packet, code: int)

  /** The flag bits of a byte. */
  function FlagsOf(code: int): Flags {
    Flags(code % 2 == 1, code / 2 % 2 == 1, code / 4 % 2 == 1, code / 8 % 2 == 1)
  }

  lemma FlagsOfCode(f: Flags)
    ensures FlagsOf(f.Code()) == f && 0 <= f.Code() < 16
  {
  }

  /** tcp_to_str: "%05d%05d%010d%010d%c%10d%s". */
  function PrintTcp(p: Packet): string {
    ZeroPadded(p.srcPort, 5) + ZeroPadded(p.dstPort, 5) + ZeroPadded(p.seqNum, 10) + ZeroPadded(p.ackNum, 10) +
    [p.flags.Code() as char] + BlankPadded(p.checksum, 10) + p.data
  }

  /** str_to_tcp: the header by "%05d%05d%010d%010d%c%10d"; the data are whatever follows column 41, however far the
      last conversion has read. */
  function ParseTcp(s: string, wild: int -> int): Option<Segment> {
    var src := ScanInt(s, 5);
    if src.None? then None else
    var dst := ScanInt(src.value.1, 5);
    if dst.None? then None else
    var sq := ScanInt(dst.value.1, 10);
    if sq.None? then None else
    var ack := ScanInt(sq.value.1, 10);
    if ack.None? || ack.value.1 == "" then None else
    var code, rest := SignedByte(ack.value.1[0]), ack.value.1[1..];
    var sum := ScanInt(rest, 10);
    if sum.None? then None else
    var p := Packet(Stored(src.value.0, wild), Stored(dst.value.0, wild), Stored(sq.value.0, wild),
                    Stored(ack.value.0, wild), FlagsOf(code), Stored(sum.value.0, wild),
                    if |s| > TCP_HEADER then s[TCP_HEADER..] else "");
    Some(Segment(p, code))
  }

  /** Every field is an int and stays in its column; there is a flag, so the text has no NUL in the header. */
  predicate Printable(p: Packet) {
    && FitsInt(p.srcPort) && FitsInt(p.dstPort) && FitsInt(p.seqNum) && FitsInt(p.ackNum) && FitsInt(p.checksum)
    && FitsColumn(p.srcPort, 5) && FitsColumn(p.dstPort, 5) && FitsColumn(p.seqNum, 10) && FitsColumn(p.ackNum, 10)
    && p.flags.Code() != 0 && |Printed(p.checksum)| <= 10 && NoNul(p.data)
  }

  /** The digits at the start of the data that the last conversion takes for the checksum's. */
  function Swallowed(p: Packet): nat {
    DigitRun(p.data, 10 - |Printed(p.checksum)|)
  }

  /** The number in the checksum's columns and the data behind them. */
  function Reread(p: Packet): int {
    Extended(p.checksum, p.data[..Swallowed(p)])
  }

  /** Reading back: everything is restored but the checksum, to whose digits leading digits of the data are added. */
  lemma ParseOfPrint(p: Packet, wild: int -> int)
    requires Printable(p)
    ensures ParseTcp(PrintTcp(p), wild) == Some(Segment(p.(checksum := Stored(Reread(p), wild)), p.flags.Code()))
  {
    hide ScanInt, ZeroPadded, BlankPadded, DigitRun, Extended, Printed;
    var r6 := BlankPadded(p.checksum, 10) + p.data;
    var r5 := [p.flags.Code() as char] + r6;
    var r4 := ZeroPadded(p.ackNum, 10) + r5;
    var r3 := ZeroPadded(p.seqNum, 10) + r4;
    var r2 := ZeroPadded(p.dstPort, 5) + r3;
    var s := ZeroPadded(p.srcPort, 5) + r2;
    assert PrintTcp(p) == s;
    ScanZeroPadded(p.srcPort, 5, r2);
    ScanZeroPadded(p.dstPort, 5, r3);
    ScanZeroPadded(p.seqNum, 10, r4);
    ScanZeroPadded(p.ackNum, 10, r5);
    ScanBlankPadded(p.checksum, 10, p.data);
    ScanNumber(p.checksum, 10, p.data);
    assert r5[1..] == r6 && r5[0] as int == p.flags.Code();
    FlagsOfCode(p.flags);
    DataFollows(p);
  }

  lemma BlankPaddedWidth(n: int, width: nat)
    requires |Printed(n)| <= width
    ensures |BlankPadded(n, width)| == width
  {
  }

  lemma DataFollows(p: Packet)
    requires Printable(p)
    ensures |PrintTcp(p)| == TCP_HEADER + |p.data| && PrintTcp(p)[TCP_HEADER..] == p.data
  {
    hide ZeroPadded, BlankPadded, Printed;
    BlankPaddedWidth(p.checksum, 10);
  }

  /** The checksum fills its ten columns or the data do not start with a digit (or, for checksum 0, the digits taken
      are zeros). */
  predicate Intact(p: Packet) {
    || |Printed(p.checksum)| == 10 || p.data == "" || !IsDigit(p.data[0])
    || (p.checksum == 0 && Value(p.data[..Swallowed(p)]) == 0)
  }

  lemma IntactMeans(p: Packet)
    requires Printable(p)
    ensures Intact(p) <==> Reread(p) == p.checksum
  {
    ExtendedSame(p.checksum, p.data[..Swallowed(p)]);
    assert p.data[..0] == "";
  }

  /** The wire round trip: the packet comes back exactly when it is intact, or when its checksum and the digits behind
      it exceed int and the library happens to store the checksum for them. */
  lemma RoundTrip(p: Packet, wild: int -> int)
    requires Printable(p)
    ensures ParseTcp(PrintTcp(p), wild) == Some(Segment(p, p.flags.Code())) <==>
              Intact(p) || (!FitsInt(Reread(p)) && wild(Reread(p)) == p.checksum)
  {
    ParseOfPrint(p, wild);
    IntactMeans(p);
  }

  /** calc_checksum of a parsed segment, which adds the whole flag byte. */
  function SumOf(s: Segment): int {
    s.packet.srcPort + s.packet.dstPort + s.packet.seqNum + s.packet.ackNum + s.code
  }

  /** What the receiver makes of a text: handle_incoming_ip_packet drops a packet whose checksum does not agree. */
  function Accept(s: string, wild: int -> int): Option<Packet> {
    var p := ParseTcp(s, wild);
    if p.Some? && p.value.packet.checksum == SumOf(p.value) then Some(p.value.packet) else None
  }

  /** A packet as construct_packet makes it gets through to the receiver unchanged exactly under that condition, and
      otherwise is dropped: whatever the library does, it is never altered. */
  lemma ArrivesOrDropped(p: Packet, wild: int -> int)
    requires Printable(p) && p.checksum == Checksum(p)
    ensures Accept(PrintTcp(p), wild) ==
            if Intact(p) || (!FitsInt(Reread(p)) && wild(Reread(p)) == p.checksum) then Some(p) else None
  {
    hide PrintTcp, ParseTcp, Printable, Intact, Reread;
    ParseOfPrint(p, wild);
    RoundTrip(p, wild);
  }

  /** The smallest kind of packet that is lost for good: between ports 8081 and 8080, numbers 1 and 1, one byte
      '7'. The checksum 16164 is read back as 161647. */
  lemma DigitLost(wild: int -> int)
    ensures var p := MakePacket(8081, 8080, 1, 1, ACK, "7");
            && ParseTcp(PrintTcp(p), wild) == Some(Segment(p.(checksum := 161647), ACK.Code()))
            && Accept(PrintTcp(p), wild) == None
  {
    hide Natural, PrintTcp, ParseTcp, Accept, FitsColumn, Pow10;
    var p := MakePacket(8081, 8080, 1, 1, ACK, "7");
    SmallNumbersFit();
    ParseOfPrint(p, wild);
    assert Swallowed(p) == 1 && p.data[..1] == "7";
    ValueOfNatural(p.checksum);
    ValueAppend(Natural(p.checksum), "7");
    OneDigit();
    IntactMeans(p);
    ArrivesOrDropped(p, wild);
  }

  /** Beyond int the outcome hangs on the library: with checksum 477218588 and data "4" ten digits are read, and one
      that keeps the low 32 bits stores 477218588 again, so this packet arrives. */
  lemma DigitKept()
    ensures var p := MakePacket(8081, 8080, 477202000, 426, ACK, "4");
            !Intact(p) && Reread(p) == 4772185884 && Accept(PrintTcp(p), LowBits) == Some(p)
  {
    hide Natural, PrintTcp, ParseTcp, Accept, FitsColumn, Pow10;
    var p := MakePacket(8081, 8080, 477202000, 426, ACK, "4");
    LargeNumbersFit();
    assert Swallowed(p) == 1 && p.data[..1] == "4";
    ValueOfNatural(p.checksum);
    ValueAppend(Natural(p.checksum), "4");
    OneDigit();
    ArrivesOrDropped(p, LowBits);
  }

  lemma LargeNumbersFit()
    ensures FitsColumn(8081, 5) && FitsColumn(8080, 5) && FitsColumn(477202000, 10) && FitsColumn(426, 10)
    ensures |Printed(477218588)| <= 9
  {
    hide Natural, FitsColumn;
    FitsColumnMeans(8081, 5);
    FitsColumnMeans(8080, 5);
    FitsColumnMeans(477202000, 10);
    FitsColumnMeans(426, 10);
    NaturalWidth(477218588, 9);
    assert Pow10(4) == 10_000 && Pow10(9) == 1_000_000_000 by {
      assert Pow10(5) == 100_000;
    }
    Pow10Grows(9, 10);
    Pow10Grows(4, 5);
  }

  lemma OneDigit()
    ensures Pow10(1) == 10 && Value("7") == 7 && Value("4") == 4
  {
    assert Pow10(0) == 1 && "7"[..0] == "" && "4"[..0] == "";
  }

  lemma SmallNumbersFit()
    ensures FitsColumn(8081, 5) && FitsColumn(8080, 5) && FitsColumn(1, 10) && |Printed(16164)| <= 5
  {
    hide Natural, FitsColumn;
    FitsColumnMeans(8081, 5);
    FitsColumnMeans(8080, 5);
    FitsColumnMeans(1, 10);
    NaturalWidth(16164, 5);
    assert Pow10(2) == 100 && Pow10(4) == 10000;
    Pow10Grows(2, 9);
    Pow10Grows(2, 10);
  }

  lemma PaddedColumn(n: nat, width: nat)
    requires FitsColumn(n, width)
    ensures AllDigits(ZeroPadded(n, width)) && Value(ZeroPadded(n, width)) == n
  {
    ValueOfZeros(width - |Natural(n)|, Natural(n));
    ValueOfNatural(n);
    hide Natural;
  }

  lemma ColumnsOf(a: string, b: string, c: string, d: string, e: string, f: string, rest: string)
    requires |a| == 5 && |b| == 5 && |c| == 10 && |d| == 10 && |e| == 1 && |f| == 10
    ensures var s := a + b + c + d + e + f + rest;
            && s[..5] == a && s[5..10] == b && s[10..20] == c && s[20..30] == d && s[30] == e[0]
            && s[31..41] == f && s[41..] == rest
  {
  }

  /** Where each field of a segment stands in its text: source port, destination port, sequence number and
      acknowledgement number in decimal columns of 5, 5, 10 and 10, the flag byte, the checksum at the right end of
      ten columns, and the data. ACK is 1, FIN 2, RST 4 and SYN 8. */
  lemma Layout(p: Packet)
    requires Printable(p) && p.srcPort >= 0 && p.dstPort >= 0 && p.seqNum >= 0 && p.ackNum >= 0 && p.checksum >= 0
    ensures var s := PrintTcp(p); var k := 10 - |Natural(p.checksum)|;
            && |s| == 41 + |p.data| && 0 <= k
            && AllDigits(s[..30]) && Value(s[..5]) == p.srcPort && Value(s[5..10]) == p.dstPort
            && Value(s[10..20]) == p.seqNum && Value(s[20..30]) == p.ackNum
            && s[30] as int == (if p.flags.ack then 1 else 0) + (if p.flags.fin then 2 else 0)
                               + (if p.flags.rst then 4 else 0) + (if p.flags.syn then 8 else 0)
            && (forall i :: 31 <= i < 31 + k ==> s[i] == ' ') && s[31 + k..41] == Natural(p.checksum)
            && s[41..] == p.data
  {
    BlankPaddedWidth(p.checksum, 10);
    PaddedColumn(p.srcPort, 5);
    PaddedColumn(p.dstPort, 5);
    PaddedColumn(p.seqNum, 10);
    PaddedColumn(p.ackNum, 10);
    FlagsOfCode(p.flags);
    var a, b := ZeroPadded(p.srcPort, 5), ZeroPadded(p.dstPort, 5);
    var c, d := ZeroPadded(p.seqNum, 10), ZeroPadded(p.ackNum, 10);
    var f, k := BlankPadded(p.checksum, 10), 10 - |Natural(p.checksum)|;
    assert f == Repeat(' ', k) + Natural(p.checksum);
    hide ZeroPadded, BlankPadded, Natural, Value;
    ColumnsOf(a, b, c, d, [p.flags.Code() as char], f, p.data);
    var s := PrintTcp(p);
    assert s[..30] == a + b + c + d;
    assert forall i :: 31 <= i < 41 ==> s[i] == s[31..41][i - 31];
    assert s[31 + k..41] == f[k..];
  }
}
