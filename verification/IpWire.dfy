/** IP frames (ip.c) and their framing over a fifo (read_ip_packet_from_file, read_entire_message). */
module IpWire {
  import opened Common
  import opened Decimal

  const HEADER: nat := 50
  const ADDRESS: nat := 16

  /** data is empty when the C struct has NULL. */
  datatype IpPacket = IpPacket(totalLength: int, srcIp: string, dstIp: string, headerChecksum: int, data: string)

  /** calc_ip_checksum */
  function IpChecksum(p: IpPacket): int {
    5
  }

  /** What create_ip_packet builds; the length stays where str_to_int cannot overflow. */
  predicate WellFormed(p: IpPacket) {
    && |p.srcIp| == ADDRESS && |p.dstIp| == ADDRESS && NoNul(p.srcIp) && NoNul(p.dstIp) && NoNul(p.data)
    && p.totalLength == HEADER + |p.data| && p.totalLength + '0' as int <= INT_MAX
    && 0 <= p.headerChecksum < Pow10(8)
  }

  /** ip_to_str, as text. */
  function Frame(p: IpPacket): (s: string)
    requires WellFormed(p)
    ensures |s| == p.totalLength
  {
    Digits(p.totalLength, 10) + p.srcIp + p.dstIp + Digits(p.headerChecksum, 8) + p.data
  }

  /** str_to_ip on the contents of a C string: too short a string is refused; the data stop where the string does. */
  function ParseFrame(s: string): Option<IpPacket> {
    if |s| < HEADER then None
    else
      var total := Value(s[..10]);
      Some(IpPacket(total, s[10..26], s[26..42], Value(s[42..50]),
                    if total > HEADER then s[HEADER..Min(|s|, total)] else ""))
  }

  lemma FrameParts(p: IpPacket)
    requires WellFormed(p)
    ensures var s := Frame(p);
            && s[..10] == Digits(p.totalLength, 10) && s[10..26] == p.srcIp && s[26..42] == p.dstIp
            && s[42..50] == Digits(p.headerChecksum, 8) && s[50..] == p.data
  {
  }

  /** Printer and parser undo each other, starting from a packet. */
  lemma ParseUndoesFrame(p: IpPacket)
    requires WellFormed(p)
    ensures ParseFrame(Frame(p)) == Some(p)
  {
    FrameParts(p);
    assert Pow10(10) == 10000000000 by {
      TenBillion();
    }
    ValueOfDigits(p.totalLength, 10);
    ValueOfDigits(p.headerChecksum, 8);
    var s := Frame(p);
    assert s[HEADER..|s|] == s[50..];
  }

  lemma TenBillion()
    ensures Pow10(10) == 10000000000
  {
    assert Pow10(5) == 100000;
  }

  /** And starting from a text whose number columns hold digits and whose length column is right. */
  lemma FrameUndoesParse(s: string)
    requires |s| >= HEADER && NoNul(s) && AllDigits(s[..10]) && AllDigits(s[42..50])
    requires Value(s[..10]) == |s| && |s| + '0' as int <= INT_MAX
    ensures WellFormed(ParseFrame(s).value) && Frame(ParseFrame(s).value) == s
  {
    DigitsOfValue(s[..10]);
    DigitsOfValue(s[42..50]);
    assert s == s[..10] + s[10..26] + s[26..42] + s[42..50] + s[50..];
  }

  // ---------------------------------------------------------------- the buffer code

  /** strcpy1: copies into a buffer until the source's NUL, at most `size` characters; the NUL is copied too. */
  method StrCpy1(dest: array<char>, at: nat, source: string, size: nat)
    requires at + size <= dest.Length
    modifies dest
    ensures var n := Min(|UntilNul(source)|, size);
            && dest[at..at + n] == UntilNul(source)[..n]
            && (n < size ==> dest[at + n] == '\0')
            && forall j :: 0 <= j < dest.Length && !(at <= j < at + Min(n + 1, size)) ==> dest[j] == old(dest[j])
  {
    ghost var text := UntilNul(source);
    for i := 0 to size
      invariant i <= |text|
      invariant dest[at..at + i] == text[..i]
      invariant forall j :: 0 <= j < dest.Length && !(at <= j < at + i) ==> dest[j] == old(dest[j])
    {
      dest[at + i] := if i < |source| then source[i] else '\0';
      if dest[at + i] == '\0' {
        return;
      }
    }
  }

  /** ip_to_str */
  method IpToStr(p: IpPacket) returns (result: array<char>)
    requires WellFormed(p)
    ensures fresh(result) && result[..] == Frame(p) + ['\0']
  {
    var length := p.totalLength;
    result := new char[length + 1];
    IntToStr(result, 0, 10, length);
    ghost var text := result[..10];
    StrCpy1(result, 10, p.srcIp, ADDRESS);
    assert result[..10] == text;
    text := text + p.srcIp;
    assert result[..26] == text;
    StrCpy1(result, 26, p.dstIp, ADDRESS);
    assert result[..26] == text;
    text := text + p.dstIp;
    assert result[..42] == text;
    IntToStr(result, 42, 8, p.headerChecksum);
    assert result[..42] == text;
    text := text + Digits(p.headerChecksum, 8);
    assert result[..50] == text;
    StrCpy1(result, HEADER, p.data, length - HEADER);
    assert result[..50] == text && result[50..length] == p.data;
    result[length] := '\0';
    assert result[..length] == text + p.data;
  }

  /** str_to_ip */
  method StrToIp(s: string) returns (result: Option<IpPacket>)
    requires NoNul(s)
    ensures result == ParseFrame(s)
  {
    if |s| < HEADER {
      return None;
    }
    var total := StrToInt(s, 10);
    var checksum := StrToInt(s[42..], 8);
    assert s[42..][..8] == s[42..50];
    assert NoNul(s[10..]) && NoNul(s[26..]) && NoNul(s[HEADER..]);
    var src := CopyOut(s[10..], ADDRESS);
    var dst := CopyOut(s[26..], ADDRESS);
    assert s[10..][..16] == s[10..26] && s[26..][..16] == s[26..42];
    var data := "";
    var dataSize := total - HEADER;
    if dataSize > 0 {
      data := CopyOut(s[HEADER..], dataSize);
      assert s[HEADER..][..Min(|s| - HEADER, dataSize)] == s[HEADER..Min(|s|, total)];
    }
    result := Some(IpPacket(total, src, dst, checksum, data));
  }

  /** strcpy1 into a buffer that is then terminated: the C string that is left there. */
  method CopyOut(source: string, size: nat) returns (text: string)
    ensures text == UntilNul(source)[..Min(|UntilNul(source)|, size)]
  {
    var buffer := new char[size + 1];
    StrCpy1(buffer, 0, source, size);
    buffer[size] := '\0';
    text := UntilNul(buffer[..]);
    ghost var n := Min(|UntilNul(source)|, size);
    assert buffer[..][..n] == buffer[0..n] == UntilNul(source)[..n];
    UntilNulIs(buffer[..], n);
  }
}
