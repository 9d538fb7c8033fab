/** Length-exact reading from a fifo and the splitting of its bytes into frames (fifo_utils.c read_entire_message,
    network_manager.c read_ip_packet_from_file). */
module Framing {
  import opened Common
  import opened Decimal
  import opened Formatted
  import opened IpWire

  /** What reading one packet comes to: no packet, one, or a call that has not returned because it waits for bytes. */
  datatype Reading = Nothing | Got(packet: IpPacket) | Waiting

  function Parsed(p: Option<IpPacket>): Reading {
    if p.None? then Nothing else Got(p.value)
  }

  /** Reading one packet from the bytes waiting in a fifo, and the bytes left. Bytes too few for a length column
      are lost; a length column that announces no more than itself, or more than has been written, keeps the reader
      waiting, in the latter case with all bytes taken. */
  function NextPacket(bytes: string, wild: int -> int): (Reading, string) {
    if |bytes| < 10 then (Nothing, "")
    else
      var total := ScanInt(bytes[..10], 10);
      if total.None? then (Nothing, bytes[10..])
      else
        var n := Stored(total.value.0, wild);
        if n < 10 then (Nothing, bytes[10..])
        else if n == 10 then (Waiting, bytes[10..])
        else if n > |bytes| then (Waiting, "")
        else (Parsed(ParseFrame(UntilNul(bytes[..n]))), bytes[n..])
  }

  /** The bytes waiting in a fifo; its other end stays open, so an empty fifo means "try again" and not end of file.
      Reads of a faulty one may fail. */
  class Fifo {
    var bytes: string
    const faulty: bool

    constructor (bytes: string, faulty: bool)
      ensures this.bytes == bytes && this.faulty == faulty
    {
      this.bytes, this.faulty := bytes, faulty;
    }

    /** read(): any part of what is there, but something if there is something; or an error. */
    method Read(len: nat) returns (chunk: string, result: int)
      modifies this
      ensures result == -1 ==> faulty && chunk == "" && bytes == old(bytes)
      ensures result != -1 ==> result == |chunk| <= len && old(bytes) == chunk + bytes
      ensures result == 0 <==> result != -1 && (len == 0 || old(bytes) == "")
    {
      if faulty {
        var fails: bool :| true;
        if fails {
          return "", -1;
        }
      }
      var most := Min(len, |bytes|);
      var k: nat :| k <= most && (k == 0 <==> most == 0);
      chunk, bytes := bytes[..k], bytes[k..];
      result := k;
    }

    /** read_entire_message: all of it or, once the fifo runs dry, nothing; or an error. */
    method ReadEntireMessage(len: int) returns (buf: string, result: int)
      modifies this
      ensures result == -1 || result == 0 || result == len
      ensures result == -1 ==> len < 0 || faulty
      ensures len < 0 ==> result == -1 && bytes == old(bytes)
      ensures len == 0 ==> result <= 0 && bytes == old(bytes)
      ensures len > 0 && result == len ==>
                |old(bytes)| >= len && buf == old(bytes)[..len] && bytes == old(bytes)[len..]
      ensures len > 0 && result == 0 ==> |old(bytes)| < len && bytes == ""
    {
      if len < 0 {
        return "", -1;
      }
      buf, result := Read(len);
      if result <= 0 {
        return;
      }
      while |buf| < len
        invariant |buf| <= len && old(bytes) == buf + bytes
        decreases len - |buf|
      {
        var chunk;
        chunk, result := Read(len - |buf|);
        if result <= 0 {
          return;
        }
        buf := buf + chunk;
      }
      return buf, len;
    }

    /** read_ip_packet_from_file. The second read is tried again as long as it reports nothing: once it does, with
        nothing written meanwhile, the call waits. */
    method ReadIpPacket(wild: int -> int) returns (r: Reading)
      modifies this
      ensures !faulty || r.Got? ==> (r, bytes) == NextPacket(old(bytes), wild)
    {
      ghost var before := bytes;
      var lengthText, read := ReadEntireMessage(10);
      if read != 10 {
        return Nothing;
      }
      var scanned := ScanInt(lengthText, 10);
      if scanned.None? {
        return Nothing;
      }
      var total := Stored(scanned.value.0, wild);
      var rest, readRest := ReadEntireMessage(total - 10);
      if readRest == -1 {
        return Nothing;
      }
      if readRest == 0 {
        return Waiting;
      }
      assert lengthText + rest == before[..total];
      var p := StrToIp(UntilNul(lengthText + rest));
      r := Parsed(p);
    }

    /** Reading until there is no packet. */
    method DrainPackets(wild: int -> int, ghost ps: seq<IpPacket>) returns (got: seq<IpPacket>)
      requires AllWellFormed(ps) && bytes == Stream(ps) && !faulty
      modifies this
      ensures got == ps && bytes == ""
    {
      hide NextPacket, WellFormed;
      got := [];
      ghost var left := ps;
      FirstFrame(left, wild);
      var r := ReadIpPacket(wild);
      while r.Got?
        invariant AllWellFormed(left) && ps == got + left
        invariant r == if left == [] then Nothing else Got(left[0])
        invariant bytes == if left == [] then "" else Stream(left[1..])
        decreases |left|
      {
        got := got + [r.packet];
        left := left[1..];
        FirstFrame(left, wild);
        r := ReadIpPacket(wild);
      }
    }
  }

  predicate AllWellFormed(ps: seq<IpPacket>) {
    forall p :: p in ps ==> WellFormed(p)
  }

  /** The frames one after the other. */
  function Stream(ps: seq<IpPacket>): string
    requires AllWellFormed(ps)
  {
    if ps == [] then "" else Frame(ps[0]) + Stream(ps[1..])
  }

  /** The length column of a frame is read as its length. */
  lemma FrameHead(p: IpPacket, rest: string)
    requires WellFormed(p)
    ensures var s := Frame(p) + rest;
            && |s| >= p.totalLength >= HEADER && s[..p.totalLength] == Frame(p) && s[p.totalLength..] == rest
            && ScanInt(s[..10], 10) == Some((p.totalLength, ""))
            && s[10..][..p.totalLength - 10] == Frame(p)[10..] && s[10..][p.totalLength - 10..] == rest
  {
    FrameParts(p);
    var text := Digits(p.totalLength, 10);
    var s := Frame(p) + rest;
    assert s[..10] == Frame(p)[..10] == text;
    TenBillion();
    ValueOfDigits(p.totalLength, 10);
    DigitRunIs(text, "", 10);
    assert text + "" == text;
    ScanUnsigned(text, 10);
    assert text[..10] == text && text[10..] == "";
  }

  /** From whole frames the first is read, and the others are left. */
  lemma FirstFrame(ps: seq<IpPacket>, wild: int -> int)
    requires AllWellFormed(ps)
    ensures NextPacket(Stream(ps), wild) == if ps == [] then (Nothing, "") else (Got(ps[0]), Stream(ps[1..]))
  {
    if ps != [] {
      FrameHead(ps[0], Stream(ps[1..]));
      WellFormedText(ps[0]);
      ParseUndoesFrame(ps[0]);
    }
  }

  lemma WellFormedText(p: IpPacket)
    requires WellFormed(p)
    ensures NoNul(Frame(p))
  {
    assert forall c :: IsDigit(c) ==> c != '\0';
    var a, b := Digits(p.totalLength, 10), Digits(p.headerChecksum, 8);
    assert NoNul(a) && NoNul(b);
  }

  /** A byte stream splits into frames in one way only. */
  lemma {:induction false} SplitsUniquely(ps: seq<IpPacket>, qs: seq<IpPacket>)
    requires AllWellFormed(ps) && AllWellFormed(qs) && Stream(ps) == Stream(qs)
    ensures ps == qs
  {
    if ps != [] && qs != [] {
      FrameHead(ps[0], Stream(ps[1..]));
      FrameHead(qs[0], Stream(qs[1..]));
      ParseUndoesFrame(ps[0]);
      ParseUndoesFrame(qs[0]);
      SplitsUniquely(ps[1..], qs[1..]);
    }
  }

  /** A frame that has been written in part keeps the reader waiting, and what there was of it has been taken; less
      than a length column is lost. */
  lemma CutFrame(p: IpPacket, k: nat, wild: int -> int)
    requires WellFormed(p) && k < p.totalLength
    ensures NextPacket(Frame(p)[..k], wild) == if k < 10 then (Nothing, "") else (Waiting, "")
  {
    FrameHead(p, "");
    assert Frame(p) + "" == Frame(p);
    if k >= 10 {
      assert Frame(p)[..k][..10] == Frame(p)[..10];
    }
  }

  /** Ten bytes that are no length are passed over, and so are ten that announce less than themselves; ten that
      announce exactly themselves are taken and keep the reader waiting for nothing. */
  lemma BadLength(text: string, rest: string, wild: int -> int)
    requires |text| == 10
    ensures var n := ScanInt(text, 10); var length := if n.None? then 0 else Stored(n.value.0, wild);
            && (length < 10 ==> NextPacket(text + rest, wild) == (Nothing, rest))
            && (length == 10 ==> NextPacket(text + rest, wild) == (Waiting, rest))
  {
    assert (text + rest)[..10] == text && (text + rest)[10..] == rest;
    hide ScanInt;
  }
}
