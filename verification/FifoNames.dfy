/** The names of the fifos that belong to a socket (fifo_utils.c): different purposes or different sockets never share
    a fifo. */
module FifoNames {
  import opened Decimal
  import opened SocketModel

  datatype Role =
    | ListenRead | ListenWrite | AcceptRead | ConnectRead | ConnectWrite
    | OutData | InData | EndWrite | EndRead

  const FOLDER: string := "/tmp/vnetwork_fifos/"

  function Prefix(role: Role): string {
    match role
    case ListenRead => "vnetwork_listen_socket_read_"
    case ListenWrite => "vnetwork_listen_socket_write_"
    case AcceptRead => "vnetwork_accept_socket_read_"
    case ConnectRead => "vnetwork_connect_soket_read_"
    case ConnectWrite => "vnetwork_connect_socket_write_"
    case OutData => "vnetwork_out_data_"
    case InData => "vnetwork_in_data_socket_read_"
    case EndWrite => "vnetwork_end_socket_write_"
    case EndRead => "vnetwork_end_socket_read_"
  }

  /** "(%s_%d_%s_%d)" */
  function IdText(id: Id): string {
    id.srcIp + ['_'] + (Printed(id.srcPort) + ['_'] + (id.dstIp + ['_'] + (Printed(id.dstPort) + [')'])))
  }

  /** construct_full_socket_fifo_name */
  function SocketFifoName(role: Role, id: Id): string {
    FOLDER + (Prefix(role) + ['('] + IdText(id))
  }

  lemma {:induction false} SplitAt(a: string, x: string, b: string, y: string, c: char)
    requires a + [c] + x == b + [c] + y
    requires c !in a && c !in b
    ensures a == b && x == y
  {
    var s := a + [c] + x;
    assert s[0] == if a == "" then c else a[0];
    assert (b + [c] + y)[0] == if b == "" then c else b[0];
    assert b != "" ==> b[0] in b;
    assert a != "" ==> a[0] in a;
    if a != "" {
      assert s[1..] == a[1..] + [c] + x && (b + [c] + y)[1..] == b[1..] + [c] + y;
      SplitAt(a[1..], x, b[1..], y, c);
    } else {
      assert x == s[1..] && y == (b + [c] + y)[1..];
    }
  }

  lemma NoDelimiterInNumber(n: int)
    ensures '_' !in Printed(n) && ')' !in Printed(n) && '(' !in Printed(n)
  {
    var d := Natural(if n < 0 then -n else n);
    assert forall i :: 0 <= i < |d| ==> IsDigit(d[i]);
  }

  lemma PrefixesDiffer(r: Role, s: Role)
    requires Prefix(r) == Prefix(s)
    ensures r == s
  {
    assert |Prefix(ListenRead)| == 28 && |Prefix(AcceptRead)| == 28 && |Prefix(ConnectRead)| == 28;
    assert |Prefix(ListenWrite)| == 29 && |Prefix(InData)| == 29;
    assert Prefix(ListenRead)[9] == 'l' && Prefix(AcceptRead)[9] == 'a' && Prefix(ConnectRead)[9] == 'c';
    assert Prefix(ListenWrite)[9] == 'l' && Prefix(InData)[9] == 'i';
  }

  lemma NoParenInPrefix(r: Role)
    ensures '(' !in Prefix(r)
  {
  }

  /** Addresses are sixteen characters, digits or the empty marker. */
  lemma IdTextInjective(a: Id, b: Id)
    requires |a.srcIp| == |b.srcIp| == 16 && |a.dstIp| == |b.dstIp| == 16 && IdText(a) == IdText(b)
    ensures a == b
  {
    var restA := Printed(a.srcPort) + ['_'] + (a.dstIp + ['_'] + (Printed(a.dstPort) + [')']));
    var restB := Printed(b.srcPort) + ['_'] + (b.dstIp + ['_'] + (Printed(b.dstPort) + [')']));
    assert IdText(a)[..16] == a.srcIp && IdText(b)[..16] == b.srcIp;
    assert IdText(a)[17..] == restA && IdText(b)[17..] == restB;
    NoDelimiterInNumber(a.srcPort);
    NoDelimiterInNumber(b.srcPort);
    var tailA := a.dstIp + ['_'] + (Printed(a.dstPort) + [')']);
    var tailB := b.dstIp + ['_'] + (Printed(b.dstPort) + [')']);
    SplitAt(Printed(a.srcPort), tailA, Printed(b.srcPort), tailB, '_');
    DecimalInjective(a.srcPort, b.srcPort);
    assert tailA[..16] == a.dstIp && tailB[..16] == b.dstIp;
    var endA, endB := Printed(a.dstPort) + [')'], Printed(b.dstPort) + [')'];
    assert tailA[17..] == endA && tailB[17..] == endB;
    assert Printed(a.dstPort) == endA[..|endA| - 1] && Printed(b.dstPort) == endB[..|endB| - 1];
    DecimalInjective(a.dstPort, b.dstPort);
  }

  /** Equal names, equal purpose and equal socket. */
  lemma NamesInjective(r: Role, a: Id, s: Role, b: Id)
    requires |a.srcIp| == |b.srcIp| == 16 && |a.dstIp| == |b.dstIp| == 16
    requires SocketFifoName(r, a) == SocketFifoName(s, b)
    ensures r == s && a == b
  {
    var n := |FOLDER|;
    assert SocketFifoName(r, a)[n..] == Prefix(r) + ['('] + IdText(a);
    assert SocketFifoName(s, b)[n..] == Prefix(s) + ['('] + IdText(b);
    NoParenInPrefix(r);
    NoParenInPrefix(s);
    SplitAt(Prefix(r), IdText(a), Prefix(s), IdText(b), '(');
    PrefixesDiffer(r, s);
    IdTextInjective(a, b);
  }
}
