/** Constants of the headers (array_queue.h, socket_utils.h, util_types.h) and small helpers. */
module Common {

  datatype Option<+T> = None | Some(value: T)

  const QUEUE_CAPACITY: nat := 8192   // DEFAULT_QUEUE_CAPACITY
  const WINDOW_SIZE: nat := 1024      // MAX_WINDOW_SIZE
  const MAX_DATA: nat := 128          // MAX_DATA_PER_PACKET
  const EMPTY_PORT: int := 0
  const CLOCKS_PER_SEC: int := 1_000_000
  const SOCKET_TIMEOUT: int := 10
  const SEND_AGAIN_TIME: int := 3
  const FIN_RST_TIME: int := 8
  const TIME_WAIT_TIMEOUT: int := 1
  const INT_MAX: int := 0x7fff_ffff
  const INT_MIN: int := -0x8000_0000

  predicate FitsInt(n: int) {
    INT_MIN <= n <= INT_MAX
  }

  function Min(a: int, b: int): int {
    if a <= b then a else b
  }

  function Max(a: int, b: int): int {
    if a <= b then b else a
  }

  /** DIFF2SEC(now - since) > seconds. */
  predicate Elapsed(now: int, since: int, seconds: int) {
    now - since > seconds * CLOCKS_PER_SEC
  }

  /** A byte as C's plain char, which is signed where the code is built; different bytes have different values. */
  function SignedByte(c: char): int {
    if 128 <= c as int < 256 then c as int - 256 else c as int
  }

  /** No byte of a C string's contents is the terminator. */
  predicate NoNul(s: string) {
    forall i :: 0 <= i < |s| ==> s[i] != '\0'
  }

  /** What a C loop that stops at the first NUL gets to see. */
  function UntilNul(s: string): (r: string)
    ensures r <= s && NoNul(r)
    ensures |r| < |s| ==> s[|r|] == '\0'
    ensures NoNul(s) ==> r == s
  {
    if s == [] || s[0] == '\0' then []
    else
      assert NoNul(s) ==> NoNul(s[1..]);
      var rest := UntilNul(s[1..]);
      assert forall i :: 0 < i <= |rest| ==> s[i] == s[1..][i - 1] == rest[i - 1];
      [s[0]] + rest
  }

  lemma UntilNulIs(s: string, n: nat)
    requires n <= |s| && NoNul(s[..n]) && (n < |s| ==> s[n] == '\0')
    ensures UntilNul(s) == s[..n]
    ensures UntilNul(s) == s <==> NoNul(s)
  {
    var r := UntilNul(s);
    assert r == s[..|r|];
    assert forall i :: 0 <= i < n ==> s[..n][i] == s[i];
    assert forall i :: 0 <= i < |r| ==> s[i] == r[i] && s[i] != '\0';
  }
}
