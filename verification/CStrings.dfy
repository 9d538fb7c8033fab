/** The string loops of Functions.c, on buffers that may hold anything behind their NUL. */
module CStrings {
  import opened Common

  const IP_ADDR_SIZE: nat := 17

  /** The buffer holds a C string. */
  predicate Terminated(s: string) {
    |UntilNul(s)| < |s|
  }

  /** Place i of a buffer, up to its first NUL. */
  lemma Place(s: string, i: nat)
    requires Terminated(s) && i <= |UntilNul(s)|
    ensures s[i] == '\0' <==> i == |UntilNul(s)|
    ensures i < |UntilNul(s)| ==> UntilNul(s)[i] == s[i]
  {
  }

  /** strcmp_t: the order, as signed bytes, of the first difference, up to the NUL of the first string. */
  method StrCmp(a: string, b: string) returns (flag: int)
    requires Terminated(a) && Terminated(b)
    ensures flag == 0 <==> UntilNul(a) == UntilNul(b)
    ensures flag != 0 ==> exists n :: 0 <= n < |a| && n < |b| && a[..n] == b[..n] && a[n] != b[n] &&
                                      flag == if SignedByte(a[n]) > SignedByte(b[n]) then 1 else -1
  {
    hide UntilNul;
    var i := 0;
    flag := 0;
    while flag == 0
      invariant 0 <= i <= |UntilNul(a)| && i <= |UntilNul(b)| && flag == 0 && a[..i] == b[..i]
      decreases |a| - i
    {
      Place(a, i);
      Place(b, i);
      if SignedByte(a[i]) > SignedByte(b[i]) {
        flag := 1;
      } else if SignedByte(a[i]) < SignedByte(b[i]) {
        flag := -1;
      }
      if flag != 0 {
        Differ(a, b, i);
        return;
      }
      if a[i] == '\0' {
        Agree(a, b);
        break;
      }
      i := i + 1;
    }
  }

  lemma Differ(a: string, b: string, i: nat)
    requires Terminated(a) && Terminated(b)
    requires i <= |UntilNul(a)| && i <= |UntilNul(b)| && a[i] != b[i]
    ensures UntilNul(a) != UntilNul(b)
  {
    hide UntilNul;
    Place(a, i);
    Place(b, i);
  }

  lemma Agree(a: string, b: string)
    requires Terminated(a) && Terminated(b)
    requires |UntilNul(a)| == |UntilNul(b)| && a[..|UntilNul(a)|] == b[..|UntilNul(b)|]
    ensures UntilNul(a) == UntilNul(b)
  {
  }

  /** strlen_t */
  method StrLen(s: string) returns (n: nat)
    requires Terminated(s)
    ensures n == |UntilNul(s)|
  {
    n := 0;
    while s[n] != '\0'
      invariant n <= |UntilNul(s)| && NoNul(s[..n])
      decreases |s| - n
    {
      n := n + 1;
      assert UntilNul(s)[..n] == s[..n];
    }
    UntilNulIs(s, n);
  }

  /** strcpy_t: an address buffer receives at most 16 characters, a NUL, and filler behind it. */
  method StrCpy(dest: array<char>, source: string)
    requires dest.Length == IP_ADDR_SIZE && Terminated(source)
    modifies dest
    ensures var text := UntilNul(source); UntilNul(dest[..]) == text[..Min(|text|, IP_ADDR_SIZE - 1)]
    ensures Terminated(dest[..])
  {
    ghost var text := UntilNul(source);
    var i := 0;
    while source[i] != '\0' && i < IP_ADDR_SIZE - 1
      invariant 0 <= i <= IP_ADDR_SIZE - 1 && i <= |text| && dest[..i] == text[..i]
      decreases IP_ADDR_SIZE - i
    {
      Place(source, i);
      assert text[..i + 1] == text[..i] + [source[i]];
      dest[i] := source[i];
      i := i + 1;
    }
    Place(source, i);
    ghost var n := i;
    dest[i] := '\0';
    i := i + 1;
    while i < IP_ADDR_SIZE
      invariant n < i <= IP_ADDR_SIZE && dest[..n] == text[..n] && dest[n] == '\0'
    {
      dest[i] := 1 as char;
      i := i + 1;
    }
    assert dest[..][..n] == text[..n];
    UntilNulIs(dest[..], n);
    assert dest[..][n] == '\0';
  }
}
