/** C text as the honeypot handles it. A C `char` is one byte; a C string is
    the bytes before the first NUL; `snprintf` and `strlen` are the two
    library calls the program uses on such text. */
module CText {

  type byte = x: int | 0 <= x < 256

  const NUL: byte := 0

  function Min(a: int, b: int): int { if a <= b then a else b }

  /** True when `s` could be the value of a C string: it holds no NUL. */
  predicate NoNul(s: seq<byte>) { NUL !in s }

  type CString = s: seq<byte> | NoNul(s)

  /** Printable text written as a Dafny string literal. */
  predicate IsAsciiText(s: string) { forall c | c in s :: 0 < c as int < 128 }

  /** The bytes a C compiler emits for the characters of `s`. */
  function Ascii(s: string): seq<byte>
  {
    seq(|s|, i requires 0 <= i < |s| => s[i] as int % 256)
  }

  lemma AsciiHasNoNul(s: string)
    requires IsAsciiText(s)
    ensures |Ascii(s)| == |s| && NoNul(Ascii(s))
  {
    forall i | 0 <= i < |s| ensures Ascii(s)[i] != NUL {
      assert s[i] in s;
    }
  }

  lemma NoNulConcat(a: seq<byte>, b: seq<byte>)
    requires NoNul(a) && NoNul(b)
    ensures NoNul(a + b)
  {
    forall i | 0 <= i < |a + b| ensures (a + b)[i] != NUL {
      if i < |a| { assert a[i] in a; } else { assert b[i - |a|] in b; }
    }
  }

  /** The C string stored at the start of a buffer: everything before its
      first NUL (the whole buffer when it holds none). */
  function CStr(s: seq<byte>): (r: seq<byte>)
    ensures |r| <= |s| && NoNul(r)
  {
    if s == [] || s[0] == NUL then [] else [s[0]] + CStr(s[1..])
  }

  /** A terminator at `n` with no NUL before it makes `s[..n]` the string. */
  lemma {:induction false} CStrAtTerminator(s: seq<byte>, n: nat)
    requires n < |s| && s[n] == NUL && NoNul(s[..n])
    ensures CStr(s) == s[..n]
  {
    if n > 0 {
      assert s[0] in s[..n];
      assert s[1..][..n - 1] == s[..n][1..];
      assert NoNul(s[1..][..n - 1]);
      CStrAtTerminator(s[1..], n - 1);
    }
  }

  /** The bytes that `snprintf(buf, |buf|, ...)` leaves in `buf` when the fully
      formatted text is `s`: as much of `s` as fits before a NUL, and the
      rest of the buffer untouched. */
  function Snprintf(buf: seq<byte>, s: seq<byte>): (r: seq<byte>)
    requires |buf| > 0
    ensures |r| == |buf| && r[Min(|s|, |buf| - 1)] == NUL
    ensures r[..Min(|s|, |buf| - 1)] == s[..Min(|s|, |buf| - 1)]
  {
    var k := Min(|s|, |buf| - 1);
    s[..k] + [NUL] + buf[k + 1..]
  }

  /** Reading back the string `snprintf` wrote gives the text truncated to
      the buffer's capacity less one. */
  lemma SnprintfReadsBack(buf: seq<byte>, s: seq<byte>)
    requires |buf| > 0 && NoNul(s)
    ensures |Snprintf(buf, s)| == |buf|
    ensures NUL in Snprintf(buf, s)
    ensures CStr(Snprintf(buf, s)) == s[..Min(|s|, |buf| - 1)]
  {
    var k := Min(|s|, |buf| - 1);
    var r := Snprintf(buf, s);
    assert r[..k] == s[..k];
    assert r[k] == NUL;
    forall i | 0 <= i < k ensures r[..k][i] != NUL {
      assert s[i] in s;
    }
    CStrAtTerminator(r, k);
  }

  /** `snprintf(dst, dst.Length, ...)` whose fully formatted text is `s`, as
      the C library performs it; it returns the length of that whole text, as
      `snprintf` does. */
  method FormatInto(dst: array<byte>, s: seq<byte>) returns (written: nat)
    requires dst.Length > 0 && NoNul(s)
    modifies dst
    ensures written == |s|
    ensures dst[..] == Snprintf(old(dst[..]), s)
  {
    var k := Min(|s|, dst.Length - 1);
    var i := 0;
    while i < k
      invariant 0 <= i <= k
      invariant dst[..i] == s[..i]
      invariant forall j | i <= j < dst.Length :: dst[j] == old(dst[j])
    {
      dst[i] := s[i];
      assert dst[..i + 1] == dst[..i] + [s[i]];
      assert s[..i + 1] == s[..i] + [s[i]];
      i := i + 1;
    }
    dst[k] := NUL;
    assert dst[k + 1..] == old(dst[..])[k + 1..];
    assert dst[..] == dst[..k] + [NUL] + dst[k + 1..];
    written := |s|;
  }

  /** `strlen`: the index of the first NUL in a buffer that holds one. */
  method StrLen(a: array<byte>) returns (n: nat)
    requires NUL in a[..]
    ensures n < a.Length && a[n] == NUL && NoNul(a[..n])
    ensures a[..n] == CStr(a[..])
  {
    n := 0;
    while a[n] != NUL
      invariant n < a.Length
      invariant NUL in a[n..]
      invariant NoNul(a[..n])
      decreases a.Length - n
    {
      assert a[n..] == [a[n]] + a[n + 1..];
      assert a[..n + 1] == a[..n] + [a[n]];
      n := n + 1;
    }
    CStrAtTerminator(a[..], n);
  }

  /** `%d` of a non-negative `int`. */
  function Decimal(n: nat): (r: seq<byte>)
    ensures 1 <= |r|
    ensures forall i | 0 <= i < |r| :: '0' as int <= r[i] <= '9' as int
    decreases n
  {
    if n < 10 then ['0' as int + n] else Decimal(n / 10) + ['0' as int + n % 10]
  }
}
