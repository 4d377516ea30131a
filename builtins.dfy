/** The two compiler builtins the error-sample path relies on, over fixed-size
    buffers: `__builtin_memset` (zeroing) and `__builtin_strncpy` (bounded copy
    of a NUL-terminated string). A C string is given as the bytes it is made
    of; it ends at its first NUL byte, or at the end of the sequence when it
    holds none (the terminator of a literal is then implicit). */
module Builtins {

  /** A C `char`. */
  type byte = bv8

  function Min(a: nat, b: nat): (m: nat)
  {
    if a <= b then a else b
  }

  /** `strlen`: the number of bytes before the first NUL, or all of `s`. */
  function CLen(s: seq<byte>): (n: nat)
    ensures n <= |s|
    ensures forall i :: 0 <= i < n ==> s[i] != 0
    ensures n < |s| ==> s[n] == 0
  {
    if |s| == 0 || s[0] == 0 then 0 else 1 + CLen(s[1..])
  }

  /** `n` zero bytes. */
  function Zeros(n: nat): (z: seq<byte>)
    ensures |z| == n
    ensures forall i :: 0 <= i < n ==> z[i] == 0
  {
    seq(n, _ => 0)
  }

  /** The part of the C string in `src` that survives a copy into `n` bytes. */
  function Kept(src: seq<byte>, n: nat): (k: seq<byte>)
    ensures |k| == Min(CLen(src), n)
    ensures forall i :: 0 <= i < |k| ==> k[i] == src[i] && k[i] != 0
  {
    src[..Min(CLen(src), n)]
  }

  /** The `n` bytes that `strncpy(dst, src, n)` leaves in `dst`: the string's
      bytes up to its NUL or to `n`, whichever comes first, then zeros. */
  function StrncpyResult(src: seq<byte>, n: nat): (r: seq<byte>)
    ensures |r| == n
    ensures forall i :: 0 <= i < n && i < CLen(src) ==> r[i] == src[i]
    ensures forall i :: CLen(src) <= i < n ==> r[i] == 0
  {
    Kept(src, n) + Zeros(n - Min(CLen(src), n))
  }

  /** A string shorter than the buffer is copied whole and stays terminated:
      reading the buffer back as a C string gives the source string. */
  lemma StrncpyReadBack(src: seq<byte>, n: nat)
    requires CLen(src) < n
    ensures CLen(StrncpyResult(src, n)) == CLen(src)
    ensures StrncpyResult(src, n)[..CLen(src)] == src[..CLen(src)]
  {
    var r := StrncpyResult(src, n);
    var k := CLen(src);
    assert r[k] == 0;
    CLenAt(r, k);
  }

  /** A NUL-free source shorter than the buffer is copied whole and then
      zero-padded to the buffer's size. */
  lemma StrncpyPads(src: seq<byte>, n: nat)
    requires CLen(src) == |src| < n
    ensures StrncpyResult(src, n) == src + Zeros(n - |src|)
  {
    assert Kept(src, n) == src;
  }

  /** A string of `n` bytes or more is truncated, not rejected: the buffer
      holds its first `n` bytes and no NUL terminator. */
  lemma StrncpyTruncates(src: seq<byte>, n: nat)
    requires CLen(src) >= n
    ensures StrncpyResult(src, n) == src[..n]
    ensures forall i :: 0 <= i < n ==> StrncpyResult(src, n)[i] != 0
    ensures CLen(StrncpyResult(src, n)) == n
  {
    var r := StrncpyResult(src, n);
    assert r == src[..n];
    CLenAt(r, n);
  }

  /** Reading a copied buffer back recovers exactly the kept part. */
  lemma StrncpyKept(src: seq<byte>, n: nat)
    ensures CLen(StrncpyResult(src, n)) == Min(CLen(src), n)
    ensures StrncpyResult(src, n)[..Min(CLen(src), n)] == Kept(src, n)
  {
    if CLen(src) < n {
      StrncpyReadBack(src, n);
    } else {
      StrncpyTruncates(src, n);
    }
  }

  /** Two sources give byte-identical buffers exactly when the parts of them
      that survive the copy are equal; what lies past the cut is invisible. */
  lemma StrncpySameIff(a: seq<byte>, b: seq<byte>, n: nat)
    ensures StrncpyResult(a, n) == StrncpyResult(b, n) <==> Kept(a, n) == Kept(b, n)
  {
    if StrncpyResult(a, n) == StrncpyResult(b, n) {
      StrncpyKept(a, n);
      StrncpyKept(b, n);
    }
  }

  /** `CLen` is determined by its contract: the first NUL, else the end. */
  lemma CLenAt(s: seq<byte>, k: nat)
    requires k <= |s|
    requires forall i :: 0 <= i < k ==> s[i] != 0
    requires k < |s| ==> s[k] == 0
    ensures CLen(s) == k
  {
  }

  /** `__builtin_memset(a, 0, sizeof a)` over an array of elements: every
      element takes the value `v`. */
  method Memset<T>(a: array<T>, v: T)
    modifies a
    ensures forall i :: 0 <= i < a.Length ==> a[i] == v
  {
    var i := 0;
    while i < a.Length
      invariant 0 <= i <= a.Length
      invariant forall j :: 0 <= j < i ==> a[j] == v
    {
      a[i] := v;
      i := i + 1;
    }
  }

  /** `__builtin_strncpy(dst, src, sizeof dst)`: copy until the NUL or the
      end of `dst`, then fill the rest of `dst` with NUL bytes. Whatever `dst`
      held before is overwritten in full. */
  method Strncpy(dst: array<byte>, src: seq<byte>)
    modifies dst
    ensures dst[..] == StrncpyResult(src, dst.Length)
  {
    var i := 0;
    while i < dst.Length && i < |src| && src[i] != 0
      invariant 0 <= i <= dst.Length && i <= |src|
      invariant forall j :: 0 <= j < i ==> src[j] != 0
      invariant dst[..i] == src[..i]
    {
      dst[i] := src[i];
      i := i + 1;
    }
    var k := i;
    assert k == Min(CLen(src), dst.Length);
    while i < dst.Length
      invariant k <= i <= dst.Length
      invariant dst[..k] == src[..k]
      invariant forall j :: k <= j < i ==> dst[j] == 0
    {
      dst[i] := 0;
      i := i + 1;
    }
    assert dst[..] == dst[..k] + dst[k..];
  }
}
