/** Little-endian fields in byte regions: reading, writing, and what a write leaves alone. */
module Bytes {
  import opened Words

  function Pow256(n: nat): (r: nat)
    ensures r > 0
  {
    if n == 0 then 1 else 256 * Pow256(n - 1)
  }

  /** The `n`-byte little-endian encoding of `x`. */
  function ToLE(x: nat, n: nat): (s: seq<U8>)
    ensures |s| == n
  {
    if n == 0 then [] else [x % 256] + ToLE(x / 256, n - 1)
  }

  /** The unsigned little-endian number in the bytes from `lo` to `hi`. */
  function FromLE(s: seq<U8>, lo: nat, hi: nat): nat
    requires lo <= hi <= |s|
    decreases hi - lo
  {
    if lo == hi then 0 else s[lo] + 256 * FromLE(s, lo + 1, hi)
  }

  lemma {:induction false} FromLEBound(s: seq<U8>, lo: nat, hi: nat)
    requires lo <= hi <= |s|
    ensures FromLE(s, lo, hi) < Pow256(hi - lo)
    decreases hi - lo
  {
    if lo < hi {
      FromLEBound(s, lo + 1, hi);
    }
  }

  /** Equal bytes spell equal numbers. */
  lemma {:induction false} FromLESame(s: seq<U8>, lo: nat, t: seq<U8>, at: nat, n: nat)
    requires lo + n <= |s| && at + n <= |t| && s[lo..lo + n] == t[at..at + n]
    ensures FromLE(s, lo, lo + n) == FromLE(t, at, at + n)
    decreases n
  {
    if n > 0 {
      assert s[lo] == s[lo..lo + n][0] == t[at..at + n][0] == t[at];
      assert s[lo + 1..lo + n] == s[lo..lo + n][1..] == t[at..at + n][1..] == t[at + 1..at + n];
      FromLESame(s, lo + 1, t, at + 1, n - 1);
    }
  }

  /** Bytes that encode `x` spell `x`. */
  lemma {:induction false} FromToLE(s: seq<U8>, lo: nat, x: nat, n: nat)
    requires lo + n <= |s| && x < Pow256(n) && s[lo..lo + n] == ToLE(x, n)
    ensures FromLE(s, lo, lo + n) == x
    decreases n
  {
    if n > 0 {
      assert s[lo] == s[lo..lo + n][0] == x % 256;
      assert s[lo + 1..lo + n] == s[lo..lo + n][1..] == ToLE(x / 256, n - 1);
      FromToLE(s, lo + 1, x / 256, n - 1);
    }
  }

  lemma Sizes()
    ensures Pow256(1) == 0x100 && Pow256(2) == 0x1_0000 && Pow256(4) == 0x1_0000_0000
    ensures Pow256(8) == 0x1_0000_0000_0000_0000
  {
    assert Pow256(1) == 256 * Pow256(0);
    assert Pow256(3) == 256 * Pow256(2);
    assert Pow256(5) == 256 * Pow256(4);
    assert Pow256(7) == 256 * Pow256(6);
  }

  /** The unsigned field of `n` bytes at `off`. */
  function Field(s: seq<U8>, off: nat, n: nat): nat
    requires off + n <= |s|
  {
    FromLE(s, off, off + n)
  }

  function U16At(s: seq<U8>, off: nat): U16
    requires off + 2 <= |s|
  {
    Sizes();
    FromLEBound(s, off, off + 2);
    Field(s, off, 2)
  }

  function U32At(s: seq<U8>, off: nat): U32
    requires off + 4 <= |s|
  {
    Sizes();
    FromLEBound(s, off, off + 4);
    Field(s, off, 4)
  }

  function U64At(s: seq<U8>, off: nat): U64
    requires off + 8 <= |s|
  {
    Sizes();
    FromLEBound(s, off, off + 8);
    Field(s, off, 8)
  }

  /** `s` with the bytes `b` written at `off`. */
  function Put(s: seq<U8>, off: nat, b: seq<U8>): (t: seq<U8>)
    requires off + |b| <= |s|
    ensures |t| == |s|
  {
    s[..off] + b + s[off + |b|..]
  }

  lemma SubSlice(s: seq<U8>, lo: nat, hi: nat, off: nat, n: nat)
    requires lo <= hi <= |s| && lo + off + n <= hi
    ensures s[lo..hi][off..off + n] == s[lo + off..lo + off + n]
  {
    var a, b := s[lo..hi][off..off + n], s[lo + off..lo + off + n];
    forall k | 0 <= k < n ensures a[k] == b[k] {
      assert a[k] == s[lo..hi][off + k] == s[lo + off + k];
    }
  }

  lemma PutAt(s: seq<U8>, off: nat, b: seq<U8>)
    requires off + |b| <= |s|
    ensures Put(s, off, b)[off..off + |b|] == b
  {
  }

  /** A write does not change a range it does not touch. */
  lemma PutElsewhere(s: seq<U8>, off: nat, b: seq<U8>, lo: nat, hi: nat)
    requires off + |b| <= |s| && lo <= hi <= |s| && (hi <= off || off + |b| <= lo)
    ensures Put(s, off, b)[lo..hi] == s[lo..hi]
  {
  }

  lemma PutIndex(s: seq<U8>, off: nat, b: seq<U8>, k: nat)
    requires off + |b| <= |s| && k < |s|
    ensures Put(s, off, b)[k] == if off <= k < off + |b| then b[k - off] else s[k]
  {
  }

  /** Two writes side by side are one. */
  lemma PutAppend(s: seq<U8>, a: nat, x: seq<U8>, y: seq<U8>)
    requires a + |x| + |y| <= |s|
    ensures Put(Put(s, a, x), a + |x|, y) == Put(s, a, x + y)
  {
    hide Put;
    var l, r := Put(Put(s, a, x), a + |x|, y), Put(s, a, x + y);
    forall k | 0 <= k < |s| ensures l[k] == r[k] {
      PutIndex(s, a, x, k);
      PutIndex(Put(s, a, x), a + |x|, y, k);
      PutIndex(s, a, x + y, k);
    }
  }

  /** Writes that do not touch can be swapped. */
  lemma PutCommute(s: seq<U8>, a: nat, x: seq<U8>, b: nat, y: seq<U8>)
    requires a + |x| <= b && b + |y| <= |s|
    ensures Put(Put(s, a, x), b, y) == Put(Put(s, b, y), a, x)
  {
    hide Put;
    var l, r := Put(Put(s, a, x), b, y), Put(Put(s, b, y), a, x);
    forall k | 0 <= k < |s| ensures l[k] == r[k] {
      PutIndex(s, a, x, k);
      PutIndex(Put(s, a, x), b, y, k);
      PutIndex(s, b, y, k);
      PutIndex(Put(s, b, y), a, x, k);
    }
  }

  /** Writing what is there changes nothing. */
  lemma PutSame(s: seq<U8>, a: nat, x: seq<U8>)
    requires a + |x| <= |s| && s[a..a + |x|] == x
    ensures Put(s, a, x) == s
  {
    hide Put;
    var l := Put(s, a, x);
    forall k | 0 <= k < |s| ensures l[k] == s[k] {
      PutIndex(s, a, x, k);
      assert a <= k < a + |x| ==> s[k] == s[a..a + |x|][k - a];
    }
  }

  lemma FieldElsewhere(s: seq<U8>, off: nat, b: seq<U8>, at: nat, n: nat)
    requires off + |b| <= |s| && at + n <= |s| && (at + n <= off || off + |b| <= at)
    ensures Field(Put(s, off, b), at, n) == Field(s, at, n)
  {
    PutElsewhere(s, off, b, at, at + n);
    FromLESame(Put(s, off, b), at, s, at, n);
  }

  /** A field reads back what was written. */
  lemma FieldRoundTrip(s: seq<U8>, off: nat, n: nat, x: nat)
    requires off + n <= |s| && x < Pow256(n)
    ensures Field(Put(s, off, ToLE(x, n)), off, n) == x
  {
    PutAt(s, off, ToLE(x, n));
    FromToLE(Put(s, off, ToLE(x, n)), off, x, n);
  }

  /** Two's complement. */
  function AsU32(x: I32): U32 {
    if x < 0 then x + 0x1_0000_0000 else x
  }

  function AsI32(x: U32): I32 {
    if x >= 0x8000_0000 then x - 0x1_0000_0000 else x
  }

  lemma SignRoundTrip(x: I32)
    ensures AsI32(AsU32(x)) == x
  {
  }

  /** Writes `b` into the region in place. */
  method WriteBytes(region: array<U8>, off: nat, b: seq<U8>)
    requires off + |b| <= region.Length
    modifies region
    ensures region[..] == Put(old(region[..]), off, b)
  {
    ghost var before := region[..];
    var i := 0;
    while i < |b|
      invariant 0 <= i <= |b|
      invariant forall k | 0 <= k < region.Length ::
                  region[k] == if off <= k < off + i then b[k - off] else before[k]
    {
      region[off + i] := b[i];
      i := i + 1;
    }
  }
}
