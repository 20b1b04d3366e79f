/** Byte strings, little-endian integers and in-place splicing.

    Disk structures are sequences of bytes; integers of the partition table are
    little-endian (`struct.pack('<...')` in the program).
 */
module Bytes {

  datatype Option<+T> = None | Some(value: T) {
    predicate IsFailure() {
      None?
    }

    function PropagateFailure<U>(): Option<U>
      requires None?
    {
      None
    }

    function Extract(): T
      requires Some?
    {
      value
    }
  }

  type byte = n: int | 0 <= n < 256
  type Bytes = seq<byte>

  function Zeros(n: nat): (r: Bytes)
    ensures |r| == n
    ensures forall i :: 0 <= i < n ==> r[i] == 0
  {
    seq(n, _ => 0)
  }

  predicate AllZero(s: Bytes) {
    forall i :: 0 <= i < |s| ==> s[i] == 0
  }

  /** The first position of x, or the length of s. */
  function IndexOf(s: Bytes, x: byte): (r: nat)
    ensures r <= |s|
    ensures r < |s| ==> s[r] == x
    ensures forall i :: 0 <= i < r ==> s[i] != x
  {
    if s == [] || s[0] == x then 0 else 1 + IndexOf(s[1..], x)
  }

  /** 256 to the power n. */
  function Pow256(n: nat): (r: nat)
    ensures r > 0
  {
    if n == 0 then 1 else 256 * Pow256(n - 1)
  }

  lemma Pow256Values()
    ensures Pow256(2) == 0x1_0000
    ensures Pow256(4) == 0x1_0000_0000
    ensures Pow256(8) == 0x1_0000_0000_0000_0000
    ensures Pow256(16) == 0x1_0000_0000_0000_0000_0000_0000_0000_0000
  {
  }

  function Le(s: Bytes): nat {
    if s == [] then 0 else s[0] + 256 * Le(s[1..])
  }

  function ToLe(v: nat, n: nat): (r: Bytes)
    ensures |r| == n
  {
    if n == 0 then [] else [v % 256] + ToLe(v / 256, n - 1)
  }

  /** Packing then unpacking gives the integer back, if it fits. */
  lemma {:induction false} LeOfToLe(v: nat, n: nat)
    requires v < Pow256(n)
    ensures Le(ToLe(v, n)) == v
  {
    if n > 0 {
      LeOfToLe(v / 256, n - 1);
      assert ToLe(v, n)[1..] == ToLe(v / 256, n - 1);
    }
  }

  /** Unpacking is injective on byte strings of one length. */
  lemma {:induction false} ToLeOfLe(s: Bytes)
    ensures Le(s) < Pow256(|s|)
    ensures ToLe(Le(s), |s|) == s
  {
    if s != [] {
      ToLeOfLe(s[1..]);
      assert Le(s) / 256 == Le(s[1..]) && Le(s) % 256 == s[0];
      assert s == [s[0]] + s[1..];
    }
  }

  lemma ToLeInjective(v: nat, w: nat, n: nat)
    requires v < Pow256(n) && w < Pow256(n)
    requires ToLe(v, n) == ToLe(w, n)
    ensures v == w
  {
    LeOfToLe(v, n);
    LeOfToLe(w, n);
  }

  function U16(s: Bytes, off: nat): nat
    requires off + 2 <= |s|
  {
    Le(s[off..off + 2])
  }

  function U32(s: Bytes, off: nat): (r: nat)
    requires off + 4 <= |s|
    ensures r < 0x1_0000_0000
  {
    ToLeOfLe(s[off..off + 4]);
    Pow256Values();
    Le(s[off..off + 4])
  }

  function U64(s: Bytes, off: nat): (r: nat)
    requires off + 8 <= |s|
    ensures r < 0x1_0000_0000_0000_0000
  {
    ToLeOfLe(s[off..off + 8]);
    Pow256Values();
    Le(s[off..off + 8])
  }

  function U128(s: Bytes, off: nat): (r: nat)
    requires off + 16 <= |s|
    ensures r < 0x1_0000_0000_0000_0000_0000_0000_0000_0000
  {
    ToLeOfLe(s[off..off + 16]);
    Pow256Values();
    Le(s[off..off + 16])
  }

  /** `s` with `d` written over it at `off`. */
  function Splice(s: Bytes, off: nat, d: Bytes): (r: Bytes)
    requires off + |d| <= |s|
    ensures |r| == |s|
    ensures forall i :: 0 <= i < |s| ==> r[i] == if off <= i < off + |d| then d[i - off] else s[i]
  {
    s[..off] + d + s[off + |d|..]
  }

  lemma SpliceInside(s: Bytes, off: nat, d: Bytes)
    requires off + |d| <= |s|
    ensures Splice(s, off, d)[off..off + |d|] == d
  {
  }

  lemma SpliceOutside(s: Bytes, off: nat, d: Bytes, a: nat, b: nat)
    requires off + |d| <= |s|
    requires a <= b <= |s|
    requires b <= off || off + |d| <= a
    ensures Splice(s, off, d)[a..b] == s[a..b]
  {
  }

  /** Two overwrites, the second over the first. */
  function TwoSplices(s: Bytes, x: nat, d: Bytes, y: nat, e: Bytes): (r: Bytes)
    requires x + |d| <= |s| && y + |e| <= |s|
    ensures |r| == |s|
  {
    Splice(Splice(s, x, d), y, e)
  }

  lemma TwoSplicesOutside(s: Bytes, x: nat, d: Bytes, y: nat, e: Bytes, a: nat, b: nat)
    requires x + |d| <= |s| && y + |e| <= |s| && a <= b <= |s|
    requires b <= x || x + |d| <= a
    requires b <= y || y + |e| <= a
    ensures TwoSplices(s, x, d, y, e)[a..b] == s[a..b]
  {
  }

  lemma TwoSplicesFirst(s: Bytes, x: nat, d: Bytes, y: nat, e: Bytes, a: nat, b: nat)
    requires x + |d| <= |s| && y + |e| <= |s|
    requires a <= x && x + |d| <= b <= |s|
    requires b <= y || y + |e| <= a
    ensures TwoSplices(s, x, d, y, e)[a..b] == Splice(s[a..b], x - a, d)
  {
  }
}
