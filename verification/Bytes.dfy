/** Big-endian encodings: they round-trip, and byte-wise comparison is numeric comparison. */
module Bytes {
  import opened Types

  function Pow256(n: nat): (p: nat)
    ensures p > 0
  {
    if n == 0 then 1 else 256 * Pow256(n - 1)
  }

  function Pow2(k: nat): (p: int)
    ensures p > 0
  {
    if k == 0 then 1 else 2 * Pow2(k - 1)
  }

  /** binary.BigEndian.PutUint*: the `len` digits of n in base 256, most significant first. */
  function BE(n: nat, len: nat): (b: seq<Byte>)
    requires n < Pow256(len)
    ensures |b| == len
    decreases len
  {
    if len == 0 then [] else BE(n / 256, len - 1) + [n % 256]
  }

  /** binary.BigEndian.Uint* */
  function FromBE(b: seq<Byte>): (n: nat)
    ensures n < Pow256(|b|)
  {
    if b == [] then 0 else 256 * FromBE(b[..|b| - 1]) + b[|b| - 1]
  }

  /** bytes.Compare(a, b) < 0 */
  predicate LexLess(a: seq<Byte>, b: seq<Byte>) {
    if b == [] then false
    else if a == [] then true
    else a[0] < b[0] || (a[0] == b[0] && LexLess(a[1..], b[1..]))
  }

  lemma {:induction false} FromBEofBE(n: nat, len: nat)
    requires n < Pow256(len)
    ensures FromBE(BE(n, len)) == n
    decreases len
  {
    if len > 0 {
      FromBEofBE(n / 256, len - 1);
      assert BE(n, len)[..len - 1] == BE(n / 256, len - 1);
    }
  }

  lemma {:induction false} BEofFromBE(b: seq<Byte>)
    ensures BE(FromBE(b), |b|) == b
  {
    if b != [] {
      BEofFromBE(b[..|b| - 1]);
      assert b == b[..|b| - 1] + [b[|b| - 1]];
    }
  }

  /** On strings of one length, byte order and numeric order agree. */
  lemma {:induction false} LexIsNumeric(a: seq<Byte>, b: seq<Byte>)
    requires |a| == |b|
    ensures LexLess(a, b) <==> FromBE(a) < FromBE(b)
    ensures a == b <==> FromBE(a) == FromBE(b)
  {
    if a != [] {
      var n := |a| - 1;
      LexIsNumeric(a[..n], b[..n]);
      assert a == a[..n] + [a[n]] && b == b[..n] + [b[n]];
      if a[..n] == b[..n] {
        LexPrefix(a[..n], [a[n]], [b[n]]);
      } else {
        LexHead(a[..n], b[..n], [a[n]], [b[n]]);
      }
    }
  }

  /** A common prefix does not change the comparison. */
  lemma {:induction false} LexPrefix(p: seq<Byte>, a: seq<Byte>, b: seq<Byte>)
    ensures LexLess(p + a, p + b) <==> LexLess(a, b)
  {
    if p == [] {
      assert p + a == a && p + b == b;
    } else {
      assert (p + a)[1..] == p[1..] + a && (p + b)[1..] == p[1..] + b;
      LexPrefix(p[1..], a, b);
    }
  }

  /** A difference in equally long first parts decides the comparison. */
  lemma {:induction false} LexHead(a: seq<Byte>, b: seq<Byte>, c: seq<Byte>, d: seq<Byte>)
    requires |a| == |b| && a != b
    ensures LexLess(a + c, b + d) <==> LexLess(a, b)
  {
    if a[0] == b[0] {
      assert a == [a[0]] + a[1..] && b == [b[0]] + b[1..];
      assert (a + c)[1..] == a[1..] + c && (b + d)[1..] == b[1..] + d;
      LexHead(a[1..], b[1..], c, d);
    }
  }

  lemma WordValue()
    ensures Pow256(4) == 0x1_0000_0000
  {}

  lemma PowerValues()
    ensures Pow256(4) == 0x1_0000_0000
    ensures Pow256(8) == 0x1_0000_0000_0000_0000
    ensures Pow256(32) == ID_SPACE
  {
    PowerAdd(4, 4);
    PowerAdd(8, 8);
    PowerAdd(16, 16);
  }

  lemma {:induction false} PowerAdd(a: nat, b: nat)
    ensures Pow256(a + b) == Pow256(a) * Pow256(b)
  {
    if a > 0 {
      PowerAdd(a - 1, b);
      var x, y := Pow256(a - 1), Pow256(b);
      assert (256 * x) * y == 256 * (x * y);
    }
  }

  lemma Regroup(a: seq<Byte>, b: seq<Byte>, c: seq<Byte>)
    ensures a + (b + c) == a + b + c
  {}
}
