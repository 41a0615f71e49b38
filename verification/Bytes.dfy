/**
 Byte strings, big-endian numbers and the byte-wise lexicographic order that
 LMDB uses to sort its keys.
 */
module Bytes {

  type byte = x: int | 0 <= x < 256

  type bytes = seq<byte>

  type U32 = x: int | 0 <= x < 0x1_0000_0000

  type U64 = x: int | 0 <= x < 0x1_0000_0000_0000_0000

  type U256 = x: int |
    0 <= x < 0x1_0000_0000_0000_0000_0000_0000_0000_0000_0000_0000_0000_0000_0000_0000_0000_0000

  /** 256 to the power n: the number of n-byte strings. */
  function Pow256(n: nat): (r: nat)
    ensures r > 0
  {
    if n == 0 then 1 else 256 * Pow256(n - 1)
  }

  lemma PowersOfWords()
    ensures Pow256(4) == 0x1_0000_0000
    ensures Pow256(8) == 0x1_0000_0000_0000_0000
  {
    assert Pow256(2) == 0x1_0000;
    assert Pow256(4) == 0x1_0000_0000;
    assert Pow256(6) == 0x1_0000_0000_0000;
  }

  lemma PowerOfHash()
    ensures Pow256(32) == 0x1_0000_0000_0000_0000_0000_0000_0000_0000_0000_0000_0000_0000_0000_0000_0000_0000
  {
    PowersOfWords();
    assert Pow256(10) == 0x1_0000_0000_0000_0000_0000;
    assert Pow256(12) == 0x1_0000_0000_0000_0000_0000_0000;
    assert Pow256(14) == 0x1_0000_0000_0000_0000_0000_0000_0000;
    assert Pow256(16) == 0x1_0000_0000_0000_0000_0000_0000_0000_0000;
    assert Pow256(18) == 0x1_0000_0000_0000_0000_0000_0000_0000_0000_0000;
    assert Pow256(20) == 0x1_0000_0000_0000_0000_0000_0000_0000_0000_0000_0000;
    assert Pow256(22) == 0x1_0000_0000_0000_0000_0000_0000_0000_0000_0000_0000_0000;
    assert Pow256(24) == 0x1_0000_0000_0000_0000_0000_0000_0000_0000_0000_0000_0000_0000;
    assert Pow256(26) == 0x1_0000_0000_0000_0000_0000_0000_0000_0000_0000_0000_0000_0000_0000;
    assert Pow256(28) == 0x1_0000_0000_0000_0000_0000_0000_0000_0000_0000_0000_0000_0000_0000_0000;
    assert Pow256(30) == 0x1_0000_0000_0000_0000_0000_0000_0000_0000_0000_0000_0000_0000_0000_0000_0000;
  }

  /** The n-byte big-endian encoding of v. */
  function BE(v: nat, n: nat): (r: bytes)
    requires v < Pow256(n)
    ensures |r| == n
    decreases n
  {
    if n == 0 then [] else BE(v / 256, n - 1) + [v % 256]
  }

  /** The big-endian value of a byte string. */
  function Val(s: bytes): (r: nat)
    ensures r < Pow256(|s|)
  {
    if s == [] then 0 else 256 * Val(s[..|s| - 1]) + s[|s| - 1]
  }

  lemma {:induction false} ValOfBE(v: nat, n: nat)
    requires v < Pow256(n)
    ensures Val(BE(v, n)) == v
    decreases n
  {
    if n > 0 {
      ValOfBE(v / 256, n - 1);
      assert BE(v, n)[..n - 1] == BE(v / 256, n - 1);
    }
  }

  lemma {:induction false} BEOfVal(s: bytes)
    ensures BE(Val(s), |s|) == s
  {
    if s != [] {
      var front, last := s[..|s| - 1], s[|s| - 1];
      BEOfVal(front);
      assert Val(s) / 256 == Val(front) && Val(s) % 256 == last;
      assert s == front + [last];
    }
  }

  /** Strict byte-wise lexicographic order: a proper prefix sorts first. */
  predicate Less(a: bytes, b: bytes)
  {
    b != [] && (a == [] || a[0] < b[0] || (a[0] == b[0] && Less(a[1..], b[1..])))
  }

  predicate AtMost(a: bytes, b: bytes) {
    a == b || Less(a, b)
  }

  lemma {:induction false} LessTrichotomy(a: bytes, b: bytes)
    ensures Less(a, b) || a == b || Less(b, a)
    ensures !(Less(a, b) && Less(b, a))
    ensures !Less(a, a)
  {
    if a != [] && b != [] && a[0] == b[0] {
      LessTrichotomy(a[1..], b[1..]);
      assert a == [a[0]] + a[1..] && b == [b[0]] + b[1..];
    }
    LessIrreflexive(a);
  }

  lemma {:induction false} LessIrreflexive(a: bytes)
    ensures !Less(a, a)
  {
    if a != [] {
      LessIrreflexive(a[1..]);
    }
  }

  lemma {:induction false} LessTransitive(a: bytes, b: bytes, c: bytes)
    requires Less(a, b) && Less(b, c)
    ensures Less(a, c)
  {
    if a != [] && a[0] == b[0] && b[0] == c[0] {
      LessTransitive(a[1..], b[1..], c[1..]);
    }
  }

  /** A common prefix does not matter for the order. */
  lemma {:induction false} LessSamePrefix(p: bytes, a: bytes, b: bytes)
    ensures Less(p + a, p + b) <==> Less(a, b)
  {
    if p == [] {
      assert p + a == a && p + b == b;
    } else {
      LessSamePrefix(p[1..], a, b);
      assert (p + a)[1..] == p[1..] + a && (p + b)[1..] == p[1..] + b;
    }
  }

  /** On strings of one length the byte order is the order of big-endian values. */
  lemma {:induction false} LessIsValueOrder(a: bytes, b: bytes)
    requires |a| == |b|
    ensures Less(a, b) <==> Val(a) < Val(b)
  {
    if a != [] {
      LessIsValueOrder(a[1..], b[1..]);
      ValHead(a);
      ValHead(b);
      HeadDominates(a[0], b[0], Pow256(|a| - 1), Val(a[1..]), Val(b[1..]));
    }
  }

  lemma HeadDominates(x: int, y: int, w: int, u: int, v: int)
    requires 0 <= u < w && 0 <= v < w
    ensures x * w + u < y * w + v <==> x < y || (x == y && u < v)
  {
    if x < y {
      assert (x + 1) * w <= y * w;
    } else if y < x {
      assert (y + 1) * w <= x * w;
    }
  }

  lemma {:induction false} ValHead(a: bytes)
    requires a != []
    ensures Val(a) == a[0] * Pow256(|a| - 1) + Val(a[1..])
  {
    if |a| == 1 {
      assert a[1..] == [] && a[..0] == [];
    } else {
      var front, last := a[..|a| - 1], a[|a| - 1];
      ValHead(front);
      assert front[1..] == a[1..][..|a| - 2];
      assert Val(a[1..]) == 256 * Val(front[1..]) + last;
      ScaleHead(a[0], Pow256(|a| - 2));
    }
  }

  lemma ScaleHead(h: int, p: int)
    ensures h * (256 * p) == 256 * (h * p)
  {
  }
}
