/**
 Key arithmetic of the bulk loader (follower/sync/sync.go): the successor of a
 key, cutting a response at a range's end, and splitting the rest of a keyspace
 into contiguous inclusive ranges.
 */
module Keys {
  import opened Bytes
  import opened Schema

  lemma {:induction false} ValAppend(a: bytes, b: bytes)
    ensures Val(a + b) == Val(a) * Pow256(|b|) + Val(b)
    decreases |b|
  {
    if b == [] {
      assert a + b == a;
    } else {
      var front, last := b[..|b| - 1], b[|b| - 1];
      ValAppend(a, front);
      LastOfAppend(a, b);
      ScaleByte(Val(a), Pow256(|front|), Val(front), last);
    }
  }

  lemma LastOfAppend(a: bytes, b: bytes)
    requires b != []
    ensures Val(a + b) == Val(a + b[..|b| - 1]) * 256 + b[|b| - 1]
    ensures Val(b) == Val(b[..|b| - 1]) * 256 + b[|b| - 1]
    ensures Pow256(|b|) == 256 * Pow256(|b| - 1)
  {
    assert (a + b)[..|a + b| - 1] == a + b[..|b| - 1];
  }

  lemma ScaleByte(v: int, w: int, f: int, x: int)
    ensures (v * w + f) * 256 + x == v * (256 * w) + (f * 256 + x)
  {
  }

  /** n copies of a byte. */
  function Repeat(x: byte, n: nat): (r: bytes)
    ensures |r| == n && forall i :: 0 <= i < n ==> r[i] == x
  {
    if n == 0 then [] else Repeat(x, n - 1) + [x]
  }

  lemma {:induction false} ValOfRepeat(n: nat)
    ensures Val(Repeat(0, n)) == 0 && Val(Repeat(255, n)) == Pow256(n) - 1
  {
    if n > 0 {
      ValOfRepeat(n - 1);
      assert Repeat(0, n)[..n - 1] == Repeat(0, n - 1);
      assert Repeat(255, n)[..n - 1] == Repeat(255, n - 1);
    }
  }

  /** The key after this one, or None past the last key of its length. */
  ghost predicate IsNext(key: bytes, next: Option<bytes>) {
    match next
    case None => Val(key) == Pow256(|key|) - 1
    case Some(k) => |k| == |key| && Val(k) == Val(key) + 1
  }

  /** The carry walks left over 0xff bytes, zeroing them. */
  method IncKey(key: bytes) returns (next: Option<bytes>)
    ensures IsNext(key, next)
    ensures next.None? <==> forall i :: 0 <= i < |key| ==> key[i] == 255
  {
    var r := key;
    var i := |key|;
    assert r == key[..i] + Repeat(0, 0);
    while i > 0
      invariant 0 <= i <= |key| && r == key[..i] + Repeat(0, |key| - i)
      invariant forall j :: i <= j < |key| ==> key[j] == 255
    {
      i := i - 1;
      var n := |key| - i - 1;
      if key[i] != 255 {
        r := r[i := r[i] + 1];
        assert r == key[..i] + [key[i] + 1] + Repeat(0, n);
        assert key == key[..i] + [key[i]] + Repeat(255, n);
        CarryStops(key[..i], key[i], n);
        return Some(r);
      }
      r := r[i := 0];
      assert r == key[..i] + Repeat(0, n + 1);
    }
    assert key == Repeat(255, |key|);
    ValOfRepeat(|key|);
    return None;
  }

  lemma CarryStops(p: bytes, x: byte, n: nat)
    requires x < 255
    ensures Val(p + [x + 1] + Repeat(0, n)) == Val(p + [x] + Repeat(255, n)) + 1
  {
    hide Val, Pow256, Repeat;
    ValAppend(p + [x + 1], Repeat(0, n));
    ValAppend(p + [x], Repeat(255, n));
    ValOfRepeat(n);
    ValAppend(p, [x + 1]);
    ValAppend(p, [x]);
    SingleByte(x + 1);
    SingleByte(x);
    OneMore(Val(p + [x]), Pow256(n));
  }

  lemma OneMore(v: int, w: int)
    ensures (v + 1) * w == v * w + w
  {
  }

  lemma MulMono(a: nat, b: nat, x: nat)
    requires a <= b
    ensures a * x <= b * x
  {
  }

  lemma SingleByte(x: byte)
    ensures Val([x]) == x && Pow256(1) == 256
  {
    assert [x][..0] == [];
  }

  // ----- cutting a response at the end of a range -----

  /** Ascending keys of one length. */
  predicate Ascending(keys: seq<bytes>) {
    forall i, j :: 0 <= i < j < |keys| ==> Val(keys[i]) < Val(keys[j])
  }

  /** Drops the keys past end; reports whether any was dropped. No end means no bound. */
  method TruncateAt(keys: seq<bytes>, end: Option<bytes>) returns (kept: seq<bytes>, done: bool)
    requires Ascending(keys)
    ensures end.None? ==> kept == keys && !done
    ensures kept <= keys && (done <==> |kept| < |keys|)
    ensures end.Some? ==> forall i :: 0 <= i < |keys| ==> (i < |kept| <==> Val(keys[i]) <= Val(end.value))
  {
    if end.None? || |keys| == 0 {
      return keys, false;
    }
    var i := |keys|;
    done := false;
    while i > 0 && Val(keys[i - 1]) > Val(end.value)
      invariant 0 <= i <= |keys| && (done <==> i < |keys|)
      invariant forall j :: i <= j < |keys| ==> Val(keys[j]) > Val(end.value)
    {
      i := i - 1;
      done := true;
    }
    kept := keys[..i];
  }

  // ----- splitting a range -----

  /** An inclusive range of keys; no upper end means to the top of the keyspace. */
  datatype Range = Range(lo: bytes, hi: Option<bytes>)

  predicate InRange(k: bytes, r: Range) {
    Val(r.lo) <= Val(k) && (r.hi.Some? ==> Val(k) <= Val(r.hi.value))
  }

  /** The ranges follow each other without gap or overlap, from a key to the top. */
  predicate Contiguous(from: bytes, rs: seq<Range>) {
    && rs != [] && rs[0].lo == from && rs[|rs| - 1].hi.None?
    && (forall i :: 0 <= i < |rs| ==> |rs[i].lo| == |from| && (rs[i].hi.Some? ==> |rs[i].hi.value| == |from|))
    && (forall i :: 0 <= i < |rs| - 1 ==>
          rs[i].hi.Some? && Val(rs[i].lo) <= Val(rs[i].hi.value) && Val(rs[i + 1].lo) == Val(rs[i].hi.value) + 1)
  }

  function Span(from: bytes): nat {
    Pow256(|from|) - 1 - Val(from)
  }

  /** Division on unsigned values; zero divisors never reach the source's division. */
  function Div(a: nat, b: nat): (q: nat)
    ensures b > 0 ==> b * q <= a < b * (q + 1)
    ensures b == 0 ==> q == 0
  {
    if b == 0 then 0 else a / b
  }

  /** The quotient the ranges are cut by, and what it leaves over. */
  function Width(from: bytes, n: nat): nat {
    Div(Span(from), n)
  }

  function Rest(from: bytes, n: nat): nat {
    Span(from) - n * Width(from, n)
  }

  /** There is room for more than one range. */
  predicate Divides(from: bytes, n: nat) {
    Span(from) != 0 && n > 1 && Width(from, n) != 0
  }

  /** The widths leave every bound within the key length. */
  predicate SplitFits(from: bytes, n: nat) {
    Divides(from, n) ==> Width(from, n) + Rest(from, n) >= n - 1
  }

  /** The big-endian bytes of v at the key's length; None where the source would overrun the key. */
  function Pad(v: nat, len: nat): (r: Option<bytes>)
    ensures r.Some? <==> v < Pow256(len)
    ensures r.Some? ==> |r.value| == len && Val(r.value) == v
  {
    if v < Pow256(len) then ValOfBE(v, len); Some(BE(v, len)) else None
  }

  /** Where range i of a split starts. */
  function Start(lo: nat, step: nat, i: nat): nat {
    lo + i * (step + 1)
  }

  lemma StartNext(lo: nat, step: nat, i: nat)
    ensures Start(lo, step, i + 1) == Start(lo, step, i) + step + 1
  {
    OneMore(i, step + 1);
  }

  lemma {:induction false} StartGrows(lo: nat, step: nat, i: nat, j: nat)
    requires i <= j
    ensures Start(lo, step, i) <= Start(lo, step, j)
    decreases j
  {
    if i < j {
      StartGrows(lo, step, i, j - 1);
      StartNext(lo, step, j - 1);
    }
  }

  /** The last start lies within the span exactly when quotient plus remainder reach n - 1. */
  lemma LastStart(from: bytes, n: nat)
    requires Divides(from, n)
    ensures Start(Val(from), Width(from, n), n - 1) < Pow256(|from|) <==> SplitFits(from, n)
  {
    hide Val, Pow256;
    hide Div;
    LastProduct(n, Width(from, n));
  }

  lemma LastProduct(n: int, q: int)
    ensures (n - 1) * (q + 1) == n * q + n - 1 - q
  {
  }

  /**
   Divides the keys from a start to the top into n contiguous ranges. None is the
   source's panic: a bound that does not fit the key length.
   */
  method SplitRange(from: bytes, n: nat) returns (r: Option<seq<Range>>)
    ensures r.Some? <==> SplitFits(from, n)
    ensures r.Some? ==> Contiguous(from, r.value)
    ensures r.Some? ==> |r.value| == if Divides(from, n) then n else 1
  {
    hide Val, Pow256, Start, Contiguous, BE, SplitFits, Span, Width, Rest;
    var len, lo, span := |from|, Val(from), Span(from);
    if span == 0 || n <= 1 || Width(from, n) == 0 {
      OneRange(from, n);
      return Some([Range(from, None)]);
    }
    var step := Width(from, n);
    LastStart(from, n);
    assert Start(lo, step, 0) == lo by { StartZero(lo, step); }
    var out: seq<Range> := [];
    var cur := lo;
    var i := 0;
    while i < n
      invariant 0 <= i <= n && |out| == i
      invariant i < n ==> cur == Start(lo, step, i)
      invariant i == n ==> out[n - 1].hi.None? && SplitFits(from, n)
      invariant StartsAt(out, len, lo, step)
      invariant EndsAt(out, len, lo, step, n)
    {
      StartGrows(lo, step, i, n - 1);
      var a := Pad(cur, len);
      if a.None? {
        return None;
      }
      if i == n - 1 {
        out := out + [Range(a.value, None)];
      } else {
        StartNext(lo, step, i);
        StartGrows(lo, step, i + 1, n - 1);
        var e := Pad(cur + step, len);
        if e.None? {
          return None;
        }
        out := out + [Range(a.value, e)];
        cur := cur + step + 1;
      }
      i := i + 1;
    }
    SplitIsContiguous(from, out, step);
    return Some(out);
  }

  lemma OneRange(from: bytes, n: nat)
    requires !Divides(from, n)
    ensures SplitFits(from, n) && Contiguous(from, [Range(from, None)])
  {
    hide Val, Pow256;
  }

  lemma StartZero(lo: nat, step: nat)
    ensures Start(lo, step, 0) == lo
  {
  }

  predicate StartsAt(out: seq<Range>, len: nat, lo: nat, step: nat) {
    forall j :: 0 <= j < |out| ==> |out[j].lo| == len && Val(out[j].lo) == Start(lo, step, j)
  }

  predicate EndsAt(out: seq<Range>, len: nat, lo: nat, step: nat, n: nat) {
    forall j :: 0 <= j < |out| && j < n - 1 ==>
      out[j].hi.Some? && |out[j].hi.value| == len && Val(out[j].hi.value) == Start(lo, step, j) + step
  }

  lemma SplitIsContiguous(from: bytes, out: seq<Range>, step: nat)
    requires |out| > 0 && out[|out| - 1].hi.None?
    requires StartsAt(out, |from|, Val(from), step)
    requires EndsAt(out, |from|, Val(from), step, |out|)
    ensures Contiguous(from, out)
  {
    hide Val, Start;
    var lo := Val(from);
    StartZero(lo, step);
    SameValue(out[0].lo, from);
    forall j | 0 <= j < |out| - 1 ensures Val(out[j + 1].lo) == Val(out[j].hi.value) + 1 {
      StartNext(lo, step, j);
    }
  }

  lemma SameValue(a: bytes, b: bytes)
    requires |a| == |b| && Val(a) == Val(b)
    ensures a == b
  {
    BEOfVal(a);
    BEOfVal(b);
  }

  /** A span of at least n·(n-1) always splits. */
  lemma WideSpansSplit(from: bytes, n: nat)
    requires Span(from) >= n * (n - 1)
    ensures SplitFits(from, n)
  {
    hide Val, Pow256;
    if n > 1 {
      QuotientAtLeast(Span(from), n, n - 1);
    }
  }

  lemma QuotientAtLeast(span: nat, n: nat, k: nat)
    requires n > 0 && span >= n * k
    ensures Div(span, n) >= k
  {
    hide Div;
    var q := Div(span, n);
    if q + 1 <= k {
      Scaled(n, q + 1, k);
      assert false;
    }
  }

  lemma Scaled(n: nat, a: nat, b: nat)
    requires a <= b
    ensures n * a <= n * b && n * a == n * (a - 1) + n
  {
  }

  /** Four keys short of the top of the hash space, four ranges do not fit: the fourth would start past it. */
  lemma NarrowSplitFails()
    ensures !SplitFits(Repeat(255, 31) + [251], 4)
  {
    hide Val, Pow256, Repeat;
    var from := Repeat(255, 31) + [251];
    ValAppend(Repeat(255, 31), [251]);
    ValOfRepeat(31);
    ValAppend(Repeat(255, 31), [255]);
    SingleByte(251);
    WordPower(31);
    assert Span(from) == 4;
  }

  lemma WordPower(n: nat)
    ensures Pow256(n + 1) == 256 * Pow256(n)
  {
  }

  /** Every key from the start on lies in exactly one of the ranges. */
  lemma {:induction false} RangesPartition(from: bytes, rs: seq<Range>, k: bytes)
    requires Contiguous(from, rs) && Val(from) <= Val(k)
    ensures exists i :: 0 <= i < |rs| && InRange(k, rs[i])
    ensures forall i, j :: 0 <= i < |rs| && 0 <= j < |rs| && InRange(k, rs[i]) && InRange(k, rs[j]) ==> i == j
    decreases |rs|
  {
    if |rs| == 1 {
      assert InRange(k, rs[0]);
    } else {
      var rest := rs[1..];
      if Val(k) <= Val(rs[0].hi.value) {
        assert InRange(k, rs[0]);
        forall i | 1 <= i < |rs| ensures !InRange(k, rs[i]) {
          LaterStartsHigher(from, rs, 0, i);
        }
      } else {
        RestContiguous(from, rs);
        RangesPartition(rest[0].lo, rest, k);
        var i :| 0 <= i < |rest| && InRange(k, rest[i]);
        assert InRange(k, rs[i + 1]);
        forall a, b | 0 <= a < |rs| && 0 <= b < |rs| && InRange(k, rs[a]) && InRange(k, rs[b]) ensures a == b {
          assert rest[a - 1] == rs[a] && rest[b - 1] == rs[b];
        }
      }
    }
  }

  lemma RestContiguous(from: bytes, rs: seq<Range>)
    requires Contiguous(from, rs) && |rs| > 1
    ensures Contiguous(rs[1].lo, rs[1..])
  {
  }

  lemma {:induction false} LaterStartsHigher(from: bytes, rs: seq<Range>, i: nat, j: nat)
    requires Contiguous(from, rs) && i < j < |rs|
    ensures Val(rs[i].hi.value) < Val(rs[j].lo)
    decreases j
  {
    if i < j - 1 {
      LaterStartsHigher(from, rs, i, j - 1);
    }
  }
}
