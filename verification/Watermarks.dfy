/**
 The loader's resume watermarks as cursor reads over the whole key order
 (store/read.go): one seek to the end of a range and at most one step back.
 */
module Watermarks {
  import opened Bytes
  import opened Schema
  import opened Keys
  import opened Loader

  // ----- the cursor's backward moves -----

  ghost predicate IsLast(keys: set<Key>, k: Key) {
    k in keys && forall l :: l in keys ==> AtMost(EncodeKey(l), EncodeKey(k))
  }

  lemma {:induction false} LastExists(keys: set<Key>)
    requires keys != {}
    ensures exists k :: IsLast(keys, k)
    decreases keys
  {
    hide EncodeKey, AtMost;
    var k :| k in keys;
    var rest := keys - {k};
    AtMostReflexive(EncodeKey(k));
    if rest == {} {
      assert keys == {k};
      assert IsLast(keys, k);
    } else {
      LastExists(rest);
      var m :| IsLast(rest, m);
      LastOfMore(keys, k, m);
    }
  }

  lemma AtMostReflexive(a: bytes)
    ensures AtMost(a, a)
  {
  }

  lemma LastOfMore(keys: set<Key>, k: Key, m: Key)
    requires k in keys && IsLast(keys - {k}, m)
    ensures exists f :: IsLast(keys, f)
  {
    hide EncodeKey, Less;
    LessTrichotomy(EncodeKey(k), EncodeKey(m));
    if AtMost(EncodeKey(k), EncodeKey(m)) {
      assert IsLast(keys, m);
    } else {
      forall l | l in keys ensures AtMost(EncodeKey(l), EncodeKey(k)) {
        if l != k {
          AtMostTransitive(EncodeKey(l), EncodeKey(m), EncodeKey(k));
        }
      }
      assert IsLast(keys, k);
    }
  }

  /** LMDB's Last: the greatest key, None on an empty database. */
  ghost function Last(keys: set<Key>): (r: Option<Key>)
    ensures r.None? <==> keys == {}
    ensures r.Some? ==> IsLast(keys, r.value)
  {
    if keys == {} then None
    else
      LastExists(keys);
      var k :| IsLast(keys, k);
      Some(k)
  }

  /** LMDB's Prev: the greatest key before the cursor's. */
  ghost function Prev(keys: set<Key>, k: Key): Option<Key> {
    Last(set l | l in keys && Less(EncodeKey(l), EncodeKey(k)))
  }

  /** Seek, then the last key if past the end, or one step back unless the seek was exact. */
  ghost function Floor(keys: set<Key>, seek: bytes): Option<Key> {
    match SetRange(keys, seek)
    case None => Last(keys)
    case Some(k) => if EncodeKey(k) == seek then Some(k) else Prev(keys, k)
  }

  ghost predicate IsFloor(keys: set<Key>, seek: bytes, k: Key) {
    && k in keys && AtMost(EncodeKey(k), seek)
    && forall l :: l in keys && AtMost(EncodeKey(l), seek) ==> AtMost(EncodeKey(l), EncodeKey(k))
  }

  /** The three cursor moves together find the greatest key at or before the seek. */
  lemma FloorIsGreatest(keys: set<Key>, seek: bytes)
    ensures Floor(keys, seek).None? <==> forall l :: l in keys ==> !AtMost(EncodeKey(l), seek)
    ensures Floor(keys, seek).Some? ==> IsFloor(keys, seek, Floor(keys, seek).value)
  {
    hide EncodeKey, Less, Last;
    var f := SetRange(keys, seek);
    if f.None? {
      forall l | l in keys ensures AtMost(EncodeKey(l), seek) {
        LessTrichotomy(EncodeKey(l), seek);
      }
    } else if EncodeKey(f.value) != seek {
      var before := set l | l in keys && Less(EncodeKey(l), EncodeKey(f.value));
      forall l | l in keys ensures l in before <==> AtMost(EncodeKey(l), seek) {
        BeforeTheSeek(keys, seek, f.value, l);
      }
      assert Floor(keys, seek) == Last(before);
    } else {
      assert AtMost(EncodeKey(f.value), seek);
    }
  }

  lemma BeforeTheSeek(keys: set<Key>, seek: bytes, k: Key, l: Key)
    requires IsFirstAtOrAfter(keys, seek, k) && EncodeKey(k) != seek && l in keys
    ensures AtMost(EncodeKey(l), seek) <==> Less(EncodeKey(l), EncodeKey(k))
  {
    hide EncodeKey, Less;
    LessTrichotomy(EncodeKey(l), seek);
    LessTrichotomy(EncodeKey(l), EncodeKey(k));
    LessTrichotomy(seek, EncodeKey(k));
    if AtMost(EncodeKey(l), seek) && EncodeKey(l) != seek {
      LessTransitive(EncodeKey(l), seek, EncodeKey(k));
    }
  }

  // ----- the greatest row of a range -----

  /** A key is of the form prefix, then a hash. */
  ghost predicate Under(k: Key, prefix: bytes, h: Hash) {
    EncodeKey(k) == prefix + h
  }

  /** If the prefix has any row up to the end, the floor is its greatest such row. */
  lemma FloorUnder(keys: set<Key>, prefix: bytes, end: Hash, k: Key, h: Hash)
    requires k in keys && Under(k, prefix, h) && Val(h) <= Val(end)
    ensures var f := Floor(keys, prefix + end);
            f.Some? && f.value in keys && prefix <= EncodeKey(f.value)
            && forall y: Hash :: Under(f.value, prefix, y) ==> Val(h) <= Val(y) <= Val(end)
  {
    hide EncodeKey, Less, Val, Floor;
    var seek := prefix + end;
    FloorIsGreatest(keys, seek);
    PrefixOrder(prefix, h, end);
    var f := Floor(keys, seek).value;
    BetweenSharesPrefix(prefix, h, EncodeKey(f), end);
    forall y: Hash | Under(f, prefix, y) ensures Val(h) <= Val(y) <= Val(end) {
      PrefixOrder(prefix, h, y);
      PrefixOrder(prefix, y, end);
    }
  }

  lemma PrefixOrder(prefix: bytes, a: Hash, b: Hash)
    ensures AtMost(prefix + a, prefix + b) <==> Val(a) <= Val(b)
  {
    hide Less, Val;
    LessSamePrefix(prefix, a, b);
    LessIsValueOrder(a, b);
    if Val(a) == Val(b) {
      SameValue(a, b);
    }
    if prefix + a == prefix + b {
      assert (prefix + a)[|prefix|..] == a && (prefix + b)[|prefix|..] == b;
    }
  }

  /** The greatest account row whose hash starts with a byte. */
  ghost function MaxBaseAccountWithPrefix(keys: set<Key>, p: byte): Option<Hash> {
    var k := Floor(keys, [7, p] + Repeat(255, 31));
    if k.None? then None
    else
      var e := EncodeKey(k.value);
      if |e| == 33 && e[0] == 7 && e[1] == p then Some(e[1..]) else None
  }

  lemma KeyspaceOf(k: Key)
    ensures EncodeKey(k) != [] && EncodeKey(k)[0] == 7 ==> k.BaseAccount?
    ensures EncodeKey(k) != [] && EncodeKey(k)[0] == 8 ==> k.BaseSlot?
  {
    hide EncodeStem;
    ParseEncodeKey(k);
  }

  /** It is the segment's watermark. */
  lemma MaxBaseAccountIsWatermark(w: World, kv: KV, p: byte)
    ensures IsWatermark(w, kv, Segment(p), MaxBaseAccountWithPrefix(kv.Keys, p))
  {
    hide Floor, Val, Within, Pow256;
    var end: Hash := [p] + Repeat(255, 31);
    assert [7] + end == [7, p] + Repeat(255, 31);
    var f := Floor(kv.Keys, [7] + end);
    forall h: Hash | Within(w, Segment(p), h) && BaseAccount(h) in kv
      ensures f.Some? && f.value.BaseAccount? && f.value in kv && f.value.addrHash[0] == p
      ensures f.Some? && f.value.BaseAccount? && Val(h) <= Val(f.value.addrHash)
    {
      SegmentEnd(w, p, h);
      assert Under(BaseAccount(h), [7], h);
      FloorUnder(kv.Keys, [7], end, BaseAccount(h), h);
      KeyspaceOf(f.value);
      assert Under(f.value, [7], f.value.addrHash);
      SegmentOfBetween(w, p, h, f.value.addrHash, end);
    }
    if f.Some? && f.value.BaseAccount? && f.value.addrHash[0] == p {
      SegmentIsFirstByte(w, f.value.addrHash);
    }
    FloorIsGreatest(kv.Keys, [7] + end);
    if f.Some? {
      KeyspaceOf(f.value);
    }
  }

  /** The last key of a segment. */
  lemma SegmentLast(p: byte)
    ensures Val([p] + Repeat(255, 31)) == (p + 1) * Pow256(31) - 1
  {
    hide Val, Pow256, Repeat;
    ValAppend([p], Repeat(255, 31));
    ValOfRepeat(31);
    SingleByte(p);
    OneMore(p, Pow256(31));
  }

  lemma SegmentEnd(w: World, p: byte, h: Hash)
    requires Within(w, Segment(p), h)
    ensures Val(h) <= Val([p] + Repeat(255, 31))
  {
    hide Val, Pow256, Repeat;
    SegmentLast(p);
  }

  lemma SegmentOfBetween(w: World, p: byte, h: Hash, y: Hash, end: Hash)
    requires Within(w, Segment(p), h) && end == [p] + Repeat(255, 31) && Val(h) <= Val(y) <= Val(end)
    ensures y[0] == p
  {
    hide Val, Pow256, Repeat;
    SegmentLast(p);
    ValHead(y);
    SameQuotient(y[0], p, Pow256(31), Val(y[1..]), Val(y) - p * Pow256(31));
  }

  lemma SameQuotient(a: nat, b: nat, x: nat, r: nat, s: int)
    requires a * x + r == b * x + s && r < x && 0 <= s < x
    ensures a == b
  {
    if a < b {
      MulMono(a + 1, b, x);
      OneMore(a, x);
      assert false;
    } else if b < a {
      MulMono(b + 1, a, x);
      OneMore(b, x);
      assert false;
    }
  }

  /** The greatest slot row of an account within [start, end]; no end is the top of the keyspace. */
  ghost function MaxBaseSlot(keys: set<Key>, a: Hash, start: bytes, end: Option<bytes>): Option<Hash> {
    var k := Floor(keys, [8] + a + if end.Some? then end.value else Repeat(255, 32));
    if k.None? then None
    else
      var e := EncodeKey(k.value);
      if |e| != 65 || e[0] != 8 || e[1..33] != a then None
      else
        var h: Hash := e[33..65];
        if Less(h, start) then None else Some(h)
  }

  /** It is the sub-range's watermark. */
  lemma MaxBaseSlotIsWatermark(w: World, kv: KV, a: Hash, j: nat)
    requires PartOf(w, Sub(a, j)) && |w.giants[a][j].lo| == 32
    requires w.giants[a][j].hi.Some? ==> |w.giants[a][j].hi.value| == 32
    ensures IsWatermark(w, kv, Sub(a, j), MaxBaseSlot(kv.Keys, a, w.giants[a][j].lo, w.giants[a][j].hi))
  {
    hide Floor, Val, Pow256, Less, Repeat;
    var r := w.giants[a][j];
    var end: Hash := if r.hi.Some? then r.hi.value else Repeat(255, 32);
    assert Val(end) == Hi(w, Sub(a, j)) by { ValOfRepeat(32); }
    var prefix := [8] + a;
    var f := Floor(kv.Keys, prefix + end);
    forall h: Hash | Within(w, Sub(a, j), h) && BaseSlot(a, h) in kv
      ensures f.Some? && f.value.BaseSlot? && f.value in kv && f.value.addrHash == a
      ensures f.Some? && f.value.BaseSlot? && Val(h) <= Val(f.value.slotHash) <= Val(end)
    {
      assert Under(BaseSlot(a, h), prefix, h);
      FloorUnder(kv.Keys, prefix, end, BaseSlot(a, h), h);
      UnderSlots(f.value, a);
      assert Under(f.value, prefix, f.value.slotHash);
    }
    FloorIsGreatest(kv.Keys, prefix + end);
    if f.Some? {
      FloorRow(w, a, end, r.lo, f.value);
    }
  }

  lemma UnderSlots(k: Key, a: Hash)
    requires [8] + a <= EncodeKey(k)
    ensures k.BaseSlot? && k.addrHash == a
  {
    assert EncodeKey(k)[0] == ([8] + a)[0] == 8;
    KeyspaceOf(k);
    assert EncodeKey(k)[1..33] == k.addrHash;
    assert ([8] + a)[1..33] == a;
  }

  /** What the checks on the found key accept. */
  lemma FloorRow(w: World, a: Hash, end: Hash, start: Hash, k: Key)
    requires AtMost(EncodeKey(k), [8] + a + end)
    ensures var e := EncodeKey(k);
            |e| == 65 && e[0] == 8 && e[1..33] == a <==> k.BaseSlot? && k.addrHash == a
    ensures k.BaseSlot? && k.addrHash == a ==>
              EncodeKey(k)[33..65] == k.slotHash && Val(k.slotHash) <= Val(end)
    ensures k.BaseSlot? ==> (Less(k.slotHash, start) <==> Val(k.slotHash) < Val(start))
  {
    hide Less, Val;
    KeyspaceOf(k);
    if k.BaseSlot? {
      assert EncodeKey(k)[1..33] == k.addrHash;
      assert EncodeKey(k)[33..65] == k.slotHash;
      LessIsValueOrder(k.slotHash, start);
      if k.addrHash == a {
        PrefixOrder([8] + a, k.slotHash, end);
      }
    }
  }
}
