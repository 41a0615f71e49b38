/**
 Which storage ranges a later run may resume at their watermark, when the loader's
 split settings have changed between runs (follower/sync/sync.go, splitAfter,
 splitWays and noStorageResume).
 */
module Boundaries {
  import opened Bytes
  import opened Schema
  import opened Keys
  import opened Loader
  import opened LoaderSafety
  import opened LoadRuns

  // ----- the ranges of a trie -----

  /** The ranges the account's trie is walked in: the warmup's, then the sub-ranges if it is split. */
  ghost predicate Splits(w: World, a: Hash, was: seq<Range>) {
    && Contiguous(ZERO, was) && a in w.accounts
    && if |was| == 1 then a !in w.giants else a in w.giants && w.giants[a] == was[1..]
  }

  /** The part that walks a range. */
  function PartAt(a: Hash, i: nat): Part {
    if i == 0 then Warmup(a) else Sub(a, i - 1)
  }

  function LastOf(r: Range): nat {
    if r.hi.Some? then Val(r.hi.value) else Top() - 1
  }

  predicate Inside(r: Range, outer: Range) {
    Val(outer.lo) <= Val(r.lo) && LastOf(r) <= LastOf(outer)
  }

  /** A range of 32-byte keys with at least one key in it. */
  predicate Proper(r: Range) {
    |r.lo| == 32 && (r.hi.Some? ==> |r.hi.value| == 32) && Val(r.lo) <= LastOf(r)
  }

  lemma ZeroIsLeast(k: Hash)
    ensures Val(ZERO) == 0 <= Val(k)
  {
    ValOfRepeat(32);
    assert ZERO == Repeat(0, 32);
  }

  lemma PartIsRange(w: World, a: Hash, was: seq<Range>, i: nat, k: Hash)
    requires WorldOk(w) && Splits(w, a, was) && i < |was|
    ensures PartOf(w, PartAt(a, i)) && (Within(w, PartAt(a, i), k) <==> InRange(k, was[i]))
  {
    hide Val, Top;
    ZeroIsLeast(k);
    BelowTop(k);
    if i > 0 {
      InSub(w, a, i - 1, k);
    }
  }

  // ----- resuming at a watermark -----

  /** One account's storage trie, walked in one range. */
  function OneTrie(a: Hash, leaf: Leaf, r: Range): World {
    World(map[a := leaf], map[], ZERO, ZERO, map[a := [r]])
  }

  /** No leaf of the part before a walk's starting point is missing. */
  ghost predicate SkipsNothing(w: World, kv: KV, p: Part, wk: Walker) {
    forall k: Hash :: In(w, p, k) && (wk.next.None? || Val(k) < wk.next.value) ==> Has(kv, p, k)
  }

  /** A walk of r that starts at its watermark misses no slot. */
  ghost predicate ResumesIn(a: Hash, r: Range, leaf: Leaf, kv: KV) {
    var w := OneTrie(a, leaf, r);
    forall wm :: IsWatermark(w, kv, Sub(a, 0), wm) ==> SkipsNothing(w, kv, Sub(a, 0), Resume(w, Sub(a, 0), wm))
  }

  lemma OneRangeIs(a: Hash, leaf: Leaf, r: Range, k: Hash)
    ensures Within(OneTrie(a, leaf, r), Sub(a, 0), k) <==> InRange(k, r)
  {
    hide Val, Top;
    BelowTop(k);
  }

  /** Resuming at the watermark skips nothing if the committed rows are the part's first leaves. */
  lemma ClosedSkipsNothing(w: World, kv: KV, p: Part, wm: Option<Hash>)
    requires p.Sub? && IsWatermark(w, kv, p, wm) && Closed(w, kv, p)
    requires forall k: Hash :: Has(kv, p, k) ==> k in Leaves(w, p)
    ensures SkipsNothing(w, kv, p, Resume(w, p, wm))
  {
    hide Val, Lo, Hi, Top, Leaves;
    if wm.Some? {
      var h := wm.value;
      BelowTop(h);
      forall k: Hash | In(w, p, k) && Val(k) <= Val(h) ensures Has(kv, p, k) {
        if Val(k) == Val(h) {
          SameValue(k, h);
        }
      }
      forall k: Hash | In(w, p, k) ensures Val(k) <= Top() - 1 {
        BelowTop(k);
      }
    }
  }

  // ----- the condition -----

  /** Inside one of the old ranges, or no further than the first sub-range. */
  predicate SafeRange(was: seq<Range>, r: Range) {
    || (exists i :: 0 <= i < |was| && Inside(r, was[i]))
    || (|was| > 1 && LastOf(r) <= LastOf(was[1]))
  }

  predicate Untouched(kv: KV) {
    forall k :: k in kv ==> !k.BaseAccount? && !k.BaseSlot? && !k.Queue? && !k.MetaBaselineComplete?
  }

  /** A run of loads that walked the account's trie in these ranges, up to its n-th state. */
  ghost predicate Loads(w: World, a: Hash, was: seq<Range>, ms: seq<Machine>, es: seq<Event>, n: nat) {
    && WorldOk(w) && Splits(w, a, was) && Runs(w, ms, es) && n < |ms|
    && Untouched(ms[0].disk.kv) && CodesTrue(w, ms[0].disk.kv) && ms[0] == Booted(Disk(ms[0].disk.kv, {}))
  }

  /**
   The boundaries a later run may use. Whatever the tries and however earlier runs
   with the old boundaries went and crashed, resuming a new range at its watermark is
   safe if and only if the range lies inside one old range, or ends no later than the
   first old sub-range: the warmup is complete before any sub-range begins.
   */
  lemma ResumeSafeIff(a: Hash, was: seq<Range>, r: Range)
    requires Contiguous(ZERO, was) && Proper(r)
    ensures (forall w: World, ms: seq<Machine>, es: seq<Event>, n: nat :: Loads(w, a, was, ms, es, n) ==>
               ResumesIn(a, r, w.accounts[a], ms[n].disk.kv))
       <==> SafeRange(was, r)
  {
    hide WorldOk, Runs, ResumesIn, Contiguous, SafeRange, Proper, Untouched;
    if SafeRange(was, r) {
      forall w: World, ms: seq<Machine>, es: seq<Event>, n: nat | Loads(w, a, was, ms, es, n)
        ensures ResumesIn(a, r, w.accounts[a], ms[n].disk.kv)
      {
        SafeRangeResumes(w, a, was, r, ms, es, n);
      }
    } else {
      var w, ms, es, n := MovedBoundaryLeavesHole(a, was, r);
    }
  }

  lemma SafeRangeResumes(w: World, a: Hash, was: seq<Range>, r: Range, ms: seq<Machine>, es: seq<Event>, n: nat)
    requires Loads(w, a, was, ms, es, n) && SafeRange(was, r) && Proper(r)
    ensures ResumesIn(a, r, w.accounts[a], ms[n].disk.kv)
  {
    hide WorldOk, Allowed, Next, DiskOk, SafeRange, Proper, Contiguous;
    UntouchedDiskOk(w, ms[0].disk.kv);
    BootedOk(w, ms[0].disk);
    RunKeepsInv(w, ms, es, n);
    WrittenOk(w, ms[n]);
    SoundDiskResumes(w, ms[n].disk, a, was, r);
  }

  lemma SoundDiskResumes(w: World, d: Disk, a: Hash, was: seq<Range>, r: Range)
    requires WorldOk(w) && DiskOk(w, d) && Splits(w, a, was) && SafeRange(was, r) && Proper(r)
    ensures ResumesIn(a, r, w.accounts[a], d.kv)
  {
    hide Val, Top, WorldOk, Contiguous, SafeRange, Proper, IsWatermark, SkipsNothing, Resume, QueueOk, AllClosed,
         WarmupFirst;
    hide Covered, Full, EncodeAccount, Within, InRange;
    var leaf := w.accounts[a];
    var w', p := OneTrie(a, leaf, r), Sub(a, 0);
    forall j: Hash, k: Hash | In(w', p, j) && In(w', p, k) && Val(j) < Val(k) && Has(d.kv, p, k)
      ensures Has(d.kv, p, j)
    {
      OneRangeIs(a, leaf, r, j);
      OneRangeIs(a, leaf, r, k);
      EarlierSlotIsThere(w, d, a, was, r, j, k);
    }
    assert Closed(w', d.kv, p);
    forall wm | IsWatermark(w', d.kv, p, wm) ensures SkipsNothing(w', d.kv, p, Resume(w', p, wm)) {
      ClosedSkipsNothing(w', d.kv, p, wm);
    }
  }

  /** Below a committed slot of a safe range every slot of it is committed. */
  lemma EarlierSlotIsThere(w: World, d: Disk, a: Hash, was: seq<Range>, r: Range, j: Hash, k: Hash)
    requires WorldOk(w) && DiskOk(w, d) && Splits(w, a, was) && SafeRange(was, r)
    requires j in w.accounts[a].slots && k in w.accounts[a].slots && Val(j) < Val(k)
    requires InRange(j, r) && InRange(k, r) && BaseSlot(a, k) in d.kv
    ensures BaseSlot(a, j) in d.kv
  {
    hide Val, Top, WorldOk, QueueOk, TrueRows, AllClosed, WarmupFirst, Covered, Full, Within;
    BelowTop(k);
    if i :| 0 <= i < |was| && Inside(r, was[i]) {
      SameRange(w, d, a, was, i, j, k);
    } else {
      WithinFirstTwo(was, r, k);
      WithinFirstTwo(was, r, j);
      if InRange(k, was[0]) {
        ZeroIsLeast(j);
        SameRange(w, d, a, was, 0, j, k);
      } else if InRange(j, was[1]) {
        SameRange(w, d, a, was, 1, j, k);
      } else {
        WarmupIsThere(w, d, a, was, j, k);
      }
    }
  }

  lemma WithinFirstTwo(was: seq<Range>, r: Range, k: Hash)
    requires Contiguous(ZERO, was) && |was| > 1 && LastOf(r) <= LastOf(was[1]) && InRange(k, r)
    ensures InRange(k, was[0]) || InRange(k, was[1])
  {
    hide Val, Top;
    ZeroIsLeast(k);
    BelowTop(k);
  }

  lemma SameRange(w: World, d: Disk, a: Hash, was: seq<Range>, i: nat, j: Hash, k: Hash)
    requires WorldOk(w) && DiskOk(w, d) && Splits(w, a, was) && i < |was| && InRange(j, was[i]) && InRange(k, was[i])
    requires j in w.accounts[a].slots && k in w.accounts[a].slots && Val(j) < Val(k) && BaseSlot(a, k) in d.kv
    ensures BaseSlot(a, j) in d.kv
  {
    hide Val, Within, WorldOk, InRange, QueueOk, TrueRows, WarmupFirst, Covered, Full, PartOf;
    PartIsRange(w, a, was, i, j);
    PartIsRange(w, a, was, i, k);
    var p := PartAt(a, i);
    assert Closed(w, d.kv, p);
    assert In(w, p, j) && In(w, p, k) && Has(d.kv, p, k);
    assert Has(d.kv, p, j);
  }

  lemma WarmupIsThere(w: World, d: Disk, a: Hash, was: seq<Range>, j: Hash, k: Hash)
    requires WorldOk(w) && DiskOk(w, d) && Splits(w, a, was) && |was| > 1 && InRange(j, was[0]) && InRange(k, was[1])
    requires j in w.accounts[a].slots && BaseSlot(a, k) in d.kv
    ensures BaseSlot(a, j) in d.kv
  {
    hide Val, Within, WorldOk, InRange, QueueOk, TrueRows, AllClosed, Covered, Full, PartOf;
    PartIsRange(w, a, was, 0, j);
    PartIsRange(w, a, was, 1, k);
    assert Has(d.kv, Sub(a, 0), k);
    assert Covered(w, d.kv, Warmup(a));
    UseCovered(w, d.kv, Warmup(a), j);
  }

  // ----- the failing family -----

  /** The last key of a range. */
  function LastKey(r: Range): Hash
    requires Proper(r)
  {
    if r.hi.Some? then r.hi.value else Repeat(255, 32)
  }

  lemma LastKeyIs(r: Range)
    requires Proper(r)
    ensures Val(LastKey(r)) == LastOf(r)
  {
    ValOfRepeat(32);
  }

  const SOME_HASH: Hash := [1] + Blank(31)

  /** A trie of three slots: the warmup's last, and two in the sub-ranges. */
  function ThreeSlots(a: Hash, was: seq<Range>, warm: Hash, first: Hash, last: Hash): World
    requires was != []
  {
    var slots := map[warm := SOME_HASH, first := SOME_HASH, last := SOME_HASH];
    World(map[a := Leaf(Account(0, 0, ZERO), SOME_HASH, slots)], map[], ZERO, ZERO, map[a := was[1..]])
  }

  lemma ThreeSlotsOk(a: Hash, was: seq<Range>, warm: Hash, first: Hash, last: Hash)
    requires Contiguous(ZERO, was) && |was| > 1
    ensures var w := ThreeSlots(a, was, warm, first, last); WorldOk(w) && Splits(w, a, was) && OneAccount(w, a)
  {
    hide Val;
    RestContiguous(ZERO, was);
    assert SOME_HASH[0] == 1 && ZERO[0] == 0;
    var w := ThreeSlots(a, was, warm, first, last);
    assert warm in w.accounts[a].slots;
  }

  /**
   Where an unsafe range fails: at its start if that lies in a sub-range, else at the
   first sub-range's start. Both that slot and the range's last key lie in
   sub-ranges, the latter in a later one.
   */
  lemma HoleIn(was: seq<Range>, r: Range) returns (first: Hash, last: Hash, q: nat)
    requires Contiguous(ZERO, was) && Proper(r) && !SafeRange(was, r)
    ensures |was| > 1 && 1 < q < |was| && InRange(last, was[q])
    ensures Val(was[1].lo) <= Val(first) < Val(was[q].lo) && InRange(first, r) && InRange(last, r)
  {
    hide Val, Top, InRange, Contiguous, Repeat;
    last := LastKey(r);
    LastKeyIs(r);
    AtLeastTwo(was, r);
    first := if Val(was[1].lo) <= Val(r.lo) then r.lo else was[1].lo;
    ZeroIsLeast(first);
    ZeroIsLeast(last);
    RangesPartition(ZERO, was, first);
    RangesPartition(ZERO, was, last);
    var i :| 0 <= i < |was| && InRange(first, was[i]);
    q :| 0 <= q < |was| && InRange(last, was[q]);
    HoleOrder(was, r, first, last, i, q);
  }

  lemma AtLeastTwo(was: seq<Range>, r: Range)
    requires Contiguous(ZERO, was) && Proper(r) && !SafeRange(was, r)
    ensures |was| > 1 && |was[1].lo| == 32
  {
    hide Val, Top;
    LastKeyIs(r);
    BelowTop(LastKey(r));
    ZeroIsLeast(r.lo);
    assert !Inside(r, was[0]);
  }

  lemma HoleOrder(was: seq<Range>, r: Range, first: Hash, last: Hash, i: nat, q: nat)
    requires Contiguous(ZERO, was) && Proper(r) && !SafeRange(was, r) && |was| > 1 && i < |was| && q < |was|
    requires InRange(first, was[i]) && InRange(last, was[q]) && Val(last) == LastOf(r)
    requires first == if Val(was[1].lo) <= Val(r.lo) then r.lo else was[1].lo
    ensures 1 < q && Val(was[1].lo) <= Val(first) < Val(was[q].lo) && InRange(first, r) && InRange(last, r)
  {
    hide Val, Top;
    BelowTop(first);
    BelowTop(last);
    assert !Inside(r, was[i]) && !(LastOf(r) <= LastOf(was[1]));
    InOrder(was, q, 1);
    InOrder(was, i, 1);
    InOrder(was, 1, i);
    InOrder(was, q, i);
    InOrder(was, i, q);
    InOrder(was, 1, q);
  }

  lemma InOrder(was: seq<Range>, i: nat, j: nat)
    requires Contiguous(ZERO, was) && i < |was| && j < |was|
    ensures i < j ==> was[i].hi.Some? && Val(was[i].hi.value) < Val(was[j].lo)
  {
    hide Val;
    if i < j {
      LaterStartsHigher(ZERO, was, i, j);
    }
  }

  /**
   The failing family: for every other range there are a trie and a run of the loader
   that crash with the range's last slot written and an earlier one not, so that the
   watermark hides the earlier one from a walk of the range.
   */
  lemma MovedBoundaryLeavesHole(a: Hash, was: seq<Range>, r: Range)
    returns (w: World, ms: seq<Machine>, es: seq<Event>, n: nat)
    requires Contiguous(ZERO, was) && Proper(r) && !SafeRange(was, r)
    ensures Loads(w, a, was, ms, es, n) && !ResumesIn(a, r, w.accounts[a], ms[n].disk.kv)
  {
    hide Val, Top, InRange, Contiguous, SafeRange, ResumesIn, Allowed, Next, WorldOk;
    var first, last, q := HoleIn(was, r);
    var warm := WarmKey(was);
    w := ThreeSlots(a, was, warm, first, last);
    ThreeSlotsOk(a, was, warm, first, last);
    SubStarts(a, was, w, q, warm, first, last);
    var m := SubRangeFirst(w, a, q - 1, warm, last);
    ms, es :| Runs(w, ms, es) && ms[0] == Booted(EMPTY_DISK) && ms[|ms| - 1] == m;
    n := |ms| - 1;
    SlotMissed(a, r, w.accounts[a], m.disk.kv, warm, first, last);
  }

  /** The warmup's last key. */
  lemma WarmKey(was: seq<Range>) returns (warm: Hash)
    requires Contiguous(ZERO, was) && |was| > 1
    ensures was[0].hi == Some(warm) && Val(was[1].lo) == Val(warm) + 1
  {
    hide Val;
    warm := was[0].hi.value;
  }

  lemma SubStarts(a: Hash, was: seq<Range>, w: World, q: nat, warm: Hash, first: Hash, last: Hash)
    requires Contiguous(ZERO, was) && 1 < q < |was| && w == ThreeSlots(a, was, warm, first, last)
    requires Val(was[1].lo) == Val(warm) + 1 && Val(was[1].lo) <= Val(first) < Val(was[q].lo) && InRange(last, was[q])
    ensures PartOf(w, Sub(a, q - 1)) && Lo(w, Sub(a, q - 1)) == Val(was[q].lo) && Hi(w, Warmup(a)) == Val(warm)
    ensures Within(w, Sub(a, q - 1), last) && Val(warm) < Val(first) < Val(last)
    ensures forall s :: s in w.accounts[a].slots && Val(s) <= Val(warm) ==> s == warm
    ensures forall s :: s in w.accounts[a].slots && Lo(w, Sub(a, q - 1)) <= Val(s) ==> s == last
  {
    hide Val, Top, Contiguous;
    BelowTop(last);
  }

  lemma SlotMissed(a: Hash, r: Range, leaf: Leaf, kv: KV, warm: Hash, first: Hash, last: Hash)
    requires first in leaf.slots && Val(warm) < Val(first) < Val(last) && InRange(first, r) && InRange(last, r)
    requires forall s: Hash :: BaseSlot(a, s) in kv <==> s == warm || s == last
    ensures !ResumesIn(a, r, leaf, kv)
  {
    hide Val, Top, InRange;
    var w, p := OneTrie(a, leaf, r), Sub(a, 0);
    OneRangeIs(a, leaf, r, first);
    OneRangeIs(a, leaf, r, last);
    BelowTop(first);
    BelowTop(last);
    assert IsWatermark(w, kv, p, Some(last));
    assert In(w, p, first) && !Has(kv, p, first);
    assert !SkipsNothing(w, kv, p, Resume(w, p, Some(last)));
  }
}
