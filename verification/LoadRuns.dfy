/**
 A concrete run of the loader on a state with one account whose storage trie is
 split: all segments, the warmup, and one sub-range, up to a commit.
 */
module LoadRuns {
  import opened Bytes
  import opened Schema
  import opened Keys
  import opened Loader
  import opened LoaderSafety

  // ----- extending a run -----

  const EMPTY_DISK := Disk(map[], {})

  /** Some run from an empty store leads to the machine. */
  ghost predicate Reached(w: World, m: Machine) {
    exists ms: seq<Machine>, es: seq<Event> ::
      Runs(w, ms, es) && ms[0] == Booted(EMPTY_DISK) && ms[|ms| - 1] == m
  }

  lemma ReachedFirst(w: World)
    ensures Reached(w, Booted(EMPTY_DISK))
  {
    var ms: seq<Machine> := [Booted(EMPTY_DISK)];
    var es: seq<Event> := [];
    assert Runs(w, ms, es) && ms[|ms| - 1] == Booted(EMPTY_DISK);
  }

  lemma ReachedNext(w: World, m: Machine, e: Event)
    requires Reached(w, m) && Allowed(w, m, e)
    ensures Reached(w, Next(w, m, e))
  {
    hide Allowed, Next;
    var ms: seq<Machine>, es: seq<Event> :| Runs(w, ms, es) && ms[0] == Booted(EMPTY_DISK) && ms[|ms| - 1] == m;
    var ms', es' := ms + [Next(w, m, e)], es + [e];
    forall n | 0 <= n < |es'| ensures Allowed(w, ms'[n], es'[n]) && ms'[n + 1] == Next(w, ms'[n], es'[n]) {
      if n < |es| {
        assert ms'[n] == ms[n] && es'[n] == es[n] && ms'[n + 1] == ms[n + 1];
      }
    }
    assert Runs(w, ms', es') && ms'[|ms'| - 1] == Next(w, m, e);
  }

  // ----- phase 1 -----

  /** The state at S: one account with storage and without code. */
  predicate OneAccount(w: World, a: Hash) {
    w.accounts.Keys == {a} && HasStorage(w, w.accounts[a])
  }

  function AccountOps(w: World, a: Hash): seq<Op>
    requires OneAccount(w, a)
  {
    [Put(Queue(a), w.accounts[a].root)] + [Put(BaseAccount(a), EncodeAccount(w.accounts[a].account))]
  }

  /** What the writer holds once the first i segments are done. */
  function Written(w: World, a: Hash, i: nat): seq<Op>
    requires OneAccount(w, a)
  {
    if i == 0 then []
    else Written(w, a, i - 1) + (if i - 1 == a[0] then AccountOps(w, a) else []) + [Mark(i - 1)]
  }

  function Segments(i: nat): set<Part> {
    set j | 0 <= j < i :: Segment(j)
  }

  function AfterSegments(w: World, a: Hash, i: nat): Machine
    requires OneAccount(w, a)
  {
    Machine(EMPTY_DISK, Written(w, a, i), Accounts, map[], Segments(i))
  }

  /** Where the account lies seen from a segment. */
  lemma SegmentPosition(w: World, a: Hash, i: nat)
    ensures Lo(w, Segment(i)) <= Hi(w, Segment(i))
    ensures i < a[0] ==> Hi(w, Segment(i)) < Val(a)
    ensures i <= a[0] ==> Lo(w, Segment(i)) <= Val(a)
    ensures i == a[0] ==> Val(a) <= Hi(w, Segment(i))
    ensures i > a[0] ==> Val(a) < Lo(w, Segment(i))
  {
    hide Val, Pow256;
    var x := Pow256(31);
    var first: nat := a[0];
    SegmentIsFirstByte(w, a);
    OneMore(i, x);
    OneMore(first, x);
    if i < first {
      MulMono(i + 1, first, x);
    } else if i > first {
      MulMono(first + 1, i, x);
    }
  }

  function SegmentPage(a: Hash, i: nat): Page {
    Page(if i <= a[0] then [a] else [], false)
  }

  lemma SegmentFetch(w: World, a: Hash, i: nat)
    requires OneAccount(w, a)
    ensures Legal(Leaves(w, Segment(i)), Lo(w, Segment(i)), SegmentPage(a, i))
    ensures Received(SegmentPage(a, i), End(w, Segment(i))) == Some(Walker(if i == a[0] then [a] else [], None))
  {
    hide Val, Pow256;
    SegmentPosition(w, a, i);
    CutOne(a, End(w, Segment(i)));
  }

  lemma CutOne(k: Hash, end: int)
    ensures Cut([k], end) == if Val(k) <= end then [k] else []
  {
    hide Val;
    assert [k][..0] == [];
  }

  lemma SegmentStarts(w: World, a: Hash, i: nat)
    requires OneAccount(w, a) && i < 256 && Reached(w, AfterSegments(w, a, i))
    ensures var wk := Walker(if i == a[0] then [a] else [], None);
            Reached(w, AfterSegments(w, a, i).(walkers := map[Segment(i) := wk]))
  {
    hide Written, Legal, Received, Reached, Lo, Hi;
    var m, p := AfterSegments(w, a, i), Segment(i);
    ReachedNext(w, m, Start(p, None));
    var m1 := Next(w, m, Start(p, None));
    assert m1.walkers == map[p := Walker([], Some(Lo(w, p)))];
    SegmentPosition(w, a, i);
    SegmentFetch(w, a, i);
    ReachedNext(w, m1, Fetch(p, SegmentPage(a, i)));
    assert Next(w, m1, Fetch(p, SegmentPage(a, i))).walkers == map[p := Walker(if i == a[0] then [a] else [], None)];
  }

  lemma SegmentEnds(w: World, a: Hash, i: nat, m: Machine)
    requires OneAccount(w, a) && Reached(w, m) && m.walkers == map[Segment(i) := Walker([], None)]
    ensures Reached(w, m.(walkers := map[], finished := m.finished + {Segment(i)}, buf := m.buf + [Mark(i)]))
  {
    hide Reached;
    ReachedNext(w, m, Finish(Segment(i)));
    assert m.walkers - {Segment(i)} == map[];
  }

  lemma SegmentDone(w: World, a: Hash, i: nat)
    requires OneAccount(w, a) && i < 256 && Reached(w, AfterSegments(w, a, i))
    ensures Reached(w, AfterSegments(w, a, i + 1))
  {
    hide Reached, EncodeAccount;
    SegmentStarts(w, a, i);
    var p := Segment(i);
    var m := AfterSegments(w, a, i).(walkers := map[p := Walker(if i == a[0] then [a] else [], None)]);
    if i == a[0] {
      ReachedNext(w, m, Send(p));
      var m1 := Next(w, m, Send(p));
      assert [a][1..] == [];
      assert m1.walkers == map[p := Walker([], None)];
      assert m1.buf == Written(w, a, i) + AccountOps(w, a);
      SegmentEnds(w, a, i, m1);
    } else {
      SegmentEnds(w, a, i, m);
      assert Written(w, a, i) + [] == Written(w, a, i);
    }
    assert Segments(i + 1) == Segments(i) + {p};
  }

  lemma {:induction false} SegmentsDone(w: World, a: Hash, i: nat)
    requires OneAccount(w, a) && i <= 256
    ensures Reached(w, AfterSegments(w, a, i))
  {
    hide Reached;
    if i == 0 {
      ReachedFirst(w);
      ReachedNext(w, Booted(EMPTY_DISK), Begin);
      assert Next(w, Booted(EMPTY_DISK), Begin) == AfterSegments(w, a, 0);
    } else {
      SegmentsDone(w, a, i - 1);
      SegmentDone(w, a, i - 1);
    }
  }

  // ----- the barrier -----

  function AccountRows(w: World, a: Hash): KV
    requires OneAccount(w, a)
  {
    map[Queue(a) := w.accounts[a].root, BaseAccount(a) := EncodeAccount(w.accounts[a].account)]
  }

  lemma {:induction false} WrittenRows(w: World, a: Hash, i: nat)
    requires OneAccount(w, a)
    ensures ApplyAll(EMPTY_DISK, Written(w, a, i)).kv == if i > a[0] then AccountRows(w, a) else map[]
  {
    hide EncodeAccount, ApplyAll;
    if i == 0 {
      NothingApplied(EMPTY_DISK);
    } else {
      WrittenRows(w, a, i - 1);
      var before := Written(w, a, i - 1);
      if i - 1 == a[0] {
        var ops := AccountOps(w, a);
        ApplyOne(EMPTY_DISK, before, ops[0]);
        ApplyOne(EMPTY_DISK, before + [ops[0]], ops[1]);
        assert before + [ops[0]] + [ops[1]] == before + ops;
        ApplyOne(EMPTY_DISK, before + ops, Mark(i - 1));
      } else {
        assert before + [] == before;
        ApplyOne(EMPTY_DISK, before, Mark(i - 1));
      }
    }
  }

  lemma NothingApplied(d: Disk)
    ensures ApplyAll(d, []) == d
  {
  }

  /** Phase 2 has begun: the account and its queue entry are committed. */
  lemma StorageReached(w: World, a: Hash) returns (m: Machine)
    requires OneAccount(w, a)
    ensures Reached(w, m) && m.phase == Storage && m.buf == [] && m.walkers == map[]
    ensures m.disk.kv == AccountRows(w, a) && forall p :: p in m.finished ==> p.Segment?
  {
    hide Reached, Written, ApplyAll, EncodeAccount;
    SegmentsDone(w, a, 256);
    var m1 := AfterSegments(w, a, 256);
    WrittenRows(w, a, 256);
    var n := |m1.buf|;
    assert m1.buf[..n] == m1.buf;
    ReachedNext(w, m1, Commit(n));
    var m2 := Next(w, m1, Commit(n));
    ReachedNext(w, m2, ToStorage);
    m := Next(w, m2, ToStorage);
  }

  // ----- the storage trie -----

  /** A part that has been started and has taken in one response. */
  lemma PartFetched(w: World, m: Machine, p: Part, page: Page)
    requires Reached(w, m) && Allowed(w, m, Start(p, None)) && !p.Segment? && m.walkers == map[]
    requires Lo(w, p) <= Hi(w, p) && Legal(Leaves(w, p), Lo(w, p), page)
    requires Received(page, End(w, p)).Some? && Reproducible(w, p, Received(page, End(w, p)).value)
    ensures Reached(w, m.(walkers := map[p := Received(page, End(w, p)).value]))
  {
    hide Reached, Legal, Received, Reproducible, Lo, Hi, IsWatermark;
    ReachedNext(w, m, Start(p, None));
    var m1 := Next(w, m, Start(p, None));
    assert m1.walkers == map[p := Walker([], Some(Lo(w, p)))];
    ReachedNext(w, m1, Fetch(p, page));
    assert Next(w, m1, Fetch(p, page)).walkers == map[p := Received(page, End(w, p)).value];
  }

  /** Its one slot is written. */
  lemma SlotSent(w: World, m: Machine, p: Part, k: Hash, next: Option<nat>)
    requires Reached(w, m) && !p.Segment? && m.walkers == map[p := Walker([k], next)] && k in Leaves(w, p)
    ensures var op := Put(BaseSlot(p.a, k), w.accounts[p.a].slots[k]);
            Reached(w, m.(walkers := map[p := Walker([], next)], buf := m.buf + [op]))
  {
    hide Reached;
    ReachedNext(w, m, Send(p));
    assert [k][1..] == [];
    assert Next(w, m, Send(p)).walkers == map[p := Walker([], next)];
  }

  /** The warmup has written its one slot, just before the first sub-range. */
  lemma WarmupWalked(w: World, a: Hash, warm: Hash) returns (m: Machine)
    requires OneAccount(w, a) && warm in w.accounts[a].slots
    requires forall s :: s in w.accounts[a].slots && Val(s) <= Val(warm) ==> s == warm
    requires Val(warm) == Hi(w, Warmup(a)) && Val(warm) + 1 < Top()
    ensures Reached(w, m) && m.phase == Storage && m.walkers == map[] && m.disk.kv == AccountRows(w, a)
    ensures m.buf == [Put(BaseSlot(a, warm), w.accounts[a].slots[warm])]
    ensures Warmup(a) in m.finished && forall j :: Sub(a, j) !in m.finished
  {
    hide Reached, EncodeAccount, Top, Val, Hi, Reproducible;
    var m1 := StorageReached(w, a);
    var p, cut := Warmup(a), Val(warm) + 1;
    BelowTop(warm);
    CutOne(warm, End(w, p));
    assert Received(Page([warm], true), End(w, p)) == Some(Walker([warm], Some(cut)));
    assert Reproducible(w, p, Walker([warm], Some(cut))) by { WarmupStops(w, p, warm); }
    WarmupPage(w, a, warm);
    PartFetched(w, m1, p, Page([warm], true));
    var m2 := m1.(walkers := map[p := Walker([warm], Some(cut))]);
    SlotSent(w, m2, p, warm, Some(cut));
    var op := Put(BaseSlot(a, warm), w.accounts[a].slots[warm]);
    var m3 := m2.(walkers := map[p := Walker([], Some(cut))], buf := [] + [op]);
    ReachedNext(w, m3, Finish(p));
    m := Next(w, m3, Finish(p));
    assert m.walkers == map[];
  }

  lemma WarmupStops(w: World, p: Part, warm: Hash)
    requires p.Warmup? && Val(warm) == Hi(w, p)
    ensures Reproducible(w, p, Walker([warm], Some(Val(warm) + 1)))
  {
    hide Val, Hi;
  }

  lemma WarmupPage(w: World, a: Hash, warm: Hash)
    requires a in w.accounts && warm in w.accounts[a].slots
    requires forall s :: s in w.accounts[a].slots && Val(s) <= Val(warm) ==> s == warm
    ensures Legal(Leaves(w, Warmup(a)), Lo(w, Warmup(a)), Page([warm], true))
  {
    hide Val;
  }

  lemma SubPage(w: World, a: Hash, j: nat, last: Hash)
    requires a in w.accounts && last in w.accounts[a].slots && Within(w, Sub(a, j), last)
    requires forall s :: s in w.accounts[a].slots && Lo(w, Sub(a, j)) <= Val(s) ==> s == last
    ensures Legal(Leaves(w, Sub(a, j)), Lo(w, Sub(a, j)), Page([last], false))
    ensures Received(Page([last], false), End(w, Sub(a, j))) == Some(Walker([last], None))
  {
    hide Val, Lo, Hi;
    CutOne(last, End(w, Sub(a, j)));
  }

  /**
   The warmup ends with the slot before the first sub-range, then one sub-range is
   walked; of the slots between, none has been written.
   */
  lemma SubRangeFirst(w: World, a: Hash, j: nat, warm: Hash, last: Hash) returns (m: Machine)
    requires OneAccount(w, a) && PartOf(w, Sub(a, j))
    requires warm in w.accounts[a].slots && last in w.accounts[a].slots
    requires forall s :: s in w.accounts[a].slots && Val(s) <= Val(warm) ==> s == warm
    requires forall s :: s in w.accounts[a].slots && Lo(w, Sub(a, j)) <= Val(s) ==> s == last
    requires Val(warm) == Hi(w, Warmup(a)) && Val(warm) < Lo(w, Sub(a, j)) && Within(w, Sub(a, j), last)
    ensures Reached(w, m)
    ensures forall s: Hash :: BaseSlot(a, s) in m.disk.kv <==> s == warm || s == last
  {
    hide Reached, EncodeAccount, Val, Lo, Hi, Legal, Received, ApplyAll;
    var x, y := Put(BaseSlot(a, warm), w.accounts[a].slots[warm]), Put(BaseSlot(a, last), w.accounts[a].slots[last]);
    GapAbove(w, j, a, last, warm);
    var m1 := WarmupWalked(w, a, warm);
    var q := Sub(a, j);
    SubPage(w, a, j, last);
    PartFetched(w, m1, q, Page([last], false));
    var m2 := m1.(walkers := map[q := Walker([last], None)]);
    SlotSent(w, m2, q, last, None);
    var m3 := m2.(walkers := map[q := Walker([], None)], buf := m2.buf + [y]);
    ReachedNext(w, m3, Commit(2));
    m := Next(w, m3, Commit(2));
    assert m3.buf[..2] == [x] + [y];
    TwoApplied(m1.disk, x, y);
  }

  /** The key after the warmup is still a key. */
  lemma GapAbove(w: World, j: nat, a: Hash, last: Hash, warm: Hash)
    requires Val(warm) < Lo(w, Sub(a, j)) && Within(w, Sub(a, j), last)
    ensures Val(warm) + 1 < Top()
  {
    hide Val, Pow256;
    BelowTop(last);
  }

  lemma TwoApplied(d: Disk, x: Op, y: Op)
    ensures ApplyAll(d, [x] + [y]) == Apply(Apply(d, x), y)
  {
    hide Apply;
    ApplyOne(d, [], x);
    ApplyOne(d, [x], y);
    assert [] + [x] == [x];
  }
}
