/**
 Every run of the loader, with crashes at any point, keeps the disk sound; once
 the completion mark is set, every leaf has its row.
 */
module LoaderSafety {
  import opened Bytes
  import opened Schema
  import opened Keys
  import opened Collections
  import Capture
  import Store
  import opened Loader

  // ----- applying operations -----

  lemma {:induction false} ApplySplit(d: Disk, a: seq<Op>, b: seq<Op>)
    ensures ApplyAll(d, a + b) == ApplyAll(ApplyAll(d, a), b)
    decreases |b|
  {
    if b == [] {
      assert a + b == a;
    } else {
      ApplySplit(d, a, b[..|b| - 1]);
      assert (a + b)[..|a + b| - 1] == a + b[..|b| - 1];
    }
  }

  lemma ApplyOne(d: Disk, a: seq<Op>, op: Op)
    ensures ApplyAll(d, a + [op]) == Apply(ApplyAll(d, a), op)
  {
    assert (a + [op])[..|a|] == a;
  }

  /** No baseline or code row is lost. */
  ghost predicate Grows(kv: KV, kv': KV) {
    forall k: Key :: k in kv && !k.Queue? ==> k in kv'
  }

  lemma {:induction false} ApplyGrows(d: Disk, ops: seq<Op>)
    requires forall op :: op in ops ==> Sane(op)
    ensures Grows(d.kv, ApplyAll(d, ops).kv) && d.done <= ApplyAll(d, ops).done
    decreases |ops|
  {
    if ops != [] {
      var front, last := ops[..|ops| - 1], ops[|ops| - 1];
      assert last in ops && forall op :: op in front ==> op in ops;
      ApplyGrows(d, front);
    }
  }

  lemma CoveredGrows(w: World, kv: KV, kv': KV, p: Part)
    requires Grows(kv, kv') && Covered(w, kv, p)
    ensures Covered(w, kv', p)
  {
    hide In;
    forall k: Hash | In(w, p, k) ensures Has(kv', p, k) {
      assert Has(kv, p, k);
    }
  }

  lemma WalkerGrows(w: World, kv: KV, kv': KV, p: Part, wk: Walker)
    requires Grows(kv, kv') && WalkerOk(w, kv, p, wk)
    ensures WalkerOk(w, kv', p, wk)
  {
    hide In, Lo, Val, Ascending;
    forall k: Hash | In(w, p, k)
      ensures Has(kv', p, k) || k in wk.todo || (wk.next.Some? && wk.next.value <= Val(k))
    {
      if Has(kv, p, k) {
        assert Has(kv', p, k);
      }
    }
  }

  // ----- ranges do not overlap -----

  lemma SegmentsDisjoint(w: World, i: nat, j: nat, k: Hash)
    requires Within(w, Segment(i), k) && Within(w, Segment(j), k)
    ensures i == j
  {
    hide Val, Pow256;
    var x := Pow256(31);
    if i < j {
      MulMono(i + 1, j, x);
      assert false;
    } else if j < i {
      MulMono(j + 1, i, x);
      assert false;
    }
  }

  lemma InSub(w: World, a: Hash, j: nat, k: Hash)
    requires WorldOk(w) && PartOf(w, Sub(a, j))
    ensures Within(w, Sub(a, j), k) <==> InRange(k, w.giants[a][j])
  {
    BelowTop(k);
  }

  lemma SubsDisjoint(w: World, a: Hash, i: nat, j: nat, k: Hash)
    requires WorldOk(w) && PartOf(w, Sub(a, i)) && PartOf(w, Sub(a, j))
    requires Within(w, Sub(a, i), k) && Within(w, Sub(a, j), k)
    ensures i == j
  {
    hide Val, Pow256, Within;
    var rs := w.giants[a];
    InSub(w, a, i, k);
    InSub(w, a, j, k);
    if i < j {
      LaterStartsHigher(rs[0].lo, rs, i, j);
      assert false;
    } else if j < i {
      LaterStartsHigher(rs[0].lo, rs, j, i);
      assert false;
    }
  }

  lemma WarmupBelowSubs(w: World, a: Hash, j: nat, k: Hash)
    requires WorldOk(w) && PartOf(w, Sub(a, j))
    ensures !(Within(w, Warmup(a), k) && Within(w, Sub(a, j), k))
  {
    hide Val, Pow256;
    var rs := w.giants[a];
    if j > 0 {
      LaterStartsHigher(rs[0].lo, rs, 0, j);
    }
  }

  /** The warmup and the sub-ranges together hold every slot of the trie. */
  lemma PartsHoldSlot(w: World, kv: KV, a: Hash, s: Hash)
    requires WorldOk(w) && a in w.accounts && s in w.accounts[a].slots
    requires Covered(w, kv, Warmup(a))
    requires a in w.giants ==> forall j :: 0 <= j < |w.giants[a]| ==> Covered(w, kv, Sub(a, j))
    ensures BaseSlot(a, s) in kv
  {
    hide Val, Pow256, Contiguous, Covered;
    BelowTop(s);
    if a !in w.giants || Val(s) < Val(w.giants[a][0].lo) {
      assert In(w, Warmup(a), s);
      UseCovered(w, kv, Warmup(a), s);
    } else {
      RangesPartition(w.giants[a][0].lo, w.giants[a], s);
      var j :| 0 <= j < |w.giants[a]| && InRange(s, w.giants[a][j]);
      InSub(w, a, j, s);
      UseCovered(w, kv, Sub(a, j), s);
    }
  }

  lemma UseCovered(w: World, kv: KV, p: Part, k: Hash)
    requires Covered(w, kv, p) && In(w, p, k)
    ensures Has(kv, p, k)
  {
  }

  // ----- each operation keeps the disk sound -----

  /** Before the row of k is written, every earlier leaf of the part has its row. */
  ghost predicate Below(w: World, kv: KV, p: Part, k: Hash) {
    forall j: Hash :: In(w, p, j) && Val(j) < Val(k) ==> Has(kv, p, j)
  }

  lemma ClosedAfterPut(w: World, kv: KV, p: Part, q: Part, k: Hash, v: bytes)
    requires Closed(w, kv, q)
    requires RowKey(q, k) == RowKey(p, k) && In(w, q, k) ==> Below(w, kv, q, k)
    ensures Closed(w, kv[RowKey(p, k) := v], q)
  {
    hide In, Val;
    var kv' := kv[RowKey(p, k) := v];
    forall i: Hash, j: Hash | In(w, q, i) && In(w, q, j) && Val(i) < Val(j) && Has(kv', q, j) ensures Has(kv', q, i) {
      if Has(kv, q, j) {
        assert Has(kv, q, i);
      } else {
        assert RowKey(q, j) == RowKey(p, k);
        assert j == k;
        assert Has(kv, q, i);
      }
    }
  }

  lemma AllClosedAfterPut(w: World, kv: KV, p: Part, k: Hash, v: bytes)
    requires WorldOk(w) && AllClosed(w, kv) && PartOf(w, p) && In(w, p, k) && Below(w, kv, p, k)
    ensures AllClosed(w, kv[RowKey(p, k) := v])
  {
    hide Val, Within, Leaves, WorldOk, Closed, Below;
    forall q | PartOf(w, q) ensures Closed(w, kv[RowKey(p, k) := v], q) {
      if RowKey(q, k) == RowKey(p, k) && In(w, q, k) {
        SamePart(w, p, q, k);
      }
      ClosedAfterPut(w, kv, p, q, k, v);
    }
  }

  /** A leaf lies in one part of its trie only. */
  lemma SamePart(w: World, p: Part, q: Part, k: Hash)
    requires WorldOk(w) && PartOf(w, p) && PartOf(w, q) && RowKey(q, k) == RowKey(p, k)
    requires Within(w, p, k) && Within(w, q, k)
    ensures p == q
  {
    hide Val, Within, WorldOk;
    if p.Segment? {
      SegmentsDisjoint(w, p.i, q.i, k);
    } else if p.Sub? && q.Sub? {
      SubsDisjoint(w, p.a, p.j, q.j, k);
    } else if p.Sub? {
      WarmupBelowSubs(w, p.a, p.j, k);
    } else if q.Sub? {
      WarmupBelowSubs(w, p.a, q.j, k);
    }
  }

  lemma ClosedElsewhere(w: World, kv: KV, kv': KV)
    requires AllClosed(w, kv)
    requires forall k: Key :: k.BaseAccount? || k.BaseSlot? ==> (k in kv <==> k in kv')
    ensures AllClosed(w, kv')
  {
    hide In, Val, PartOf;
    forall q | PartOf(w, q) ensures Closed(w, kv', q) {
      assert Closed(w, kv, q);
      forall i: Hash, j: Hash | In(w, q, i) && In(w, q, j) && Val(i) < Val(j) && Has(kv', q, j) ensures Has(kv', q, i) {
        assert Has(kv, q, j);
        assert Has(kv, q, i);
      }
    }
  }

  lemma WarmupFirstElsewhere(w: World, kv: KV, kv': KV)
    requires WarmupFirst(w, kv) && Grows(kv, kv')
    requires forall k: Key :: k.BaseSlot? ==> (k in kv <==> k in kv')
    ensures WarmupFirst(w, kv')
  {
    hide Within, PartOf, Covered;
    forall p, s: Hash | PartOf(w, p) && p.Sub? && Within(w, p, s) && Has(kv', p, s)
      ensures Covered(w, kv', Warmup(p.a))
    {
      assert Has(kv, p, s);
      CoveredGrows(w, kv, kv', Warmup(p.a));
    }
  }

  lemma WarmupFirstAfterPut(w: World, kv: KV, p: Part, k: Hash, v: bytes)
    requires WorldOk(w) && WarmupFirst(w, kv) && PartOf(w, p) && !p.Segment? && Within(w, p, k)
    requires p.Sub? ==> Covered(w, kv, Warmup(p.a))
    ensures WarmupFirst(w, kv[RowKey(p, k) := v])
  {
    hide Within, PartOf, Covered, WorldOk;
    var kv' := kv[RowKey(p, k) := v];
    forall q, s: Hash | PartOf(w, q) && q.Sub? && Within(w, q, s) && Has(kv', q, s)
      ensures Covered(w, kv', Warmup(q.a))
    {
      if !Has(kv, q, s) {
        assert RowKey(q, s) == RowKey(p, k) && s == k;
        SamePart(w, p, q, k);
      }
      CoveredGrows(w, kv, kv', Warmup(q.a));
    }
  }

  lemma FullGrows(w: World, kv: KV, kv': KV)
    requires Grows(kv, kv') && Full(w, kv)
    ensures Full(w, kv')
  {
    forall a: Hash | a in w.accounts ensures BaseAccount(a) in kv' && SlotsFull(w, kv', a) {
      assert BaseAccount(a) in kv && SlotsFull(w, kv, a);
    }
  }

  lemma QueueStays(w: World, kv: KV, kv': KV)
    requires QueueOk(w, kv) && Grows(kv, kv')
    requires forall a: Hash :: Queue(a) in kv ==> Queue(a) in kv'
    requires forall a: Hash :: BaseAccount(a) in kv' ==>
        BaseAccount(a) in kv || Queue(a) in kv' || (a in w.accounts ==> SlotsFull(w, kv', a))
    ensures QueueOk(w, kv')
  {
    forall a: Hash | a in w.accounts && BaseAccount(a) in kv' && Queue(a) !in kv' ensures SlotsFull(w, kv', a) {
      if BaseAccount(a) in kv {
        assert SlotsFull(w, kv, a);
      }
    }
  }

  lemma DoneGrows(w: World, d: Disk, d': Disk)
    requires Grows(d.kv, d'.kv) && d.done == d'.done
    requires forall i :: i in d.done && i < 256 ==> Covered(w, d.kv, Segment(i))
    ensures forall i :: i in d'.done && i < 256 ==> Covered(w, d'.kv, Segment(i))
  {
    forall i | i in d'.done && i < 256 ensures Covered(w, d'.kv, Segment(i)) {
      CoveredGrows(w, d.kv, d'.kv, Segment(i));
    }
  }

  lemma PutCodeKeeps(w: World, d: Disk, h: Hash, v: bytes)
    requires DiskOk(w, d) && (h in w.codes ==> v == w.codes[h])
    ensures DiskOk(w, Apply(d, Put(Code(h), v)))
  {
    hide Closed, Covered, EncodeAccount, In, PartOf, AllClosed, Full, QueueOk, WarmupFirst;
    var d' := Apply(d, Put(Code(h), v));
    ClosedElsewhere(w, d.kv, d'.kv);
    WarmupFirstElsewhere(w, d.kv, d'.kv);
    DoneGrows(w, d, d');
    QueueStays(w, d.kv, d'.kv);
    if MetaBaselineComplete in d'.kv {
      FullGrows(w, d.kv, d'.kv);
    }
  }

  lemma PutQueueKeeps(w: World, d: Disk, a: Hash)
    requires DiskOk(w, d) && a in w.accounts && HasStorage(w, w.accounts[a])
    ensures DiskOk(w, Apply(d, Put(Queue(a), w.accounts[a].root)))
  {
    hide Closed, Covered, EncodeAccount, In, PartOf, AllClosed, Full, QueueOk, WarmupFirst;
    var d' := Apply(d, Put(Queue(a), w.accounts[a].root));
    ClosedElsewhere(w, d.kv, d'.kv);
    WarmupFirstElsewhere(w, d.kv, d'.kv);
    DoneGrows(w, d, d');
    QueueStays(w, d.kv, d'.kv);
    if MetaBaselineComplete in d'.kv {
      FullGrows(w, d.kv, d'.kv);
    }
  }

  lemma TrueAccountRow(w: World, kv: KV, a: Hash)
    requires TrueRows(w, kv) && a in w.accounts
    ensures TrueRows(w, kv[BaseAccount(a) := EncodeAccount(w.accounts[a].account)])
  {
    hide EncodeAccount;
  }

  lemma TrueSlotRow(w: World, kv: KV, a: Hash, s: Hash)
    requires TrueRows(w, kv) && a in w.accounts && s in w.accounts[a].slots
    ensures TrueRows(w, kv[BaseSlot(a, s) := w.accounts[a].slots[s]])
  {
    hide EncodeAccount;
  }

  /** An account row goes in only after its queue row, and in key order within its segment. */
  lemma PutAccountKeeps(w: World, d: Disk, p: Part, a: Hash)
    requires WorldOk(w) && DiskOk(w, d) && PartOf(w, p) && p.Segment? && In(w, p, a)
    requires Below(w, d.kv, p, a)
    requires HasStorage(w, w.accounts[a]) ==> Queue(a) in d.kv
    ensures DiskOk(w, Apply(d, Put(BaseAccount(a), EncodeAccount(w.accounts[a].account))))
  {
    hide Closed, Covered, EncodeAccount, Within, PartOf, AllClosed, Full, QueueOk, Below, WarmupFirst, TrueRows;
    var v := EncodeAccount(w.accounts[a].account);
    TrueAccountRow(w, d.kv, a);
    var d' := Apply(d, Put(BaseAccount(a), v));
    AllClosedAfterPut(w, d.kv, p, a, v);
    WarmupFirstElsewhere(w, d.kv, d'.kv);
    DoneGrows(w, d, d');
    QueueStays(w, d.kv, d'.kv);
    if MetaBaselineComplete in d'.kv {
      FullGrows(w, d.kv, d'.kv);
    }
  }

  lemma PutSlotKeeps(w: World, d: Disk, p: Part, s: Hash)
    requires WorldOk(w) && DiskOk(w, d) && PartOf(w, p) && !p.Segment? && In(w, p, s)
    requires Below(w, d.kv, p, s) && (p.Sub? ==> Covered(w, d.kv, Warmup(p.a)))
    ensures DiskOk(w, Apply(d, Put(BaseSlot(p.a, s), w.accounts[p.a].slots[s])))
  {
    hide Closed, Covered, EncodeAccount, Within, AllClosed, Full, QueueOk, Below, WorldOk, WarmupFirst, TrueRows;
    var v := w.accounts[p.a].slots[s];
    TrueSlotRow(w, d.kv, p.a, s);
    var d' := Apply(d, Put(BaseSlot(p.a, s), v));
    AllClosedAfterPut(w, d.kv, p, s, v);
    WarmupFirstAfterPut(w, d.kv, p, s, v);
    DoneGrows(w, d, d');
    QueueStays(w, d.kv, d'.kv);
    if MetaBaselineComplete in d'.kv {
      FullGrows(w, d.kv, d'.kv);
    }
  }

  /** A queue row is deleted only once the trie is complete. */
  lemma DelQueueKeeps(w: World, d: Disk, a: Hash)
    requires DiskOk(w, d) && a in w.accounts && SlotsFull(w, d.kv, a)
    ensures DiskOk(w, Apply(d, Del(Queue(a))))
  {
    hide Closed, Covered, EncodeAccount, In, PartOf, AllClosed, Full, WarmupFirst;
    var d' := Apply(d, Del(Queue(a)));
    ClosedElsewhere(w, d.kv, d'.kv);
    WarmupFirstElsewhere(w, d.kv, d'.kv);
    DoneGrows(w, d, d');
    forall b: Hash | b in w.accounts && BaseAccount(b) in d'.kv && Queue(b) !in d'.kv ensures SlotsFull(w, d'.kv, b) {
      assert b != a ==> Queue(b) !in d.kv;
      assert SlotsFull(w, d.kv, b);
    }
    if MetaBaselineComplete in d'.kv {
      FullGrows(w, d.kv, d'.kv);
    }
  }

  lemma MarkKeeps(w: World, d: Disk, i: nat)
    requires DiskOk(w, d) && Covered(w, d.kv, Segment(i))
    ensures DiskOk(w, Apply(d, Mark(i)))
  {
    hide Closed, Covered, TrueRows, QueueOk, AllClosed, Full, WarmupFirst;
  }

  // ----- appending to the buffer -----

  lemma PrefixesAppend(w: World, d: Disk, buf: seq<Op>, op: Op)
    requires PrefixesOk(w, d, buf) && DiskOk(w, Apply(ApplyAll(d, buf), op))
    ensures PrefixesOk(w, d, buf + [op])
  {
    hide DiskOk, Apply, ApplyAll;
    forall n | 0 <= n <= |buf + [op]| ensures DiskOk(w, ApplyAll(d, (buf + [op])[..n])) {
      if n <= |buf| {
        assert (buf + [op])[..n] == buf[..n];
      } else {
        assert (buf + [op])[..n] == buf + [op];
        ApplyOne(d, buf, op);
      }
    }
  }

  lemma WrittenOk(w: World, m: Machine)
    requires Inv(w, m)
    ensures DiskOk(w, m.Written()) && DiskOk(w, m.disk) && Grows(m.disk.kv, m.Written().kv)
    ensures m.disk.done <= m.Written().done
  {
    hide DiskOk, Covered, WalkerOk, Apply;
    assert m.buf[..|m.buf|] == m.buf;
    assert m.buf[..0] == [];
    assert DiskOk(w, ApplyAll(m.disk, m.buf[..0]));
    assert DiskOk(w, ApplyAll(m.disk, m.buf[..|m.buf|]));
    ApplyGrows(m.disk, m.buf);
  }

  /** Writing one more sound operation leaves every worker's knowledge valid. */
  lemma Emit(w: World, m: Machine, op: Op)
    requires Inv(w, m) && Sane(op) && DiskOk(w, Apply(m.Written(), op))
    ensures Inv(w, m.(buf := m.buf + [op]))
    ensures m.(buf := m.buf + [op]).Written() == Apply(m.Written(), op)
  {
    hide DiskOk, ApplyAll, PrefixesOk;
    var m' := m.(buf := m.buf + [op]);
    ApplyOne(m.disk, m.buf, op);
    var kv, kv' := m.Written().kv, m'.Written().kv;
    assert Grows(kv, kv');
    PrefixesAppend(w, m.disk, m.buf, op);
    GrowsKeeps(w, m, m');
  }

  lemma GrowsKeeps(w: World, m: Machine, m': Machine)
    requires Inv(w, m) && Grows(m.Written().kv, m'.Written().kv)
    requires m'.phase == m.phase && m'.walkers == m.walkers && m'.finished == m.finished
    requires PrefixesOk(w, m'.disk, m'.buf) && forall op :: op in m'.buf ==> Sane(op)
    ensures Inv(w, m')
  {
    hide ApplyAll, PrefixesOk, Covered, WalkerOk, Grows;
    var kv, kv' := m.Written().kv, m'.Written().kv;
    forall p | p in m'.walkers ensures PartOf(w, p) && WalkerOk(w, kv', p, m'.walkers[p]) {
      WalkerGrows(w, kv, kv', p, m.walkers[p]);
    }
    forall p | p in m'.finished ensures PartOf(w, p) && Covered(w, kv', p) {
      CoveredGrows(w, kv, kv', p);
    }
    if m.phase == Storage || m.phase == Swept {
      forall i | 0 <= i < 256 ensures Covered(w, kv', Segment(i)) {
        CoveredGrows(w, kv, kv', Segment(i));
      }
    }
    if m.phase == Swept {
      CodesGrow(w, kv, kv');
    }
  }

  lemma CodesGrow(w: World, kv: KV, kv': KV)
    requires Grows(kv, kv') && CodesFull(w, kv)
    ensures CodesFull(w, kv')
  {
  }

  // ----- one worker's step -----

  lemma {:induction false} CutKeeps(keys: seq<Hash>, end: int)
    requires Ascending(keys)
    ensures forall k :: k in keys ==> (k in Cut(keys, end) <==> Val(k) <= end)
    decreases |keys|
  {
    hide Val;
    if keys != [] && Val(keys[|keys| - 1]) > end {
      var front := keys[..|keys| - 1];
      CutKeeps(front, end);
      forall k | k in keys ensures k in Cut(keys, end) <==> Val(k) <= end {
        if k !in front {
          assert k == keys[|keys| - 1];
        }
      }
    } else {
      forall k | k in keys ensures Val(k) <= end {
        var i :| 0 <= i < |keys| && keys[i] == k;
      }
    }
  }

  lemma CutPrefix(keys: seq<Hash>, end: int)
    requires Ascending(keys)
    ensures Ascending(Cut(keys, end)) && forall k :: k in Cut(keys, end) ==> k in keys
  {
  }

  /** A cut response means the walk has passed the end of its range. */
  lemma CutPasses(keys: seq<Hash>, end: int)
    requires Ascending(keys) && |Cut(keys, end)| < |keys|
    ensures Val(keys[|keys| - 1]) > end
  {
  }

  lemma EndOfPart(w: World, p: Part)
    ensures !(p.Warmup? && p.a in w.giants) ==> End(w, p) == Hi(w, p)
  {
  }

  lemma ReceivedInRange(w: World, p: Part, start: nat, page: Page)
    requires Lo(w, p) <= start && Legal(Leaves(w, p), start, page)
    requires Received(page, End(w, p)).Some? && Reproducible(w, p, Received(page, End(w, p)).value)
    ensures var wk := Received(page, End(w, p)).value;
            && Ascending(wk.todo)
            && (forall k :: k in wk.todo ==> In(w, p, k))
            && (wk.next.Some? ==> Lo(w, p) <= wk.next.value && forall k :: k in wk.todo ==> Val(k) < wk.next.value)
  {
    hide Val, Lo, Hi, End, Leaves, Ascending, Top, Cut;
    var end := End(w, p);
    EndOfPart(w, p);
    CutKeeps(page.keys, end);
    CutPrefix(page.keys, end);
    if page.keys != [] {
      LastIsGreatest(page.keys);
    }
  }

  /** Where the walk stands once a legal response has been taken in. */
  lemma ReceivedOk(w: World, kv: KV, p: Part, start: nat, page: Page)
    requires WalkerOk(w, kv, p, Walker([], Some(start)))
    requires Legal(Leaves(w, p), start, page)
    requires Received(page, End(w, p)).Some? && Reproducible(w, p, Received(page, End(w, p)).value)
    ensures WalkerOk(w, kv, p, Received(page, End(w, p)).value)
  {
    hide Val, Lo, Hi, End, Leaves, Ascending, Top, Cut;
    var end := End(w, p);
    var wk := Received(page, end).value;
    EndOfPart(w, p);
    ReceivedInRange(w, p, start, page);
    forall k: Hash | In(w, p, k)
      ensures Has(kv, p, k) || k in wk.todo || (wk.next.Some? && wk.next.value <= Val(k))
    {
      BelowTop(k);
      if page.keys != [] {
        LastIsGreatest(page.keys);
        CutKeeps(page.keys, end);
        if |Cut(page.keys, end)| < |page.keys| {
          CutPasses(page.keys, end);
        }
      }
    }
  }

  lemma LastIsGreatest(keys: seq<Hash>)
    requires Ascending(keys) && keys != []
    ensures keys[|keys| - 1] in keys && forall k :: k in keys ==> Val(k) <= Val(keys[|keys| - 1])
  {
    hide Val;
  }

  lemma FirstIsLeast(keys: seq<Hash>, k: Hash)
    requires Ascending(keys) && keys != []
    ensures k in keys ==> Val(keys[0]) <= Val(k)
  {
    hide Val;
  }

  /** The next leaf to send is the least one without a row. */
  lemma SendIsNext(w: World, kv: KV, p: Part, wk: Walker)
    requires WalkerOk(w, kv, p, wk) && wk.todo != []
    ensures In(w, p, wk.todo[0]) && Below(w, kv, p, wk.todo[0])
  {
    hide Val, In, Lo;
    assert wk.todo[0] in wk.todo;
    forall j: Hash | In(w, p, j) && Val(j) < Val(wk.todo[0]) ensures Has(kv, p, j) {
      FirstIsLeast(wk.todo, j);
    }
  }

  lemma SentOk(w: World, kv: KV, p: Part, wk: Walker)
    requires WalkerOk(w, kv, p, wk) && wk.todo != [] && Has(kv, p, wk.todo[0])
    ensures WalkerOk(w, kv, p, wk.(todo := wk.todo[1..]))
  {
    hide Val, In, Lo;
    assert wk.todo == [wk.todo[0]] + wk.todo[1..];
  }

  lemma ExhaustedCovers(w: World, kv: KV, p: Part, wk: Walker)
    requires WalkerOk(w, kv, p, wk) && Exhausted(w, p, wk)
    ensures Covered(w, kv, p)
  {
    hide Val, Lo, Hi, Leaves;
  }

  /** Starting after the committed watermark skips nothing. */
  lemma ResumeOk(w: World, d: Disk, p: Part, wm: Option<Hash>)
    requires DiskOk(w, d) && PartOf(w, p) && (!p.Warmup? ==> IsWatermark(w, d.kv, p, wm))
    ensures WalkerOk(w, d.kv, p, Resume(w, p, wm))
  {
    hide Val, Lo, Hi, EncodeAccount, QueueOk, Covered, Full, Top;
    var wk := Resume(w, p, wm);
    if !p.Warmup? && wm.Some? {
      var h := wm.value;
      BelowTop(h);
      assert Closed(w, d.kv, p);
      assert In(w, p, h);
      forall k: Hash | In(w, p, k) && Val(k) <= Val(h) ensures Has(d.kv, p, k) {
        if Val(k) == Val(h) {
          SameValue(k, h);
        }
      }
    }
    forall k: Hash | In(w, p, k) ensures Has(d.kv, p, k) || (wk.next.Some? && wk.next.value <= Val(k)) {
      BelowTop(k);
    }
  }

  /**
   Nothing committed is fetched again, except by a segment whose watermark is the
   last key of all: that one starts over.
   */
  lemma ResumeSkipsCommitted(w: World, d: Disk, p: Part, wm: Option<Hash>, k: Hash)
    requires PartOf(w, p) && !p.Warmup? && IsWatermark(w, d.kv, p, wm) && Within(w, p, k) && Has(d.kv, p, k)
    ensures var next := Resume(w, p, wm).next;
            next.Some? && next.value <= Val(k) ==> p.Segment? && Val(wm.value) + 1 == Top()
  {
    hide Val, Lo, Hi, Top;
    BelowTop(wm.value);
  }

  // ----- every event keeps the invariant -----

  lemma StartKeeps(w: World, m: Machine, p: Part, wm: Option<Hash>)
    requires Inv(w, m) && Allowed(w, m, Start(p, wm))
    ensures Inv(w, Next(w, m, Start(p, wm)))
  {
    hide DiskOk, WalkerOk, Covered, PrefixesOk, ApplyAll, Resume, CodesFull, Grows, IsWatermark, PartOf, Sane;
    WrittenOk(w, m);
    ResumeOk(w, m.disk, p, wm);
    WalkerGrows(w, m.disk.kv, m.Written().kv, p, Resume(w, p, wm));
  }

  lemma FetchKeeps(w: World, m: Machine, p: Part, page: Page)
    requires Inv(w, m) && Allowed(w, m, Fetch(p, page))
    ensures Inv(w, Next(w, m, Fetch(p, page)))
  {
    hide WalkerOk, Covered, PrefixesOk, ApplyAll, Received, Reproducible, Legal, CodesFull;
    var wk := m.walkers[p];
    assert wk == Walker([], Some(wk.next.value));
    ReceivedOk(w, m.Written().kv, p, wk.next.value, page);
  }

  lemma SendKeeps(w: World, m: Machine, p: Part)
    requires WorldOk(w) && Inv(w, m) && Allowed(w, m, Send(p))
    ensures Inv(w, Next(w, m, Send(p)))
  {
    hide WorldOk, DiskOk, WalkerOk, Covered, PrefixesOk, ApplyAll, Below, In, PartOf, EncodeAccount, CodesFull, Grows;
    var wk := m.walkers[p];
    var k := wk.todo[0];
    WrittenOk(w, m);
    SendIsNext(w, m.Written().kv, p, wk);
    var m1 := m.(buf := m.buf + Bundle(w, p, k));
    if p.Segment? {
      SendAccount(w, m, p, k);
    } else {
      SendSlot(w, m, p, k);
    }
    assert WalkerOk(w, m1.Written().kv, p, wk);
    SentOk(w, m1.Written().kv, p, wk);
  }

  lemma SendSlot(w: World, m: Machine, p: Part, k: Hash)
    requires WorldOk(w) && Inv(w, m) && PartOf(w, p) && !p.Segment? && In(w, p, k)
    requires Below(w, m.Written().kv, p, k) && (p.Sub? ==> Covered(w, m.Written().kv, Warmup(p.a)))
    ensures Inv(w, m.(buf := m.buf + Bundle(w, p, k)))
    ensures Has(m.(buf := m.buf + Bundle(w, p, k)).Written().kv, p, k)
  {
    hide WorldOk, DiskOk, WalkerOk, Covered, PrefixesOk, ApplyAll, Below, Within, CodesFull, Inv;
    WrittenOk(w, m);
    PutSlotKeeps(w, m.Written(), p, k);
    Emit(w, m, Put(BaseSlot(p.a, k), w.accounts[p.a].slots[k]));
  }

  /** The queue row goes first: at no committed prefix is an account row without it. */
  lemma SendAccount(w: World, m: Machine, p: Part, k: Hash)
    requires WorldOk(w) && Inv(w, m) && PartOf(w, p) && p.Segment? && In(w, p, k)
    requires Below(w, m.Written().kv, p, k)
    ensures Inv(w, m.(buf := m.buf + Bundle(w, p, k)))
    ensures Has(m.(buf := m.buf + Bundle(w, p, k)).Written().kv, p, k)
  {
    hide WorldOk, DiskOk, WalkerOk, Covered, PrefixesOk, ApplyAll, Below, Within, CodesFull, Inv, EncodeAccount;
    var leaf := w.accounts[k];
    var op := Put(BaseAccount(k), EncodeAccount(leaf.account));
    WrittenOk(w, m);
    if HasStorage(w, leaf) {
      var q := Put(Queue(k), leaf.root);
      PutQueueKeeps(w, m.Written(), k);
      Emit(w, m, q);
      var m1 := m.(buf := m.buf + [q]);
      BelowIgnoresQueue(w, m.Written().kv, p, k, leaf.root);
      WrittenOk(w, m1);
      PutAccountKeeps(w, m1.Written(), p, k);
      Emit(w, m1, op);
      assert m.buf + ([q] + [op]) == m.buf + [q] + [op];
    } else {
      PutAccountKeeps(w, m.Written(), p, k);
      Emit(w, m, op);
      assert [] + [op] == [op];
    }
  }

  lemma BelowIgnoresQueue(w: World, kv: KV, p: Part, k: Hash, root: Hash)
    requires Below(w, kv, p, k)
    ensures Below(w, kv[Queue(k) := root], p, k)
  {
    hide In, Val;
    forall j: Hash | In(w, p, j) && Val(j) < Val(k) ensures Has(kv[Queue(k) := root], p, j) {
      assert Has(kv, p, j);
    }
  }

  lemma FinishKeeps(w: World, m: Machine, p: Part)
    requires Inv(w, m) && Allowed(w, m, Finish(p))
    ensures Inv(w, Next(w, m, Finish(p)))
  {
    hide DiskOk, WalkerOk, Covered, PrefixesOk, ApplyAll, Exhausted, CodesFull, Grows;
    WrittenOk(w, m);
    ExhaustedCovers(w, m.Written().kv, p, m.walkers[p]);
    if p.Segment? {
      MarkKeeps(w, m.Written(), p.i);
      Emit(w, m, Mark(p.i));
    }
  }

  lemma DequeueKeeps(w: World, m: Machine, a: Hash)
    requires WorldOk(w) && Inv(w, m) && Allowed(w, m, Dequeue(a))
    ensures Inv(w, Next(w, m, Dequeue(a)))
  {
    hide WorldOk, DiskOk, WalkerOk, Covered, PrefixesOk, ApplyAll, CodesFull, Grows;
    WrittenOk(w, m);
    forall s: Hash | s in w.accounts[a].slots ensures BaseSlot(a, s) in m.Written().kv {
      PartsHoldSlot(w, m.Written().kv, a, s);
    }
    DelQueueKeeps(w, m.Written(), a);
    Emit(w, m, Del(Queue(a)));
  }

  lemma CommitKeeps(w: World, m: Machine, n: nat)
    requires Inv(w, m) && n <= |m.buf|
    ensures Inv(w, Next(w, m, Commit(n)))
    ensures Next(w, m, Commit(n)).Written() == m.Written()
  {
    hide DiskOk, WalkerOk, Covered, ApplyAll, CodesFull, Sane;
    var m' := Next(w, m, Commit(n));
    assert m.buf[..n] + m.buf[n..] == m.buf;
    ApplySplit(m.disk, m.buf[..n], m.buf[n..]);
    forall i | 0 <= i <= |m'.buf| ensures DiskOk(w, ApplyAll(m'.disk, m'.buf[..i])) {
      ApplySplit(m.disk, m.buf[..n], m'.buf[..i]);
      assert m.buf[..n] + m'.buf[..i] == m.buf[..n + i];
    }
    assert forall op :: op in m'.buf ==> op in m.buf;
  }

  /** The barrier leaves every segment's rows committed before the queue is scanned. */
  lemma ToStorageKeeps(w: World, m: Machine)
    requires Inv(w, m) && Allowed(w, m, ToStorage)
    ensures Inv(w, Next(w, m, ToStorage))
  {
    hide WalkerOk, Covered, PrefixesOk, CodesFull, TrueRows, QueueOk, AllClosed, Full;
    WrittenOk(w, m);
    assert m.Written() == m.disk;
  }

  lemma CoveredSegments(w: World, kv: KV)
    requires forall i :: 0 <= i < 256 ==> Covered(w, kv, Segment(i))
    ensures forall a: Hash :: a in w.accounts ==> BaseAccount(a) in kv
  {
    hide Covered, Within;
    forall a: Hash | a in w.accounts ensures BaseAccount(a) in kv {
      SegmentIsFirstByte(w, a);
      UseCovered(w, kv, Segment(a[0]), a);
    }
  }

  lemma {:induction false} SweptCodes(w: World, d: Disk, hs: seq<Hash>)
    requires DiskOk(w, d) && forall h :: h in hs ==> h in w.codes
    ensures PrefixesOk(w, d, CodePuts(w, hs))
    ensures forall op :: op in CodePuts(w, hs) ==> Sane(op)
    ensures Grows(d.kv, ApplyAll(d, CodePuts(w, hs)).kv)
    ensures forall h :: h in hs ==> Code(h) in ApplyAll(d, CodePuts(w, hs)).kv
    decreases |hs|
  {
    hide DiskOk;
    if hs != [] {
      var front, h := hs[..|hs| - 1], hs[|hs| - 1];
      var before := CodePuts(w, front);
      var op := Put(Code(h), w.codes[h]);
      SweptCodes(w, d, front);
      assert before[..|before|] == before;
      PutCodeKeeps(w, ApplyAll(d, before), h, w.codes[h]);
      PrefixesAppend(w, d, before, op);
      ApplyOne(d, before, op);
    }
  }

  lemma SweepKeeps(w: World, m: Machine, missing: seq<Hash>)
    requires Inv(w, m) && Allowed(w, m, Sweep(missing))
    ensures Inv(w, Next(w, m, Sweep(missing)))
  {
    hide DiskOk, WalkerOk, Covered, PrefixesOk, CodePuts;
    var m1 := m.(buf := CodePuts(w, missing));
    WrittenOk(w, m);
    assert m.Written() == m.disk;
    SweptCodes(w, m.disk, missing);
    GrowsKeeps(w, m, m1);
    CoveredSegments(w, m.disk.kv);
  }

  /** Finish marks the baseline complete only when it is. */
  lemma CompleteKeeps(w: World, m: Machine)
    requires Inv(w, m) && Allowed(w, m, Complete)
    ensures Full(w, m.disk.kv)
    ensures Inv(w, Next(w, m, Complete))
  {
    hide WalkerOk, Covered, CodesFull, SlotsFull, DiskOk, TrueRows;
    WrittenOk(w, m);
    assert m.Written() == m.disk;
    CoveredSegments(w, m.disk.kv);
    QueueEmptyIsFull(w, m.disk);
    MarkedComplete(w, m.disk);
  }

  lemma QueueEmptyIsFull(w: World, d: Disk)
    requires DiskOk(w, d) && CodesFull(w, d.kv)
    requires (forall a: Hash :: a in w.accounts ==> BaseAccount(a) in d.kv) && forall a: Hash :: Queue(a) !in d.kv
    ensures Full(w, d.kv)
  {
    hide CodesFull, SlotsFull, TrueRows, AllClosed, WarmupFirst, Covered;
  }

  lemma MarkedComplete(w: World, d: Disk)
    requires DiskOk(w, d) && Full(w, d.kv)
    ensures DiskOk(w, Disk(d.kv[MetaBaselineComplete := [1]], {}))
  {
    hide EncodeAccount, PartOf, Closed, AllClosed, QueueOk, WarmupFirst, Full, Covered;
    var kv' := d.kv[MetaBaselineComplete := [1]];
    ClosedElsewhere(w, d.kv, kv');
    WarmupFirstElsewhere(w, d.kv, kv');
    QueueStays(w, d.kv, kv');
    FullGrows(w, d.kv, kv');
  }

  lemma CrashKeeps(w: World, m: Machine)
    requires Inv(w, m)
    ensures Inv(w, Next(w, m, Crash))
  {
    hide DiskOk, WalkerOk, Covered;
    WrittenOk(w, m);
  }

  // ----- blocks written beside the load -----

  predicate Loaders(k: Key) {
    k.BaseAccount? || k.BaseSlot? || k.Queue? || k.MetaBaselineComplete?
  }

  /** Another writer has added rows, none of them the loader's; code rows may be among them. */
  ghost predicate Beside(kv: KV, kv': KV) {
    (forall k: Key :: Loaders(k) ==> Lookup(kv', k) == Lookup(kv, k)) && Grows(kv, kv')
  }

  /** A code row it has written holds the code its hash names. */
  ghost predicate BesideCodes(w: World, kv: KV, kv': KV) {
    forall h: Hash :: Code(h) in kv' && h in w.codes ==>
      kv'[Code(h)] == w.codes[h] || Lookup(kv', Code(h)) == Lookup(kv, Code(h))
  }

  lemma BesideRows(kv: KV, kv': KV, k: Key)
    requires Beside(kv, kv') && Loaders(k)
    ensures (k in kv <==> k in kv') && (k in kv ==> kv[k] == kv'[k])
  {
    assert Lookup(kv', k) == Lookup(kv, k);
  }

  lemma {:induction false} ApplyBeside(d: Disk, d': Disk, ops: seq<Op>)
    requires Beside(d.kv, d'.kv) && d.done == d'.done && forall op :: op in ops ==> Sane(op)
    ensures Beside(ApplyAll(d, ops).kv, ApplyAll(d', ops).kv) && ApplyAll(d, ops).done == ApplyAll(d', ops).done
    decreases |ops|
  {
    if ops != [] {
      var front := ops[..|ops| - 1];
      assert ops[|ops| - 1] in ops && forall op :: op in front ==> op in ops;
      ApplyBeside(d, d', front);
    }
  }

  lemma {:induction false} ApplyBesideCodes(w: World, d: Disk, d': Disk, ops: seq<Op>)
    requires BesideCodes(w, d.kv, d'.kv) && forall op :: op in ops ==> Sane(op)
    ensures BesideCodes(w, ApplyAll(d, ops).kv, ApplyAll(d', ops).kv)
    decreases |ops|
  {
    if ops != [] {
      var front := ops[..|ops| - 1];
      assert ops[|ops| - 1] in ops && forall op :: op in front ==> op in ops;
      ApplyBesideCodes(w, d, d', front);
    }
  }

  lemma DiskOkBeside(w: World, d: Disk, d': Disk)
    requires DiskOk(w, d) && Beside(d.kv, d'.kv) && BesideCodes(w, d.kv, d'.kv) && d.done == d'.done
    ensures DiskOk(w, d')
  {
    hide Closed, Covered, EncodeAccount, In, PartOf, AllClosed, Full, QueueOk, Beside, Loaders, WarmupFirst;
    forall k: Key | k.BaseAccount? || k.BaseSlot? || k.Queue? || k.MetaBaselineComplete?
      ensures (k in d.kv <==> k in d'.kv) && (k in d.kv ==> d.kv[k] == d'.kv[k])
    {
      IsLoaders(k);
      BesideRows(d.kv, d'.kv, k);
    }
    BesideGrows(d.kv, d'.kv);
    ClosedElsewhere(w, d.kv, d'.kv);
    WarmupFirstElsewhere(w, d.kv, d'.kv);
    DoneGrows(w, d, d');
    QueueStays(w, d.kv, d'.kv);
    if MetaBaselineComplete in d'.kv {
      FullGrows(w, d.kv, d'.kv);
    }
  }

  lemma IsLoaders(k: Key)
    requires k.BaseAccount? || k.BaseSlot? || k.Queue? || k.MetaBaselineComplete?
    ensures Loaders(k)
  {
  }

  lemma BesideGrows(kv: KV, kv': KV)
    requires Beside(kv, kv')
    ensures Grows(kv, kv')
  {
  }

  lemma {:induction false} PutOpsBeside(kv: KV, block: U64, ops: seq<Capture.Op>)
    ensures Beside(kv, Store.PutOps(kv, block, ops))
    decreases |ops|
  {
    if ops != [] {
      PutOpsBeside(kv, block, ops[..|ops| - 1]);
    }
  }

  lemma BlockIsBeside(kv: KV, b: Capture.Batch)
    ensures Beside(kv, Store.AfterWriteBlock(kv, b))
  {
    hide Store.PutOps, Capture.Encode;
    PutOpsBeside(kv, b.block, b.ops);
  }

  lemma BlockWritesCodes(w: World, kv: KV, b: Capture.Batch)
    requires Addressed(w, b)
    ensures BesideCodes(w, kv, Store.AfterWriteBlock(kv, b))
  {
    hide Store.AfterWriteBlock;
    var kv' := Store.AfterWriteBlock(kv, b);
    forall h: Hash | Code(h) in kv' && h in w.codes
      ensures kv'[Code(h)] == w.codes[h] || Lookup(kv', Code(h)) == Lookup(kv, Code(h))
    {
      Store.WriteBlockCode(kv, b, h);
      Capture.LastOrNone(b.ops, h);
      if !Capture.NamesNone(b.ops, h) {
        var i: nat :| Capture.NamesLast(b.ops, i, h);
        assert b.ops[i] in b.ops;
      }
    }
  }

  /** A captured block leaves the load as it was. */
  lemma BlockKeeps(w: World, m: Machine, b: Capture.Batch)
    requires Inv(w, m) && Addressed(w, b)
    ensures Inv(w, Next(w, m, Block(b)))
  {
    hide DiskOk, WalkerOk, Covered, ApplyAll, CodesFull, Beside, Store.AfterWriteBlock, Sane, Grows, BesideCodes,
         Addressed;
    var m' := Next(w, m, Block(b));
    BlockIsBeside(m.disk.kv, b);
    BlockWritesCodes(w, m.disk.kv, b);
    forall n | 0 <= n <= |m'.buf| ensures DiskOk(w, ApplyAll(m'.disk, m'.buf[..n])) {
      assert forall op :: op in m.buf[..n] ==> op in m.buf;
      ApplyBeside(m.disk, m'.disk, m.buf[..n]);
      ApplyBesideCodes(w, m.disk, m'.disk, m.buf[..n]);
      DiskOkBeside(w, ApplyAll(m.disk, m.buf[..n]), ApplyAll(m'.disk, m.buf[..n]));
    }
    ApplyBeside(m.disk, m'.disk, m.buf);
    BesideGrows(m.Written().kv, m'.Written().kv);
    GrowsKeeps(w, m, m');
  }

  lemma BlockAllowed(w: World, m: Machine, b: Capture.Batch)
    requires Inv(w, m) && Allowed(w, m, Block(b))
    ensures Inv(w, Next(w, m, Block(b)))
  {
    hide Inv;
    BlockKeeps(w, m, b);
  }

  lemma StepKeepsInv(w: World, m: Machine, e: Event)
    requires WorldOk(w) && Inv(w, m) && Allowed(w, m, e)
    ensures Inv(w, Next(w, m, e))
  {
    hide WorldOk, Inv, Allowed, Next;
    match e {
      case Begin => BeginKeeps(w, m);
      case Start(p, wm) => StartKeeps(w, m, p, wm);
      case Fetch(p, page) => FetchKeeps(w, m, p, page);
      case Send(p) => SendKeeps(w, m, p);
      case Finish(p) => FinishKeeps(w, m, p);
      case Dequeue(a) => DequeueKeeps(w, m, a);
      case Claim(h) => ClaimKeeps(w, m, h);
      case Commit(n) => CommitAllowed(w, m, n);
      case ToStorage => ToStorageKeeps(w, m);
      case Sweep(missing) => SweepKeeps(w, m, missing);
      case Complete => CompleteKeeps(w, m);
      case Block(b) => BlockAllowed(w, m, b);
      case Crash => CrashKeeps(w, m);
    }
  }

  lemma BeginKeeps(w: World, m: Machine)
    requires Inv(w, m) && Allowed(w, m, Begin)
    ensures Inv(w, Next(w, m, Begin))
  {
    hide PrefixesOk, WalkerOk, Covered, ApplyAll;
  }

  lemma ClaimKeeps(w: World, m: Machine, h: Hash)
    requires Inv(w, m) && Allowed(w, m, Claim(h))
    ensures Inv(w, Next(w, m, Claim(h)))
  {
    hide DiskOk, WalkerOk, Covered, PrefixesOk, ApplyAll, Inv;
    WrittenOk(w, m);
    PutCodeKeeps(w, m.Written(), h, w.codes[h]);
    Emit(w, m, Put(Code(h), w.codes[h]));
  }

  lemma CommitAllowed(w: World, m: Machine, n: nat)
    requires Inv(w, m) && Allowed(w, m, Commit(n))
    ensures Inv(w, Next(w, m, Commit(n)))
  {
    hide Inv;
    CommitKeeps(w, m, n);
  }

  // ----- what each event gets written -----

  lemma {:induction false} PutsRead(d: Disk, w: World, hs: seq<Hash>, h: Hash)
    requires forall g :: g in hs ==> g in w.codes
    ensures h in hs ==> Lookup(ApplyAll(d, CodePuts(w, hs)).kv, Code(h)) == Some(w.codes[h])
    decreases |hs|
  {
    if hs != [] {
      var front, last := hs[..|hs| - 1], hs[|hs| - 1];
      PutsRead(d, w, front, h);
      ApplyOne(d, CodePuts(w, front), Put(Code(last), w.codes[last]));
    }
  }

  /** A leaf that is sent has its row, and an account with storage its queue row. */
  lemma SentIsWritten(w: World, m: Machine, p: Part)
    requires Allowed(w, m, Send(p))
    ensures var k, kv := m.walkers[p].todo[0], Next(w, m, Send(p)).Written().kv;
            && (p.Segment? ==> Lookup(kv, BaseAccount(k)) == Some(EncodeAccount(w.accounts[k].account)))
            && (p.Segment? && HasStorage(w, w.accounts[k]) ==> Lookup(kv, Queue(k)) == Some(w.accounts[k].root))
            && (!p.Segment? ==> Lookup(kv, BaseSlot(p.a, k)) == Some(w.accounts[p.a].slots[k]))
  {
    hide EncodeAccount, ApplyAll;
    var k := m.walkers[p].todo[0];
    if p.Segment? && HasStorage(w, w.accounts[k]) {
      var q, row := Put(Queue(k), w.accounts[k].root), Put(BaseAccount(k), EncodeAccount(w.accounts[k].account));
      assert m.buf + Bundle(w, p, k) == m.buf + [q] + [row];
      ApplyOne(m.disk, m.buf, q);
      ApplyOne(m.disk, m.buf + [q], row);
    } else {
      var ops := Bundle(w, p, k);
      assert ops == [ops[0]];
      ApplyOne(m.disk, m.buf, ops[0]);
    }
  }

  /**
   The other events that write: a finished segment is marked, a dequeued account
   leaves the queue, a claimed or swept code is there, a full commit leaves nothing
   unwritten, and completing marks the store and clears the progress.
   */
  lemma EventIsWritten(w: World, m: Machine, e: Event)
    requires Allowed(w, m, e)
    ensures var m' := Next(w, m, e);
            && (e.Finish? ==> m'.Written() == if e.p.Segment? then Apply(m.Written(), Mark(e.p.i)) else m.Written())
            && (e.Dequeue? ==> m'.Written().kv == m.Written().kv - {Queue(e.a)})
            && (e.Claim? ==> m'.Written().kv == m.Written().kv[Code(e.h) := w.codes[e.h]])
            && (e.Sweep? ==> forall h :: h in e.missing ==> Lookup(m'.Written().kv, Code(h)) == Some(w.codes[h]))
            && (e.Commit? && e.n == |m.buf| ==> m'.disk == m.Written() && m'.buf == [])
            && (e.Complete? ==> MetaBaselineComplete in m'.disk.kv && m'.disk.done == {} && m'.phase == Idle)
  {
    hide ApplyAll, CodePuts;
    match e
    case Finish(p) => ApplyOne(m.disk, m.buf, Mark(if p.Segment? then p.i else 0));
    case Dequeue(a) => ApplyOne(m.disk, m.buf, Del(Queue(a)));
    case Claim(h) => ApplyOne(m.disk, m.buf, Put(Code(h), w.codes[h]));
    case Sweep(missing) =>
      forall h | h in missing ensures Lookup(Next(w, m, e).Written().kv, Code(h)) == Some(w.codes[h]) {
        PutsRead(m.disk, w, missing, h);
      }
    case Commit(n) =>
      if n == |m.buf| {
        assert m.buf[..n] == m.buf && m.buf[n..] == [];
      }
    case _ =>
  }

  // ----- whole runs -----

  /** A process that has just been started on a disk. */
  function Booted(d: Disk): Machine {
    Machine(d, [], Idle, map[], {})
  }

  lemma BootedOk(w: World, d: Disk)
    requires DiskOk(w, d)
    ensures Inv(w, Booted(d))
  {
    hide DiskOk;
    assert Booted(d).buf[..0] == [];
    assert Booted(d).Written() == d;
  }

  ghost predicate Runs(w: World, ms: seq<Machine>, es: seq<Event>) {
    && |ms| == |es| + 1
    && forall n :: 0 <= n < |es| ==> Allowed(w, ms[n], es[n]) && ms[n + 1] == Next(w, ms[n], es[n])
  }

  lemma {:induction false} RunKeepsInv(w: World, ms: seq<Machine>, es: seq<Event>, n: nat)
    requires WorldOk(w) && Runs(w, ms, es) && Inv(w, ms[0]) && n < |ms|
    ensures Inv(w, ms[n])
    decreases n
  {
    hide WorldOk, Inv, Allowed, Next;
    if n > 0 {
      RunKeepsInv(w, ms, es, n - 1);
      StepKeepsInv(w, ms[n - 1], es[n - 1]);
    }
  }

  /**
   From a sound disk, through any interleaving of workers, commits, crashes and
   restarts: every committed baseline row is a leaf of the tries, and the
   completion mark is there only when no leaf and no code is missing. A loaded code
   is the one its hash names.
   */
  lemma LoadIsSound(w: World, d: Disk, ms: seq<Machine>, es: seq<Event>, n: nat)
    requires WorldOk(w) && DiskOk(w, d) && Runs(w, ms, es) && ms[0] == Booted(d) && n < |ms|
    ensures TrueRows(w, ms[n].disk.kv)
    ensures MetaBaselineComplete in ms[n].disk.kv ==> Full(w, ms[n].disk.kv)
    ensures n < |es| && es[n] == Complete ==> Full(w, ms[n].disk.kv) && forall a: Hash :: Queue(a) !in ms[n].disk.kv
    ensures MetaBaselineComplete in ms[n].disk.kv || (n < |es| && es[n] == Complete) ==>
              forall a: Hash :: a in w.accounts && NeedsCode(w, w.accounts[a].account.codeHash) ==>
                                  var h := w.accounts[a].account.codeHash;
                                  h in w.codes && Store.GetCode(ms[n].disk.kv, h) == Store.Ok(w.codes[h])
  {
    hide WorldOk, Next, WalkerOk, Covered, TrueRows, AllClosed, QueueOk, Full;
    BootedOk(w, d);
    RunKeepsInv(w, ms, es, n);
    WrittenOk(w, ms[n]);
    if n < |es| && es[n] == Complete {
      CompleteKeeps(w, ms[n]);
    }
    forall a: Hash | a in w.accounts && Full(w, ms[n].disk.kv) && NeedsCode(w, w.accounts[a].account.codeHash)
      ensures var h := w.accounts[a].account.codeHash;
              h in w.codes && Store.GetCode(ms[n].disk.kv, h) == Store.Ok(w.codes[h])
    {
      LoadedCode(w, ms[n].disk.kv, a);
    }
  }

  lemma LoadedCode(w: World, kv: KV, a: Hash)
    requires WorldOk(w) && TrueRows(w, kv) && Full(w, kv)
    requires a in w.accounts && NeedsCode(w, w.accounts[a].account.codeHash)
    ensures var h := w.accounts[a].account.codeHash;
            h in w.codes && Store.GetCode(kv, h) == Store.Ok(w.codes[h])
  {
    hide EncodeAccount;
  }

  /** A store no load has touched is sound, whatever block history it holds. */
  lemma UntouchedDiskOk(w: World, kv: KV)
    requires CodesTrue(w, kv)
    requires forall k: Key :: k in kv ==> !k.BaseAccount? && !k.BaseSlot? && !k.Queue? && !k.MetaBaselineComplete?
    ensures DiskOk(w, Disk(kv, {}))
  {
    hide In, PartOf;
    forall p | PartOf(w, p) ensures Closed(w, kv, p) {
      assert forall k: Hash :: !Has(kv, p, k);
    }
  }
}
