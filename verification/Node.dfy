/**
 The writer process's glue (node/sink.go, node/tracker.go): the tracker turns
 block-verified, head-moved and block-accepted events into sink calls; the sink
 drives the store, the in-memory view and the tip bus in order.
 */
module Node {
  import opened Bytes
  import opened Collections
  import opened Schema
  import opened Capture
  import opened Reference
  import opened Store
  import opened History
  import opened TipView
  import opened TipBus
  import opened Mem
  import opened Protocol

  /** The batches of a stack by their hash. */
  function ByHash(stack: seq<Batch>): map<Hash, Batch> {
    if stack == [] then map[] else ByHash(stack[..|stack| - 1])[stack[|stack| - 1].hash := stack[|stack| - 1]]
  }

  lemma {:induction false} ByHashHas(u: Universe, fin: Hash, stack: seq<Batch>, i: nat)
    requires Linked(u, fin, stack) && i < |stack|
    ensures stack[i].hash in ByHash(stack) && ByHash(stack)[stack[i].hash] == stack[i]
  {
    hide ApplyOps, Contract, FrameFits;
    var n := |stack| - 1;
    assert Good(u, stack[i]) && Good(u, stack[n]);
    if i < n {
      LinkedPrefix(u, fin, stack, n);
      ByHashHas(u, fin, stack[..n], i);
    }
  }

  lemma {:induction false} ByHashOnly(stack: seq<Batch>, h: Hash)
    requires h in ByHash(stack)
    ensures exists i :: 0 <= i < |stack| && stack[i].hash == h
  {
    var n := |stack| - 1;
    if h == stack[n].hash {
      assert stack[n].hash == h;
    } else {
      ByHashOnly(stack[..n], h);
      var i :| 0 <= i < n && stack[..n][i].hash == h;
      assert stack[i].hash == h;
    }
  }

  lemma ByHashNext(stack: seq<Batch>, b: Batch)
    ensures ByHash(stack + [b]) == ByHash(stack)[b.hash := b]
  {
    assert (stack + [b])[..|stack|] == stack;
  }

  function Above(m: map<Hash, Batch>, block: U64): map<Hash, Batch> {
    map h | h in m && m[h].block > block :: m[h]
  }

  lemma DropOldestKeeps(u: Universe, fin: Hash, stack: seq<Batch>, h: Hash)
    requires Linked(u, fin, stack) && stack != [] && h in ByHash(stack[1..])
    ensures h in Above(ByHash(stack), stack[0].block)
  {
    hide ByHash, Good, Linked;
    ByHashOnly(stack[1..], h);
    var i :| 0 <= i < |stack| - 1 && stack[1..][i].hash == h;
    ByHashHas(u, fin, stack, i + 1);
    LinkedHeights(u, fin, stack, 0);
    LinkedHeights(u, fin, stack, i + 1);
  }

  lemma DropOldestOnly(u: Universe, fin: Hash, stack: seq<Batch>, h: Hash)
    requires Linked(u, fin, stack) && stack != [] && h in Above(ByHash(stack), stack[0].block)
    ensures h in ByHash(stack[1..]) && ByHash(stack[1..])[h] == ByHash(stack)[h]
  {
    hide ByHash, Good, Linked;
    ByHashOnly(stack, h);
    var i :| 0 <= i < |stack| && stack[i].hash == h;
    ByHashHas(u, fin, stack, i);
    LinkedPop(u, fin, stack);
    ByHashHas(u, stack[0].hash, stack[1..], i - 1);
  }

  /** Dropping everything at or below the oldest block leaves the rest of the stack. */
  lemma DropOldest(u: Universe, fin: Hash, stack: seq<Batch>)
    requires Linked(u, fin, stack) && stack != []
    ensures Above(ByHash(stack), stack[0].block) == ByHash(stack[1..])
  {
    hide ByHash, Linked;
    forall h | h in ByHash(stack[1..]) ensures h in Above(ByHash(stack), stack[0].block) {
      DropOldestKeeps(u, fin, stack, h);
    }
    forall h | h in Above(ByHash(stack), stack[0].block)
      ensures h in ByHash(stack[1..]) && ByHash(stack[1..])[h] == ByHash(stack)[h]
    {
      DropOldestOnly(u, fin, stack, h);
    }
  }

  class Sink {
    const db: DB
    const st: Mem.State
    const bus: Bus
    var pending: map<Hash, Batch>
    ghost var chain: Chain

    ghost function World(): World
      reads this, db, st, st.base, st.buffers
    {
      TipView.World(db.kv, db.keccak, chain, |chain.blocks|, st.Value())
    }

    /** The view, the bus and the pending table hold the same stack, on a store that ends in fin. */
    ghost predicate Mirrors(u: Universe, fin: Hash, stack: seq<Batch>)
      reads this, db, st, st.base, st.buffers, bus
    {
      && st.db == db && st.Valid()
      && bus.Valid() && bus.Accepted() && bus.layers == stack
      && pending == ByHash(stack)
      && Settled(u, World(), fin, stack)
    }

    /** The watermark row and the view both stand at the height. */
    ghost predicate Marked(h: U64)
      reads this, db, st
    {
      Lookup(db.kv, MetaFinalized) == Some(U64Bytes(h)) && st.finalized == h
    }

    /** A process started on the store resumes at the marked height. */
    lemma MarkedResumes(h: U64)
      requires Marked(h)
      ensures Watermark(db.kv) == h
    {
      U64RoundTrip(h);
    }

    constructor (db: DB, st: Mem.State, bus: Bus, ghost chain: Chain)
      ensures this.db == db && this.st == st && this.bus == bus && pending == map[] && this.chain == chain
    {
      this.db, this.st, this.bus, pending, this.chain := db, st, bus, map[], chain;
    }

    /** A sink over a fresh view, a fresh bus and a store that ends in the finalized block. */
    lemma StartsMirrored(u: Universe, fin: Hash)
      requires st.db == db && st.Valid() && st.Value() == View(map[], [], [])
      requires bus.Valid() && bus.Accepted() && bus.layers == [] && pending == map[]
      requires Represents(db.kv, db.keccak, chain) && Respects(chain) && EndsAt(u, chain, fin)
      ensures Mirrors(u, fin, [])
    {
      hide Represents, Respects, Bus.Valid, Bus.Accepted, Mem.State.Valid, Mem.State.Value;
      assert chain.blocks[..|chain.blocks|] + [] == chain.blocks;
    }

    /** A new unfinalized block on the preferred chain. */
    method Block(b: Batch, ghost u: Universe, ghost fin: Hash, ghost stack: seq<Batch>)
      requires Mirrors(u, fin, stack) && Linked(u, fin, stack + [b])
      requires |stack| + 1 < TWO32 && |bus.log| < MAX_U64
      modifies this`pending, st, st.base, st.buffers, bus
      ensures st.buffers == old(st.buffers)
      ensures Mirrors(u, fin, stack + [b]) && chain == old(chain) && bus.log == old(bus.log) + [EvBlock(b)]
      ensures st.finalized == old(st.finalized)
    {
      hide Settled, AfterApplyBlock, FrameFits, Linked, Allowed, Next, ByHash;
      hide Bus.Valid, Bus.Accepted, Mem.State.Valid, Mem.State.Value, Mem.State.Pinned;
      FitsOf(u, fin, stack + [b], |stack|);
      SettledApply(u, World(), fin, stack, b);
      NextApply(World(), b);
      ByHashNext(stack, b);
      pending := pending[b.hash := b];
      st.ApplyBlock(b);
      bus.PublishBlock(b);
    }

    /**
     Marks a delivered block accepted: the store commits, the base folds, the
     watermark moves, then the bus learns. Only the oldest block of the stack may
     be finalized. A younger one is refused by the view after the store took it.
     */
    method Finalize(block: U64, hash: Hash, ghost u: Universe, ghost fin: Hash, ghost stack: seq<Batch>)
      returns (ok: bool)
      requires Mirrors(u, fin, stack) && |bus.log| < MAX_U64
      modifies this, db, st, st.base, st.buffers, bus
      ensures st.buffers == old(st.buffers)
      ensures ok <==> stack != [] && stack[0].hash == hash && stack[0].block == block
      ensures ok ==> Mirrors(u, hash, stack[1..])
      ensures ok ==> chain == Extend(old(chain), stack[0]) && bus.log == old(bus.log) + [EvFinalize(block, hash)]
      ensures ok ==> db.kv == AfterWriteBlock(old(db.kv), stack[0])[MetaFinalized := U64Bytes(block)] && Marked(block)
      ensures !ok ==> Lookup(db.kv, MetaFinalized) == old(Lookup(db.kv, MetaFinalized))
                      && st.finalized == old(st.finalized)
      ensures !ok && (hash !in old(pending) || old(pending)[hash].block != block) ==>
                Mirrors(u, fin, stack) && chain == old(chain) && bus.log == old(bus.log) && db.kv == old(db.kv)
      ensures !ok && hash in old(pending) && old(pending)[hash].block == block ==>
                db.kv == AfterWriteBlock(old(db.kv), old(pending)[hash])
    {
      hide Settled, AfterWriteBlock, AfterFinalize, Linked, ByHash, Drained, U64Bytes;
      hide Bus.Valid, Bus.Accepted, Mem.State.Valid, Mem.State.Value, Mem.State.Pinned;
      ghost var w := World();
      OldestIsPending(u, w, fin, stack);
      if hash !in pending {
        return false;
      }
      var b := pending[hash];
      if b.block != block {
        return false;
      }
      PendingIsStack(u, w, fin, stack, hash);
      WriteBlockRow(db.kv, b, MetaFinalized);
      db.WriteBlock(b);
      var folded := st.Finalize(block, hash);
      if !folded {
        return false;
      }
      assert b == stack[0];
      ok := AfterFold(b, u, fin, stack, w);
    }

    /** The rest of a successful finalize: watermark, pending table, bus. */
    method AfterFold(b: Batch, ghost u: Universe, ghost fin: Hash, ghost stack: seq<Batch>, ghost w: World)
      returns (ok: bool)
      requires Settled(u, w, fin, stack) && stack != [] && b == stack[0]
      requires st.db == db && st.Valid() && st.Value() == Folded(w, b).view
      requires db.kv == Folded(w, b).kv && db.keccak == w.keccak && chain == w.store
      requires bus.Valid() && bus.Accepted() && bus.layers == stack && |bus.log| < MAX_U64
      requires pending == ByHash(stack) && st.finalized == b.block
      modifies this, db, bus
      ensures ok && Mirrors(u, b.hash, stack[1..])
      ensures db.kv == old(db.kv)[MetaFinalized := U64Bytes(b.block)] && Marked(b.block)
      ensures chain == Extend(old(chain), b) && bus.log == old(bus.log) + [EvFinalize(b.block, b.hash)]
    {
      hide Settled, AfterWriteBlock, AfterFinalize, Linked, ByHash, Drained, U64Bytes;
      hide Bus.Valid, Bus.Accepted, Mem.State.Valid, Mem.State.Value, Mem.State.Pinned;
      SettledFinalize(u, w, fin, stack);
      OldestIsPending(u, w, fin, stack);
      db.SetFinalized(b.block);
      pending := map h | h in pending && pending[h].block > b.block :: pending[h];
      chain := Extend(chain, b);
      ok := bus.PublishFinalize(b.block, b.hash);
    }

    /** Replaces the unfinalized stack, oldest first. */
    method PreferenceReset(preferred: seq<Batch>, ghost u: Universe, ghost fin: Hash, ghost stack: seq<Batch>)
      requires Mirrors(u, fin, stack) && Linked(u, fin, preferred)
      requires |preferred| < TWO32 && |bus.log| < MAX_U64
      modifies this`pending, st, st.base, st.buffers, bus
      ensures st.buffers == old(st.buffers)
      ensures Mirrors(u, fin, preferred) && chain == old(chain) && bus.log == old(bus.log) + [EvReset(preferred)]
      ensures st.finalized == old(st.finalized)
    {
      hide Settled, AfterReset, FrameFits, Linked, Allowed, Next, ListFits;
      hide Bus.Valid, Bus.Accepted, Mem.State.Valid, Mem.State.Value, Mem.State.Pinned;
      SettledReset(u, World(), fin, stack, preferred);
      NextReset(World(), preferred);
      AllFit(u, fin, preferred);
      var delivered: map<Hash, Batch> := map[];
      var i := 0;
      while i < |preferred|
        invariant 0 <= i <= |preferred| && delivered == ByHash(preferred[..i])
      {
        assert preferred[..i + 1][..i] == preferred[..i];
        delivered := delivered[preferred[i].hash := preferred[i]];
        i := i + 1;
      }
      assert preferred[..i] == preferred;
      pending := delivered;
      st.PreferenceReset(preferred);
      bus.PublishReset(preferred);
    }
  }

  /** A process started after a finalize resumes at that block: its height is the mark, and its diff row is there. */
  lemma ResumePoint(kv: KV, b: Batch)
    requires Fits(b)
    ensures var kv' := AfterWriteBlock(kv, b)[MetaFinalized := U64Bytes(b.block)];
            Watermark(kv') == b.block && GetDiff(kv', b.block) == Ok(b)
  {
    hide Encode, DecodeSpec, PutOps, U64Bytes, U64Of, Fits;
    U64RoundTrip(b.block);
    DecodeEncode(b);
  }

  lemma NextReset(w: World, preferred: seq<Batch>)
    requires w.folded <= |w.store.blocks| && Allowed(w, Step.Reset(preferred))
    ensures Next(w, Step.Reset(preferred)) == w.(view := AfterReset(w.view, preferred))
  {
  }

  lemma AllFit(u: Universe, fin: Hash, stack: seq<Batch>)
    requires Linked(u, fin, stack) && |stack| < TWO32
    ensures ListFits(stack)
  {
    hide FrameFits, ApplyOps, Contract;
    forall i | 0 <= i < |stack| ensures FrameFits(stack[i]) {
      FitsOf(u, fin, stack, i);
    }
  }

  lemma FitsOf(u: Universe, fin: Hash, stack: seq<Batch>, i: nat)
    requires Linked(u, fin, stack) && i < |stack|
    ensures FrameFits(stack[i])
  {
    assert Good(u, stack[i]);
  }

  lemma NextApply(w: World, b: Batch)
    requires w.folded <= |w.store.blocks| && Allowed(w, Step.ApplyBlock(b))
    ensures Next(w, Step.ApplyBlock(b)) == w.(view := AfterApplyBlock(w.view, b))
  {
  }

  lemma OldestIsPending(u: Universe, w: World, fin: Hash, stack: seq<Batch>)
    requires Settled(u, w, fin, stack)
    ensures stack != [] ==> stack[0].hash in ByHash(stack) && ByHash(stack)[stack[0].hash] == stack[0]
    ensures stack != [] ==> Above(ByHash(stack), stack[0].block) == ByHash(stack[1..])
    ensures w.view.layers == stack
  {
    hide ByHash, Inv, Linked;
    if stack != [] {
      ByHashHas(u, fin, stack, 0);
      DropOldest(u, fin, stack);
    }
  }

  /** The view's test passes for a pending hash exactly when it is the oldest block. */
  lemma PendingIsStack(u: Universe, w: World, fin: Hash, stack: seq<Batch>, hash: Hash)
    requires Settled(u, w, fin, stack) && hash in ByHash(stack)
    ensures stack != []
    ensures FinalizeMatches(w.view, ByHash(stack)[hash].block, hash) <==> stack[0].hash == hash
  {
    hide ByHash, Inv, Linked;
    ByHashOnly(stack, hash);
    ByHashHas(u, fin, stack, 0);
  }

  // ----- the tracker -----

  type Table = map<Hash, Batch>

  /** Verified blocks above the finalized height, by hash. */
  ghost predicate TableOk(u: Universe, table: Table, height: U64) {
    forall h :: h in table ==> table[h].hash == h && Good(u, table[h]) && table[h].block > height
  }

  /** The batches from just above the finalized block up to a head, if the table links them. */
  ghost function PathTo(u: Universe, table: Table, height: U64, fin: Hash, h: Hash): Option<seq<Batch>>
    requires TableOk(u, table, height)
    decreases if h in table then table[h].block else 0
  {
    if h == fin then Some([])
    else if h !in table then None
    else
      assert Good(u, table[h]);
      assert table[h].parent in table ==> Good(u, table[table[h].parent]);
      Onto(PathTo(u, table, height, fin, table[h].parent), [table[h]])
  }

  /** A path is a linked chain that ends in its head and is as long as the head is high. */
  lemma {:induction false} PathIsLinked(u: Universe, table: Table, height: U64, fin: Hash, h: Hash)
    requires TableOk(u, table, height) && fin in u && u[fin].height == height
    requires PathTo(u, table, height, fin, h).Some?
    ensures var p := PathTo(u, table, height, fin, h).value;
            && Linked(u, fin, p)
            && (p == [] <==> h == fin)
            && (p != [] ==> p[|p| - 1].hash == h)
            && h in u && |p| == u[h].height - height
    decreases if h in table then table[h].block else 0
  {
    hide ApplyOps, Contract, FrameFits;
    if h != fin {
      var b := table[h];
      assert Good(u, b);
      assert b.parent in table ==> Good(u, table[b.parent]);
      PathIsLinked(u, table, height, fin, b.parent);
      LinkedPush(u, fin, PathTo(u, table, height, fin, b.parent).value, b);
    }
  }

  predicate SameChain(a: seq<Batch>, b: seq<Batch>) {
    |a| == |b| && forall i :: 0 <= i < |a| ==> a[i].hash == b[i].hash
  }

  /** A hash determines its batch, so equal hashes are equal chains. */
  lemma SameChainIsEqual(u: Universe, fin: Hash, a: seq<Batch>, b: seq<Batch>)
    requires Linked(u, fin, a) && Linked(u, fin, b) && SameChain(a, b)
    ensures a == b
  {
    hide ApplyOps, Contract, FrameFits;
    forall i | 0 <= i < |a| ensures a[i] == b[i] {
      assert Good(u, a[i]) && Good(u, b[i]);
    }
  }

  function Reversed<T>(s: seq<T>): (r: seq<T>)
    ensures |r| == |s| && forall i :: 0 <= i < |s| ==> r[i] == s[|s| - 1 - i]
  {
    if s == [] then [] else Reversed(s[1..]) + [s[0]]
  }

  method Reverse<T>(s: seq<T>) returns (r: seq<T>)
    ensures r == Reversed(s)
  {
    r := s;
    var i, j := 0, |s| - 1;
    while i < j
      invariant |r| == |s| && 0 <= i <= j + 2 && i + j == |s| - 1
      invariant forall k :: 0 <= k < i && k < |s| ==> r[k] == s[|s| - 1 - k]
      invariant forall k :: j < k < |s| && 0 <= k ==> r[k] == s[|s| - 1 - k]
      invariant forall k :: i <= k <= j ==> r[k] == s[k]
    {
      var x, y := r[i], r[j];
      r := r[i := y][j := x];
      i, j := i + 1, j - 1;
    }
  }

  function Onto(path: Option<seq<Batch>>, tail: seq<Batch>): Option<seq<Batch>> {
    match path
    case None => None
    case Some(p) => Some(p + tail)
  }

  lemma OntoNothing(path: Option<seq<Batch>>)
    ensures Onto(path, Reversed([])) == path
  {
    if path.Some? {
      assert path.value + [] == path.value;
    }
  }

  lemma OntoOneMore(path: Option<seq<Batch>>, b: Batch, rev: seq<Batch>)
    ensures Onto(Onto(path, [b]), Reversed(rev)) == Onto(path, Reversed(rev + [b]))
  {
    assert Reversed(rev + [b]) == [b] + Reversed(rev);
    if path.Some? {
      assert path.value + [b] + Reversed(rev) == path.value + ([b] + Reversed(rev));
    }
  }

  /** How a new stack is published: not at all, as one more block, or as a reset. */
  function HeadEvents(was: seq<Batch>, now: seq<Batch>): seq<Event> {
    if now == was then []
    else if |now| == |was| + 1 && was <= now then [EvBlock(now[|was|])]
    else [EvReset(now)]
  }

  class Tracker {
    const sink: Sink
    ghost const u: Universe
    var table: Table
    var stack: seq<Batch>
    var finalizedHeight: U64
    var finalizedHash: Hash

    /** All three copies of the stack agree, rooted at the finalized block. */
    ghost predicate Valid()
      reads this, sink, sink.db, sink.st, sink.st.base, sink.st.buffers, sink.bus
    {
      && finalizedHash in u && u[finalizedHash].height == finalizedHeight
      && TableOk(u, table, finalizedHeight)
      && |stack| < TWO32
      && sink.Mirrors(u, finalizedHash, stack)
    }

    constructor (sink: Sink, finalizedHeight: U64, finalizedHash: Hash, ghost u: Universe)
      requires finalizedHash in u && u[finalizedHash].height == finalizedHeight
      requires sink.Mirrors(u, finalizedHash, [])
      ensures Valid() && this.sink == sink && this.u == u && stack == [] && table == map[]
      ensures this.finalizedHeight == finalizedHeight && this.finalizedHash == finalizedHash
    {
      hide Sink.Mirrors, Good;
      this.sink, this.u := sink, u;
      table, stack := map[], [];
      this.finalizedHeight, this.finalizedHash := finalizedHeight, finalizedHash;
    }

    /** Records an executed block; publishes nothing. */
    method Verified(b: Batch)
      requires Valid() && Good(u, b)
      modifies this`table
      ensures Valid()
      ensures table == if b.block <= finalizedHeight then old(table) else old(table)[b.hash := b]
    {
      hide Good, Sink.Mirrors;
      if b.block <= finalizedHeight {
        return;
      }
      table := table[b.hash := b];
    }

    /** Walks parent hashes down to the finalized block; None on any gap. */
    method ChainTo(hash: Hash) returns (r: Option<seq<Batch>>)
      requires TableOk(u, table, finalizedHeight)
      ensures r == PathTo(u, table, finalizedHeight, finalizedHash, hash)
    {
      hide Good;
      var rev: seq<Batch> := [];
      var h := hash;
      OntoNothing(PathTo(u, table, finalizedHeight, finalizedHash, h));
      while h != finalizedHash
        invariant PathTo(u, table, finalizedHeight, finalizedHash, hash)
               == Onto(PathTo(u, table, finalizedHeight, finalizedHash, h), Reversed(rev))
        decreases if h in table then table[h].block else 0
      {
        if h !in table {
          return None;
        }
        GoodParents(u, table, finalizedHeight, h);
        OntoOneMore(PathTo(u, table, finalizedHeight, finalizedHash, table[h].parent), table[h], rev);
        rev := rev + [table[h]];
        h := table[h].parent;
      }
      var chain := Reverse(rev);
      assert [] + chain == chain;
      return Some(chain);
    }

    /** A preferred-tip change: a one-block extension, or a reset to the new chain. */
    method Head(hash: Hash) returns (ok: bool)
      requires Valid() && |sink.bus.log| < MAX_U64
      requires hash in u ==> u[hash].height < finalizedHeight + TWO32
      modifies this`stack, sink`pending, sink.st, sink.st.base, sink.st.buffers, sink.bus
      ensures sink.st.buffers == old(sink.st.buffers) && sink.st.finalized == old(sink.st.finalized)
      ensures Valid()
      ensures var p := PathTo(u, table, finalizedHeight, finalizedHash, hash);
              (ok <==> p.Some?) && stack == if ok then p.value else old(stack)
      ensures sink.bus.log == old(sink.bus.log) + if ok then HeadEvents(old(stack), stack) else []
    {
      hide Good, Linked, Sink.Mirrors, PathTo, TableOk;
      var c := ChainTo(hash);
      if c.None? {
        return false;
      }
      var chain := c.value;
      PathIsLinked(u, table, finalizedHeight, finalizedHash, hash);
      MirrorsLinked();
      ok := true;
      if SameChain(chain, stack) {
        SameChainIsEqual(u, finalizedHash, chain, stack);
      } else if |chain| == |stack| + 1 && SameChain(chain[..|stack|], stack) {
        LinkedPrefix(u, finalizedHash, chain, |stack|);
        SameChainIsEqual(u, finalizedHash, chain[..|stack|], stack);
        var b := chain[|chain| - 1];
        assert chain == stack + [b];
        sink.Block(b, u, finalizedHash, stack);
        stack := chain;
      } else {
        sink.PreferenceReset(chain, u, finalizedHash, stack);
        stack := chain;
      }
    }

    /** The batch an accept event names, if it can be finalized next. */
    ghost function Acceptable(hash: Hash): Option<Batch>
      reads this
    {
      if stack != [] && stack[0].hash == hash then Some(stack[0])
      else if hash in table && table[hash].parent == finalizedHash then Some(table[hash])
      else None
    }

    /** A block to be finalized that is not the oldest of the stack is published by a reset first. */
    ghost function Restacked(hash: Hash): seq<Event>
      reads this
    {
      if (stack != [] && stack[0].hash == hash) || hash !in table then [] else [EvReset([table[hash]])]
    }

    /**
     Finalizes a block. It is accepted exactly when it is a child of the finalized
     block at the given height; nothing else reaches the store.
     */
    method Accepted(block: U64, hash: Hash) returns (ok: bool)
      requires Valid() && |sink.bus.log| + 1 < MAX_U64
      modifies this, sink, sink.db, sink.st, sink.st.base, sink.st.buffers, sink.bus
      ensures sink.st.buffers == old(sink.st.buffers)
      ensures Valid() && |sink.bus.log| <= |old(sink.bus.log)| + 2
      ensures ok ==> sink.bus.log == old(sink.bus.log) + old(Restacked(hash)) + [EvFinalize(block, hash)]
      ensures ok <==> old(Acceptable(hash)).Some? && old(Acceptable(hash)).value.block == block
      ensures ok ==> sink.chain == Extend(old(sink.chain), old(Acceptable(hash)).value)
      ensures ok ==> finalizedHeight == block && finalizedHash == hash && table == Above(old(table), block)
      ensures ok ==> old(Acceptable(hash)).value.parent == old(finalizedHash)
      ensures ok ==> sink.Marked(block)
      ensures !ok ==> sink.db.kv == old(sink.db.kv) && sink.st.finalized == old(sink.st.finalized)
      ensures ok ==> stack == if old(stack) != [] && old(stack)[0].hash == hash then old(stack)[1..] else []
      ensures !ok ==> sink.chain == old(sink.chain) && finalizedHash == old(finalizedHash)
                      && finalizedHeight == old(finalizedHeight) && table == old(table)
    {
      hide Good, Linked, Sink.Mirrors, ByHash, TableOk, Above, Sink.Marked, AfterWriteBlock, U64Bytes, Mem.State.Value,
           Mem.State.Valid, Mem.State.Pinned;
      ok := EnsurePublished(hash);
      if !ok {
        return;
      }
      MirrorsPending();
      MirrorsLinked();
      GoodHead(u, finalizedHash, stack);
      ok := sink.Finalize(block, hash, u, finalizedHash, stack);
      if !ok {
        return;
      }
      stack := stack[1..];
      finalizedHeight, finalizedHash := block, hash;
      TableAbove(u, table, old(finalizedHeight), block);
      table := Above(table, block);
    }

    /** Stale or diverged preference: resets the stack to just the accepted block. */
    method EnsurePublished(hash: Hash) returns (ok: bool)
      requires Valid() && |sink.bus.log| + 1 < MAX_U64
      modifies this`stack, sink`pending, sink.st, sink.st.base, sink.st.buffers, sink.bus
      ensures sink.st.buffers == old(sink.st.buffers)
      ensures Valid() && |sink.bus.log| <= |old(sink.bus.log)| + 1
      ensures ok ==> sink.bus.log == old(sink.bus.log) + old(Restacked(hash))
      ensures sink.st.finalized == old(sink.st.finalized)
      ensures ok <==> old(Acceptable(hash)).Some?
      ensures ok ==> stack != [] && stack[0] == old(Acceptable(hash)).value && stack[0].hash == hash
                     && stack[0].parent == finalizedHash
      ensures ok ==> stack == if old(stack) != [] && old(stack)[0].hash == hash then old(stack)
                              else [old(Acceptable(hash)).value]
    {
      hide Good, Linked, Sink.Mirrors, ByHash;
      MirrorsLinked();
      LinkedRoot(u, finalizedHash, stack);
      if |stack| == 0 || stack[0].hash != hash {
        if hash !in table {
          return false;
        }
        var b := table[hash];
        if b.parent != finalizedHash {
          return false;
        }
        SingleLinked(u, finalizedHash, b);
        sink.PreferenceReset([b], u, finalizedHash, stack);
        stack := [b];
      }
      return true;
    }

    lemma MirrorsPending()
      requires sink.Mirrors(u, finalizedHash, stack) && stack != []
      ensures stack[0].hash in sink.pending && sink.pending[stack[0].hash] == stack[0]
    {
      hide Inv, ByHash, Linked;
      OldestIsPending(u, sink.World(), finalizedHash, stack);
    }

    lemma MirrorsLinked()
      requires sink.Mirrors(u, finalizedHash, stack)
      ensures Linked(u, finalizedHash, stack)
    {
    }
  }

  lemma GoodParents(u: Universe, table: Table, height: U64, h: Hash)
    requires TableOk(u, table, height) && h in table
    ensures table[h].parent in table ==> table[table[h].parent].block < table[h].block
    ensures table[h].block > 0
  {
    assert Good(u, table[h]);
    assert table[h].parent in table ==> Good(u, table[table[h].parent]);
  }

  lemma SingleLinked(u: Universe, fin: Hash, b: Batch)
    requires Good(u, b) && b.parent == fin
    ensures Linked(u, fin, [b])
  {
  }

  lemma LinkedRoot(u: Universe, fin: Hash, stack: seq<Batch>)
    requires Linked(u, fin, stack)
    ensures stack != [] ==> stack[0].parent == fin
  {
  }

  lemma GoodHead(u: Universe, fin: Hash, stack: seq<Batch>)
    requires Linked(u, fin, stack) && stack != []
    ensures stack[0].hash in u && u[stack[0].hash].height == stack[0].block
  {
    assert Good(u, stack[0]);
  }

  lemma TableAbove(u: Universe, table: Table, height: U64, block: U64)
    requires TableOk(u, table, height)
    ensures TableOk(u, Above(table, block), block)
  {
    hide Good;
  }
}
