/**
 The executor's read views (follower/exec/exec.go): executed but unfinalized
 blocks form a tree of layers; a block executes against the chain of layers from
 its parent down to the finalized boundary, then the store.
 */
module Exec {
  import opened Bytes
  import opened Schema
  import opened Capture
  import opened Reference
  import Store
  import opened Layers

  /** One executed block's compiled diff with its place in the tree. */
  datatype Node = Node(block: U64, parent: Hash, layer: Layer)

  type Tree = map<Hash, Node>

  /** Height rises by one along parent links. */
  ghost predicate Linked(t: Tree) {
    forall h :: h in t && t[h].parent in t ==> t[t[h].parent].block + 1 == t[h].block
  }

  /** The layers from a block down to the finalized boundary, newest first. */
  ghost function Walk(t: Tree, h: Hash): seq<Layer>
    requires Linked(t)
    decreases if h in t then t[h].block + 1 else 0
  {
    if h !in t then [] else [t[h].layer] + Walk(t, t[h].parent)
  }

  ghost function View(t: Tree, dryBase: Option<Layer>, h: Hash): seq<Layer>
    requires Linked(t)
  {
    Walk(t, h) + if dryBase.Some? then [dryBase.value] else []
  }

  function Pruned(t: Tree, height: U64): Tree {
    map h | h in t && t[h].block > height :: t[h]
  }

  lemma PrunedLinked(t: Tree, height: U64)
    requires Linked(t)
    ensures Linked(Pruned(t, height))
  {
  }

  class Exec {
    var pending: Tree
    var dryBase: Option<Layer>
    var finalized: U64

    constructor ()
      ensures pending == map[] && dryBase == None && finalized == 0
    {
      pending, dryBase, finalized := map[], None, 0;
    }

    /** Records an executed block as a pending layer. */
    method Record(b: Batch)
      modifies this
      ensures pending == old(pending)[b.hash := Node(b.block, b.parent, Compile(b.ops))]
      ensures dryBase == old(dryBase) && finalized == old(finalized)
    {
      var l := ApplyLayer(EMPTY, b.ops);
      pending := pending[b.hash := Node(b.block, b.parent, l)];
    }

    method ViewAt(parent: Hash) returns (layers: seq<Layer>)
      requires Linked(pending)
      ensures layers == View(pending, dryBase, parent)
    {
      layers := [];
      var h := parent;
      while h in pending
        invariant layers + Walk(pending, h) == Walk(pending, parent)
        decreases if h in pending then pending[h].block + 1 else 0
      {
        layers := layers + [pending[h].layer];
        h := pending[h].parent;
      }
      if dryBase.Some? {
        layers := layers + [dryBase.value];
      }
    }

    method Prune(height: U64)
      modifies this`pending, this`finalized
      ensures pending == Pruned(old(pending), height) && finalized == height
    {
      finalized := height;
      pending := map h | h in pending && pending[h].block > height :: pending[h];
    }

    /** Called after the store committed the block. */
    method OnFinalized(height: U64)
      modifies this`pending, this`finalized
      ensures pending == Pruned(old(pending), height) && finalized == height
    {
      Prune(height);
    }

    /** The dry-run form: the store never advances, so the diff folds into a base layer. */
    method FoldFinalized(b: Batch)
      modifies this
      ensures pending == Pruned(old(pending), b.block) && finalized == b.block
      ensures dryBase == Some(LayerOps(if old(dryBase).Some? then old(dryBase).value else EMPTY, b.ops))
    {
      var base := if dryBase.Some? then dryBase.value else EMPTY;
      base := ApplyLayer(base, b.ops);
      dryBase := Some(base);
      Prune(b.block);
    }
  }

  /** hb is on the way from h down to the boundary. */
  ghost predicate Above(t: Tree, h: Hash, hb: Hash)
    requires Linked(t)
    decreases if h in t then t[h].block + 1 else 0
  {
    h in t && (h == hb || Above(t, t[h].parent, hb))
  }

  lemma {:induction false} AboveIsHigher(t: Tree, h: Hash, hb: Hash)
    requires Linked(t) && Above(t, h, hb)
    ensures hb in t && t[hb].block <= t[h].block && (h != hb ==> t[hb].block < t[h].block)
    decreases t[h].block
  {
    if h != hb {
      AboveIsHigher(t, t[h].parent, hb);
    }
  }

  /** Pruning through an accepted block removes exactly the bottom layer of every chain above it. */
  lemma {:induction false} PruneDropsBottom(t: Tree, h: Hash, hb: Hash)
    requires Linked(t) && Above(t, h, hb) && hb in t && t[hb].parent !in t
    ensures Linked(Pruned(t, t[hb].block))
    ensures Walk(t, h) == Walk(Pruned(t, t[hb].block), h) + [t[hb].layer]
    decreases t[h].block
  {
    var t' := Pruned(t, t[hb].block);
    PrunedLinked(t, t[hb].block);
    if h != hb {
      AboveIsHigher(t, h, hb);
      PruneDropsBottom(t, t[h].parent, hb);
      assert Walk(t', h) == [t[h].layer] + Walk(t', t[h].parent);
    }
  }

  /**
   Commit, then prune: accepting block b (a child of the finalized block, already
   in the tree) moves b from the layers into the store, and every chain above b
   reads exactly as before. ViewsKeptIff says that only those do.
   */
  lemma CommitThenPruneKeepsViews(t: Tree, st: State, b: Batch, h: Hash, a: Address, k: SKey)
    requires Linked(t) && Above(t, h, b.hash) && b.hash in t
    requires t[b.hash] == Node(b.block, b.parent, Compile(b.ops)) && b.parent !in t
    ensures Linked(Pruned(t, b.block))
    ensures Or(StackAccount(Walk(Pruned(t, b.block), h), a), ApplyOps(st, b.ops).Account(a))
         == Or(StackAccount(Walk(t, h), a), st.Account(a))
    ensures Or(StackSlot(Walk(Pruned(t, b.block), h), k), ApplyOps(st, b.ops).Slot(k))
         == Or(StackSlot(Walk(t, h), k), st.Slot(k))
  {
    hide Compile, ApplyOps;
    PruneDropsBottom(t, h, b.hash);
    var rest := Walk(Pruned(t, b.block), h);
    StackAppend(rest, [Compile(b.ops)], a, k);
    assert [Compile(b.ops)][1..] == [];
    CompiledLayerMeaning(st, b.ops, a, k);
  }

  /** The same for the dry run, where b moves from the layers into the folded base. */
  lemma FoldThenPruneKeepsViews(t: Tree, dry: Option<Layer>, b: Batch, h: Hash, a: Address, k: SKey)
    requires Linked(t) && Above(t, h, b.hash) && b.hash in t
    requires t[b.hash] == Node(b.block, b.parent, Compile(b.ops)) && b.parent !in t
    ensures Linked(Pruned(t, b.block))
    ensures var base := if dry.Some? then dry.value else EMPTY;
            var after := View(Pruned(t, b.block), Some(LayerOps(base, b.ops)), h);
            && StackAccount(after, a) == StackAccount(View(t, dry, h), a)
            && StackSlot(after, k) == StackSlot(View(t, dry, h), k)
  {
    hide LayerOps;
    PruneDropsBottom(t, h, b.hash);
    var base := if dry.Some? then dry.value else EMPTY;
    var rest, top := Walk(Pruned(t, b.block), h), LayerOps(EMPTY, b.ops);
    var bottom := if dry.Some? then [dry.value] else [];
    StackAppend(rest, [LayerOps(base, b.ops)], a, k);
    StackAppend(rest + [top], bottom, a, k);
    StackAppend(rest, [top], a, k);
    SingleLayer(top, a, k);
    SingleLayer(LayerOps(base, b.ops), a, k);
    SingleLayer(base, a, k);
    AccountEffectAfter(base, b.ops, a);
    SlotEffectAfter(base, b.ops, k);
    AccountEffectAfter(EMPTY, b.ops, a);
    SlotEffectAfter(EMPTY, b.ops, k);
  }

  /** A code read of a view: its layers, then the store. */
  function CodeIn(layers: seq<Layer>, kv: Store.KV, h: Hash): Store.Result<bytes> {
    match StackCode(layers, h)
    case Set(c) => Store.Ok(c)
    case Keep => Store.GetCode(kv, h)
  }

  /** Committing or folding the block keeps the code reads of every chain above it too. */
  lemma PruneKeepsCode(t: Tree, dry: Option<Layer>, kv: Store.KV, b: Batch, h: Hash, code: Hash)
    requires Linked(t) && Above(t, h, b.hash) && b.hash in t
    requires t[b.hash] == Node(b.block, b.parent, Compile(b.ops)) && b.parent !in t
    ensures Linked(Pruned(t, b.block))
    ensures CodeIn(Walk(Pruned(t, b.block), h), Store.AfterWriteBlock(kv, b), code) == CodeIn(Walk(t, h), kv, code)
    ensures var base := if dry.Some? then dry.value else EMPTY;
            CodeIn(View(Pruned(t, b.block), Some(LayerOps(base, b.ops)), h), kv, code)
            == CodeIn(View(t, dry, h), kv, code)
  {
    hide LayerOps, NamesLast, NamesNone, Store.AfterWriteBlock, Store.GetCode, StackCode;
    PruneDropsBottom(t, h, b.hash);
    var base := if dry.Some? then dry.value else EMPTY;
    var rest, top := Walk(Pruned(t, b.block), h), LayerOps(EMPTY, b.ops);
    var bottom := if dry.Some? then [dry.value] else [];
    StackCodeAppend(rest, [top], code);
    StackCodeAppend(rest + [top], bottom, code);
    StackCodeAppend(rest, [LayerOps(base, b.ops)], code);
    SingleCode(top, code);
    SingleCode(base, code);
    SingleCode(LayerOps(base, b.ops), code);
    CodeByLast(base, b.ops, code);
    LastOrNone(b.ops, code);
    CodeAfter(EMPTY, b.ops, code);
    Store.WriteBlockCode(kv, b, code);
  }

  lemma SingleCode(l: Layer, h: Hash)
    ensures StackCode([l], h) == l.Code(h) && StackCode([], h) == Keep && EMPTY.Code(h) == Keep
  {
    assert [l][1..] == [];
  }

  lemma SingleLayer(l: Layer, a: Address, k: SKey)
    ensures StackAccount([l], a) == l.Account(a) && StackSlot([l], k) == l.Slot(k)
  {
    assert [l][1..] == [];
  }

  // ----- what a view reads -----

  /** The tree holds the batches of a chain that grows from the finalized block. */
  ghost predicate Holds(t: Tree, blocks: seq<Batch>) {
    && (forall i :: 0 <= i < |blocks| ==>
          blocks[i].hash in t && t[blocks[i].hash] == Node(blocks[i].block, blocks[i].parent, Compile(blocks[i].ops)))
    && (blocks != [] ==> blocks[0].parent !in t)
    && (forall i :: 0 < i < |blocks| ==> blocks[i].parent == blocks[i - 1].hash)
  }

  lemma {:induction false} WalkIsStack(t: Tree, blocks: seq<Batch>)
    requires Linked(t) && blocks != [] && Holds(t, blocks)
    ensures Walk(t, blocks[|blocks| - 1].hash) == StackOf(blocks)
    decreases |blocks|
  {
    hide Compile;
    var older, b := blocks[..|blocks| - 1], blocks[|blocks| - 1];
    assert t[b.hash] == Node(b.block, b.parent, Compile(b.ops));
    if older == [] {
      assert StackOf(older) == [] && blocks[0] == b;
    } else {
      assert b.parent == older[|older| - 1].hash;
      assert Holds(t, older);
      WalkIsStack(t, older);
    }
  }

  /** A block executes against the state after its parent: the finalized state with every block in between applied. */
  lemma ViewIsReference(t: Tree, st: State, blocks: seq<Batch>, a: Address, k: SKey)
    requires Linked(t) && blocks != [] && Holds(t, blocks)
    ensures var v := Walk(t, blocks[|blocks| - 1].hash);
            && Or(StackAccount(v, a), st.Account(a)) == StateAfter(st, blocks).Account(a)
            && Or(StackSlot(v, k), st.Slot(k)) == StateAfter(st, blocks).Slot(k)
  {
    WalkIsStack(t, blocks);
    StackMeaning(st, blocks, a, k);
  }

  // ----- exactly which views survive a prune -----

  /** The blocks a view of h reads, newest first. */
  ghost function HashWalk(t: Tree, h: Hash): seq<Hash>
    requires Linked(t)
    decreases if h in t then t[h].block + 1 else 0
  {
    if h !in t then [] else [h] + HashWalk(t, t[h].parent)
  }

  lemma {:induction false} WalkHolds(t: Tree, h: Hash, hb: Hash)
    requires Linked(t)
    ensures hb in HashWalk(t, h) <==> Above(t, h, hb)
    decreases if h in t then t[h].block + 1 else 0
  {
    if h in t {
      WalkHolds(t, t[h].parent, hb);
    }
  }

  lemma {:induction false} PruneDropsLast(t: Tree, h: Hash, hb: Hash)
    requires Linked(t) && Above(t, h, hb) && hb in t && t[hb].parent !in t
    ensures Linked(Pruned(t, t[hb].block))
    ensures HashWalk(t, h) == HashWalk(Pruned(t, t[hb].block), h) + [hb]
    decreases t[h].block
  {
    var t' := Pruned(t, t[hb].block);
    PrunedLinked(t, t[hb].block);
    if h != hb {
      AboveIsHigher(t, h, hb);
      PruneDropsLast(t, t[h].parent, hb);
      assert HashWalk(t', h) == [h] + HashWalk(t', t[h].parent);
    }
  }

  /**
   The prune deletes by height alone, so blocks of a rejected fork above the
   accepted block stay. A view loses exactly the accepted block, which the store now
   holds, if and only if it is a view of a block above it.
   */
  lemma PruneLosesAcceptedIff(t: Tree, h: Hash, hb: Hash)
    requires Linked(t) && hb in t && t[hb].parent !in t
    ensures Linked(Pruned(t, t[hb].block))
    ensures HashWalk(t, h) == HashWalk(Pruned(t, t[hb].block), h) + [hb] <==> Above(t, h, hb)
  {
    PrunedLinked(t, t[hb].block);
    WalkHolds(t, h, hb);
    assert hb in HashWalk(Pruned(t, t[hb].block), h) + [hb];
    if Above(t, h, hb) {
      PruneDropsLast(t, h, hb);
    }
  }

  function OpsOf(ops: map<Hash, seq<Op>>, h: Hash): seq<Op> {
    if h in ops then ops[h] else []
  }

  /** The tree with the given operations executed in its blocks. */
  function Filled(t: Tree, ops: map<Hash, seq<Op>>): Tree {
    map h | h in t :: t[h].(layer := Compile(OpsOf(ops, h)))
  }

  lemma {:induction false} FilledAlike(t: Tree, ops: map<Hash, seq<Op>>, h: Hash, hb: Hash)
    requires Linked(t)
    ensures Linked(Filled(t, ops)) && (Above(Filled(t, ops), h, hb) <==> Above(t, h, hb))
    decreases if h in t then t[h].block + 1 else 0
  {
    hide Compile;
    if h in t {
      FilledAlike(t, ops, t[h].parent, hb);
    }
  }

  /** Committing and pruning hb leaves the answers of a view of h unchanged. */
  ghost predicate CommitKeeps(t: Tree, hb: Hash, h: Hash, ops: map<Hash, seq<Op>>, st: State, a: Address, k: SKey)
    requires Linked(t) && hb in t
  {
    var f := Filled(t, ops);
    var p := Pruned(f, t[hb].block);
    FilledAlike(t, ops, h, hb);
    PrunedLinked(f, t[hb].block);
    && Or(StackAccount(Walk(p, h), a), ApplyOps(st, OpsOf(ops, hb)).Account(a))
        == Or(StackAccount(Walk(f, h), a), st.Account(a))
    && Or(StackSlot(Walk(p, h), k), ApplyOps(st, OpsOf(ops, hb)).Slot(k)) == Or(StackSlot(Walk(f, h), k), st.Slot(k))
  }

  /** Folding and pruning hb does. */
  ghost predicate FoldKeeps(t: Tree, hb: Hash, h: Hash, ops: map<Hash, seq<Op>>, dry: Option<Layer>, a: Address,
      k: SKey)
    requires Linked(t) && hb in t
  {
    var f := Filled(t, ops);
    var base := if dry.Some? then dry.value else EMPTY;
    FilledAlike(t, ops, h, hb);
    PrunedLinked(f, t[hb].block);
    var after := View(Pruned(f, t[hb].block), Some(LayerOps(base, OpsOf(ops, hb))), h);
    && StackAccount(after, a) == StackAccount(View(f, dry, h), a)
    && StackSlot(after, k) == StackSlot(View(f, dry, h), k)
  }

  /** With nothing in any block of the walk, a view reads through. */
  lemma {:induction false} QuietWalk(t: Tree, ops: map<Hash, seq<Op>>, h: Hash, hb: Hash, a: Address)
    requires Linked(t) && !Above(t, h, hb) && ops.Keys == {hb}
    ensures Linked(Filled(t, ops)) && StackAccount(Walk(Filled(t, ops), h), a) == Keep
    decreases if h in t then t[h].block + 1 else 0
  {
    FilledAlike(t, ops, h, hb);
    var f := Filled(t, ops);
    if h in t {
      QuietWalk(t, ops, t[h].parent, hb, a);
      assert Walk(f, h)[1..] == Walk(f, t[h].parent);
      assert f[h].layer == Compile([]);
    }
  }

  lemma {:induction false} QuietPruned(t: Tree, ops: map<Hash, seq<Op>>, h: Hash, hb: Hash, a: Address)
    requires Linked(t) && hb in t && ops.Keys == {hb}
    ensures Linked(Pruned(Filled(t, ops), t[hb].block))
    ensures StackAccount(Walk(Pruned(Filled(t, ops), t[hb].block), h), a) == Keep
    decreases if h in t then t[h].block + 1 else 0
  {
    FilledAlike(t, ops, h, hb);
    var f := Filled(t, ops);
    var p := Pruned(f, t[hb].block);
    PrunedLinked(f, t[hb].block);
    if h in p {
      QuietPruned(t, ops, t[h].parent, hb, a);
      assert Walk(p, h)[1..] == Walk(p, t[h].parent);
      assert p[h].layer == Compile([]);
    }
  }

  /**
   Whatever the blocks contain and whatever lies below, committing or folding an
   accepted block and pruning keeps a surviving view's answers: if and only if the
   view's block is above the accepted one.
   */
  lemma ViewsKeptIff(t: Tree, hb: Hash, h: Hash)
    requires Linked(t) && hb in t && t[hb].parent !in t
    ensures (forall ops, st, a, k :: CommitKeeps(t, hb, h, ops, st, a, k)) <==> Above(t, h, hb)
    ensures (forall ops, dry, a, k :: FoldKeeps(t, hb, h, ops, dry, a, k)) <==> Above(t, h, hb)
  {
    hide CommitKeeps, FoldKeeps, Above;
    if Above(t, h, hb) {
      forall ops, st, a, k ensures CommitKeeps(t, hb, h, ops, st, a, k) {
        AboveIsKept(t, hb, h, ops, st, None, a, k);
      }
      forall ops, dry, a, k ensures FoldKeeps(t, hb, h, ops, dry, a, k) {
        AboveIsKept(t, hb, h, ops, State(map[], map[]), dry, a, k);
      }
    } else {
      RejectedForkSeesAccepted(t, hb, h, Blank(20), Account(0, 0, ZERO));
    }
  }

  lemma AboveIsKept(t: Tree, hb: Hash, h: Hash, ops: map<Hash, seq<Op>>, st: State, dry: Option<Layer>, a: Address,
      k: SKey)
    requires Linked(t) && hb in t && t[hb].parent !in t && Above(t, h, hb)
    ensures CommitKeeps(t, hb, h, ops, st, a, k) && FoldKeeps(t, hb, h, ops, dry, a, k)
  {
    hide Compile, ApplyOps, StackAccount, StackSlot, LayerOps;
    FilledAlike(t, ops, h, hb);
    var f := Filled(t, ops);
    var b := Batch(t[hb].block, hb, t[hb].parent, 0, OpsOf(ops, hb));
    CommitThenPruneKeepsViews(f, st, b, h, a, k);
    FoldThenPruneKeepsViews(f, dry, b, h, a, k);
  }

  /**
   The failing family: a block of a rejected fork. Before the prune it does not see
   an account the accepted block writes; after it, it does.
   */
  lemma RejectedForkSeesAccepted(t: Tree, hb: Hash, h: Hash, a: Address, x: Account)
    requires Linked(t) && hb in t && !Above(t, h, hb)
    ensures var ops, below := map[hb := [OpAccount(a, x)]], State(map[], map[]);
            var f := Filled(t, ops);
            && Linked(f) && Linked(Pruned(f, t[hb].block))
            && Or(StackAccount(Walk(f, h), a), below.Account(a)) == None
            && Or(StackAccount(Walk(Pruned(f, t[hb].block), h), a), ApplyOps(below, ops[hb]).Account(a)) == Some(x)
    ensures exists ops, st, k :: !CommitKeeps(t, hb, h, ops, st, a, k)
    ensures exists ops, dry, k :: !FoldKeeps(t, hb, h, ops, dry, a, k)
  {
    var ops, below := map[hb := [OpAccount(a, x)]], State(map[], map[]);
    var k := SKey(a, ZERO);
    QuietWalk(t, ops, h, hb, a);
    QuietPruned(t, ops, h, hb, a);
    assert ops[hb][..0] == [];
    var f := Filled(t, ops);
    assert !CommitKeeps(t, hb, h, ops, below, a, k);
    var fold := LayerOps(EMPTY, ops[hb]);
    StackAppend(Walk(Pruned(f, t[hb].block), h), [fold], a, k);
    SingleLayer(fold, a, k);
    assert View(f, None, h) == Walk(f, h);
    assert !FoldKeeps(t, hb, h, ops, None, a, k);
  }
}
