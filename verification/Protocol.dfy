/**
 Value-level reasoning about the published stack: what makes a chain of batches
 publishable, and how the three events a sink knows move the tip view's world.
 */
module Protocol {
  import opened Bytes
  import opened Schema
  import opened Capture
  import opened Reference
  import opened Store
  import opened History
  import opened TipView
  import opened TipBus

  /** What a block hash determines: the batch, the height and the state after the block. */
  datatype Info = Info(batch: Batch, height: nat, state: State)

  type Universe = imap<Hash, Info>

  /** An executed block: height rises by one, the capture contract holds, sizes fit the wire. */
  ghost predicate Good(u: Universe, b: Batch) {
    && b.hash in u && b.parent in u
    && u[b.hash].batch == b
    && u[b.hash].height == b.block && b.block == u[b.parent].height + 1
    && b.block < MAX_U64
    && u[b.hash].state == ApplyOps(u[b.parent].state, b.ops)
    && Contract(u[b.parent].state, b.ops)
    && FrameFits(b)
  }

  /** A hash-linked chain of executed blocks on top of the finalized one. */
  ghost predicate Linked(u: Universe, fin: Hash, stack: seq<Batch>) {
    && fin in u
    && (forall i :: 0 <= i < |stack| ==> Good(u, stack[i]))
    && (stack != [] ==> stack[0].parent == fin)
    && (forall i :: 0 < i < |stack| ==> stack[i].parent == stack[i - 1].hash)
  }

  lemma LinkedPush(u: Universe, fin: Hash, stack: seq<Batch>, b: Batch)
    requires Linked(u, fin, stack) && Good(u, b)
    requires b.parent == if stack == [] then fin else stack[|stack| - 1].hash
    ensures Linked(u, fin, stack + [b])
  {
    hide Good;
  }

  lemma GoodInUniverse(u: Universe, b: Batch)
    requires Good(u, b)
    ensures b.hash in u && b.parent in u
  {
  }

  lemma LinkedPop(u: Universe, fin: Hash, stack: seq<Batch>)
    requires Linked(u, fin, stack) && stack != []
    ensures Linked(u, stack[0].hash, stack[1..])
  {
    hide Good;
    assert stack[0].hash in u by { assert Good(u, stack[0]); GoodInUniverse(u, stack[0]); }
  }

  lemma LinkedPrefix(u: Universe, fin: Hash, stack: seq<Batch>, n: nat)
    requires Linked(u, fin, stack) && n <= |stack|
    ensures Linked(u, fin, stack[..n])
  {
    hide Good;
  }

  lemma {:induction false} LinkedHeights(u: Universe, fin: Hash, stack: seq<Batch>, i: nat)
    requires Linked(u, fin, stack) && i < |stack|
    ensures stack[i].block == u[fin].height + 1 + i
    decreases i
  {
    hide ApplyOps, Contract, FrameFits;
    assert Good(u, stack[i]);
    if i > 0 {
      LinkedHeights(u, fin, stack, i - 1);
      assert Good(u, stack[i - 1]);
    }
  }

  lemma {:induction false} LinkedStates(u: Universe, fin: Hash, st: State, stack: seq<Batch>, i: nat)
    requires Linked(u, fin, stack) && i <= |stack| && st == u[fin].state
    ensures i == 0 ==> StateAfter(st, stack[..i]) == u[fin].state
    ensures i > 0 ==> stack[i - 1].hash in u && StateAfter(st, stack[..i]) == u[stack[i - 1].hash].state
    decreases i
  {
    hide Linked, ApplyOps;
    if i > 0 {
      LinkedStep(u, fin, stack, i - 1);
      LinkedStates(u, fin, st, stack, i - 1);
      assert stack[..i][..i - 1] == stack[..i - 1];
    }
  }

  /** A block's state is its operations applied to its parent's. */
  lemma LinkedStep(u: Universe, fin: Hash, stack: seq<Batch>, i: nat)
    requires Linked(u, fin, stack) && i < |stack|
    ensures stack[i].hash in u && stack[i].parent in u
    ensures u[stack[i].hash].state == ApplyOps(u[stack[i].parent].state, stack[i].ops)
    ensures stack[i].parent == if i == 0 then fin else stack[i - 1].hash
  {
    hide ApplyOps, Contract, FrameFits;
    assert Good(u, stack[i]);
  }

  /** The store's chain ends in the finalized block. */
  ghost predicate EndsAt(u: Universe, c: Chain, fin: Hash) {
    && fin in u
    && u[fin].height == c.s + |c.blocks|
    && u[fin].state == StateAfter(c.base, c.blocks)
  }

  /** A linked stack on top of a respectful store is a respectful chain. */
  lemma StackRespects(u: Universe, c: Chain, fin: Hash, stack: seq<Batch>)
    requires Respects(c) && EndsAt(u, c, fin) && Linked(u, fin, stack)
    ensures Respects(c.(blocks := c.blocks + stack))
  {
    hide Good;
    var all, n := c.blocks + stack, |c.blocks|;
    forall m | 0 <= m < |all| ensures all[m].block == c.s + 1 + m {
      if m >= n {
        LinkedHeights(u, fin, stack, m - n);
      }
    }
    StackNumbered(u, c, fin, stack);
    forall m | 0 <= m < |all| ensures Contract(StateAfter(c.base, all[..m]), all[m].ops) {
      if m < n {
        assert all[..m] == c.blocks[..m];
      } else {
        StackContract(u, c, fin, stack, m - n);
      }
    }
  }

  lemma StackNumbered(u: Universe, c: Chain, fin: Hash, stack: seq<Batch>)
    requires EndsAt(u, c, fin) && Linked(u, fin, stack) && c.s + |c.blocks| < MAX_U64
    ensures c.s + |c.blocks| + |stack| < MAX_U64
  {
    if stack != [] {
      LinkedHeights(u, fin, stack, |stack| - 1);
      assert Good(u, stack[|stack| - 1]);
    }
  }

  lemma StackContract(u: Universe, c: Chain, fin: Hash, stack: seq<Batch>, i: nat)
    requires EndsAt(u, c, fin) && Linked(u, fin, stack) && i < |stack|
    ensures Contract(StateAfter(c.base, (c.blocks + stack)[..|c.blocks| + i]), stack[i].ops)
  {
    hide Contract;
    assert (c.blocks + stack)[..|c.blocks| + i] == c.blocks + stack[..i];
    StateAfterAppend(c.base, c.blocks, stack[..i]);
    LinkedStates(u, fin, StateAfter(c.base, c.blocks), stack, i);
    assert Good(u, stack[i]);
  }

  // ----- between events -----

  /** Between events the store has committed exactly what the base has folded. */
  ghost predicate Settled(u: Universe, w: World, fin: Hash, stack: seq<Batch>) {
    && Inv(w)
    && w.folded == |w.store.blocks|
    && w.view.layers == stack
    && EndsAt(u, w.store, fin)
    && Linked(u, fin, stack)
  }

  lemma SettledStore(w: World)
    requires Inv(w) && w.folded == |w.store.blocks|
    ensures Respects(w.store) && w.store.blocks[..w.folded] == w.store.blocks && w.store.blocks[w.folded..] == []
  {
    hide BaseInRange, BuffersInRange;
    StoreRespects(w);
  }

  lemma SettledApply(u: Universe, w: World, fin: Hash, stack: seq<Batch>, b: Batch)
    requires Settled(u, w, fin, stack) && Linked(u, fin, stack + [b])
    ensures Allowed(w, ApplyBlock(b))
    ensures Settled(u, Next(w, ApplyBlock(b)), fin, stack + [b])
  {
    hide Inv, EndsAt, Linked, Respects;
    SettledStore(w);
    StackRespects(u, w.store, fin, stack + [b]);
    assert Seen(w) + [b] == w.store.blocks + (stack + [b]);
    StepKeepsInv(w, ApplyBlock(b));
  }

  lemma SettledReset(u: Universe, w: World, fin: Hash, stack: seq<Batch>, preferred: seq<Batch>)
    requires Settled(u, w, fin, stack) && Linked(u, fin, preferred)
    ensures Allowed(w, Reset(preferred))
    ensures Settled(u, Next(w, Reset(preferred)), fin, preferred)
  {
    hide Inv, EndsAt, Linked, Respects;
    SettledStore(w);
    StackRespects(u, w.store, fin, preferred);
    StepKeepsInv(w, Reset(preferred));
  }

  /** Lookups and new executors between events leave everything settled. */
  lemma SettledLookup(u: Universe, w: World, fin: Hash, stack: seq<Batch>, step: Step)
    requires Settled(u, w, fin, stack) && Allowed(w, step)
    requires step.LookupAccount? || step.LookupSlot? || step.PinAccountFor? || step.Register?
    ensures Settled(u, Next(w, step), fin, stack)
  {
    hide Inv, EndsAt, Linked;
    StepKeepsInv(w, step);
  }

  /** The store commit of the oldest layer, before the base is folded. */
  function Committed(w: World, b: Batch): World {
    w.(kv := AfterWriteBlock(w.kv, b), store := Extend(w.store, b))
  }

  /** The base fold that follows. */
  function Folded(w: World, b: Batch): World {
    Committed(w, b).(view := AfterFinalize(w.view, b.block, b.hash), folded := w.folded + 1)
  }

  function Watermarked(w: World, b: Batch): World {
    Folded(w, b).(kv := Folded(w, b).kv[MetaFinalized := U64Bytes(b.block)])
  }

  /**
   The three ordered steps of finalizing the oldest layer: every state in between
   keeps the tip view's invariant, and the last one is settled one block higher.
   */
  lemma SettledFinalize(u: Universe, w: World, fin: Hash, stack: seq<Batch>)
    requires Settled(u, w, fin, stack) && stack != []
    ensures var b := stack[0];
            && Inv(Committed(w, b))
            && Inv(Folded(w, b))
            && Settled(u, Watermarked(w, b), b.hash, stack[1..])
  {
    var b := stack[0];
    var w1, w2, w3 := Committed(w, b), Folded(w, b), Watermarked(w, b);
    CommitFoldSteps(w);
    assert w1 == Next(w, Commit) && w2 == Next(w1, Finalize(b.block, b.hash));
    WatermarkStep(w2, b.block);
    LinkedPop(u, fin, stack);
    EndsAtNext(u, w.store, fin, stack);
    DrainKeepsLayers(w.view);
  }

  lemma CommitFoldSteps(w: World)
    requires Inv(w) && w.folded == |w.store.blocks| && w.view.layers != []
    ensures var b := w.view.layers[0];
            && Allowed(w, Commit) && Next(w, Commit) == Committed(w, b) && Inv(Committed(w, b))
            && Allowed(Committed(w, b), Finalize(b.block, b.hash))
            && Next(Committed(w, b), Finalize(b.block, b.hash)) == Folded(w, b) && Inv(Folded(w, b))
  {
    hide Inv, AfterWriteBlock, AfterFinalize;
    var b := w.view.layers[0];
    StepKeepsInv(w, Commit);
    StepKeepsInv(Committed(w, b), Finalize(b.block, b.hash));
  }

  lemma WatermarkStep(w: World, h: U64)
    requires Inv(w)
    ensures Inv(w.(kv := w.kv[MetaFinalized := U64Bytes(h)]))
  {
    hide BaseInRange, BuffersInRange, Represents, Respects, U64Bytes;
    var kv' := w.kv[MetaFinalized := U64Bytes(h)];
    RepresentsObserved(w.kv, kv', w.keccak, w.store);
    StepKeepsInv(w, OtherRows(kv'));
  }

  lemma EndsAtNext(u: Universe, c: Chain, fin: Hash, stack: seq<Batch>)
    requires EndsAt(u, c, fin) && Linked(u, fin, stack) && stack != []
    ensures EndsAt(u, Extend(c, stack[0]), stack[0].hash)
  {
    hide ApplyOps, Contract, FrameFits;
    assert Good(u, stack[0]);
    assert Extend(c, stack[0]).blocks[..|c.blocks|] == c.blocks;
  }
}
