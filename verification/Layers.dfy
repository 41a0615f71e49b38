/**
 Overlay layers (mem/mem.go newLayer, follower/exec/statedb.go layer): one
 block's ops compiled for lookup, and views that stack them newest first over a
 finalized state. The executor (follower/exec/exec.go) prunes layers as blocks
 are accepted.
 */
module Layers {
  import opened Bytes
  import opened Schema
  import opened Capture
  import opened Reference

  datatype Layer = Layer(accounts: map<Address, Account>, slots: map<SKey, Hash>,
                         destructed: set<Address>, codes: map<Hash, bytes>)
  {
    /** What the layer says about an account: accounts are checked before destructs. */
    function Account(a: Address): Effect<Option<Account>> {
      if a in accounts then Set(Some(accounts[a]))
      else if a in destructed then Set(None)
      else Keep
    }

    function Slot(k: SKey): Effect<Hash> {
      if k in slots then Set(slots[k])
      else if k.addr in destructed then Set(ZERO)
      else Keep
    }

    function Code(h: Hash): Effect<bytes> {
      if h in codes then Set(codes[h]) else Keep
    }
  }

  const EMPTY := Layer(map[], map[], {}, map[])

  function LayerOp(l: Layer, op: Op): Layer {
    match op
    case OpAccount(a, acct) => l.(accounts := l.accounts[a := acct])
    case OpSlot(a, s, v) => l.(slots := l.slots[SKey(a, s) := v])
    case OpDeleteSlot(a, s) => l.(slots := l.slots[SKey(a, s) := ZERO])
    case OpDestruct(a) =>
      Layer(l.accounts - {a}, WithoutSlotsOf(l.slots, a), l.destructed + {a}, l.codes)
    case OpCode(h, c) => l.(codes := l.codes[h := c])
  }

  function LayerOps(l: Layer, ops: seq<Op>): Layer {
    if ops == [] then l else LayerOp(LayerOps(l, ops[..|ops| - 1]), ops[|ops| - 1])
  }

  /** The later effect wins where it has something to say. */
  function Then<T>(first: Effect<T>, second: Effect<T>): Effect<T> {
    match second
    case Keep => first
    case Set(_) => second
  }

  lemma EffectOfOp(l: Layer, op: Op, a: Address, k: SKey)
    ensures LayerOp(l, op).Account(a) == OnAccount(op, a, l.Account(a))
    ensures LayerOp(l, op).Slot(k) == OnSlot(op, k, l.Slot(k))
  {
  }

  lemma {:induction false} AccountEffectAfter(l: Layer, ops: seq<Op>, a: Address)
    ensures LayerOps(l, ops).Account(a) == Then(l.Account(a), AccountEffect(ops, a))
  {
    if ops != [] {
      hide LayerOp;
      AccountEffectAfter(l, ops[..|ops| - 1], a);
      EffectOfOp(LayerOps(l, ops[..|ops| - 1]), ops[|ops| - 1], a, SKey(a, ZERO));
    }
  }

  lemma {:induction false} SlotEffectAfter(l: Layer, ops: seq<Op>, k: SKey)
    ensures LayerOps(l, ops).Slot(k) == Then(l.Slot(k), SlotEffect(ops, k))
  {
    if ops != [] {
      hide LayerOp;
      SlotEffectAfter(l, ops[..|ops| - 1], k);
      EffectOfOp(LayerOps(l, ops[..|ops| - 1]), ops[|ops| - 1], k.addr, k);
    }
  }

  /** The compiled form of a batch; any op order, no contract needed. */
  function Compile(ops: seq<Op>): Layer {
    LayerOps(EMPTY, ops)
  }

  /** A compiled layer over any state reads like applying its ops one by one. */
  lemma CompiledLayerMeaning(st: State, ops: seq<Op>, a: Address, k: SKey)
    ensures Or(Compile(ops).Account(a), st.Account(a)) == ApplyOps(st, ops).Account(a)
    ensures Or(Compile(ops).Slot(k), st.Slot(k)) == ApplyOps(st, ops).Slot(k)
  {
    AccountEffectAfter(EMPTY, ops, a);
    SlotEffectAfter(EMPTY, ops, k);
    ReadAfterOps(st, ops, a, k);
  }

  /** The loop that builds a layer, or folds further ops into one. */
  method ApplyLayer(l: Layer, ops: seq<Op>) returns (r: Layer)
    ensures r == LayerOps(l, ops)
  {
    r := l;
    var i := 0;
    while i < |ops|
      invariant 0 <= i <= |ops|
      invariant r == LayerOps(l, ops[..i])
    {
      assert ops[..i + 1][..i] == ops[..i];
      match ops[i] {
      case OpAccount(a, acct) => r := r.(accounts := r.accounts[a := acct]);
      case OpSlot(a, s, v) => r := r.(slots := r.slots[SKey(a, s) := v]);
      case OpDeleteSlot(a, s) => r := r.(slots := r.slots[SKey(a, s) := ZERO]);
      case OpDestruct(a) =>
        r := Layer(r.accounts - {a}, WithoutSlotsOf(r.slots, a), r.destructed + {a}, r.codes);
      case OpCode(h, c) => r := r.(codes := r.codes[h := c]);
      }
      i := i + 1;
    }
    assert ops[..i] == ops;
  }

  lemma CodeOfOp(l: Layer, op: Op, h: Hash)
    ensures LayerOp(l, op).Code(h) == if NamesCode(op, h) then Set(op.code) else l.Code(h)
  {
  }

  /** A layer answers for a code with the last op that names it. */
  lemma {:induction false} CodeAfter(l: Layer, ops: seq<Op>, h: Hash)
    ensures forall i: nat :: NamesLast(ops, i, h) ==> LayerOps(l, ops).Code(h) == Set(ops[i].code)
    ensures NamesNone(ops, h) ==> LayerOps(l, ops).Code(h) == l.Code(h)
  {
    hide LayerOp;
    if ops != [] {
      var front, last := ops[..|ops| - 1], ops[|ops| - 1];
      CodeAfter(l, front, h);
      CodeOfOp(LayerOps(l, front), last, h);
      if !NamesCode(last, h) {
        forall i: nat | NamesLast(ops, i, h) ensures NamesLast(front, i, h) {
        }
      }
    }
  }

  // ----- stacks of layers, newest first -----

  function StackAccount(layers: seq<Layer>, a: Address): Effect<Option<Account>> {
    if layers == [] then Keep
    else if layers[0].Account(a).Set? then layers[0].Account(a)
    else StackAccount(layers[1..], a)
  }

  function StackSlot(layers: seq<Layer>, k: SKey): Effect<Hash> {
    if layers == [] then Keep
    else if layers[0].Slot(k).Set? then layers[0].Slot(k)
    else StackSlot(layers[1..], k)
  }

  function StackCode(layers: seq<Layer>, h: Hash): Effect<bytes> {
    if layers == [] then Keep
    else if layers[0].Code(h).Set? then layers[0].Code(h)
    else StackCode(layers[1..], h)
  }

  /** A batch list as a stack: the newest batch's layer in front. */
  function StackOf(blocks: seq<Batch>): seq<Layer> {
    if blocks == [] then [] else [Compile(blocks[|blocks| - 1].ops)] + StackOf(blocks[..|blocks| - 1])
  }

  /** A stack of compiled batches over any state reads like applying the batches in order. */
  lemma {:induction false} StackMeaning(st: State, blocks: seq<Batch>, a: Address, k: SKey)
    ensures Or(StackAccount(StackOf(blocks), a), st.Account(a)) == StateAfter(st, blocks).Account(a)
    ensures Or(StackSlot(StackOf(blocks), k), st.Slot(k)) == StateAfter(st, blocks).Slot(k)
  {
    if blocks != [] {
      var older, top := blocks[..|blocks| - 1], blocks[|blocks| - 1].ops;
      StackMeaning(st, older, a, k);
      CompiledLayerMeaning(StateAfter(st, older), top, a, k);
      assert StackOf(blocks)[1..] == StackOf(older);
    }
  }

  /** A stack answers for a code with the last op of the newest block that names it. */
  lemma {:induction false} StackCodeMeaning(blocks: seq<Batch>, h: Hash)
    ensures forall n: nat, i: nat ::
              n < |blocks| && NamesLast(blocks[n].ops, i, h) && NamedNowhereAfter(blocks, n, h) ==>
                StackCode(StackOf(blocks), h) == Set(blocks[n].ops[i].code)
    ensures (forall n :: 0 <= n < |blocks| ==> NamesNone(blocks[n].ops, h)) ==> StackCode(StackOf(blocks), h) == Keep
  {
    hide NamesNone, LayerOps;
    if blocks != [] {
      var older, top := blocks[..|blocks| - 1], blocks[|blocks| - 1].ops;
      StackCodeMeaning(older, h);
      CodeAfter(EMPTY, top, h);
      assert StackOf(blocks)[1..] == StackOf(older);
      forall n: nat, i: nat | n < |blocks| && NamesLast(blocks[n].ops, i, h) && NamedNowhereAfter(blocks, n, h)
        ensures StackCode(StackOf(blocks), h) == Set(blocks[n].ops[i].code)
      {
        if n < |older| {
          assert NamesNone(blocks[|blocks| - 1].ops, h);
          assert NamedNowhereAfter(older, n, h) && NamesLast(older[n].ops, i, h);
        }
      }
    }
  }

  ghost predicate NamedNowhereAfter(blocks: seq<Batch>, n: nat, h: Hash) {
    forall m :: n < m < |blocks| ==> NamesNone(blocks[m].ops, h)
  }

  function FoldLayer(l: Layer, blocks: seq<Batch>): Layer {
    if blocks == [] then l
    else LayerOps(FoldLayer(l, blocks[..|blocks| - 1]), blocks[|blocks| - 1].ops)
  }

  /** Folding k batches into one cumulative layer reads the same as stacking k layers. */
  lemma {:induction false} FoldedReadsLikeStack(blocks: seq<Batch>, a: Address, k: SKey)
    ensures FoldLayer(EMPTY, blocks).Account(a) == StackAccount(StackOf(blocks), a)
    ensures FoldLayer(EMPTY, blocks).Slot(k) == StackSlot(StackOf(blocks), k)
  {
    if blocks != [] {
      var older, top := blocks[..|blocks| - 1], blocks[|blocks| - 1].ops;
      FoldedReadsLikeStack(older, a, k);
      AccountEffectAfter(FoldLayer(EMPTY, older), top, a);
      SlotEffectAfter(FoldLayer(EMPTY, older), top, k);
      AccountEffectAfter(EMPTY, top, a);
      SlotEffectAfter(EMPTY, top, k);
      assert StackOf(blocks)[1..] == StackOf(older);
    }
  }

  lemma CodeByLast(l: Layer, ops: seq<Op>, h: Hash)
    ensures LayerOps(l, ops).Code(h) == Then(l.Code(h), LayerOps(EMPTY, ops).Code(h))
  {
    hide NamesLast, NamesNone, LayerOps;
    LastOrNone(ops, h);
    CodeAfter(l, ops, h);
    CodeAfter(EMPTY, ops, h);
  }

  /** The same for codes. */
  lemma {:induction false} FoldedCodeReadsLikeStack(blocks: seq<Batch>, h: Hash)
    ensures FoldLayer(EMPTY, blocks).Code(h) == StackCode(StackOf(blocks), h)
  {
    if blocks != [] {
      var older := blocks[..|blocks| - 1];
      FoldedCodeReadsLikeStack(older, h);
      CodeByLast(FoldLayer(EMPTY, older), blocks[|blocks| - 1].ops, h);
      assert StackOf(blocks)[1..] == StackOf(older);
    }
  }

  lemma {:induction false} StackCodeAppend(upper: seq<Layer>, lower: seq<Layer>, h: Hash)
    ensures StackCode(upper + lower, h) == Then(StackCode(lower, h), StackCode(upper, h))
  {
    if upper == [] {
      assert upper + lower == lower;
    } else {
      StackCodeAppend(upper[1..], lower, h);
      assert (upper + lower)[1..] == upper[1..] + lower;
    }
  }

  lemma {:induction false} StackAppend(upper: seq<Layer>, lower: seq<Layer>, a: Address, k: SKey)
    ensures StackAccount(upper + lower, a) == Then(StackAccount(lower, a), StackAccount(upper, a))
    ensures StackSlot(upper + lower, k) == Then(StackSlot(lower, k), StackSlot(upper, k))
  {
    if upper == [] {
      assert upper + lower == lower;
    } else {
      StackAppend(upper[1..], lower, a, k);
      assert (upper + lower)[1..] == upper[1..] + lower;
    }
  }
}
