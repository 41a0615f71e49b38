/**
 What the store's rows mean: a baseline state at height S plus one batch per
 block above it. Every read at S or later returns the fold of the batches up to
 its height, or fails loudly because the baseline is still loading.
 */
module History {
  import opened Bytes
  import opened Collections
  import opened Schema
  import opened Capture
  import opened Reference
  import opened Store

  /** The baseline state at height s and the blocks s+1, s+2, ... written since. */
  datatype Chain = Chain(s: U64, base: State, blocks: seq<Batch>)

  ghost predicate Numbered(c: Chain) {
    && c.s + |c.blocks| < MAX_U64
    && forall n :: 0 <= n < |c.blocks| ==> c.blocks[n].block == c.s + 1 + n
  }

  ghost predicate Respects(c: Chain) {
    Numbered(c) && Clean(c.base) && ChainContract(c.base, c.blocks)
  }

  /** The row a stem has at a block, by the batch of that block. */
  function RowAt(c: Chain, stem: Stem, b: U64): Option<bytes> {
    if c.s < b <= c.s + |c.blocks| then RowOf(c.blocks[b - c.s - 1].ops, stem) else None
  }

  ghost predicate HistoryRows(kv: KV, c: Chain) {
    forall stem: Stem, b: U64 :: Lookup(kv, Row(stem, b)) == RowAt(c, stem, b)
  }

  ghost predicate DiffRows(kv: KV, c: Chain) {
    forall b: U64 :: Lookup(kv, Diff(b))
                     == if c.s < b <= c.s + |c.blocks| then Some(Encode(c.blocks[b - c.s - 1])) else None
  }

  /** Whatever part of the baseline is loaded is true. */
  ghost predicate BaselineTrue(kv: KV, keccak: Keccak, base: State) {
    && (forall a: Address :: BaseAccount(keccak(a)) in kv ==>
          a in base.accounts && kv[BaseAccount(keccak(a))] == EncodeAccount(base.accounts[a]))
    && (forall k: SKey :: BaseSlot(keccak(k.addr), keccak(k.slot)) in kv ==>
          kv[BaseSlot(keccak(k.addr), keccak(k.slot))] == base.Slot(k))
  }

  /** Nothing of the baseline is missing. */
  ghost predicate BaselineFull(kv: KV, keccak: Keccak, base: State) {
    && (forall a: Address :: a in base.accounts ==> BaseAccount(keccak(a)) in kv)
    && (forall k: SKey :: base.Slot(k) != ZERO ==> BaseSlot(keccak(k.addr), keccak(k.slot)) in kv)
  }

  ghost predicate Represents(kv: KV, keccak: Keccak, c: Chain) {
    && Lookup(kv, MetaGenesis) == Some(U64Bytes(c.s))
    && HistoryRows(kv, c)
    && DiffRows(kv, c)
    && BaselineTrue(kv, keccak, c.base)
    && (MetaBaselineComplete in kv ==> BaselineFull(kv, keccak, c.base))
  }

  // ----- the rows of one batch and its effect -----

  lemma OrderedPrefix(ops: seq<Op>)
    requires ops != [] && Ordered(ops)
    ensures Ordered(ops[..|ops| - 1])
  {
  }

  /** A batch that writes an account has no destruct of it afterwards. */
  lemma {:induction false} NoTouchNoRow(ops: seq<Op>, a: Address)
    requires forall i :: 0 <= i < |ops| ==> !Touches(ops[i], a)
    ensures RowOf(ops, AccountStem(a)).None?
    ensures forall s: Hash :: RowOf(ops, SlotStem(a, s)).None?
  {
    if ops != [] {
      NoTouchNoRow(ops[..|ops| - 1], a);
    }
  }

  /** In an ordered batch the account row wins over the destruct marker. */
  lemma {:induction false} AccountEffectByRows(ops: seq<Op>, a: Address)
    requires Ordered(ops)
    ensures AccountEffect(ops, a)
         == if RowOf(ops, AccountStem(a)).Some? then Set(DecodeAccount(RowOf(ops, AccountStem(a)).value))
            else if RowOf(ops, DestructStem(a)).Some? then Set(None)
            else Keep
    ensures RowOf(ops, AccountStem(a)).Some? ==> AccountEffect(ops, a).value.Some?
  {
    hide EncodeAccount, DecodeAccount;
    if ops != [] {
      OrderedPrefix(ops);
      AccountEffectByRows(ops[..|ops| - 1], a);
      var last := ops[|ops| - 1];
      if last.OpAccount? {
        AccountRoundTrip(last.account, []);
      }
      if last == OpDestruct(a) {
        NoTouchNoRow(ops[..|ops| - 1], a);
      }
    }
  }

  lemma {:induction false} SlotEffectByRows(ops: seq<Op>, k: SKey)
    requires Ordered(ops)
    ensures RowOf(ops, SlotStem(k.addr, k.slot)).Some? ==> |RowOf(ops, SlotStem(k.addr, k.slot)).value| == 32
    ensures SlotEffect(ops, k)
         == if RowOf(ops, SlotStem(k.addr, k.slot)).Some? then Set(RowOf(ops, SlotStem(k.addr, k.slot)).value)
            else if RowOf(ops, DestructStem(k.addr)).Some? then Set(ZERO)
            else Keep
  {
    hide EncodeAccount;
    if ops != [] {
      OrderedPrefix(ops);
      SlotEffectByRows(ops[..|ops| - 1], k);
      if ops[|ops| - 1] == OpDestruct(k.addr) {
        NoTouchNoRow(ops[..|ops| - 1], k.addr);
      }
    }
  }

  // ----- the newest row of a stem below a height -----

  /** The number of the newest of the first n blocks that has a row for the stem; 0 if none has. */
  function Newest(c: Chain, stem: Stem, n: nat): (r: nat)
    requires n <= |c.blocks|
    ensures r <= n
    ensures r > 0 ==> RowOf(c.blocks[r - 1].ops, stem).Some?
    ensures forall m :: r <= m < n ==> RowOf(c.blocks[m].ops, stem).None?
  {
    if n == 0 then 0
    else if RowOf(c.blocks[n - 1].ops, stem).Some? then n
    else Newest(c, stem, n - 1)
  }

  function NewestRow(c: Chain, stem: Stem, n: nat): Option<(U64, bytes)>
    requires n <= |c.blocks| && c.s + |c.blocks| < MAX_U64
  {
    var r := Newest(c, stem, n);
    if r == 0 then None else Some((c.s + r, RowOf(c.blocks[r - 1].ops, stem).value))
  }

  lemma NewestStep(c: Chain, stem: Stem, n: nat)
    requires 0 < n <= |c.blocks| && c.s + |c.blocks| < MAX_U64
    ensures NewestRow(c, stem, n)
         == if RowOf(c.blocks[n - 1].ops, stem).Some? then Some((c.s + n, RowOf(c.blocks[n - 1].ops, stem).value))
            else NewestRow(c, stem, n - 1)
    ensures NewestRow(c, stem, n - 1).Some? ==> NewestRow(c, stem, n - 1).value.0 < c.s + n
  {
  }

  /** How many blocks lie at or below a height. */
  function Depth(c: Chain, at: U64): nat
    requires c.s <= at
  {
    if at - c.s <= |c.blocks| then at - c.s else |c.blocks|
  }

  /** A seek in the store finds the newest row of the chain. */
  lemma SeekIsNewest(kv: KV, c: Chain, stem: Stem, at: U64)
    requires Numbered(c) && HistoryRows(kv, c) && c.s <= at
    ensures SeekLE(kv, stem, at) == NewestRow(c, stem, Depth(c, at))
  {
    hide SeekLE, RowOf;
    SeekFindsLatest(kv, stem, at);
    var n := Depth(c, at);
    var r := Newest(c, stem, n);
    if r > 0 {
      var b := c.s + r;
      assert Lookup(kv, Row(stem, b)) == RowAt(c, stem, b);
      assert SeekLE(kv, stem, at).Some?;
      var (d, v) := SeekLE(kv, stem, at).value;
      assert Lookup(kv, Row(stem, d)) == RowAt(c, stem, d);
    } else if SeekLE(kv, stem, at).Some? {
      assert false;
    }
  }

  // ----- the value at a height, from rows -----

  function AccountFromRows(base: Option<Account>, row: Option<(U64, bytes)>, des: Option<(U64, bytes)>)
    : Option<Account>
  {
    if row.Some? && (des.None? || des.value.0 <= row.value.0) then DecodeAccount(row.value.1)
    else if row.Some? || des.Some? then None
    else base
  }

  lemma NoRowsAtBaseline(c: Chain, a: Address, k: SKey)
    requires c.s + |c.blocks| < MAX_U64
    ensures forall stem: Stem :: NewestRow(c, stem, 0).None?
    ensures AccountAt(c.base, c.blocks, 0, a) == c.base.Account(a)
    ensures SlotAt(c.base, c.blocks, 0, k) == c.base.Slot(k)
  {
    assert c.blocks[..0] == [];
  }

  lemma {:induction false} AccountByRows(c: Chain, n: nat, a: Address)
    requires Respects(c) && n <= |c.blocks|
    ensures AccountAt(c.base, c.blocks, n, a)
         == AccountFromRows(c.base.Account(a), NewestRow(c, AccountStem(a), n), NewestRow(c, DestructStem(a), n))
    ensures NewestRow(c, AccountStem(a), n).Some? ==> DecodeAccount(NewestRow(c, AccountStem(a), n).value.1).Some?
    decreases n
  {
    hide AccountEffect, RowOf, DecodeAccount, NewestRow, AccountAt;
    if n == 0 {
      NoRowsAtBaseline(c, a, SKey(a, ZERO));
    } else {
      AccountByRows(c, n - 1, a);
      NewestStep(c, AccountStem(a), n);
      NewestStep(c, DestructStem(a), n);
      StepAt(c.base, c.blocks, n - 1, a, SKey(a, ZERO));
      assert Contract(StateAfter(c.base, c.blocks[..n - 1]), c.blocks[n - 1].ops);
      AccountEffectByRows(c.blocks[n - 1].ops, a);
    }
  }

  function SlotFromRows(base: Hash, row: Option<(U64, bytes)>, des: Option<(U64, bytes)>): bytes {
    if row.None? then if des.Some? then ZERO else base
    else if des.Some? && des.value.0 > row.value.0 then ZERO
    else row.value.1
  }

  lemma {:induction false} SlotByRows(c: Chain, n: nat, k: SKey)
    requires Respects(c) && n <= |c.blocks|
    ensures SlotAt(c.base, c.blocks, n, k)
         == SlotFromRows(c.base.Slot(k), NewestRow(c, SlotStem(k.addr, k.slot), n),
                         NewestRow(c, DestructStem(k.addr), n))
    ensures NewestRow(c, SlotStem(k.addr, k.slot), n).Some? ==>
              |NewestRow(c, SlotStem(k.addr, k.slot), n).value.1| == 32
    decreases n
  {
    hide SlotEffect, RowOf, NewestRow, SlotAt;
    if n == 0 {
      NoRowsAtBaseline(c, k.addr, k);
    } else {
      SlotByRows(c, n - 1, k);
      NewestStep(c, SlotStem(k.addr, k.slot), n);
      NewestStep(c, DestructStem(k.addr), n);
      StepAt(c.base, c.blocks, n - 1, k.addr, k);
      assert Contract(StateAfter(c.base, c.blocks[..n - 1]), c.blocks[n - 1].ops);
      SlotEffectByRows(c.blocks[n - 1].ops, k);
    }
  }

  /** A slot row and a destruct marker in one block mean the account was recreated in it. */
  lemma SlotRowNeedsAccountRow(c: Chain, n: nat, k: SKey)
    requires Respects(c) && 0 < n <= |c.blocks|
    requires RowOf(c.blocks[n - 1].ops, SlotStem(k.addr, k.slot)).Some?
    requires RowOf(c.blocks[n - 1].ops, DestructStem(k.addr)).Some?
    ensures RowOf(c.blocks[n - 1].ops, AccountStem(k.addr)).Some?
  {
    hide RowOf, AccountEffect;
    var st := StateAfter(c.base, c.blocks[..n - 1]);
    var ops := c.blocks[n - 1].ops;
    assert Contract(st, ops);
    SlotRowHasWrite(ops, k);
    AccountEffectByRows(ops, k.addr);
    ReadAfterOps(st, ops, k.addr, k);
  }

  lemma {:induction false} SlotRowHasWrite(ops: seq<Op>, k: SKey)
    requires RowOf(ops, SlotStem(k.addr, k.slot)).Some?
    ensures exists i :: 0 <= i < |ops| && (ops[i].OpSlot? || ops[i].OpDeleteSlot?) && ops[i].addr == k.addr
  {
    hide EncodeAccount;
    var last := |ops| - 1;
    if (ops[last].OpSlot? || ops[last].OpDeleteSlot?) && ops[last].addr == k.addr {
    } else {
      SlotRowHasWrite(ops[..last], k);
      var i :| 0 <= i < last && (ops[..last][i].OpSlot? || ops[..last][i].OpDeleteSlot?)
               && ops[..last][i].addr == k.addr;
      assert ops[i].addr == k.addr;
    }
  }

  // ----- the two reads -----

  /** The read has nothing to go on: no history row, no baseline row, baseline still loading. */
  predicate AccountUncovered(kv: KV, keccak: Keccak, c: Chain, a: Address, at: U64)
    requires c.s <= at && c.s + |c.blocks| < MAX_U64
  {
    && MetaBaselineComplete !in kv
    && BaseAccount(keccak(a)) !in kv
    && NewestRow(c, AccountStem(a), Depth(c, at)).None?
    && NewestRow(c, DestructStem(a), Depth(c, at)).None?
  }

  predicate SlotUncovered(kv: KV, keccak: Keccak, c: Chain, k: SKey, at: U64)
    requires c.s <= at && c.s + |c.blocks| < MAX_U64
  {
    && MetaBaselineComplete !in kv
    && BaseSlot(keccak(k.addr), keccak(k.slot)) !in kv
    && NewestRow(c, SlotStem(k.addr, k.slot), Depth(c, at)).None?
    && NewestRow(c, DestructStem(k.addr), Depth(c, at)).None?
  }

  lemma CheckAtPasses(kv: KV, c: Chain, at: U64)
    requires Lookup(kv, MetaGenesis) == Some(U64Bytes(c.s))
    ensures c.s <= at ==> CheckAt(kv, at) == Ok(())
    ensures at < c.s ==> CheckAt(kv, at) == Err(BelowGenesis)
  {
    U64RoundTrip(c.s);
  }

  /**
   An account read at or above S returns the reference value at its height,
   except that it fails loudly exactly when nothing covers the account yet.
   */
  lemma GetAccountIsReference(kv: KV, keccak: Keccak, c: Chain, a: Address, at: U64)
    requires Represents(kv, keccak, c) && Respects(c) && c.s <= at
    ensures GetAccount(kv, keccak, a, at)
         == if AccountUncovered(kv, keccak, c, a, at) then Err(BaselineIncomplete)
            else Ok(AccountAt(c.base, c.blocks, Depth(c, at), a))
  {
    hide SeekLE, NewestRow, DecodeAccount, EncodeAccount, AccountAt;
    CheckAtPasses(kv, c, at);
    SeekIsNewest(kv, c, AccountStem(a), at);
    SeekIsNewest(kv, c, DestructStem(a), at);
    AccountByRows(c, Depth(c, at), a);
    if BaseAccount(keccak(a)) in kv {
      AccountRoundTrip(c.base.accounts[a], []);
    }
  }

  lemma RecreatedWhenDestructed(kv: KV, c: Chain, k: SKey, n: nat)
    requires HistoryRows(kv, c) && Respects(c) && n <= |c.blocks|
    requires NewestRow(c, SlotStem(k.addr, k.slot), n).Some? && NewestRow(c, DestructStem(k.addr), n).Some?
    requires NewestRow(c, SlotStem(k.addr, k.slot), n).value.0 == NewestRow(c, DestructStem(k.addr), n).value.0
    ensures RecreatedAt(kv, k.addr, NewestRow(c, DestructStem(k.addr), n).value.0)
  {
    hide RowOf, SeekLE, StateAfter, Contract;
    var r := Newest(c, DestructStem(k.addr), n);
    SlotRowNeedsAccountRow(c, r, k);
    SeekIsNewest(kv, c, AccountStem(k.addr), c.s + r);
    assert Depth(c, c.s + r) == r;
    NewestStep(c, AccountStem(k.addr), r);
  }

  /** The same for a slot; in particular the destruct edge never errs. */
  lemma GetSlotIsReference(kv: KV, keccak: Keccak, c: Chain, k: SKey, at: U64)
    requires Represents(kv, keccak, c) && Respects(c) && c.s <= at
    ensures GetSlot(kv, keccak, k, at)
         == if SlotUncovered(kv, keccak, c, k, at) then Err(BaselineIncomplete)
            else Ok(SlotAt(c.base, c.blocks, Depth(c, at), k))
  {
    hide SeekLE, NewestRow, SlotAt, RecreatedAt;
    CheckAtPasses(kv, c, at);
    SeekIsNewest(kv, c, SlotStem(k.addr, k.slot), at);
    SeekIsNewest(kv, c, DestructStem(k.addr), at);
    var row := NewestRow(c, SlotStem(k.addr, k.slot), Depth(c, at));
    var des := NewestRow(c, DestructStem(k.addr), Depth(c, at));
    SlotByRows(c, Depth(c, at), k);
    if row.Some? && des.Some? && row.value.0 == des.value.0 {
      RecreatedWhenDestructed(kv, c, k, Depth(c, at));
    }
  }

  /** The same for a read below S. */
  lemma BelowGenesisFails(kv: KV, keccak: Keccak, c: Chain, a: Address, k: SKey, at: U64)
    requires Represents(kv, keccak, c) && at < c.s
    ensures GetAccount(kv, keccak, a, at) == Err(BelowGenesis)
    ensures GetSlot(kv, keccak, k, at) == Err(BelowGenesis)
  {
    CheckAtPasses(kv, c, at);
  }

  /** A store without a genesis height, or with one that is not eight bytes, answers nothing. */
  lemma NoGenesisFails(kv: KV, keccak: Keccak, a: Address, k: SKey, at: U64)
    requires MetaGenesis in kv ==> |kv[MetaGenesis]| != 8
    ensures GetAccount(kv, keccak, a, at).Err? && GetSlot(kv, keccak, k, at).Err?
    ensures MetaGenesis !in kv ==> GetAccount(kv, keccak, a, at) == Err(NoGenesis)
    ensures MetaGenesis !in kv ==> GetSlot(kv, keccak, k, at) == Err(NoGenesis)
  {
  }

  // ----- what each transaction keeps -----

  /** The rows that reads and replay depend on. */
  predicate Observed(k: Key) {
    !k.MetaFinalized? && !k.MetaProgress? && !k.Queue? && !k.Code?
  }

  /** Rows nothing reads may change freely. */
  lemma RepresentsObserved(kv: KV, kv': KV, keccak: Keccak, c: Chain)
    requires Represents(kv, keccak, c)
    requires forall k: Key :: Observed(k) ==> Lookup(kv', k) == Lookup(kv, k)
    ensures Represents(kv', keccak, c)
  {
    hide RowAt, RowOf, EncodeAccount, Encode, U64Bytes;
    forall k: Key | Observed(k) ensures (k in kv' <==> k in kv) && (k in kv ==> kv'[k] == kv[k]) {
      assert Lookup(kv', k) == Lookup(kv, k);
    }
  }

  function Extend(c: Chain, b: Batch): Chain {
    c.(blocks := c.blocks + [b])
  }

  lemma WriteBlockRow(kv: KV, b: Batch, k: Key)
    requires !k.Code?
    ensures Lookup(AfterWriteBlock(kv, b), k)
         == if k == Diff(b.block) then Some(Encode(b))
            else if k.Row? && k.block == b.block && RowOf(b.ops, k.stem).Some? then RowOf(b.ops, k.stem)
            else Lookup(kv, k)
  {
    hide RowOf, PutOps;
    PutOpsRows(kv, b.block, b.ops, k);
  }

  /** Writing the next block extends the chain the rows stand for. */
  lemma WriteBlockExtends(kv: KV, keccak: Keccak, c: Chain, b: Batch)
    requires Represents(kv, keccak, c) && Numbered(Extend(c, b))
    ensures Represents(AfterWriteBlock(kv, b), keccak, Extend(c, b))
  {
    hide AfterWriteBlock, RowOf, Encode, EncodeAccount, U64Bytes;
    var kv' := AfterWriteBlock(kv, b);
    assert Extend(c, b).blocks[|c.blocks|] == b;
    forall k: Key | !k.Code? && !k.Diff? && !k.Row? ensures Lookup(kv', k) == Lookup(kv, k) {
      WriteBlockRow(kv, b, k);
    }
    WriteBlockExtendsHistory(kv, c, b);
    BaselineUntouched(kv, kv', keccak, c.base);
    assert Lookup(kv', MetaGenesis) == Lookup(kv, MetaGenesis);
  }

  lemma WriteBlockExtendsHistory(kv: KV, c: Chain, b: Batch)
    requires HistoryRows(kv, c) && DiffRows(kv, c) && Numbered(Extend(c, b))
    ensures HistoryRows(AfterWriteBlock(kv, b), Extend(c, b))
    ensures DiffRows(AfterWriteBlock(kv, b), Extend(c, b))
  {
    hide AfterWriteBlock, RowOf, Encode, EncodeAccount, U64Bytes;
    var kv', c' := AfterWriteBlock(kv, b), Extend(c, b);
    assert c'.blocks[|c.blocks|] == b;
    forall stem: Stem, h: U64 ensures Lookup(kv', Row(stem, h)) == RowAt(c', stem, h) {
      assert Lookup(kv, Row(stem, h)) == RowAt(c, stem, h);
      WriteBlockRow(kv, b, Row(stem, h));
    }
    forall h: U64
      ensures Lookup(kv', Diff(h))
           == if c'.s < h <= c'.s + |c'.blocks| then Some(Encode(c'.blocks[h - c'.s - 1])) else None
    {
      assert Lookup(kv, Diff(h))
          == if c.s < h <= c.s + |c.blocks| then Some(Encode(c.blocks[h - c.s - 1])) else None;
      WriteBlockRow(kv, b, Diff(h));
    }
  }

  lemma BaselineUntouched(kv: KV, kv': KV, keccak: Keccak, base: State)
    requires forall k: Key :: !k.Code? && !k.Diff? && !k.Row? ==> Lookup(kv', k) == Lookup(kv, k)
    ensures BaselineTrue(kv, keccak, base) ==> BaselineTrue(kv', keccak, base)
    ensures BaselineFull(kv, keccak, base) ==> BaselineFull(kv', keccak, base)
    ensures MetaBaselineComplete in kv' <==> MetaBaselineComplete in kv
  {
    forall k: Key | !k.Code? && !k.Diff? && !k.Row? ensures (k in kv' <==> k in kv) && (k in kv ==> kv'[k] == kv[k]) {
      assert Lookup(kv', k) == Lookup(kv, k);
    }
  }

  /** A store opened for a baseline at s stands for the baseline state with no blocks, none of it loaded yet. */
  lemma NewStoreRepresents(s: U64, keccak: Keccak, base: State)
    ensures Represents(map[MetaGenesis := U64Bytes(s)], keccak, Chain(s, base, []))
  {
    hide U64Bytes;
    var kv: KV := map[MetaGenesis := U64Bytes(s)];
    assert forall k: Key :: k in kv <==> k == MetaGenesis;
  }

  /** Rewriting a block the store already holds changes nothing a read can see. */
  lemma RewriteIsIdempotent(kv: KV, keccak: Keccak, c: Chain, n: nat)
    requires Represents(kv, keccak, c) && Numbered(c) && n < |c.blocks|
    ensures Represents(AfterWriteBlock(kv, c.blocks[n]), keccak, c)
  {
    hide AfterWriteBlock, RowOf, Encode;
    var b := c.blocks[n];
    var kv' := AfterWriteBlock(kv, b);
    forall k: Key | Observed(k) ensures Lookup(kv', k) == Lookup(kv, k) {
      WriteBlockRow(kv, b, k);
      if k.Row? {
        assert Lookup(kv, Row(k.stem, k.block)) == RowAt(c, k.stem, k.block);
      }
    }
    RepresentsObserved(kv, kv', keccak, c);
  }

  /** A flush of true baseline rows keeps what the rows stand for. */
  lemma BaselineFlushKeeps(kv: KV, kv': KV, keccak: Keccak, c: Chain)
    requires Represents(kv, keccak, c)
    requires forall k: Key :: Observed(k) && !k.BaseAccount? && !k.BaseSlot? ==> Lookup(kv', k) == Lookup(kv, k)
    requires BaselineTrue(kv', keccak, c.base)
    requires MetaBaselineComplete in kv ==> BaselineFull(kv', keccak, c.base)
    ensures Represents(kv', keccak, c)
  {
    hide RowAt, RowOf, EncodeAccount, Encode, U64Bytes;
    assert Lookup(kv', MetaGenesis) == Lookup(kv, MetaGenesis);
    assert Lookup(kv', MetaBaselineComplete) == Lookup(kv, MetaBaselineComplete);
  }

  lemma {:induction false} NewestOfPrefix(c: Chain, c': Chain, stem: Stem, n: nat)
    requires c.s == c'.s && c.blocks <= c'.blocks && n <= |c.blocks| && c'.s + |c'.blocks| < MAX_U64
    ensures NewestRow(c', stem, n) == NewestRow(c, stem, n)
    decreases n
  {
    hide RowOf;
    if n > 0 {
      NewestOfPrefix(c, c', stem, n - 1);
    }
  }

  /** kv' is a later state of the store: more blocks, and more of the baseline loaded. */
  ghost predicate Later(kv: KV, c: Chain, kv': KV, c': Chain) {
    && c'.s == c.s && c'.base == c.base && c.blocks <= c'.blocks
    && forall k: Key :: k in kv && (k.BaseAccount? || k.BaseSlot? || k.MetaBaselineComplete?) ==> k in kv'
  }

  /**
   Answers are final: once a read at a height the store has reached succeeds, no
   later block and no later baseline load changes it or makes it fail.
   */
  lemma AnswersAreFinal(kv: KV, kv': KV, keccak: Keccak, c: Chain, c': Chain, a: Address, at: U64)
    requires Represents(kv, keccak, c) && Respects(c)
    requires Represents(kv', keccak, c') && Respects(c') && Later(kv, c, kv', c')
    requires c.s <= at <= c.s + |c.blocks|
    requires GetAccount(kv, keccak, a, at).Ok?
    ensures GetAccount(kv', keccak, a, at) == GetAccount(kv, keccak, a, at)
  {
    hide GetAccount, AccountAt, Represents, NewestRow;
    GetAccountIsReference(kv, keccak, c, a, at);
    GetAccountIsReference(kv', keccak, c', a, at);
    NewestOfPrefix(c, c', AccountStem(a), Depth(c, at));
    NewestOfPrefix(c, c', DestructStem(a), Depth(c, at));
    PrefixAt(c.base, c.blocks, c'.blocks, Depth(c, at), a, SKey(a, ZERO));
  }

  lemma SlotAnswersAreFinal(kv: KV, kv': KV, keccak: Keccak, c: Chain, c': Chain, k: SKey, at: U64)
    requires Represents(kv, keccak, c) && Respects(c)
    requires Represents(kv', keccak, c') && Respects(c') && Later(kv, c, kv', c')
    requires c.s <= at <= c.s + |c.blocks|
    requires GetSlot(kv, keccak, k, at).Ok?
    ensures GetSlot(kv', keccak, k, at) == GetSlot(kv, keccak, k, at)
  {
    hide GetSlot, SlotAt, Represents, NewestRow;
    GetSlotIsReference(kv, keccak, c, k, at);
    GetSlotIsReference(kv', keccak, c', k, at);
    NewestOfPrefix(c, c', SlotStem(k.addr, k.slot), Depth(c, at));
    NewestOfPrefix(c, c', DestructStem(k.addr), Depth(c, at));
    PrefixAt(c.base, c.blocks, c'.blocks, Depth(c, at), k.addr, k);
  }
}
