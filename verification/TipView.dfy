/**
 The live tip view as a state machine (mem/mem.go State, driven as in
 node/sink.go). The store may run ahead of the pinned base, side buffers fill
 during read phases and drain in write phases, and preferences reset; every
 lookup in every reachable state still returns the reference state of the
 finalized blocks plus the unfinalized layers.
 */
module TipView {
  import opened Bytes
  import opened Schema
  import opened Capture
  import opened Reference
  import opened Store
  import opened History
  import opened Layers
  import opened Pins

  /** An executor's side buffer: what it fetched since the last write phase. */
  datatype Buffer = Buffer(accounts: map<Address, Option<Account>>, slots: map<SKey, Hash>)

  const EMPTY_BUFFER := Buffer(map[], map[])

  /** The shared view: pinned base, unfinalized blocks oldest first, registered buffers. */
  datatype View = View(base: Pinned, layers: seq<Batch>, buffers: seq<Buffer>)

  // ----- lookups -----

  /** Layers, then base, then the caller's buffer, then the store's newest value. */
  function FindAccount(v: View, buf: Buffer, a: Address, db: Result<Option<Account>>): Result<Option<Account>> {
    match StackAccount(StackOf(v.layers), a)
    case Set(x) => Ok(x)
    case Keep =>
      if a in v.base then Ok(v.base[a].account)
      else if a in buf.accounts then Ok(buf.accounts[a])
      else db
  }

  function FindSlot(v: View, buf: Buffer, k: SKey, db: Result<Hash>): Result<Hash> {
    match StackSlot(StackOf(v.layers), k)
    case Set(x) => Ok(x)
    case Keep =>
      if k.addr in v.base && v.base[k.addr].account.None? then Ok(ZERO)
      else if k.addr in v.base && k.slot in v.base[k.addr].storage then Ok(v.base[k.addr].storage[k.slot])
      else if k in buf.slots then Ok(buf.slots[k])
      else db
  }

  /** The lookup reached the store. */
  predicate MissesAccount(v: View, buf: Buffer, a: Address) {
    StackAccount(StackOf(v.layers), a).Keep? && a !in v.base && a !in buf.accounts
  }

  predicate MissesSlot(v: View, buf: Buffer, k: SKey) {
    && StackSlot(StackOf(v.layers), k).Keep?
    && !(k.addr in v.base && (v.base[k.addr].account.None? || k.slot in v.base[k.addr].storage))
    && k !in buf.slots
  }

  function PinAccountIn(buf: Buffer, a: Address, db: Result<Option<Account>>): Buffer {
    if db.Ok? then buf.(accounts := buf.accounts[a := db.value]) else buf
  }

  function PinSlotIn(buf: Buffer, k: SKey, db: Result<Hash>): Buffer {
    if db.Ok? then buf.(slots := buf.slots[k := db.value]) else buf
  }

  // ----- the write phase's drain -----

  function MergeAccounts(p: Pinned, accounts: map<Address, Option<Account>>): Pinned {
    map a | a in p.Keys + accounts.Keys :: if a in p then p[a] else Entry(accounts[a], map[])
  }

  function SlotsOf(slots: map<SKey, Hash>, a: Address): set<Hash> {
    set k | k in slots && k.addr == a :: k.slot
  }

  function MergeStorage(storage: map<Hash, Hash>, slots: map<SKey, Hash>, a: Address): map<Hash, Hash> {
    map s | s in storage.Keys + SlotsOf(slots, a) :: if s in storage then storage[s] else slots[SKey(a, s)]
  }

  /** Slots of addresses the base does not know are dropped. */
  function MergeSlots(p: Pinned, slots: map<SKey, Hash>): Pinned {
    map a | a in p :: Entry(p[a].account, MergeStorage(p[a].storage, slots, a))
  }

  function Merge(p: Pinned, buf: Buffer): Pinned {
    MergeSlots(MergeAccounts(p, buf.accounts), buf.slots)
  }

  function MergeAll(p: Pinned, bufs: seq<Buffer>): Pinned {
    if bufs == [] then p else Merge(MergeAll(p, bufs[..|bufs| - 1]), bufs[|bufs| - 1])
  }

  /** Every registered buffer is merged, in order, and cleared. */
  function Drained(v: View): View {
    View(MergeAll(v.base, v.buffers), v.layers, seq(|v.buffers|, _ => EMPTY_BUFFER))
  }

  // ----- write phases -----

  function AfterApplyBlock(v: View, b: Batch): View {
    Drained(v).(layers := v.layers + [b])
  }

  predicate FinalizeMatches(v: View, block: U64, hash: Hash) {
    v.layers != [] && v.layers[0].block == block && v.layers[0].hash == hash
  }

  /** Finalize folds the oldest layer; on a mismatch it has only drained. */
  function AfterFinalize(v: View, block: U64, hash: Hash): View {
    if FinalizeMatches(v, block, hash) then
      View(PinOps(Drained(v).base, v.layers[0].ops), v.layers[1..], Drained(v).buffers)
    else Drained(v)
  }

  function AfterReset(v: View, preferred: seq<Batch>): View {
    Drained(v).(layers := preferred)
  }

  // ----- the world the view lives in -----

  /**
   The store's rows and the chain they stand for, and how many of the store's
   blocks have been folded into the base.
   */
  datatype World = World(kv: KV, keccak: Keccak, store: Chain, folded: nat, view: View)

  /** The chain the view stands for: the folded blocks, then its layers. */
  function Seen(w: World): seq<Batch>
    requires w.folded <= |w.store.blocks|
  {
    w.store.blocks[..w.folded] + w.view.layers
  }

  /** The reference state a lookup must agree with. */
  function Truth(w: World): State
    requires w.folded <= |w.store.blocks|
  {
    StateAfter(w.store.base, Seen(w))
  }

  /** The store is on the view's chain: never behind the base, never past the tip. */
  ghost predicate OnChain(w: World) {
    && w.folded <= |w.store.blocks|
    && w.store.blocks[w.folded..] <= w.view.layers
    && Respects(w.store.(blocks := Seen(w)))
    && Represents(w.kv, w.keccak, w.store)
  }

  /** A pinned value is the value at some height between the base's and the store's. */
  ghost predicate AccountInRange(c: Chain, f: nat, a: Address, x: Option<Account>) {
    exists i :: f <= i <= |c.blocks| && x == AccountAt(c.base, c.blocks, i, a)
  }

  ghost predicate SlotInRange(c: Chain, f: nat, k: SKey, x: Hash) {
    exists i :: f <= i <= |c.blocks| && x == SlotAt(c.base, c.blocks, i, k)
  }

  ghost predicate BaseInRange(c: Chain, f: nat, p: Pinned) {
    && (forall a :: a in p ==> AccountInRange(c, f, a, p[a].account))
    && (forall a, s :: a in p && s in p[a].storage ==> SlotInRange(c, f, SKey(a, s), p[a].storage[s]))
  }

  ghost predicate BufferInRange(c: Chain, f: nat, buf: Buffer) {
    && (forall a :: a in buf.accounts ==> AccountInRange(c, f, a, buf.accounts[a]))
    && (forall k :: k in buf.slots ==> SlotInRange(c, f, k, buf.slots[k]))
  }

  ghost predicate BuffersInRange(c: Chain, f: nat, bufs: seq<Buffer>) {
    forall j :: 0 <= j < |bufs| ==> BufferInRange(c, f, bufs[j])
  }

  ghost predicate Inv(w: World) {
    && OnChain(w)
    && BaseInRange(w.store, w.folded, w.view.base)
    && BuffersInRange(w.store, w.folded, w.view.buffers)
  }

  // ----- steps -----

  /** Anything that can happen between two lookups, and the lookups themselves. */
  datatype Step =
    | Commit                              // the store commits the next block of the view's chain
    | OtherRows(kv: KV)                   // watermark, baseline and other rows change
    | Register                            // a new executor's buffer joins
    | ApplyBlock(b: Batch)
    | Finalize(block: U64, hash: Hash)
    | Reset(preferred: seq<Batch>)
    | LookupAccount(j: nat, a: Address)
    | LookupSlot(j: nat, k: SKey)         // the slot half of State.Slot
    | PinAccountFor(j: nat, a: Address)   // its account half; a commit may land in between

  function DbAccount(w: World, a: Address): Result<Option<Account>> {
    Store.GetAccount(w.kv, w.keccak, a, LATEST)
  }

  function DbSlot(w: World, k: SKey): Result<Hash> {
    Store.GetSlot(w.kv, w.keccak, k, LATEST)
  }

  /** What the driver must respect. */
  ghost predicate Allowed(w: World, step: Step) {
    match step
    case Commit => |w.store.blocks| - w.folded < |w.view.layers|
    case OtherRows(kv) => Represents(kv, w.keccak, w.store)
    case Register => true
    case ApplyBlock(b) => w.folded <= |w.store.blocks| && Respects(w.store.(blocks := Seen(w) + [b]))
    case Finalize(block, hash) => FinalizeMatches(w.view, block, hash) ==> w.folded < |w.store.blocks|
    case Reset(preferred) =>
      && w.folded <= |w.store.blocks|
      && w.store.blocks[w.folded..] <= preferred
      && Respects(w.store.(blocks := w.store.blocks[..w.folded] + preferred))
    case LookupAccount(j, _) => j < |w.view.buffers|
    case LookupSlot(j, _) => j < |w.view.buffers|
    case PinAccountFor(j, _) => j < |w.view.buffers|
  }

  function WithBuffer(w: World, j: nat, buf: Buffer): World
    requires j < |w.view.buffers|
  {
    w.(view := w.view.(buffers := w.view.buffers[j := buf]))
  }

  /** The successor state. */
  function Next(w: World, step: Step): World
    requires Allowed(w, step) && w.folded <= |w.store.blocks|
  {
    match step
    case Commit =>
      var b := w.view.layers[|w.store.blocks| - w.folded];
      w.(kv := AfterWriteBlock(w.kv, b), store := Extend(w.store, b))
    case OtherRows(kv) => w.(kv := kv)
    case Register => w.(view := w.view.(buffers := w.view.buffers + [EMPTY_BUFFER]))
    case ApplyBlock(b) => w.(view := AfterApplyBlock(w.view, b))
    case Finalize(block, hash) =>
      w.(view := AfterFinalize(w.view, block, hash),
         folded := if FinalizeMatches(w.view, block, hash) then w.folded + 1 else w.folded)
    case Reset(preferred) => w.(view := AfterReset(w.view, preferred))
    case LookupAccount(j, a) =>
      if MissesAccount(w.view, w.view.buffers[j], a)
      then WithBuffer(w, j, PinAccountIn(w.view.buffers[j], a, DbAccount(w, a))) else w
    case LookupSlot(j, k) =>
      if MissesSlot(w.view, w.view.buffers[j], k)
      then WithBuffer(w, j, PinSlotIn(w.view.buffers[j], k, DbSlot(w, k))) else w
    case PinAccountFor(j, a) =>
      if a !in w.view.base && a !in w.view.buffers[j].accounts
      then WithBuffer(w, j, PinAccountIn(w.view.buffers[j], a, DbAccount(w, a))) else w
  }

  // ----- why a lookup is right -----

  lemma {:induction false} StateAfterAppend(st: State, front: seq<Batch>, back: seq<Batch>)
    ensures StateAfter(st, front + back) == StateAfter(StateAfter(st, front), back)
  {
    if back == [] {
      assert front + back == front;
    } else {
      StateAfterAppend(st, front, back[..|back| - 1]);
      assert (front + back)[..|front + back| - 1] == front + back[..|back| - 1];
    }
  }

  lemma CompiledEffects(ops: seq<Op>, a: Address, k: SKey)
    ensures Compile(ops).Account(a) == AccountEffect(ops, a)
    ensures Compile(ops).Slot(k) == SlotEffect(ops, k)
  {
    AccountEffectAfter(EMPTY, ops, a);
    SlotEffectAfter(EMPTY, ops, k);
  }

  lemma {:induction false} QuietForAccount(blocks: seq<Batch>, a: Address)
    requires StackAccount(StackOf(blocks), a).Keep?
    ensures forall n :: 0 <= n < |blocks| ==> AccountEffect(blocks[n].ops, a).Keep?
  {
    if blocks != [] {
      hide AccountEffect, Compile;
      var older := blocks[..|blocks| - 1];
      assert StackOf(blocks)[1..] == StackOf(older);
      CompiledEffects(blocks[|blocks| - 1].ops, a, SKey(a, ZERO));
      QuietForAccount(older, a);
    }
  }

  lemma {:induction false} QuietForSlot(blocks: seq<Batch>, k: SKey)
    requires StackSlot(StackOf(blocks), k).Keep?
    ensures forall n :: 0 <= n < |blocks| ==> SlotEffect(blocks[n].ops, k).Keep?
  {
    if blocks != [] {
      hide SlotEffect, Compile;
      var older := blocks[..|blocks| - 1];
      assert StackOf(blocks)[1..] == StackOf(older);
      CompiledEffects(blocks[|blocks| - 1].ops, k.addr, k);
      QuietForSlot(older, k);
    }
  }

  lemma StoreOnSeen(w: World)
    requires OnChain(w)
    ensures w.store.blocks <= Seen(w)
  {
    assert w.store.blocks == w.store.blocks[..w.folded] + w.store.blocks[w.folded..];
  }

  /** No layer speaks for the account, so every height from the base to the tip agrees on it. */
  lemma AccountInRangeIsTruth(w: World, a: Address, x: Option<Account>)
    requires OnChain(w) && AccountInRange(w.store, w.folded, a, x)
    requires StackAccount(StackOf(w.view.layers), a).Keep?
    ensures x == Truth(w).Account(a)
  {
    hide Represents, StackAccount, AccountEffect;
    var k := SKey(a, ZERO);
    var i :| w.folded <= i <= |w.store.blocks| && x == AccountAt(w.store.base, w.store.blocks, i, a);
    StoreOnSeen(w);
    var all := Seen(w);
    PrefixAt(w.store.base, w.store.blocks, all, i, a, k);
    QuietForAccount(w.view.layers, a);
    AccountConstant(w.store.base, all, i, |all|, a);
    assert all[..|all|] == all;
  }

  lemma SlotInRangeIsTruth(w: World, k: SKey, x: Hash)
    requires OnChain(w) && SlotInRange(w.store, w.folded, k, x)
    requires StackSlot(StackOf(w.view.layers), k).Keep?
    ensures x == Truth(w).Slot(k)
  {
    hide Represents, StackSlot, SlotEffect;
    var i :| w.folded <= i <= |w.store.blocks| && x == SlotAt(w.store.base, w.store.blocks, i, k);
    StoreOnSeen(w);
    var all := Seen(w);
    PrefixAt(w.store.base, w.store.blocks, all, i, k.addr, k);
    QuietForSlot(w.view.layers, k);
    SlotConstant(w.store.base, all, i, |all|, k);
    assert all[..|all|] == all;
  }

  /** An account pinned as nonexistent had no storage then, so its slot is zero now. */
  lemma DeadAccountSlotIsTruth(w: World, k: SKey)
    requires OnChain(w) && AccountInRange(w.store, w.folded, k.addr, None)
    requires StackSlot(StackOf(w.view.layers), k).Keep?
    ensures Truth(w).Slot(k) == ZERO
  {
    hide Represents, StackSlot;
    var i :| w.folded <= i <= |w.store.blocks| && None == AccountAt(w.store.base, w.store.blocks, i, k.addr);
    StoreOnSeen(w);
    var all := Seen(w);
    PrefixAt(w.store.base, w.store.blocks, all, i, k.addr, k);
    ChainKeepsClean(w.store.base, all, i);
    assert SlotInRange(w.store, w.folded, k, ZERO);
    SlotInRangeIsTruth(w, k, ZERO);
  }

  /** What the layers do say is the truth. */
  lemma LayersAreTruth(w: World, a: Address, k: SKey)
    requires OnChain(w)
    ensures StackAccount(StackOf(w.view.layers), a).Set? ==>
              StackAccount(StackOf(w.view.layers), a).value == Truth(w).Account(a)
    ensures StackSlot(StackOf(w.view.layers), k).Set? ==>
              StackSlot(StackOf(w.view.layers), k).value == Truth(w).Slot(k)
  {
    hide Represents, StackAccount, StackSlot;
    var st := StateAfter(w.store.base, w.store.blocks[..w.folded]);
    StateAfterAppend(w.store.base, w.store.blocks[..w.folded], w.view.layers);
    StackMeaning(st, w.view.layers, a, k);
  }

  /** The store's newest value is the value at the store's own height. */
  lemma StoreAnswersInRange(w: World, a: Address, k: SKey)
    requires OnChain(w)
    ensures DbAccount(w, a).Ok? ==> AccountInRange(w.store, w.folded, a, DbAccount(w, a).value)
    ensures DbSlot(w, k).Ok? ==> SlotInRange(w.store, w.folded, k, DbSlot(w, k).value)
    ensures DbAccount(w, a).Err? ==> DbAccount(w, a).error == BaselineIncomplete && MetaBaselineComplete !in w.kv
    ensures DbSlot(w, k).Err? ==> DbSlot(w, k).error == BaselineIncomplete && MetaBaselineComplete !in w.kv
  {
    hide Represents, Store.GetAccount, Store.GetSlot, AccountAt, SlotAt, NewestRow;
    StoreRespects(w);
    GetAccountIsReference(w.kv, w.keccak, w.store, a, LATEST);
    GetSlotIsReference(w.kv, w.keccak, w.store, k, LATEST);
    assert Depth(w.store, LATEST) == |w.store.blocks|;
  }

  lemma StoreRespects(w: World)
    requires OnChain(w)
    ensures Respects(w.store)
  {
    hide Represents, Contract;
    StoreOnSeen(w);
    var n := |w.store.blocks|;
    assert Seen(w)[..n] == w.store.blocks;
    ChainContractPrefix(w.store.base, Seen(w), n);
    forall m | 0 <= m < n ensures w.store.blocks[m].block == w.store.s + 1 + m {
      assert w.store.blocks[m] == Seen(w)[m];
    }
  }

  /**
   Every lookup, through any buffer, returns the reference state of finalized
   blocks plus layers, or an error while the baseline is still loading.
   */
  lemma AccountLookupIsTruth(w: World, j: nat, a: Address)
    requires Inv(w) && j < |w.view.buffers|
    ensures var r := FindAccount(w.view, w.view.buffers[j], a, DbAccount(w, a));
            || r == Ok(Truth(w).Account(a))
            || (r == Err(BaselineIncomplete) && MetaBaselineComplete !in w.kv)
  {
    hide Represents, StackAccount, DbAccount, Truth, OnChain;
    var buf := w.view.buffers[j];
    assert BufferInRange(w.store, w.folded, buf);
    LayersAreTruth(w, a, SKey(a, ZERO));
    StoreAnswersInRange(w, a, SKey(a, ZERO));
    if StackAccount(StackOf(w.view.layers), a).Keep? {
      if a in w.view.base {
        AccountInRangeIsTruth(w, a, w.view.base[a].account);
      } else if a in buf.accounts {
        AccountInRangeIsTruth(w, a, buf.accounts[a]);
      } else if DbAccount(w, a).Ok? {
        AccountInRangeIsTruth(w, a, DbAccount(w, a).value);
      }
    }
  }

  lemma SlotLookupIsTruth(w: World, j: nat, k: SKey)
    requires Inv(w) && j < |w.view.buffers|
    ensures var r := FindSlot(w.view, w.view.buffers[j], k, DbSlot(w, k));
            || r == Ok(Truth(w).Slot(k))
            || (r == Err(BaselineIncomplete) && MetaBaselineComplete !in w.kv)
  {
    hide Represents, StackSlot, DbSlot, Truth, OnChain;
    var buf, base := w.view.buffers[j], w.view.base;
    assert BufferInRange(w.store, w.folded, buf);
    LayersAreTruth(w, k.addr, k);
    StoreAnswersInRange(w, k.addr, k);
    if StackSlot(StackOf(w.view.layers), k).Keep? {
      if k.addr in base && base[k.addr].account.None? {
        DeadAccountSlotIsTruth(w, k);
      } else if k.addr in base && k.slot in base[k.addr].storage {
        SlotInRangeIsTruth(w, k, base[k.addr].storage[k.slot]);
      } else if k in buf.slots {
        SlotInRangeIsTruth(w, k, buf.slots[k]);
      } else if DbSlot(w, k).Ok? {
        SlotInRangeIsTruth(w, k, DbSlot(w, k).value);
      }
    }
  }

  // ----- what every step keeps -----

  /** A longer store keeps every pinned value in range. */
  lemma AccountRangeGrows(c: Chain, b: Batch, f: nat, a: Address, x: Option<Account>)
    requires AccountInRange(c, f, a, x)
    ensures AccountInRange(Extend(c, b), f, a, x)
  {
    var i :| f <= i <= |c.blocks| && x == AccountAt(c.base, c.blocks, i, a);
    PrefixAt(c.base, c.blocks, Extend(c, b).blocks, i, a, SKey(a, ZERO));
    assert x == AccountAt(c.base, Extend(c, b).blocks, i, a);
  }

  lemma SlotRangeGrows(c: Chain, b: Batch, f: nat, k: SKey, x: Hash)
    requires SlotInRange(c, f, k, x)
    ensures SlotInRange(Extend(c, b), f, k, x)
  {
    var i :| f <= i <= |c.blocks| && x == SlotAt(c.base, c.blocks, i, k);
    PrefixAt(c.base, c.blocks, Extend(c, b).blocks, i, k.addr, k);
    assert x == SlotAt(c.base, Extend(c, b).blocks, i, k);
  }

  lemma RangesGrow(c: Chain, b: Batch, f: nat, v: View)
    requires BaseInRange(c, f, v.base) && BuffersInRange(c, f, v.buffers)
    ensures BaseInRange(Extend(c, b), f, v.base) && BuffersInRange(Extend(c, b), f, v.buffers)
  {
    hide AccountInRange, SlotInRange;
    forall a, x | AccountInRange(c, f, a, x) ensures AccountInRange(Extend(c, b), f, a, x) {
      AccountRangeGrows(c, b, f, a, x);
    }
    forall k, x | SlotInRange(c, f, k, x) ensures SlotInRange(Extend(c, b), f, k, x) {
      SlotRangeGrows(c, b, f, k, x);
    }
  }

  /** Folding the next block moves every pinned value up with the base. */
  lemma AccountRangeFolds(c: Chain, f: nat, a: Address, x: Option<Account>)
    requires f < |c.blocks| && AccountInRange(c, f, a, x)
    ensures AccountInRange(c, f + 1, a, Or(AccountEffect(c.blocks[f].ops, a), x))
  {
    hide AccountEffect, AccountAt;
    var i :| f <= i <= |c.blocks| && x == AccountAt(c.base, c.blocks, i, a);
    StepAt(c.base, c.blocks, f, a, SKey(a, ZERO));
    var y := Or(AccountEffect(c.blocks[f].ops, a), x);
    if i == f || AccountEffect(c.blocks[f].ops, a).Set? {
      assert y == AccountAt(c.base, c.blocks, f + 1, a);
    } else {
      assert y == AccountAt(c.base, c.blocks, i, a);
    }
  }

  lemma SlotRangeFolds(c: Chain, f: nat, k: SKey, x: Hash)
    requires f < |c.blocks| && SlotInRange(c, f, k, x)
    ensures SlotInRange(c, f + 1, k, Or(SlotEffect(c.blocks[f].ops, k), x))
  {
    hide SlotEffect, SlotAt;
    var i :| f <= i <= |c.blocks| && x == SlotAt(c.base, c.blocks, i, k);
    StepAt(c.base, c.blocks, f, k.addr, k);
    var y := Or(SlotEffect(c.blocks[f].ops, k), x);
    if i == f || SlotEffect(c.blocks[f].ops, k).Set? {
      assert y == SlotAt(c.base, c.blocks, f + 1, k);
    } else {
      assert y == SlotAt(c.base, c.blocks, i, k);
    }
  }

  lemma FoldKeepsBase(c: Chain, f: nat, p: Pinned)
    requires f < |c.blocks| && BaseInRange(c, f, p)
    ensures BaseInRange(c, f + 1, PinOps(p, c.blocks[f].ops))
  {
    hide AccountInRange, SlotInRange, PinOps, AccountEffect, SlotEffect;
    var ops := c.blocks[f].ops;
    var q := PinOps(p, ops);
    PinOpsKnowledge(p, ops);
    forall a | a in q ensures AccountInRange(c, f + 1, a, q[a].account) {
      PinOpsMeaning(p, ops, a, ZERO);
      AccountRangeFolds(c, f, a, p[a].account);
    }
    forall a, s | a in q && s in q[a].storage ensures SlotInRange(c, f + 1, SKey(a, s), q[a].storage[s]) {
      PinOpsMeaning(p, ops, a, s);
      SlotRangeFolds(c, f, SKey(a, s), p[a].storage[s]);
    }
  }

  lemma MergeInRange(c: Chain, f: nat, p: Pinned, buf: Buffer)
    requires BaseInRange(c, f, p) && BufferInRange(c, f, buf)
    ensures BaseInRange(c, f, Merge(p, buf))
  {
    hide AccountInRange, SlotInRange;
    var q := Merge(p, buf);
    forall a | a in q ensures AccountInRange(c, f, a, q[a].account) {
      assert a in p || a in buf.accounts;
    }
    forall a, s | a in q && s in q[a].storage ensures SlotInRange(c, f, SKey(a, s), q[a].storage[s]) {
      if a in p && s in p[a].storage {
      } else {
        assert s in SlotsOf(buf.slots, a);
        assert SKey(a, s) in buf.slots;
      }
    }
  }

  lemma {:induction false} MergeAllInRange(c: Chain, f: nat, p: Pinned, bufs: seq<Buffer>)
    requires BaseInRange(c, f, p) && BuffersInRange(c, f, bufs)
    ensures BaseInRange(c, f, MergeAll(p, bufs))
  {
    hide BaseInRange, BufferInRange, Merge;
    if bufs != [] {
      MergeAllInRange(c, f, p, bufs[..|bufs| - 1]);
      MergeInRange(c, f, MergeAll(p, bufs[..|bufs| - 1]), bufs[|bufs| - 1]);
    }
  }

  lemma DrainedInRange(c: Chain, f: nat, v: View)
    requires BaseInRange(c, f, v.base) && BuffersInRange(c, f, v.buffers)
    ensures BaseInRange(c, f, Drained(v).base) && BuffersInRange(c, f, Drained(v).buffers)
    ensures forall g :: BuffersInRange(c, g, Drained(v).buffers)
  {
    hide MergeAll;
    MergeAllInRange(c, f, v.base, v.buffers);
  }

  /** The next block of the view's chain, appended to the store, keeps the store on the chain. */
  lemma CommitStaysOnChain(c: seq<Batch>, f: nat, layers: seq<Batch>, b: Batch)
    requires f <= |c| && c[f..] <= layers && |c| - f < |layers| && b == layers[|c| - f]
    ensures (c + [b])[..f] == c[..f]
    ensures (c + [b])[f..] <= layers
    ensures c + [b] <= c[..f] + layers
  {
    assert (c + [b])[f..] == c[f..] + [b];
    assert c + [b] == c[..f] + (c + [b])[f..];
  }

  /** Moving the oldest layer below the fold line leaves the chain as it was. */
  lemma FoldStaysOnChain(c: seq<Batch>, f: nat, layers: seq<Batch>)
    requires f < |c| && c[f..] <= layers
    ensures layers != [] && c[f] == layers[0]
    ensures c[..f + 1] + layers[1..] == c[..f] + layers
    ensures c[f + 1..] <= layers[1..]
  {
    assert c[f..][0] == c[f];
    assert c[f + 1..] == c[f..][1..];
    assert c[..f + 1] == c[..f] + [c[f]];
  }

  lemma NumberedPrefix(c: Chain, all: seq<Batch>)
    requires Numbered(c.(blocks := all)) && c.blocks <= all
    ensures Numbered(c)
  {
    forall n | 0 <= n < |c.blocks| ensures c.blocks[n].block == c.s + 1 + n {
      assert c.blocks[n] == all[n];
    }
  }

  lemma CommitKeepsInv(w: World)
    requires Inv(w) && Allowed(w, Commit)
    ensures Inv(Next(w, Commit))
  {
    hide Represents, BaseInRange, BuffersInRange, AfterWriteBlock, ChainContract, Clean, Numbered;
    var b := w.view.layers[|w.store.blocks| - w.folded];
    CommitStaysOnChain(w.store.blocks, w.folded, w.view.layers, b);
    NumberedPrefix(Extend(w.store, b), Seen(w));
    WriteBlockExtends(w.kv, w.keccak, w.store, b);
    RangesGrow(w.store, b, w.folded, w.view);
  }

  lemma FinalizeKeepsInv(w: World, block: U64, hash: Hash)
    requires Inv(w) && Allowed(w, Finalize(block, hash))
    ensures Inv(Next(w, Finalize(block, hash)))
  {
    hide Represents, BaseInRange, BuffersInRange, Drained, PinOps, Respects;
    DrainedInRange(w.store, w.folded, w.view);
    DrainKeepsLayers(w.view);
    if FinalizeMatches(w.view, block, hash) {
      FoldStaysOnChain(w.store.blocks, w.folded, w.view.layers);
      FoldKeepsBase(w.store, w.folded, Drained(w.view).base);
    }
  }

  lemma DrainKeepsLayers(v: View)
    ensures Drained(v).layers == v.layers && |Drained(v).buffers| == |v.buffers|
  {
  }

  lemma ResetKeepsInv(w: World, preferred: seq<Batch>)
    requires Inv(w) && Allowed(w, Reset(preferred))
    ensures Inv(Next(w, Reset(preferred)))
  {
    hide Represents, BaseInRange, BuffersInRange, Drained, Respects;
    DrainedInRange(w.store, w.folded, w.view);
  }

  lemma ApplyBlockKeepsInv(w: World, b: Batch)
    requires Inv(w) && Allowed(w, ApplyBlock(b))
    ensures Inv(Next(w, ApplyBlock(b)))
  {
    hide Represents, BaseInRange, BuffersInRange, Drained, Respects;
    DrainedInRange(w.store, w.folded, w.view);
    var w' := Next(w, ApplyBlock(b));
    assert Seen(w') == Seen(w) + [b];
    assert w.view.layers <= w'.view.layers;
  }

  lemma PinKeepsInv(w: World, j: nat, a: Address, k: SKey)
    requires Inv(w) && j < |w.view.buffers|
    ensures Inv(WithBuffer(w, j, PinAccountIn(w.view.buffers[j], a, DbAccount(w, a))))
    ensures Inv(WithBuffer(w, j, PinSlotIn(w.view.buffers[j], k, DbSlot(w, k))))
  {
    hide Represents, Respects, AccountInRange, SlotInRange, DbAccount, DbSlot;
    StoreAnswersInRange(w, a, k);
    assert BufferInRange(w.store, w.folded, w.view.buffers[j]);
  }

  /** Every step keeps the invariant. */
  lemma StepKeepsInv(w: World, step: Step)
    requires Inv(w) && Allowed(w, step)
    ensures Inv(Next(w, step))
  {
    hide BaseInRange, BufferInRange, Represents, Respects;
    match step
    case Commit => CommitKeepsInv(w);
    case OtherRows(kv) =>
    case Register => FreshBufferInRange(w.store, w.folded, w.view.buffers);
    case ApplyBlock(b) => ApplyBlockKeepsInv(w, b);
    case Finalize(block, hash) => FinalizeKeepsInv(w, block, hash);
    case Reset(preferred) => ResetKeepsInv(w, preferred);
    case LookupAccount(j, a) => PinKeepsInv(w, j, a, SKey(a, ZERO));
    case LookupSlot(j, k) => PinKeepsInv(w, j, k.addr, k);
    case PinAccountFor(j, a) => PinKeepsInv(w, j, a, SKey(a, ZERO));
  }

  lemma FreshBufferInRange(c: Chain, f: nat, bufs: seq<Buffer>)
    requires BuffersInRange(c, f, bufs)
    ensures BuffersInRange(c, f, bufs + [EMPTY_BUFFER])
  {
    assert BufferInRange(c, f, EMPTY_BUFFER);
  }

  // ----- whole runs -----

  /** A new view over a store: nothing pinned, nothing unfinalized. */
  ghost predicate Fresh(w: World) {
    && Represents(w.kv, w.keccak, w.store) && Respects(w.store)
    && w.folded == |w.store.blocks|
    && w.view == View(map[], [], [])
  }

  ghost predicate Runs(ws: seq<World>, steps: seq<Step>) {
    && |ws| == |steps| + 1
    && Fresh(ws[0])
    && forall n :: 0 <= n < |steps| ==>
         ws[n].folded <= |ws[n].store.blocks| && Allowed(ws[n], steps[n]) && ws[n + 1] == Next(ws[n], steps[n])
  }

  lemma {:induction false} RunKeepsInv(ws: seq<World>, steps: seq<Step>, n: nat)
    requires Runs(ws, steps) && n < |ws|
    ensures Inv(ws[n])
    decreases n
  {
    if n == 0 {
      var w := ws[0];
      assert Seen(w) == w.store.blocks;
    } else {
      hide Inv, Next, Allowed;
      RunKeepsInv(ws, steps, n - 1);
      StepKeepsInv(ws[n - 1], steps[n - 1]);
    }
  }

  /**
   In every state of every run, once the baseline is complete, both lookups
   return exactly the reference state, through whichever buffer.
   */
  lemma EveryLookupInEveryRun(ws: seq<World>, steps: seq<Step>, n: nat, j: nat, a: Address, k: SKey)
    requires Runs(ws, steps) && n < |ws| && j < |ws[n].view.buffers|
    requires MetaBaselineComplete in ws[n].kv
    ensures ws[n].folded <= |ws[n].store.blocks|
    ensures FindAccount(ws[n].view, ws[n].view.buffers[j], a, DbAccount(ws[n], a)) == Ok(Truth(ws[n]).Account(a))
    ensures FindSlot(ws[n].view, ws[n].view.buffers[j], k, DbSlot(ws[n], k)) == Ok(Truth(ws[n]).Slot(k))
  {
    hide FindAccount, FindSlot, DbAccount, DbSlot, Truth;
    RunKeepsInv(ws, steps, n);
    AccountLookupIsTruth(ws[n], j, a);
    SlotLookupIsTruth(ws[n], j, k);
  }

  // ----- nothing fetched is forgotten -----

  /** The account is in the base, or in one of the first n buffers. */
  ghost predicate Knows(p: Pinned, bufs: seq<Buffer>, n: nat, a: Address) {
    a in p || exists j :: 0 <= j < n && j < |bufs| && a in bufs[j].accounts
  }

  /** The slot is in the base, or in a buffer whose turn comes when its account is known. */
  ghost predicate KnowsSlot(p: Pinned, bufs: seq<Buffer>, k: SKey) {
    || (k.addr in p && k.slot in p[k.addr].storage)
    || exists j :: 0 <= j < |bufs| && k in bufs[j].slots && Knows(p, bufs, j + 1, k.addr)
  }

  lemma MergeKnows(p: Pinned, buf: Buffer, a: Address, k: SKey)
    ensures a in Merge(p, buf) <==> a in p || a in buf.accounts
    ensures a in p ==> Merge(p, buf)[a].account == p[a].account
    ensures a !in p && a in buf.accounts ==> Merge(p, buf)[a].account == buf.accounts[a]
    ensures k.addr in Merge(p, buf) ==>
              (k.slot in Merge(p, buf)[k.addr].storage
               <==> (k.addr in p && k.slot in p[k.addr].storage) || k in buf.slots)
  {
    var q := MergeAccounts(p, buf.accounts);
    if k.addr in q {
      SlotsOfHas(buf.slots, k);
    }
  }

  lemma SlotsOfHas(slots: map<SKey, Hash>, k: SKey)
    ensures k.slot in SlotsOf(slots, k.addr) <==> k in slots
  {
    if k in slots {
      assert k.slot in SlotsOf(slots, k.addr);
    }
    if k.slot in SlotsOf(slots, k.addr) {
      var l :| l in slots && l.addr == k.addr && l.slot == k.slot;
      assert l == k;
    }
  }

  lemma KnowsMore(p: Pinned, bufs: seq<Buffer>, a: Address)
    requires bufs != []
    ensures var front := bufs[..|bufs| - 1];
            Knows(p, bufs, |bufs|, a) <==> Knows(p, front, |front|, a) || a in bufs[|bufs| - 1].accounts
  {
    var front := bufs[..|bufs| - 1];
    if Knows(p, front, |front|, a) && a !in p {
      var j :| 0 <= j < |front| && a in front[j].accounts;
      assert a in bufs[j].accounts;
    }
    if Knows(p, bufs, |bufs|, a) && a !in p {
      var j :| 0 <= j < |bufs| && a in bufs[j].accounts;
      assert j < |front| ==> a in front[j].accounts;
    }
  }

  lemma KnowsPrefix(p: Pinned, bufs: seq<Buffer>, n: nat, a: Address)
    requires n < |bufs|
    ensures Knows(p, bufs[..|bufs| - 1], n, a) <==> Knows(p, bufs, n, a)
  {
    var front := bufs[..|bufs| - 1];
    if Knows(p, front, n, a) && a !in p {
      var j :| 0 <= j < n && j < |front| && a in front[j].accounts;
      assert a in bufs[j].accounts;
    }
    if Knows(p, bufs, n, a) && a !in p {
      var j :| 0 <= j < n && j < |bufs| && a in bufs[j].accounts;
      assert a in front[j].accounts;
    }
  }

  lemma KnowsSlotMore(p: Pinned, bufs: seq<Buffer>, k: SKey)
    requires bufs != []
    ensures var front := bufs[..|bufs| - 1];
            KnowsSlot(p, bufs, k)
            <==> KnowsSlot(p, front, k) || (k in bufs[|bufs| - 1].slots && Knows(p, bufs, |bufs|, k.addr))
  {
    hide Knows;
    var front := bufs[..|bufs| - 1];
    if KnowsSlot(p, front, k) && !(k.addr in p && k.slot in p[k.addr].storage) {
      var j :| 0 <= j < |front| && k in front[j].slots && Knows(p, front, j + 1, k.addr);
      KnowsPrefix(p, bufs, j + 1, k.addr);
      assert k in bufs[j].slots;
    }
    if KnowsSlot(p, bufs, k) && !(k.addr in p && k.slot in p[k.addr].storage) {
      var j :| 0 <= j < |bufs| && k in bufs[j].slots && Knows(p, bufs, j + 1, k.addr);
      if j < |front| {
        KnowsPrefix(p, bufs, j + 1, k.addr);
        assert k in front[j].slots;
      }
    }
  }

  lemma {:induction false} MergeAllKnows(p: Pinned, bufs: seq<Buffer>, a: Address, k: SKey)
    ensures a in MergeAll(p, bufs) <==> Knows(p, bufs, |bufs|, a)
    ensures a in p ==> a in MergeAll(p, bufs) && MergeAll(p, bufs)[a].account == p[a].account
    ensures k.addr in MergeAll(p, bufs) && k.slot in MergeAll(p, bufs)[k.addr].storage <==> KnowsSlot(p, bufs, k)
    decreases |bufs|
  {
    hide Merge, Knows, KnowsSlot;
    if bufs == [] {
      KnowsNothing(p, a, k);
    } else {
      var front, last := bufs[..|bufs| - 1], bufs[|bufs| - 1];
      MergeAllKnows(p, front, a, k);
      MergeAllKnows(p, front, k.addr, k);
      MergeKnows(MergeAll(p, front), last, a, k);
      MergeKnows(MergeAll(p, front), last, k.addr, k);
      KnowsMore(p, bufs, a);
      KnowsMore(p, bufs, k.addr);
      KnowsSlotMore(p, bufs, k);
    }
  }

  lemma KnowsNothing(p: Pinned, a: Address, k: SKey)
    ensures Knows(p, [], 0, a) <==> a in p
    ensures KnowsSlot(p, [], k) <==> k.addr in p && k.slot in p[k.addr].storage
  {
  }

  /**
   A write phase keeps what was fetched: afterwards the base holds exactly the
   accounts it held or some buffer held, and the slots of those.
   */
  lemma DrainKeepsKnowledge(v: View, a: Address, k: SKey)
    ensures a in Drained(v).base <==> Knows(v.base, v.buffers, |v.buffers|, a)
    ensures k.addr in Drained(v).base && k.slot in Drained(v).base[k.addr].storage
       <==> KnowsSlot(v.base, v.buffers, k)
  {
    hide MergeAll, Knows, KnowsSlot;
    MergeAllKnows(v.base, v.buffers, a, k);
  }

  /** What the store answered is pinned as answered, and not asked for again. */
  lemma LookupPins(v: View, buf: Buffer, a: Address, k: SKey, dba: Result<Option<Account>>, dbs: Result<Hash>)
    ensures dba.Ok? ==> !MissesAccount(v, PinAccountIn(buf, a, dba), a)
    ensures dbs.Ok? ==> !MissesSlot(v, PinSlotIn(buf, k, dbs), k)
    ensures MissesAccount(v, buf, a) && dba.Ok? ==> FindAccount(v, PinAccountIn(buf, a, dba), a, Err(NotFound)) == dba
    ensures MissesSlot(v, buf, k) && dbs.Ok? ==> FindSlot(v, PinSlotIn(buf, k, dbs), k, Err(NotFound)) == dbs
    ensures dba.Err? ==> PinAccountIn(buf, a, dba) == buf
    ensures dbs.Err? ==> PinSlotIn(buf, k, dbs) == buf
  {
    hide StackAccount, StackSlot;
  }
}
