/**
 The reference: the EVM state after a block, and what one block's capture batch
 does to it. Every optimised form in this project is proved equal to a fold of
 ApplyOps over the blocks of a chain.
 */
module Reference {
  import opened Schema
  import opened Capture

  /** Accounts that exist, and storage; an absent slot is zero. */
  datatype State = State(accounts: map<Address, Account>, slots: map<SKey, Hash>) {
    function Account(a: Address): Option<Account> {
      if a in accounts then Some(accounts[a]) else None
    }

    function Slot(k: SKey): Hash {
      if k in slots then slots[k] else ZERO
    }
  }

  function WithoutSlotsOf(slots: map<SKey, Hash>, a: Address): map<SKey, Hash> {
    map k | k in slots && k.addr != a :: slots[k]
  }

  function ApplyOp(st: State, op: Op): State {
    match op
    case OpAccount(a, acct) => st.(accounts := st.accounts[a := acct])
    case OpSlot(a, s, v) => st.(slots := st.slots[SKey(a, s) := v])
    case OpDeleteSlot(a, s) => st.(slots := st.slots[SKey(a, s) := ZERO])
    case OpDestruct(a) => State(st.accounts - {a}, WithoutSlotsOf(st.slots, a))
    case OpCode(_, _) => st
  }

  /** Ops apply in order. */
  function ApplyOps(st: State, ops: seq<Op>): State {
    if ops == [] then st else ApplyOp(ApplyOps(st, ops[..|ops| - 1]), ops[|ops| - 1])
  }

  /** The state after every batch of the chain. */
  function StateAfter(base: State, chain: seq<Batch>): State {
    if chain == [] then base
    else ApplyOps(StateAfter(base, chain[..|chain| - 1]), chain[|chain| - 1].ops)
  }

  // ----- what one batch does to one key -----

  /** What a list of writes does to a value: leave it, or replace it. */
  datatype Effect<+T> = Keep | Set(value: T)

  function OnAccount(op: Op, a: Address, e: Effect<Option<Account>>): Effect<Option<Account>> {
    match op
    case OpAccount(b, acct) => if a == b then Set(Some(acct)) else e
    case OpDestruct(b) => if a == b then Set(None) else e
    case _ => e
  }

  function OnSlot(op: Op, k: SKey, e: Effect<Hash>): Effect<Hash> {
    match op
    case OpSlot(b, s, v) => if k == SKey(b, s) then Set(v) else e
    case OpDeleteSlot(b, s) => if k == SKey(b, s) then Set(ZERO) else e
    case OpDestruct(b) => if k.addr == b then Set(ZERO) else e
    case _ => e
  }

  /** The batch's effect on one account, and on one slot. */
  function AccountEffect(ops: seq<Op>, a: Address): Effect<Option<Account>> {
    if ops == [] then Keep else OnAccount(ops[|ops| - 1], a, AccountEffect(ops[..|ops| - 1], a))
  }

  function SlotEffect(ops: seq<Op>, k: SKey): Effect<Hash> {
    if ops == [] then Keep else OnSlot(ops[|ops| - 1], k, SlotEffect(ops[..|ops| - 1], k))
  }

  function Or<T>(e: Effect<T>, prev: T): T {
    match e
    case Keep => prev
    case Set(v) => v
  }

  /** Reading one key after a batch needs only the batch's effect on that key. */
  lemma {:induction false} ReadAfterOps(st: State, ops: seq<Op>, a: Address, k: SKey)
    ensures ApplyOps(st, ops).Account(a) == Or(AccountEffect(ops, a), st.Account(a))
    ensures ApplyOps(st, ops).Slot(k) == Or(SlotEffect(ops, k), st.Slot(k))
  {
    if ops != [] {
      ReadAfterOps(st, ops[..|ops| - 1], a, k);
    }
  }

  // ----- the capture contract -----

  predicate Touches(op: Op, a: Address) {
    match op
    case OpAccount(b, _) => a == b
    case OpSlot(b, _, _) => a == b
    case OpDeleteSlot(b, _) => a == b
    case _ => false
  }

  predicate SlotWrite(op: Op, a: Address) {
    match op
    case OpSlot(b, _, _) => a == b
    case OpDeleteSlot(b, _) => a == b
    case _ => false
  }

  /** Per address, a destruct precedes the recreating ops. */
  ghost predicate Ordered(ops: seq<Op>) {
    forall i, j :: 0 <= i < j < |ops| && ops[j].OpDestruct? ==> !Touches(ops[i], ops[j].addr)
  }

  /** Slots are written only for accounts that exist at the end of the block. */
  ghost predicate LiveSlots(st: State, ops: seq<Op>) {
    forall i :: 0 <= i < |ops| && (ops[i].OpSlot? || ops[i].OpDeleteSlot?) ==>
                  ApplyOps(st, ops).Account(ops[i].addr).Some?
  }

  ghost predicate Contract(st: State, ops: seq<Op>) {
    Ordered(ops) && LiveSlots(st, ops)
  }

  /** Every batch keeps the contract in the state it is applied to. */
  ghost predicate ChainContract(base: State, chain: seq<Batch>) {
    forall n :: 0 <= n < |chain| ==> Contract(StateAfter(base, chain[..n]), chain[n].ops)
  }

  /** Accounts that do not exist have no storage. */
  ghost predicate Clean(st: State) {
    forall k: SKey :: st.Account(k.addr).None? ==> st.Slot(k) == ZERO
  }

  // ----- values along a chain -----

  function AccountAt(base: State, chain: seq<Batch>, n: nat, a: Address): Option<Account>
    requires n <= |chain|
  {
    StateAfter(base, chain[..n]).Account(a)
  }

  function SlotAt(base: State, chain: seq<Batch>, n: nat, k: SKey): Hash
    requires n <= |chain|
  {
    StateAfter(base, chain[..n]).Slot(k)
  }

  lemma StepAt(base: State, chain: seq<Batch>, n: nat, a: Address, k: SKey)
    requires n < |chain|
    ensures AccountAt(base, chain, n + 1, a)
         == Or(AccountEffect(chain[n].ops, a), AccountAt(base, chain, n, a))
    ensures SlotAt(base, chain, n + 1, k)
         == Or(SlotEffect(chain[n].ops, k), SlotAt(base, chain, n, k))
  {
    assert chain[..n + 1][..n] == chain[..n];
    ReadAfterOps(StateAfter(base, chain[..n]), chain[n].ops, a, k);
  }

  /** The value at a height does not depend on what comes later. */
  lemma PrefixAt(base: State, c: seq<Batch>, d: seq<Batch>, n: nat, a: Address, k: SKey)
    requires n <= |c| && c <= d
    ensures AccountAt(base, c, n, a) == AccountAt(base, d, n, a)
    ensures SlotAt(base, c, n, k) == SlotAt(base, d, n, k)
  {
    assert c[..n] == d[..n];
  }

  /** A run of batches that leave a key alone leaves its value alone. */
  lemma {:induction false} AccountConstant(base: State, chain: seq<Batch>, i: nat, j: nat, a: Address)
    requires i <= j <= |chain|
    requires forall n :: i <= n < j ==> AccountEffect(chain[n].ops, a).Keep?
    ensures AccountAt(base, chain, j, a) == AccountAt(base, chain, i, a)
    decreases j - i
  {
    if i < j {
      AccountConstant(base, chain, i, j - 1, a);
      StepAt(base, chain, j - 1, a, SKey(a, ZERO));
    }
  }

  lemma {:induction false} SlotConstant(base: State, chain: seq<Batch>, i: nat, j: nat, k: SKey)
    requires i <= j <= |chain|
    requires forall n :: i <= n < j ==> SlotEffect(chain[n].ops, k).Keep?
    ensures SlotAt(base, chain, j, k) == SlotAt(base, chain, i, k)
    decreases j - i
  {
    if i < j {
      SlotConstant(base, chain, i, j - 1, k);
      StepAt(base, chain, j - 1, k.addr, k);
    }
  }

  // ----- clean states stay clean -----

  lemma {:induction false} SlotEffectShape(ops: seq<Op>, k: SKey)
    ensures SlotEffect(ops, k).Keep? ==> forall i :: 0 <= i < |ops| ==> ops[i] != OpDestruct(k.addr)
    ensures (forall i :: 0 <= i < |ops| ==> !SlotWrite(ops[i], k.addr)) ==>
              SlotEffect(ops, k) in {Keep, Set(ZERO)}
  {
    if ops != [] {
      SlotEffectShape(ops[..|ops| - 1], k);
    }
  }

  lemma {:induction false} AccountEffectShape(ops: seq<Op>, a: Address)
    ensures AccountEffect(ops, a) == Set(None) ==> exists i :: 0 <= i < |ops| && ops[i] == OpDestruct(a)
  {
    if ops != [] {
      AccountEffectShape(ops[..|ops| - 1], a);
      if AccountEffect(ops[..|ops| - 1], a) == Set(None) {
        var i :| 0 <= i < |ops| - 1 && ops[..|ops| - 1][i] == OpDestruct(a);
        assert ops[i] == OpDestruct(a);
      }
      assert ops[|ops| - 1] == OpDestruct(a) ==> 0 <= |ops| - 1 < |ops|;
    }
  }

  lemma ContractKeepsClean(st: State, ops: seq<Op>)
    requires Clean(st) && LiveSlots(st, ops)
    ensures Clean(ApplyOps(st, ops))
  {
    var st' := ApplyOps(st, ops);
    forall k: SKey | st'.Account(k.addr).None? ensures st'.Slot(k) == ZERO {
      ReadAfterOps(st, ops, k.addr, k);
      SlotEffectShape(ops, k);
      AccountEffectShape(ops, k.addr);
      assert forall i :: 0 <= i < |ops| ==> !SlotWrite(ops[i], k.addr);
    }
  }

  lemma {:induction false} ChainKeepsClean(base: State, chain: seq<Batch>, n: nat)
    requires Clean(base) && ChainContract(base, chain) && n <= |chain|
    ensures Clean(StateAfter(base, chain[..n]))
    decreases n
  {
    if n > 0 {
      ChainKeepsClean(base, chain, n - 1);
      assert chain[..n][..n - 1] == chain[..n - 1];
      ContractKeepsClean(StateAfter(base, chain[..n - 1]), chain[n - 1].ops);
    }
  }

  lemma ChainContractPrefix(base: State, chain: seq<Batch>, n: nat)
    requires ChainContract(base, chain) && n <= |chain|
    ensures ChainContract(base, chain[..n])
  {
    forall m | 0 <= m < n ensures Contract(StateAfter(base, chain[..n][..m]), chain[..n][m].ops) {
      assert chain[..n][..m] == chain[..m];
    }
  }
}
