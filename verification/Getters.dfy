/**
 What a simulation call reads back (sim/statedb.go): every getter answers with the
 last write of the call that reached it, and with the shared state where there was
 none. Together with the journal's laws this fixes every answer of a call with
 nested snapshots and reverts.
 */
module Getters {
  import opened Bytes
  import opened Collections
  import opened Schema
  import opened Journal

  // ----- storage cells -----

  /** Two slots are one cell if they differ at most in the lowest bit of the first byte. */
  predicate SameCell(s: Hash, t: Hash) {
    s[0] / 2 == t[0] / 2 && s[1..] == t[1..]
  }

  /** A slot is stored under the member of its cell whose lowest bit is clear. */
  lemma NormSlotIsCell(s: Hash, t: Hash)
    ensures SameCell(NormSlot(s), s) && NormSlot(s)[0] % 2 == 0
    ensures NormSlot(s) == NormSlot(t) <==> SameCell(s, t)
  {
    assert NormSlot(s)[1..] == s[1..] && NormSlot(t)[1..] == t[1..];
    assert NormSlot(s)[0] == s[0] - s[0] % 2 && NormSlot(t)[0] == t[0] - t[0] % 2;
  }

  /** The mutator writes the cell. */
  predicate WritesCell(m: Mutator, a: Address, s: Hash) {
    m.SetState? && m.addr == a && SameCell(m.slot, s)
  }

  lemma StateReadBack(o: Overlay, m: Mutator, b: Below, a: Address, s: Hash)
    ensures GetState(Apply(o, m), b, a, s) == if WritesCell(m, a, s) then m.value else GetState(o, b, a, s)
  {
    hide NormSlot, SameCell;
    if m.SetState? {
      NormSlotIsCell(m.slot, s);
    }
  }

  /** No entry of the overlay is in the cell: the shared state answers. */
  lemma UnwrittenState(o: Overlay, b: Below, a: Address, s: Hash, cell: Hash)
    requires SameCell(cell, s) && cell[0] % 2 == 0
    requires forall k: SKey :: k in o.slots && k.addr == a ==> !SameCell(k.slot, s)
    ensures GetState(o, b, a, s) == if SKey(a, cell) in b.slots then b.slots[SKey(a, cell)] else ZERO
  {
    NormSlotIsCell(s, cell);
    assert NormSlot(s) == cell by { assert NormSlot(cell) == [cell[0]] + cell[1..] == cell; }
    assert SameCell(SKey(a, NormSlot(s)).slot, s);
  }

  // ----- the other getters, one mutator at a time -----

  /** The mutator destructs the account: at once, or because the call created it. */
  predicate Destructs(o: Overlay, m: Mutator, a: Address) {
    m == SelfDestruct(a) || (m == SelfDestruct6780(a) && a in o.created)
  }

  /** The entries a mutator leaves in the maps of accounts. */
  lemma BalanceEntry(o: Overlay, m: Mutator, a: Address)
    ensures Lookup(Apply(o, m).balances, a)
         == if Destructs(o, m, a) then Some(0)
            else if m.SetBalance? && m.addr == a then Some(m.balance)
            else Lookup(o.balances, a)
  {
    hide NormSlot, WithSlot, HasSlot;
  }

  lemma NonceEntry(o: Overlay, m: Mutator, a: Address)
    ensures Lookup(Apply(o, m).nonces, a) == if m.SetNonce? && m.addr == a then Some(m.nonce) else Lookup(o.nonces, a)
  {
    hide NormSlot, WithSlot, HasSlot;
  }

  lemma CodeEntries(o: Overlay, m: Mutator, a: Address)
    ensures Lookup(Apply(o, m).codes, a) == if m.SetCode? && m.addr == a then Some(m.code) else Lookup(o.codes, a)
    ensures Lookup(Apply(o, m).codeHashes, a)
         == if m.SetCode? && m.addr == a then Some(m.codeHash) else Lookup(o.codeHashes, a)
  {
    hide NormSlot, WithSlot, HasSlot;
  }

  lemma LifeEntries(o: Overlay, m: Mutator, a: Address)
    ensures a in Apply(o, m).created <==> m == CreateAccount(a) || a in o.created
    ensures a in Apply(o, m).destructed <==> Destructs(o, m, a) || a in o.destructed
  {
    hide NormSlot, WithSlot, HasSlot;
  }

  lemma BalanceReadBack(o: Overlay, m: Mutator, b: Below, a: Address)
    ensures GetBalance(Apply(o, m), b, a)
         == if Destructs(o, m, a) then 0
            else if m.SetBalance? && m.addr == a then m.balance
            else GetBalance(o, b, a)
  {
    hide Apply;
    BalanceEntry(o, m, a);
  }

  lemma NonceReadBack(o: Overlay, m: Mutator, b: Below, a: Address)
    ensures GetNonce(Apply(o, m), b, a) == if m.SetNonce? && m.addr == a then m.nonce else GetNonce(o, b, a)
  {
    hide Apply;
    NonceEntry(o, m, a);
  }

  lemma CodeReadBack(o: Overlay, m: Mutator, b: Below, emptyCode: Hash, a: Address)
    ensures GetCodeHash(Apply(o, m), b, emptyCode, a)
         == if m.SetCode? && m.addr == a then m.codeHash else GetCodeHash(o, b, emptyCode, a)
    ensures GetCode(Apply(o, m), b, emptyCode, a)
         == if m.SetCode? && m.addr == a then m.code else GetCode(o, b, emptyCode, a)
  {
    hide Apply;
    CodeEntries(o, m, a);
  }

  lemma LifecycleReadBack(o: Overlay, m: Mutator, b: Below, a: Address)
    ensures HasSelfDestructed(Apply(o, m), a) <==> Destructs(o, m, a) || HasSelfDestructed(o, a)
    ensures Exist(Apply(o, m), b, a)
       <==> (m == CreateAccount(a) || Destructs(o, m, a) || ((m.SetBalance? || m.SetNonce?) && m.addr == a)
             || Exist(o, b, a))
  {
    hide Apply;
    LifeEntries(o, m, a);
    BalanceEntry(o, m, a);
    NonceEntry(o, m, a);
  }

  lemma TransientReadBack(o: Overlay, m: Mutator, a: Address, s: Hash)
    ensures GetTransientState(Apply(o, m), a, s)
         == if m.SetTransientState? && m.addr == a && m.slot == s then m.value else GetTransientState(o, a, s)
  {
    hide NormSlot, WithSlot, HasSlot;
  }

  lemma OtherwiseAsWarm(o: Overlay, m: Mutator)
    requires !m.AddAddress? && !m.AddSlot?
    ensures Apply(o, m).al == o.al
  {
    hide NormSlot, WithSlot, HasSlot;
  }

  lemma WarmReadBack(o: Overlay, m: Mutator, a: Address, s: Hash)
    ensures AddressInAccessList(Apply(o, m), a)
       <==> ((m.AddAddress? || m.AddSlot?) && m.addr == a) || AddressInAccessList(o, a)
    ensures SlotInAccessList(Apply(o, m), a, s).0 == AddressInAccessList(Apply(o, m), a)
    ensures SlotInAccessList(Apply(o, m), a, s).1 <==> m == AddSlot(a, s) || SlotInAccessList(o, a, s).1
  {
    hide Apply;
    if m.AddAddress? {
      WarmAddress(o, m.addr);
    } else if m.AddSlot? {
      WarmSlot(o, m.addr, m.slot);
    } else {
      OtherwiseAsWarm(o, m);
    }
  }

  lemma WarmAddress(o: Overlay, a: Address)
    ensures Apply(o, AddAddress(a)).al == if a in o.al then o.al else o.al[a := None]
  {
  }

  lemma WarmSlot(o: Overlay, a: Address, s: Hash)
    ensures Apply(o, AddSlot(a, s)).al == if HasSlot(o.al, a, s) then o.al else WithSlot(o.al, a, s)
  {
    hide HasSlot, WithSlot;
  }

  // ----- a whole run of mutators -----

  /** The last mutator of the run that writes the cell. */
  ghost predicate LastWrite(ms: seq<Mutator>, i: nat, a: Address, s: Hash) {
    i < |ms| && WritesCell(ms[i], a, s) && forall j :: i < j < |ms| ==> !WritesCell(ms[j], a, s)
  }

  /** Over any run a storage read is the last write of its cell, or what it was before the run. */
  lemma {:induction false} ReadsLastWrite(o: Overlay, ms: seq<Mutator>, b: Below, a: Address, s: Hash)
    ensures forall i: nat :: LastWrite(ms, i, a, s) ==> GetState(After(o, ms), b, a, s) == ms[i].value
    ensures (forall i :: 0 <= i < |ms| ==> !WritesCell(ms[i], a, s)) ==>
              GetState(After(o, ms), b, a, s) == GetState(o, b, a, s)
  {
    hide Apply, GetState, WritesCell;
    if ms != [] {
      var front, m := ms[..|ms| - 1], ms[|ms| - 1];
      ReadsLastWrite(o, front, b, a, s);
      StateReadBack(After(o, front), m, b, a, s);
      if !WritesCell(m, a, s) {
        forall i: nat | LastWrite(ms, i, a, s) ensures LastWrite(front, i, a, s) {
        }
      }
    }
  }

  /** The logs a run adds, in order. */
  function LogsOf(ms: seq<Mutator>): seq<Log> {
    if ms == [] then [] else LogsOf(ms[..|ms| - 1]) + if ms[|ms| - 1].AddLog? then [ms[|ms| - 1].log] else []
  }

  function GasOf(m: Mutator): int {
    match m
    case AddRefund(g) => g
    case SubRefund(g) => 0 - g
    case _ => 0
  }

  /** What a run adds to the refund, net. */
  function RefundOf(ms: seq<Mutator>): int {
    if ms == [] then 0 else RefundOf(ms[..|ms| - 1]) + GasOf(ms[|ms| - 1])
  }

  /** The refund stays within 64 bits and never goes below zero on the way. */
  ghost predicate RefundFits(o: Overlay, ms: seq<Mutator>) {
    forall n :: 0 <= n <= |ms| ==> 0 <= o.refund + RefundOf(ms[..n]) < TWO64
  }

  lemma LogsAfter(o: Overlay, m: Mutator)
    ensures Apply(o, m).logs == o.logs + if m.AddLog? then [m.log] else []
  {
    hide NormSlot, WithSlot, HasSlot;
  }

  lemma RefundAfter(o: Overlay, m: Mutator)
    requires 0 <= o.refund + GasOf(m) < TWO64
    ensures Apply(o, m).refund == o.refund + GasOf(m)
  {
    hide NormSlot, WithSlot, HasSlot;
  }

  lemma FitsPrefix(o: Overlay, ms: seq<Mutator>, n: nat)
    requires RefundFits(o, ms) && n <= |ms|
    ensures RefundFits(o, ms[..n]) && 0 <= o.refund + RefundOf(ms) < TWO64
  {
    hide RefundOf;
    assert ms[..|ms|] == ms;
    forall k | 0 <= k <= n ensures 0 <= o.refund + RefundOf(ms[..n][..k]) < TWO64 {
      assert ms[..n][..k] == ms[..k];
    }
  }

  /** A run adds its logs in order, and to the refund the sum of what it adds and subtracts. */
  lemma {:induction false} RunCounts(o: Overlay, ms: seq<Mutator>)
    ensures After(o, ms).logs == o.logs + LogsOf(ms)
    ensures RefundFits(o, ms) ==> After(o, ms).refund == o.refund + RefundOf(ms)
  {
    hide Apply, RefundFits;
    if ms != [] {
      var front := ms[..|ms| - 1];
      RunCounts(o, front);
      LogsAfter(After(o, front), ms[|ms| - 1]);
      if RefundFits(o, ms) {
        FitsPrefix(o, ms, |ms| - 1);
        RefundAfter(After(o, front), ms[|ms| - 1]);
      }
    }
  }

  // ----- the start of a call -----

  /** The caller's overrides in place, and nothing else. */
  function Start(b: Below, balances: map<Address, U256>): Overlay {
    Overlay(balances, b.given, map[], map[], map[], {}, {}, map[], map[], 0, [])
  }

  /**
   Before its first write a call sees the overrides it was given over the shared
   state, and its committed storage is what it sees then.
   */
  lemma StartReads(b: Below, balances: map<Address, U256>, emptyCode: Hash, a: Address, s: Hash)
    requires emptyCode != ZERO
    ensures var o := Start(b, balances);
            && (a in balances ==> GetBalance(o, b, a) == balances[a])
            && (a !in balances && a in b.accounts ==> GetBalance(o, b, a) == b.accounts[a].balance)
            && (a in b.accounts ==> GetNonce(o, b, a) == b.accounts[a].nonce)
            && (a !in b.accounts ==> GetNonce(o, b, a) == 0 && GetCodeHash(o, b, emptyCode, a) == ZERO)
            && (a !in b.accounts && a !in balances ==> GetBalance(o, b, a) == 0)
            && (GetCodeHash(o, b, emptyCode, a) != ZERO <==> a in b.accounts)
            && (Exist(o, b, a) <==> a in balances || a in b.accounts)
            && GetState(o, b, a, s) == GetCommittedState(b, a, s)
            && GetTransientState(o, a, s) == ZERO && !HasSelfDestructed(o, a) && !AddressInAccessList(o, a)
            && !SlotInAccessList(o, a, s).0 && !SlotInAccessList(o, a, s).1
  {
    hide NormSlot;
  }

  // ----- emptiness -----

  /** A code hash is zero or the hash of no code exactly where there is no code, and names a known code elsewhere. */
  ghost predicate HashesName(o: Overlay, b: Below, emptyCode: Hash) {
    && CodesAgree(o)
    && (forall a :: a in o.codes ==> (o.codes[a] == [] <==> o.codeHashes[a] == ZERO || o.codeHashes[a] == emptyCode))
    && (forall a :: a in b.accounts && b.accounts[a].codeHash != ZERO && b.accounts[a].codeHash != emptyCode ==>
          b.accounts[a].codeHash in b.codes && b.codes[b.accounts[a].codeHash] != [])
  }

  /** Empty means no nonce, no balance and no code. */
  lemma EmptyMeansNothing(o: Overlay, b: Below, emptyCode: Hash, a: Address)
    requires HashesName(o, b, emptyCode)
    ensures Empty(o, b, emptyCode, a)
       <==> GetNonce(o, b, a) == 0 && GetBalance(o, b, a) == 0 && GetCode(o, b, emptyCode, a) == []
  {
  }

  /** The code an account below has is the one its hash names. */
  lemma SharedCode(o: Overlay, b: Below, emptyCode: Hash, a: Address)
    requires a !in o.codes && a !in o.codeHashes && a in b.accounts
    ensures b.accounts[a].codeHash == ZERO ==> GetCode(o, b, emptyCode, a) == []
    ensures b.accounts[a].codeHash != ZERO && b.accounts[a].codeHash != emptyCode && b.accounts[a].codeHash in b.codes
            ==> GetCode(o, b, emptyCode, a) == b.codes[b.accounts[a].codeHash]
  {
  }

  // ----- whole calls -----

  /** The mutators still in effect, and those that were at each live snapshot. */
  datatype Surviving = Surviving(ms: seq<Mutator>, marks: map<nat, seq<Mutator>>)

  /** Reverting takes back everything since the snapshot, and the snapshots taken since. */
  function Survive(x: Surviving, act: Action, id: nat): Surviving {
    match act
    case Mutate(m) => x.(ms := x.ms + [m])
    case Snapshot => x.(marks := x.marks[id := x.ms])
    case Revert(r) => if r in x.marks then Surviving(x.marks[r], map i | i in x.marks && i <= r :: x.marks[i]) else x
  }

  ghost function Survivors(ss: seq<Machine>, acts: seq<Action>, n: nat): Surviving
    requires Runs(ss, acts) && n < |ss|
  {
    if n == 0 then Surviving([], map[])
    else Survive(Survivors(ss, acts, n - 1), acts[n - 1], |ss[n - 1].journal|)
  }

  /** The full copies are the surviving mutators carried out from the start. */
  ghost predicate Stands(start: Overlay, x: Surviving, s: Machine) {
    && s.spec == After(start, x.ms)
    && s.copies.Keys == x.marks.Keys
    && forall id :: id in x.marks ==> s.copies[id] == After(start, x.marks[id])
  }

  lemma StandsAfter(start: Overlay, x: Surviving, s: Machine, act: Action)
    requires Stands(start, x, s) && Allowed(s, act)
    ensures Stands(start, Survive(x, act, |s.journal|), Step(s, act))
  {
    hide Apply, Entries, UndoAll;
    if act.Mutate? {
      assert (x.ms + [act.m])[..|x.ms|] == x.ms;
    }
  }

  lemma {:induction false} SurvivorsStand(ss: seq<Machine>, acts: seq<Action>, n: nat)
    requires Runs(ss, acts) && n < |ss|
    ensures Stands(ss[0].o, Survivors(ss, acts, n), ss[n])
    decreases n
  {
    hide Stands, Survive, Step, Allowed;
    if n == 0 {
      assert Stands(ss[0].o, Surviving([], map[]), ss[0]) by { StandsAtStart(ss[0]); }
    } else {
      SurvivorsStand(ss, acts, n - 1);
      StandsAfter(ss[0].o, Survivors(ss, acts, n - 1), ss[n - 1], acts[n - 1]);
    }
  }

  lemma StandsAtStart(s: Machine)
    requires s.spec == s.o && s.copies == map[]
    ensures Stands(s.o, Surviving([], map[]), s)
  {
  }

  /**
   Anywhere in a call with nested snapshots and reverts, a storage read of the
   journaled overlay is the last write of its cell that was not reverted, and what
   the call started with if there is none.
   */
  lemma CallReadsLastWrite(ss: seq<Machine>, acts: seq<Action>, n: nat, b: Below, a: Address, s: Hash)
    requires Runs(ss, acts) && n < |ss|
    ensures var ms := Survivors(ss, acts, n).ms;
            && (forall i: nat :: LastWrite(ms, i, a, s) ==> GetState(ss[n].o, b, a, s) == ms[i].value)
            && ((forall i :: 0 <= i < |ms| ==> !WritesCell(ms[i], a, s)) ==>
                  GetState(ss[n].o, b, a, s) == GetState(ss[0].o, b, a, s))
  {
    hide Runs, Survivors, GetState, LastWrite, WritesCell, Refines, Alike;
    var ms := Survivors(ss, acts, n).ms;
    SurvivorsStand(ss, acts, n);
    JournalRefinesCopies(ss, acts, n);
    assert SameAnswers(ss[n].o, ss[n].spec, b, ZERO);
    SameState(ss[n].o, ss[n].spec, b, a, s);
    ReadsLastWrite(ss[0].o, ms, b, a, s);
  }

  lemma SameState(o: Overlay, p: Overlay, b: Below, a: Address, s: Hash)
    requires SameAnswers(o, p, b, ZERO)
    ensures GetState(o, b, a, s) == GetState(p, b, a, s)
  {
    hide GetState, GetCode, Empty, Exist;
    assert AnswersAt(o, p, b, ZERO, a, s);
  }
}
