/**
 The journaled overlay of a simulation call (sim/statedb.go): every mutator
 appends undo entries, RevertToSnapshot unwinds them newest first. The journal is
 proved to refine a stack of full copies.
 */
module Journal {
  import opened Bytes
  import opened Collections
  import opened Schema

  const TWO64 := 0x1_0000_0000_0000_0000

  datatype Log = Log(addr: Address, topics: seq<Hash>, data: bytes)

  /** The per-call state. An access-list entry without a slot map is address-only. */
  datatype Overlay = Overlay(
    balances: map<Address, U256>,
    slots: map<SKey, Hash>,
    nonces: map<Address, U64>,
    codes: map<Address, bytes>,
    codeHashes: map<Address, Hash>,
    created: set<Address>,
    destructed: set<Address>,
    transient: map<SKey, Hash>,
    al: map<Address, Option<set<Hash>>>,
    refund: U64,
    logs: seq<Log>)

  /** One undo entry; prev is None where the overlay had no entry before the write. */
  datatype Entry =
    | JBalance(addr: Address, prevBalance: Option<U256>)
    | JStorage(key: SKey, prevValue: Option<Hash>)
    | JNonce(addr: Address, prevNonce: Option<U64>)
    | JCode(addr: Address)
    | JRefund(prevRefund: U64)
    | JLog
    | JDestruct(addr: Address)
    | JCreated(addr: Address)
    | JTransient(key: SKey, prevValue: Option<Hash>)
    | JALAddr(addr: Address)
    | JALSlot(addr: Address, slot: Hash)

  function Restore<K, V>(m: map<K, V>, k: K, prev: Option<V>): map<K, V> {
    match prev
    case None => m - {k}
    case Some(v) => m[k := v]
  }

  lemma RestoreUndoes<K, V>(m: map<K, V>, k: K, v: V)
    ensures Restore(m[k := v], k, Lookup(m, k)) == m
  {
  }

  // ----- undo -----

  function UndoSlot(al: map<Address, Option<set<Hash>>>, a: Address, s: Hash): map<Address, Option<set<Hash>>> {
    if a in al && al[a].Some? then al[a := Some(al[a].value - {s})] else al
  }

  function Undo(o: Overlay, e: Entry): Overlay {
    match e
    case JBalance(a, prev) => o.(balances := Restore(o.balances, a, prev))
    case JStorage(k, prev) => o.(slots := Restore(o.slots, k, prev))
    case JNonce(a, prev) => o.(nonces := Restore(o.nonces, a, prev))
    case JCode(a) => o.(codes := o.codes - {a}, codeHashes := o.codeHashes - {a})
    case JRefund(prev) => o.(refund := prev)
    case JLog => o.(logs := if o.logs == [] then [] else o.logs[..|o.logs| - 1])
    case JDestruct(a) => o.(destructed := o.destructed - {a})
    case JCreated(a) => o.(created := o.created - {a})
    case JTransient(k, prev) => o.(transient := Restore(o.transient, k, prev))
    case JALAddr(a) => o.(al := o.al - {a})
    case JALSlot(a, s) => o.(al := UndoSlot(o.al, a, s))
  }

  /** Undoes a run of entries, newest first. */
  function UndoAll(o: Overlay, es: seq<Entry>): Overlay
    decreases |es|
  {
    if es == [] then o else UndoAll(Undo(o, es[|es| - 1]), es[..|es| - 1])
  }

  lemma {:induction false} UndoAllAppend(o: Overlay, front: seq<Entry>, back: seq<Entry>)
    ensures UndoAll(o, front + back) == UndoAll(UndoAll(o, back), front)
    decreases |back|
  {
    hide Undo;
    if back == [] {
      assert front + back == front;
    } else {
      var n := |back| - 1;
      UndoAllAppend(Undo(o, back[n]), front, back[..n]);
      assert (front + back)[..|front| + n] == front + back[..n];
    }
  }

  // ----- mutators -----

  /** Storage keys clear the lowest bit of their first byte. */
  function NormSlot(s: Hash): Hash {
    [s[0] - s[0] % 2] + s[1..]
  }

  datatype Mutator =
    | SetBalance(addr: Address, balance: U256)
    | SetNonce(addr: Address, nonce: U64)
    | SetCode(addr: Address, code: bytes, codeHash: Hash)
    | SetState(addr: Address, slot: Hash, value: Hash)
    | SetTransientState(addr: Address, slot: Hash, value: Hash)
    | CreateAccount(addr: Address)
    | SelfDestruct(addr: Address)
    | SelfDestruct6780(addr: Address)
    | AddRefund(gas: U64)
    | SubRefund(gas: U64)
    | AddLog(log: Log)
    | AddAddress(addr: Address)
    | AddSlot(addr: Address, slot: Hash)

  function Destroyed(o: Overlay, a: Address): Overlay {
    o.(destructed := o.destructed + {a}, balances := o.balances[a := 0])
  }

  function WithSlot(al: map<Address, Option<set<Hash>>>, a: Address, s: Hash): map<Address, Option<set<Hash>>> {
    al[a := Some((if a in al && al[a].Some? then al[a].value else {}) + {s})]
  }

  predicate HasSlot(al: map<Address, Option<set<Hash>>>, a: Address, s: Hash) {
    a in al && al[a].Some? && s in al[a].value
  }

  /** What a mutator does to the overlay. */
  function Apply(o: Overlay, m: Mutator): Overlay {
    match m
    case SetBalance(a, b) => o.(balances := o.balances[a := b])
    case SetNonce(a, n) => o.(nonces := o.nonces[a := n])
    case SetCode(a, c, h) => o.(codes := o.codes[a := c], codeHashes := o.codeHashes[a := h])
    case SetState(a, s, v) => o.(slots := o.slots[SKey(a, NormSlot(s)) := v])
    case SetTransientState(a, s, v) => o.(transient := o.transient[SKey(a, s) := v])
    case CreateAccount(a) => o.(created := o.created + {a})
    case SelfDestruct(a) => Destroyed(o, a)
    case SelfDestruct6780(a) => if a in o.created then Destroyed(o, a) else o
    case AddRefund(g) => o.(refund := (o.refund + g) % TWO64)
    case SubRefund(g) => if g > o.refund then o else o.(refund := o.refund - g)
    case AddLog(l) => o.(logs := o.logs + [l])
    case AddAddress(a) => if a in o.al then o else o.(al := o.al[a := None])
    case AddSlot(a, s) => if HasSlot(o.al, a, s) then o else o.(al := WithSlot(o.al, a, s))
  }

  function DestroyEntries(o: Overlay, a: Address): seq<Entry> {
    (if a in o.destructed then [] else [JDestruct(a)]) + [JBalance(a, Lookup(o.balances, a))]
  }

  /** The undo entries a mutator appends. */
  function Entries(o: Overlay, m: Mutator): seq<Entry> {
    match m
    case SetBalance(a, _) => [JBalance(a, Lookup(o.balances, a))]
    case SetNonce(a, _) => [JNonce(a, Lookup(o.nonces, a))]
    case SetCode(a, _, _) => [JCode(a)]
    case SetState(a, s, _) => [JStorage(SKey(a, NormSlot(s)), Lookup(o.slots, SKey(a, NormSlot(s))))]
    case SetTransientState(a, s, _) => [JTransient(SKey(a, s), Lookup(o.transient, SKey(a, s)))]
    case CreateAccount(a) => if a in o.created then [] else [JCreated(a)]
    case SelfDestruct(a) => DestroyEntries(o, a)
    case SelfDestruct6780(a) => if a in o.created then DestroyEntries(o, a) else []
    case AddRefund(_) => [JRefund(o.refund)]
    case SubRefund(_) => [JRefund(o.refund)]
    case AddLog(_) => [JLog]
    case AddAddress(a) => if a in o.al then [] else [JALAddr(a)]
    case AddSlot(a, s) =>
      if HasSlot(o.al, a, s) then []
      else (if a in o.al then [] else [JALAddr(a)]) + [JALSlot(a, s)]
  }

  // ----- what a caller can see -----

  function SlotSets(al: map<Address, Option<set<Hash>>>): map<Address, set<Hash>> {
    map a | a in al :: if al[a].Some? then al[a].value else {}
  }

  /** Two overlays look alike if they differ at most in a missing versus empty slot map. */
  predicate Alike(o: Overlay, p: Overlay) {
    o.(al := map[]) == p.(al := map[]) && SlotSets(o.al) == SlotSets(p.al)
  }

  /** The access-list getters, on both kinds of address-only entries. */
  function SlotInAccessList(o: Overlay, a: Address, s: Hash): (bool, bool) {
    if a !in o.al then (false, false)
    else if o.al[a].None? then (true, false)
    else (true, s in o.al[a].value)
  }

  predicate AddressInAccessList(o: Overlay, a: Address) {
    a in o.al
  }

  lemma AlikeAccessLists(o: Overlay, p: Overlay, a: Address, s: Hash)
    requires Alike(o, p)
    ensures AddressInAccessList(o, a) == AddressInAccessList(p, a)
    ensures SlotInAccessList(o, a, s).0 == SlotInAccessList(p, a, s).0
    ensures SlotInAccessList(o, a, s).1 == SlotInAccessList(p, a, s).1
  {
    AccessListBySets(o, a, s);
    AccessListBySets(p, a, s);
  }

  lemma AccessListBySets(o: Overlay, a: Address, s: Hash)
    ensures AddressInAccessList(o, a) <==> a in SlotSets(o.al)
    ensures SlotInAccessList(o, a, s).0 <==> a in SlotSets(o.al)
    ensures SlotInAccessList(o, a, s).1 <==> a in SlotSets(o.al) && s in SlotSets(o.al)[a]
  {
    var sets := SlotSets(o.al);
    assert a in sets <==> a in o.al;
    if a in o.al {
      assert sets[a] == if o.al[a].Some? then o.al[a].value else {};
    }
  }

  // ----- the getters -----

  /** The shared state a call reads through to, and the storage overrides it was given. */
  datatype Below = Below(
    accounts: map<Address, Account>,
    slots: map<SKey, Hash>,
    codes: map<Hash, bytes>,
    given: map<SKey, Hash>)

  function SharedSlot(b: Below, k: SKey): Hash {
    if k in b.slots then b.slots[k] else ZERO
  }

  function GetBalance(o: Overlay, b: Below, a: Address): U256 {
    if a in o.balances then o.balances[a] else if a in b.accounts then b.accounts[a].balance else 0
  }

  function GetNonce(o: Overlay, b: Below, a: Address): U64 {
    if a in o.nonces then o.nonces[a] else if a in b.accounts then b.accounts[a].nonce else 0
  }

  /** emptyCode is the hash of no code. */
  function GetCodeHash(o: Overlay, b: Below, emptyCode: Hash, a: Address): Hash {
    if a in o.codeHashes then o.codeHashes[a]
    else if a !in b.accounts then ZERO
    else if b.accounts[a].codeHash == ZERO then emptyCode
    else b.accounts[a].codeHash
  }

  function GetCode(o: Overlay, b: Below, emptyCode: Hash, a: Address): bytes {
    if a in o.codes then o.codes[a]
    else
      var h := GetCodeHash(o, b, emptyCode, a);
      if h != ZERO && h != emptyCode && h in b.codes then b.codes[h] else []
  }

  function GetState(o: Overlay, b: Below, a: Address, s: Hash): Hash {
    var k := SKey(a, NormSlot(s));
    if k in o.slots then o.slots[k] else SharedSlot(b, k)
  }

  /** The value before the call: writes of the call are not visible. */
  function GetCommittedState(b: Below, a: Address, s: Hash): Hash {
    var k := SKey(a, NormSlot(s));
    if k in b.given then b.given[k] else SharedSlot(b, k)
  }

  function GetTransientState(o: Overlay, a: Address, s: Hash): Hash {
    var k := SKey(a, s);
    if k in o.transient then o.transient[k] else ZERO
  }

  predicate HasSelfDestructed(o: Overlay, a: Address) {
    a in o.destructed
  }

  predicate Exist(o: Overlay, b: Below, a: Address) {
    a in o.created || a in o.destructed || a in o.balances || a in o.nonces || a in b.accounts
  }

  predicate Empty(o: Overlay, b: Below, emptyCode: Hash, a: Address) {
    && GetNonce(o, b, a) == 0 && GetBalance(o, b, a) == 0
    && (GetCodeHash(o, b, emptyCode, a) == ZERO || GetCodeHash(o, b, emptyCode, a) == emptyCode)
  }

  /** Every getter on an address and a slot answers alike. */
  predicate AnswersAt(o: Overlay, p: Overlay, b: Below, emptyCode: Hash, a: Address, s: Hash) {
    && GetBalance(o, b, a) == GetBalance(p, b, a)
    && GetNonce(o, b, a) == GetNonce(p, b, a)
    && GetCodeHash(o, b, emptyCode, a) == GetCodeHash(p, b, emptyCode, a)
    && GetCode(o, b, emptyCode, a) == GetCode(p, b, emptyCode, a)
    && GetState(o, b, a, s) == GetState(p, b, a, s)
    && GetTransientState(o, a, s) == GetTransientState(p, a, s)
    && HasSelfDestructed(o, a) == HasSelfDestructed(p, a)
    && Exist(o, b, a) == Exist(p, b, a)
    && Empty(o, b, emptyCode, a) == Empty(p, b, emptyCode, a)
    && AddressInAccessList(o, a) == AddressInAccessList(p, a)
    && SlotInAccessList(o, a, s).0 == SlotInAccessList(p, a, s).0
    && SlotInAccessList(o, a, s).1 == SlotInAccessList(p, a, s).1
  }

  ghost predicate SameAnswers(o: Overlay, p: Overlay, b: Below, emptyCode: Hash) {
    && o.refund == p.refund && o.logs == p.logs
    && forall a: Address, s: Hash :: AnswersAt(o, p, b, emptyCode, a, s)
  }

  /** Overlays that look alike answer alike, whatever lies below. */
  lemma AlikeAnswers(o: Overlay, p: Overlay, b: Below, emptyCode: Hash)
    requires Alike(o, p)
    ensures SameAnswers(o, p, b, emptyCode)
  {
    hide SlotSets, NormSlot;
    assert o == p.(al := o.al);
    forall a: Address, s: Hash ensures AnswersAt(o, p, b, emptyCode, a, s) {
      AlikeAccessLists(o, p, a, s);
    }
  }

  /** Below a lost code there may be another account with another code. */
  lemma LostCodeShows(o: Overlay, p: Overlay, emptyCode: Hash, a: Address)
    requires a in o.codeHashes && a !in p.codeHashes
    ensures exists b :: !SameAnswers(p, o, b, emptyCode)
  {
    var one: Hash := [1] + Blank(31);
    var two: Hash := [2] + Blank(31);
    assert one[0] == 1 && two[0] == 2;
    var other := if o.codeHashes[a] == one then two else one;
    assert other != ZERO by { assert ZERO[0] == 0 != other[0]; }
    var b := Below(map[a := Account(0, 0, other)], map[], map[], map[]);
    assert GetCodeHash(p, b, emptyCode, a) != GetCodeHash(o, b, emptyCode, a);
    assert !AnswersAt(p, o, b, emptyCode, a, ZERO);
    assert !SameAnswers(p, o, b, emptyCode);
  }

  lemma AlikeTransitive(o: Overlay, p: Overlay, q: Overlay)
    requires Alike(o, p) && Alike(p, q)
    ensures Alike(o, q)
  {
  }

  lemma SlotSetsUndo(al: map<Address, Option<set<Hash>>>, a: Address, s: Hash)
    ensures SlotSets(UndoSlot(al, a, s))
         == if a in al then SlotSets(al)[a := SlotSets(al)[a] - {s}] else SlotSets(al)
    ensures SlotSets(al - {a}) == SlotSets(al) - {a}
  {
    if a in al && al[a].None? {
      assert SlotSets(al)[a] == {} && SlotSets(al)[a] - {s} == SlotSets(al)[a];
    }
  }

  /** Undo cannot tell alike overlays apart. */
  lemma UndoAlike(o: Overlay, p: Overlay, e: Entry)
    requires Alike(o, p)
    ensures Alike(Undo(o, e), Undo(p, e))
  {
    hide SlotSets, UndoSlot;
    assert o == p.(al := o.al);
    if e.JALAddr? || e.JALSlot? {
      AlikeKeys(o, p, e.addr);
      var s := if e.JALSlot? then e.slot else ZERO;
      SlotSetsUndo(o.al, e.addr, s);
      SlotSetsUndo(p.al, e.addr, s);
    }
  }

  lemma AlikeKeys(o: Overlay, p: Overlay, a: Address)
    requires Alike(o, p)
    ensures a in o.al <==> a in p.al
    ensures a in o.al ==> a in SlotSets(o.al)
    ensures a in p.al ==> a in SlotSets(p.al)
  {
    assert a in SlotSets(o.al) <==> a in o.al;
    assert a in SlotSets(p.al) <==> a in p.al;
  }

  lemma {:induction false} UndoAllAlike(o: Overlay, p: Overlay, es: seq<Entry>)
    requires Alike(o, p)
    ensures Alike(UndoAll(o, es), UndoAll(p, es))
    decreases |es|
  {
    hide Undo, Alike;
    if es != [] {
      UndoAlike(o, p, es[|es| - 1]);
      UndoAllAlike(Undo(o, es[|es| - 1]), Undo(p, es[|es| - 1]), es[..|es| - 1]);
    }
  }

  lemma SlotSetsAdd(al: map<Address, Option<set<Hash>>>, a: Address, s: Hash)
    ensures SlotSets(WithSlot(al, a, s))
         == SlotSets(al)[a := (if a in al then SlotSets(al)[a] else {}) + {s}]
    ensures a !in al ==> SlotSets(al[a := None]) == SlotSets(al)[a := {}]
    ensures HasSlot(al, a, s) <==> a in al && s in SlotSets(al)[a]
  {
  }

  /** Mutators act alike on alike overlays. */
  lemma ApplyAlike(o: Overlay, p: Overlay, m: Mutator)
    requires Alike(o, p)
    ensures Alike(Apply(o, m), Apply(p, m))
  {
    hide SlotSets, WithSlot, HasSlot, NormSlot;
    assert o == p.(al := o.al);
    if m.AddAddress? || m.AddSlot? {
      AlikeKeys(o, p, m.addr);
      var s := if m.AddSlot? then m.slot else ZERO;
      SlotSetsAdd(o.al, m.addr, s);
      SlotSetsAdd(p.al, m.addr, s);
    }
  }

  // ----- undoing one mutator -----

  /** The overlay without the code of some addresses. */
  function WithoutCode(o: Overlay, gone: set<Address>): Overlay {
    o.(codes := o.codes - gone, codeHashes := o.codeHashes - gone)
  }

  function CodeOf(m: Mutator): set<Address> {
    if m.SetCode? then {m.addr} else {}
  }

  lemma UndoOne(o: Overlay, e: Entry)
    ensures UndoAll(o, [e]) == Undo(o, e)
  {
    hide Undo;
    assert [e][..0] == [];
  }

  lemma UndoTwo(o: Overlay, e: Entry, f: Entry)
    ensures UndoAll(o, [e] + [f]) == Undo(Undo(o, f), e)
  {
    hide Undo;
    UndoAllAppend(o, [e], [f]);
    UndoOne(o, f);
    UndoOne(Undo(o, f), e);
  }

  lemma UndoDestroy(o: Overlay, a: Address)
    ensures UndoAll(Destroyed(o, a), DestroyEntries(o, a)) == o
  {
    hide UndoAll, Restore;
    var d, b := JDestruct(a), JBalance(a, Lookup(o.balances, a));
    RestoreUndoes(o.balances, a, 0);
    if a in o.destructed {
      assert DestroyEntries(o, a) == [b];
      assert o.destructed + {a} == o.destructed;
      UndoOne(Destroyed(o, a), b);
    } else {
      UndoTwo(Destroyed(o, a), d, b);
      assert o.destructed + {a} - {a} == o.destructed;
    }
  }

  lemma UndoAddSlot(o: Overlay, a: Address, s: Hash)
    requires !HasSlot(o.al, a, s)
    ensures Alike(UndoAll(Apply(o, AddSlot(a, s)), Entries(o, AddSlot(a, s))), o)
  {
    hide SlotSets;
    var p := Apply(o, AddSlot(a, s));
    SlotSetsAdd(o.al, a, s);
    SlotSetsUndo(p.al, a, s);
    SlotSetsKeys(o.al, a);
    SlotSetsKeys(p.al, a);
    if a in o.al {
      assert Entries(o, AddSlot(a, s)) == [JALSlot(a, s)];
      UndoOne(p, JALSlot(a, s));
      assert SlotSets(o.al)[a] + {s} - {s} == SlotSets(o.al)[a];
    } else {
      UndoTwo(p, JALAddr(a), JALSlot(a, s));
      SlotSetsUndo(UndoSlot(p.al, a, s), a, s);
    }
  }

  lemma SlotSetsKeys(al: map<Address, Option<set<Hash>>>, a: Address)
    ensures a in SlotSets(al) <==> a in al
  {
  }

  lemma UndoMapWrite(o: Overlay, m: Mutator)
    requires m.SetBalance? || m.SetNonce? || m.SetState? || m.SetTransientState?
    ensures UndoAll(Apply(o, m), Entries(o, m)) == o
  {
    hide UndoAll, NormSlot, Restore;
    UndoOne(Apply(o, m), Entries(o, m)[0]);
    match m
    case SetBalance(a, b) => RestoreUndoes(o.balances, a, b);
    case SetNonce(a, n) => RestoreUndoes(o.nonces, a, n);
    case SetState(a, s, v) => RestoreUndoes(o.slots, SKey(a, NormSlot(s)), v);
    case SetTransientState(a, s, v) => RestoreUndoes(o.transient, SKey(a, s), v);
  }

  lemma UndoLifecycle(o: Overlay, m: Mutator)
    requires m.CreateAccount? || m.SelfDestruct? || m.SelfDestruct6780?
    ensures UndoAll(Apply(o, m), Entries(o, m)) == o
  {
    hide UndoAll, Destroyed, DestroyEntries;
    UndoNone(o);
    UndoDestroy(o, m.addr);
    if m.CreateAccount? {
      if m.addr in o.created {
        assert o.created + {m.addr} == o.created;
      } else {
        assert o.created + {m.addr} - {m.addr} == o.created;
        UndoOne(Apply(o, m), JCreated(m.addr));
      }
    }
  }

  lemma UndoCounters(o: Overlay, m: Mutator)
    requires m.AddRefund? || m.SubRefund? || m.AddLog? || m.AddAddress?
    ensures UndoAll(Apply(o, m), Entries(o, m)) == o
  {
    hide UndoAll;
    UndoNone(o);
    if m.AddLog? {
      UndoOne(Apply(o, m), JLog);
    } else if m.AddAddress? {
      if m.addr !in o.al {
        UndoOne(Apply(o, m), JALAddr(m.addr));
        assert o.al[m.addr := None] - {m.addr} == o.al;
      }
    } else {
      UndoOne(Apply(o, m), JRefund(o.refund));
    }
  }

  /** Undoing a mutator's entries restores everything except a code it overwrote. */
  lemma UndoMutator(o: Overlay, m: Mutator)
    ensures Alike(UndoAll(Apply(o, m), Entries(o, m)), WithoutCode(o, CodeOf(m)))
  {
    hide SlotSets, UndoAll, NormSlot;
    NoCodeLost(o);
    match m
    case SelfDestruct(_) => UndoLifecycle(o, m);
    case SelfDestruct6780(_) => UndoLifecycle(o, m);
    case CreateAccount(_) => UndoLifecycle(o, m);
    case AddSlot(a, s) =>
      if HasSlot(o.al, a, s) {
        UndoNone(o);
      } else {
        UndoAddSlot(o, a, s);
      }
    case SetCode(a, c, h) =>
      UndoOne(Apply(o, m), JCode(a));
      DropOverwrites(o.codes, a, c);
      DropOverwrites(o.codeHashes, a, h);
    case SetBalance(_, _) => UndoMapWrite(o, m);
    case SetNonce(_, _) => UndoMapWrite(o, m);
    case SetState(_, _, _) => UndoMapWrite(o, m);
    case SetTransientState(_, _, _) => UndoMapWrite(o, m);
    case AddRefund(_) => UndoCounters(o, m);
    case SubRefund(_) => UndoCounters(o, m);
    case AddLog(_) => UndoCounters(o, m);
    case AddAddress(_) => UndoCounters(o, m);
  }

  lemma UndoNone(o: Overlay)
    ensures UndoAll(o, []) == o
  {
  }

  lemma NoCodeLost(o: Overlay)
    ensures WithoutCode(o, {}) == o
  {
    assert o.codes - {} == o.codes && o.codeHashes - {} == o.codeHashes;
  }

  lemma DropOverwrites<K, V>(m: map<K, V>, k: K, v: V)
    ensures m[k := v] - {k} == m - {k}
  {
  }

  // ----- undoing a run of mutators -----

  function After(o: Overlay, ms: seq<Mutator>): Overlay {
    if ms == [] then o else Apply(After(o, ms[..|ms| - 1]), ms[|ms| - 1])
  }

  function JournalOf(o: Overlay, ms: seq<Mutator>): seq<Entry> {
    if ms == [] then []
    else JournalOf(o, ms[..|ms| - 1]) + Entries(After(o, ms[..|ms| - 1]), ms[|ms| - 1])
  }

  function CodesOf(ms: seq<Mutator>): set<Address> {
    if ms == [] then {} else CodesOf(ms[..|ms| - 1]) + CodeOf(ms[|ms| - 1])
  }

  lemma UndoKeepsCodeLoss(o: Overlay, gone: set<Address>, e: Entry)
    ensures Undo(WithoutCode(o, gone), e) == WithoutCode(Undo(o, e), gone)
  {
    if e.JCode? {
      assert o.codes - gone - {e.addr} == o.codes - {e.addr} - gone;
      assert o.codeHashes - gone - {e.addr} == o.codeHashes - {e.addr} - gone;
    }
  }

  lemma {:induction false} UndoAllKeepsCodeLoss(o: Overlay, gone: set<Address>, es: seq<Entry>)
    ensures UndoAll(WithoutCode(o, gone), es) == WithoutCode(UndoAll(o, es), gone)
    decreases |es|
  {
    hide Undo, WithoutCode;
    if es != [] {
      UndoKeepsCodeLoss(o, gone, es[|es| - 1]);
      UndoAllKeepsCodeLoss(Undo(o, es[|es| - 1]), gone, es[..|es| - 1]);
    }
  }

  lemma CodeLossAdds(o: Overlay, p: Overlay, a: set<Address>, b: set<Address>)
    requires Alike(p, WithoutCode(o, a))
    ensures Alike(WithoutCode(p, b), WithoutCode(o, a + b))
  {
    assert o.codes - a - b == o.codes - (a + b);
    assert o.codeHashes - a - b == o.codeHashes - (a + b);
  }

  /** Unwinding a whole run loses exactly the codes the run set. */
  lemma {:induction false} UndoRun(o: Overlay, ms: seq<Mutator>)
    ensures Alike(UndoAll(After(o, ms), JournalOf(o, ms)), WithoutCode(o, CodesOf(ms)))
  {
    hide Alike, Apply, Entries, WithoutCode, UndoAll;
    if ms == [] {
      NoCodeLost(o);
      UndoNone(o);
      AlikeSelf(o);
    } else {
      var front, m := ms[..|ms| - 1], ms[|ms| - 1];
      var p, j := After(o, front), JournalOf(o, front);
      UndoRun(o, front);
      UndoAllAppend(Apply(p, m), j, Entries(p, m));
      UndoMutator(p, m);
      UndoAllAlike(UndoAll(Apply(p, m), Entries(p, m)), WithoutCode(p, CodeOf(m)), j);
      UndoAllKeepsCodeLoss(p, CodeOf(m), j);
      CodeLossAdds(o, UndoAll(p, j), CodesOf(front), CodeOf(m));
      AlikeTransitive(UndoAll(After(o, ms), JournalOf(o, ms)), WithoutCode(UndoAll(p, j), CodeOf(m)),
                      WithoutCode(o, CodesOf(ms)));
    }
  }

  lemma AlikeSelf(o: Overlay)
    ensures Alike(o, o)
  {
  }

  /** Every code in the overlay has its hash beside it. */
  predicate CodesAgree(o: Overlay) {
    o.codes.Keys == o.codeHashes.Keys
  }

  /**
   Reverting a run of mutators makes every getter answer as before, whatever state
   lies below, exactly when the run set no code of an address that already had code
   in the overlay.
   */
  lemma RevertRestoresIff(o: Overlay, ms: seq<Mutator>, emptyCode: Hash)
    requires CodesAgree(o)
    ensures (forall b :: SameAnswers(UndoAll(After(o, ms), JournalOf(o, ms)), o, b, emptyCode))
         <==> CodesOf(ms) !! o.codes.Keys
  {
    hide UndoAll, After, JournalOf, CodesOf, SlotSets, SameAnswers;
    var p := UndoAll(After(o, ms), JournalOf(o, ms));
    UndoRun(o, ms);
    assert p.codes == o.codes - CodesOf(ms) && p.codeHashes == o.codeHashes - CodesOf(ms);
    if CodesOf(ms) !! o.codes.Keys {
      assert o.codes - CodesOf(ms) == o.codes && o.codeHashes - CodesOf(ms) == o.codeHashes;
      forall b ensures SameAnswers(p, o, b, emptyCode) {
        AlikeAnswers(p, o, b, emptyCode);
      }
    } else {
      var a :| a in CodesOf(ms) && a in o.codes;
      LostCodeShows(o, p, emptyCode, a);
    }
  }

  /** The failing family is not empty: setting a code twice loses the first one on revert. */
  lemma SetCodeTwiceLosesCode(a: Address, c: bytes, h: Hash, emptyCode: Hash)
    ensures var none := Overlay(map[], map[], map[], map[], map[], {}, {}, map[], map[], 0, []);
            var o := Apply(none, SetCode(a, c, h));
            var p := UndoAll(After(o, [SetCode(a, c, h)]), JournalOf(o, [SetCode(a, c, h)]));
            GetCode(o, NOTHING_BELOW, emptyCode, a) == c && GetCode(p, NOTHING_BELOW, emptyCode, a) == []
  {
    var none := Overlay(map[], map[], map[], map[], map[], {}, {}, map[], map[], 0, []);
    var o := Apply(none, SetCode(a, c, h));
    var ms := [SetCode(a, c, h)];
    UndoRun(o, ms);
    assert ms[..0] == [];
    assert a in CodesOf(ms);
  }

  const NOTHING_BELOW := Below(map[], map[], map[], map[])

  // ----- nested snapshots and reverts -----

  datatype Action = Mutate(m: Mutator) | Snapshot | Revert(id: nat)

  /**
   The journaled overlay beside its specification: full copies, one per live
   snapshot id. A snapshot's id is the journal's length when it was taken.
   */
  datatype Machine = Machine(o: Overlay, journal: seq<Entry>, spec: Overlay, copies: map<nat, Overlay>)

  predicate Allowed(s: Machine, act: Action) {
    match act
    case Mutate(m) => CodeOf(m) !! s.o.codes.Keys && CodeOf(m) !! s.o.codeHashes.Keys
    case Snapshot => true
    case Revert(id) => id in s.copies && id <= |s.journal|
  }

  function Step(s: Machine, act: Action): Machine
    requires Allowed(s, act)
  {
    match act
    case Mutate(m) => Machine(Apply(s.o, m), s.journal + Entries(s.o, m), Apply(s.spec, m), s.copies)
    case Snapshot => s.(copies := s.copies[|s.journal| := s.spec])
    case Revert(id) =>
      Machine(UndoAll(s.o, s.journal[id..]), s.journal[..id], s.copies[id], UpTo(s.copies, id))
  }

  function UpTo(copies: map<nat, Overlay>, id: nat): map<nat, Overlay> {
    map i | i in copies && i <= id :: copies[i]
  }

  /** Unwinding to any live snapshot would bring back its full copy. */
  ghost predicate Refines(s: Machine) {
    && Alike(s.o, s.spec)
    && forall id :: id in s.copies ==>
         id <= |s.journal| && Alike(UndoAll(s.o, s.journal[id..]), s.copies[id])
  }

  lemma MutateRefines(s: Machine, m: Mutator)
    requires Refines(s) && Allowed(s, Mutate(m))
    ensures Refines(Step(s, Mutate(m)))
  {
    hide Alike, Apply, Entries, UndoAll, SlotSets;
    var es := Entries(s.o, m);
    ApplyAlike(s.o, s.spec, m);
    UndoMutator(s.o, m);
    KeepsCode(s.o, m);
    forall id | id in s.copies
      ensures Alike(UndoAll(Apply(s.o, m), (s.journal + es)[id..]), s.copies[id])
    {
      assert (s.journal + es)[id..] == s.journal[id..] + es;
      UndoAllAppend(Apply(s.o, m), s.journal[id..], es);
      UndoAllAlike(UndoAll(Apply(s.o, m), es), s.o, s.journal[id..]);
      AlikeTransitive(UndoAll(UndoAll(Apply(s.o, m), es), s.journal[id..]), UndoAll(s.o, s.journal[id..]),
                      s.copies[id]);
    }
  }

  lemma KeepsCode(o: Overlay, m: Mutator)
    requires CodeOf(m) !! o.codes.Keys && CodeOf(m) !! o.codeHashes.Keys
    ensures WithoutCode(o, CodeOf(m)) == o
  {
    assert o.codes - CodeOf(m) == o.codes && o.codeHashes - CodeOf(m) == o.codeHashes;
  }

  lemma RevertRefines(s: Machine, id: nat)
    requires Refines(s) && Allowed(s, Revert(id))
    ensures Refines(Step(s, Revert(id)))
  {
    hide Alike, UndoAll;
    forall i | i in s.copies && i <= id
      ensures Alike(UndoAll(UndoAll(s.o, s.journal[id..]), s.journal[..id][i..]), s.copies[i])
    {
      assert s.journal[i..] == s.journal[..id][i..] + s.journal[id..];
      UndoAllAppend(s.o, s.journal[..id][i..], s.journal[id..]);
    }
  }

  lemma SnapshotRefines(s: Machine)
    requires Refines(s)
    ensures Refines(Step(s, Snapshot))
  {
    hide Alike;
    assert s.journal[|s.journal|..] == [];
    UndoNone(s.o);
  }

  lemma StepRefines(s: Machine, act: Action)
    requires Refines(s) && Allowed(s, act)
    ensures Refines(Step(s, act))
  {
    hide Refines, Step, Allowed;
    match act
    case Mutate(m) => MutateRefines(s, m);
    case Snapshot => SnapshotRefines(s);
    case Revert(id) => RevertRefines(s, id);
  }

  ghost predicate Runs(ss: seq<Machine>, acts: seq<Action>) {
    && |ss| == |acts| + 1
    && ss[0].spec == ss[0].o && ss[0].journal == [] && ss[0].copies == map[]
    && forall n :: 0 <= n < |acts| ==> Allowed(ss[n], acts[n]) && ss[n + 1] == Step(ss[n], acts[n])
  }

  /** In every run the journaled overlay looks like the one kept by full copies. */
  lemma {:induction false} JournalRefinesCopies(ss: seq<Machine>, acts: seq<Action>, n: nat)
    requires Runs(ss, acts) && n < |ss|
    ensures Refines(ss[n]) && Alike(ss[n].o, ss[n].spec)
    ensures forall b, emptyCode :: SameAnswers(ss[n].o, ss[n].spec, b, emptyCode)
    decreases n
  {
    hide Alike, Step, Allowed, SameAnswers;
    if n == 0 {
      AlikeSelf(ss[0].o);
    } else {
      JournalRefinesCopies(ss, acts, n - 1);
      StepRefines(ss[n - 1], acts[n - 1]);
    }
    forall b, emptyCode ensures SameAnswers(ss[n].o, ss[n].spec, b, emptyCode) {
      AlikeAnswers(ss[n].o, ss[n].spec, b, emptyCode);
    }
  }
}
