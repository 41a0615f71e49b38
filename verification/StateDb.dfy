/**
 The simulation's state object (sim/statedb.go stateDB) with its maps and its
 journal updated in place. Each mutator is proved to be one step of the journal
 model, and RevertToSnapshot's backward loop to be its unwinding.
 */
module StateDb {
  import opened Bytes
  import opened Collections
  import opened Schema
  import opened Journal
  import opened Getters

  const TWO256 := 0x1_0000_0000_0000_0000_0000_0000_0000_0000_0000_0000_0000_0000_0000_0000_0000_0000

  class StateDB {
    const below: Below
    const keccak: bytes -> Hash
    var balances: map<Address, U256>
    var slots: map<SKey, Hash>
    var nonces: map<Address, U64>
    var codes: map<Address, bytes>
    var codeHashes: map<Address, Hash>
    var created: set<Address>
    var destructed: set<Address>
    var transient: map<SKey, Hash>
    var al: map<Address, Option<set<Hash>>>
    var refund: U64
    var logs: seq<Log>
    var journal: seq<Entry>

    ghost function Value(): Overlay
      reads this
    {
      Overlay(balances, slots, nonces, codes, codeHashes, created, destructed, transient, al, refund, logs)
    }

    /** A call starts with the caller's overrides in place and an empty journal. */
    constructor (below: Below, keccak: bytes -> Hash, balances: map<Address, U256>)
      ensures journal == [] && this.below == below && this.keccak == keccak
      ensures Value() == Start(below, balances)
    {
      this.below, this.keccak := below, keccak;
      this.balances, slots := balances, below.given;
      nonces, codes, codeHashes, created, destructed, transient, al := map[], map[], map[], {}, {}, map[], map[];
      refund, logs, journal := 0, [], [];
    }

    // ----- journal -----

    function Snapshot(): nat
      reads this
    {
      |journal|
    }

    /** Unwinds the journal, newest entry first, down to the snapshot. */
    method RevertToSnapshot(rev: nat)
      requires rev <= |journal|
      modifies this
      ensures Value() == UndoAll(old(Value()), old(journal)[rev..])
      ensures journal == old(journal)[..rev]
    {
      hide Undo;
      var i := |journal|;
      assert journal[i..] == [];
      while i > rev
        invariant rev <= i <= |journal| && journal == old(journal)
        invariant Value() == UndoAll(old(Value()), journal[i..])
      {
        ghost var before := Value();
        i := i - 1;
        UndoEntry(journal[i]);
        assert journal[i..] == [journal[i]] + journal[i + 1..];
        UndoAllAppend(old(Value()), [journal[i]], journal[i + 1..]);
        UndoOne(before, journal[i]);
      }
      journal := journal[..rev];
    }

    method UndoEntry(e: Entry)
      modifies this
      ensures Value() == Undo(old(Value()), e) && journal == old(journal)
    {
      hide UndoSlot;
      match e
      case JBalance(a, prev) => balances := Restore(balances, a, prev);
      case JStorage(k, prev) => slots := Restore(slots, k, prev);
      case JNonce(a, prev) => nonces := Restore(nonces, a, prev);
      case JCode(a) => codes, codeHashes := codes - {a}, codeHashes - {a};
      case JRefund(prev) => refund := prev;
      case JLog => logs := if logs == [] then [] else logs[..|logs| - 1];
      case JDestruct(a) => destructed := destructed - {a};
      case JCreated(a) => created := created - {a};
      case JTransient(k, prev) => transient := Restore(transient, k, prev);
      case JALAddr(a) => al := al - {a};
      case JALSlot(a, s) => al := UndoSlot(al, a, s);
    }

    /** The object took exactly one step of the journal model. */
    twostate predicate Stepped(m: Mutator)
      reads this
    {
      && Value() == Apply(old(Value()), m)
      && journal == old(journal) + Entries(old(Value()), m)
    }

    // ----- balances -----

    function GetBalance(a: Address): (r: U256)
      reads this
      ensures r == Journal.GetBalance(Value(), below, a)
    {
      if a in balances then balances[a]
      else if a in below.accounts then below.accounts[a].balance
      else 0
    }

    method SetBalanceTo(a: Address, b: U256)
      modifies this
      ensures Stepped(SetBalance(a, b))
    {
      journal := journal + [JBalance(a, Lookup(balances, a))];
      balances := balances[a := b];
    }

    method AddBalance(a: Address, amount: U256)
      modifies this
      ensures Stepped(SetBalance(a, (old(GetBalance(a)) + amount) % TWO256))
    {
      SetBalanceTo(a, (GetBalance(a) + amount) % TWO256);
    }

    method SubBalance(a: Address, amount: U256)
      modifies this
      ensures Stepped(SetBalance(a, (old(GetBalance(a)) - amount) % TWO256))
    {
      SetBalanceTo(a, (GetBalance(a) - amount) % TWO256);
    }

    // ----- nonces, code, storage -----

    function GetNonce(a: Address): (r: U64)
      reads this
      ensures r == Journal.GetNonce(Value(), below, a)
    {
      if a in nonces then nonces[a]
      else if a in below.accounts then below.accounts[a].nonce
      else 0
    }

    function GetCodeHash(a: Address): (r: Hash)
      reads this
      ensures r == Journal.GetCodeHash(Value(), below, keccak([]), a)
    {
      if a in codeHashes then codeHashes[a]
      else if a !in below.accounts then ZERO
      else if below.accounts[a].codeHash == ZERO then keccak([])
      else below.accounts[a].codeHash
    }

    function GetCode(a: Address): (r: bytes)
      reads this
      ensures r == Journal.GetCode(Value(), below, keccak([]), a)
    {
      if a in codes then codes[a]
      else
        var h := GetCodeHash(a);
        if h == ZERO || h == keccak([]) || h !in below.codes then [] else below.codes[h]
    }

    method SetNonceTo(a: Address, n: U64)
      modifies this
      ensures Stepped(SetNonce(a, n))
    {
      journal := journal + [JNonce(a, Lookup(nonces, a))];
      nonces := nonces[a := n];
    }

    method DepositCode(a: Address, code: bytes)
      modifies this
      ensures Stepped(SetCode(a, code, keccak(code)))
    {
      journal := journal + [JCode(a)];
      codes := codes[a := code];
      codeHashes := codeHashes[a := keccak(code)];
    }

    function GetState(a: Address, s: Hash): (r: Hash)
      reads this
      ensures r == Journal.GetState(Value(), below, a, s)
    {
      var k := SKey(a, NormSlot(s));
      if k in slots then slots[k] else SharedSlot(below, k)
    }

    /** The value before the call: an override if one was given, else the shared state. */
    function GetCommittedState(a: Address, s: Hash): (r: Hash)
      ensures r == Journal.GetCommittedState(below, a, s)
    {
      var k := SKey(a, NormSlot(s));
      if k in below.given then below.given[k] else SharedSlot(below, k)
    }

    function GetTransientState(a: Address, s: Hash): (r: Hash)
      reads this
      ensures r == Journal.GetTransientState(Value(), a, s)
    {
      if SKey(a, s) in transient then transient[SKey(a, s)] else ZERO
    }

    predicate HasSelfDestructed(a: Address): (r: bool)
      reads this
      ensures r == Journal.HasSelfDestructed(Value(), a)
    {
      a in destructed
    }

    predicate Exist(a: Address): (r: bool)
      reads this
      ensures r == Journal.Exist(Value(), below, a)
    {
      if a in created then true
      else if a in destructed then true
      else if a in balances then true
      else if a in nonces then true
      else a in below.accounts
    }

    predicate Empty(a: Address): (r: bool)
      reads this
      ensures r == Journal.Empty(Value(), below, keccak([]), a)
    {
      if GetNonce(a) != 0 then false
      else if GetBalance(a) != 0 then false
      else GetCodeHash(a) == ZERO || GetCodeHash(a) == keccak([])
    }

    predicate AddressInAccessList(a: Address): (r: bool)
      reads this
      ensures r == Journal.AddressInAccessList(Value(), a)
    {
      a in al
    }

    function SlotInAccessList(a: Address, s: Hash): (r: (bool, bool))
      reads this
      ensures r == Journal.SlotInAccessList(Value(), a, s)
    {
      if a !in al then (false, false)
      else if al[a].None? then (true, false)
      else (true, s in al[a].value)
    }

    method SetStateTo(a: Address, s: Hash, v: Hash)
      modifies this
      ensures Stepped(SetState(a, s, v))
    {
      hide NormSlot;
      var k := SKey(a, NormSlot(s));
      journal := journal + [JStorage(k, Lookup(slots, k))];
      slots := slots[k := v];
    }

    method SetTransientTo(a: Address, s: Hash, v: Hash)
      modifies this
      ensures Stepped(SetTransientState(a, s, v))
    {
      var k := SKey(a, s);
      journal := journal + [JTransient(k, Lookup(transient, k))];
      transient := transient[k := v];
    }

    // ----- account lifecycle -----

    method Create(a: Address)
      modifies this
      ensures Stepped(CreateAccount(a))
    {
      if a in created {
        assert created + {a} == created;
        return;
      }
      journal := journal + [JCreated(a)];
      created := created + {a};
    }

    method Destruct(a: Address)
      modifies this
      ensures Stepped(SelfDestruct(a))
    {
      if a !in destructed {
        journal := journal + [JDestruct(a)];
        destructed := destructed + {a};
      } else {
        assert destructed + {a} == destructed;
      }
      SetBalanceTo(a, 0);
    }

    method Destruct6780(a: Address)
      modifies this
      ensures Stepped(SelfDestruct6780(a))
    {
      if a in created {
        Destruct(a);
      }
    }

    // ----- refunds, logs, access list -----

    method RefundAdd(gas: U64)
      modifies this
      ensures Stepped(AddRefund(gas))
    {
      journal := journal + [JRefund(refund)];
      refund := (refund + gas) % TWO64;
    }

    /** An underflow fails the call; the refund stays as it was. */
    method RefundSub(gas: U64) returns (ok: bool)
      modifies this
      ensures Stepped(SubRefund(gas)) && (ok <==> gas <= old(refund))
    {
      journal := journal + [JRefund(refund)];
      if gas > refund {
        return false;
      }
      refund := refund - gas;
      return true;
    }

    method AppendLog(l: Log)
      modifies this
      ensures Stepped(AddLog(l))
    {
      journal := journal + [JLog];
      logs := logs + [l];
    }

    method AddAddressToAccessList(a: Address)
      modifies this
      ensures Stepped(AddAddress(a))
    {
      if a !in al {
        journal := journal + [JALAddr(a)];
        al := al[a := None];
      }
    }

    method AddSlotToAccessList(a: Address, s: Hash)
      modifies this
      ensures Stepped(AddSlot(a, s))
    {
      ghost var before := al;
      var m: set<Hash> := {};
      if a !in al {
        journal := journal + [JALAddr(a)];
        al := al[a := Some(m)];
      } else if al[a].None? {
        al := al[a := Some(m)];
      } else {
        m := al[a].value;
      }
      if s !in m {
        journal := journal + [JALSlot(a, s)];
        al := al[a := Some(m + {s})];
        assert al == before[a := Some(m + {s})];
      }
    }
  }
}
