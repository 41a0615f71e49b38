/**
 The lazily pinned map (mem/mem.go Map), shared by the live tip view and by
 replay sessions. Presence is knowledge: a pinned account may be known not to
 exist, a pinned slot may be known to be zero.
 */
module Pins {
  import opened Bytes
  import opened Schema
  import opened Capture
  import opened Reference

  datatype Entry = Entry(account: Option<Account>, storage: map<Hash, Hash>)

  type Pinned = map<Address, Entry>

  function WithAccount(p: Pinned, a: Address, acct: Option<Account>): Pinned {
    if a in p then p else p[a := Entry(acct, map[])]
  }

  function WithSlot(p: Pinned, k: SKey, v: Hash): Pinned
    requires k.addr in p
  {
    var e := p[k.addr];
    if k.slot in e.storage then p else p[k.addr := Entry(e.account, e.storage[k.slot := v])]
  }

  function Zeroed(storage: map<Hash, Hash>): map<Hash, Hash> {
    map s | s in storage :: ZERO
  }

  /** What an op does to an entry of its address: only known slots change. */
  function OnEntry(op: Op, e: Entry): Entry {
    match op
    case OpAccount(_, acct) => e.(account := Some(acct))
    case OpSlot(_, s, v) => if s in e.storage then e.(storage := e.storage[s := v]) else e
    case OpDeleteSlot(_, s) => if s in e.storage then e.(storage := e.storage[s := ZERO]) else e
    case OpDestruct(_) => Entry(None, Zeroed(e.storage))
    case OpCode(_, _) => e
  }

  /** Ops of unknown addresses are skipped. */
  function PinOp(p: Pinned, op: Op): Pinned {
    if op.OpCode? || op.addr !in p then p else p[op.addr := OnEntry(op, p[op.addr])]
  }

  function PinOps(p: Pinned, ops: seq<Op>): Pinned {
    if ops == [] then p else PinOp(PinOps(p, ops[..|ops| - 1]), ops[|ops| - 1])
  }

  /** The same keys are known before and after a batch. */
  predicate SameKnowledge(p: Pinned, q: Pinned) {
    p.Keys == q.Keys && forall a :: a in p ==> p[a].storage.Keys == q[a].storage.Keys
  }

  lemma PinOpMeaning(p: Pinned, op: Op, a: Address, s: Hash)
    requires a in p
    ensures SameKnowledge(p, PinOp(p, op))
    ensures PinOp(p, op)[a].account == Or(OnAccount(op, a, Keep), p[a].account)
    ensures s in p[a].storage ==>
              PinOp(p, op)[a].storage[s] == Or(OnSlot(op, SKey(a, s), Keep), p[a].storage[s])
  {
  }

  /** A diff teaches a pinned map nothing new. */
  lemma {:induction false} PinOpsKnowledge(p: Pinned, ops: seq<Op>)
    ensures SameKnowledge(p, PinOps(p, ops))
  {
    if ops != [] {
      PinOpsKnowledge(p, ops[..|ops| - 1]);
    }
  }

  /** Applying a diff to the pinned keys alone gives each of them its value after the batch. */
  lemma {:induction false} PinOpsMeaning(p: Pinned, ops: seq<Op>, a: Address, s: Hash)
    requires a in p
    ensures SameKnowledge(p, PinOps(p, ops))
    ensures PinOps(p, ops)[a].account == Or(AccountEffect(ops, a), p[a].account)
    ensures s in p[a].storage ==>
              PinOps(p, ops)[a].storage[s] == Or(SlotEffect(ops, SKey(a, s)), p[a].storage[s])
  {
    if ops != [] {
      hide PinOp;
      var older, op := ops[..|ops| - 1], ops[|ops| - 1];
      PinOpsMeaning(p, older, a, s);
      PinOpMeaning(PinOps(p, older), op, a, s);
    }
  }

  class Map {
    var accounts: Pinned
    var code: map<Hash, bytes>

    constructor ()
      ensures accounts == map[] && code == map[]
    {
      accounts, code := map[], map[];
    }

    method PinAccount(a: Address, acct: Option<Account>)
      modifies this`accounts
      ensures accounts == WithAccount(old(accounts), a, acct)
    {
      if a !in accounts {
        accounts := accounts[a := Entry(acct, map[])];
      }
    }

    /** A slot is pinned only under a pinned account. */
    method PinSlot(k: SKey, v: Hash)
      requires k.addr in accounts
      modifies this`accounts
      ensures accounts == WithSlot(old(accounts), k, v)
    {
      var e := accounts[k.addr];
      if k.slot !in e.storage {
        accounts := accounts[k.addr := Entry(e.account, e.storage[k.slot := v])];
      }
    }

    method PinCode(h: Hash, c: bytes)
      modifies this`code
      ensures code == if h in old(code) then old(code) else old(code)[h := c]
    {
      if h !in code {
        code := code[h := c];
      }
    }

    /** Applies a finalized diff in place, to keys already present. */
    method Apply(b: Batch)
      modifies this`accounts
      ensures accounts == PinOps(old(accounts), b.ops)
    {
      var i := 0;
      while i < |b.ops|
        invariant 0 <= i <= |b.ops|
        invariant accounts == PinOps(old(accounts), b.ops[..i])
      {
        assert b.ops[..i + 1][..i] == b.ops[..i];
        var op := b.ops[i];
        if !op.OpCode? && op.addr in accounts {
          var e := accounts[op.addr];
          assert accounts == accounts[op.addr := e];
          match op {
          case OpAccount(_, acct) => accounts := accounts[op.addr := Entry(Some(acct), e.storage)];
          case OpSlot(_, s, v) =>
            if s in e.storage {
              accounts := accounts[op.addr := Entry(e.account, e.storage[s := v])];
            }
          case OpDeleteSlot(_, s) =>
            if s in e.storage {
              accounts := accounts[op.addr := Entry(e.account, e.storage[s := ZERO])];
            }
          case OpDestruct(_) => accounts := accounts[op.addr := Entry(None, Zeroed(e.storage))];
          }
        }
        i := i + 1;
      }
      assert b.ops[..i] == b.ops;
    }
  }
}
