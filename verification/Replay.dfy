/**
 Replay sessions (replay/replay.go): a map pinned lazily at the session's height,
 advanced block by block by applying each diff row to the pinned keys only.
 */
module Replay {
  import opened Bytes
  import opened Collections
  import opened Schema
  import opened Capture
  import opened Reference
  import opened Store
  import opened History
  import opened Pins

  /** Every pinned key holds its value after the first n blocks. */
  ghost predicate Exact(c: Chain, n: nat, p: Pinned) {
    && n <= |c.blocks|
    && (forall a :: a in p ==> p[a].account == AccountAt(c.base, c.blocks, n, a))
    && (forall a, s :: a in p && s in p[a].storage ==> p[a].storage[s] == SlotAt(c.base, c.blocks, n, SKey(a, s)))
  }

  /** A writer that appends blocks does not disturb a session below them. */
  lemma ExactSurvivesAppend(c: Chain, b: Batch, n: nat, p: Pinned)
    requires Exact(c, n, p)
    ensures Exact(Extend(c, b), n, p)
  {
    hide AccountAt, SlotAt;
    forall a | a in p ensures p[a].account == AccountAt(c.base, Extend(c, b).blocks, n, a) {
      PrefixAt(c.base, c.blocks, Extend(c, b).blocks, n, a, SKey(a, ZERO));
    }
    forall a, s | a in p && s in p[a].storage
      ensures p[a].storage[s] == SlotAt(c.base, Extend(c, b).blocks, n, SKey(a, s))
    {
      PrefixAt(c.base, c.blocks, Extend(c, b).blocks, n, a, SKey(a, s));
    }
  }

  /** Applying the next diff to the pinned keys moves them all one block up. */
  lemma ExactAdvances(c: Chain, n: nat, p: Pinned)
    requires Exact(c, n, p) && n < |c.blocks|
    ensures Exact(c, n + 1, PinOps(p, c.blocks[n].ops))
  {
    hide PinOps, AccountEffect, SlotEffect, AccountAt, SlotAt;
    var q := PinOps(p, c.blocks[n].ops);
    PinOpsKnowledge(p, c.blocks[n].ops);
    forall a | a in q ensures q[a].account == AccountAt(c.base, c.blocks, n + 1, a) {
      PinOpsMeaning(p, c.blocks[n].ops, a, ZERO);
      StepAt(c.base, c.blocks, n, a, SKey(a, ZERO));
    }
    forall a, s | a in q && s in q[a].storage
      ensures q[a].storage[s] == SlotAt(c.base, c.blocks, n + 1, SKey(a, s))
    {
      PinOpsMeaning(p, c.blocks[n].ops, a, s);
      StepAt(c.base, c.blocks, n, a, SKey(a, s));
    }
  }

  ghost predicate AllFit(c: Chain) {
    forall n :: 0 <= n < |c.blocks| ==> Fits(c.blocks[n])
  }

  /** The map answers for the slot. */
  predicate Has(p: Pinned, k: SKey) {
    k.addr in p && (p[k.addr].account.None? || k.slot in p[k.addr].storage)
  }

  class Session {
    const db: DB
    const m: Map
    var block: U64

    /** The session sits at a height the store has reached and its pins are exact there. */
    ghost predicate Valid(c: Chain)
      reads this, db, m
    {
      && Represents(db.kv, db.keccak, c) && Respects(c) && AllFit(c)
      && c.s <= block <= c.s + |c.blocks|
      && Exact(c, block - c.s, m.accounts)
    }

    constructor (db: DB, startBlock: U64, ghost c: Chain)
      requires Represents(db.kv, db.keccak, c) && Respects(c) && AllFit(c)
      requires c.s <= startBlock <= c.s + |c.blocks|
      ensures Valid(c) && this.db == db && block == startBlock && fresh(m)
    {
      this.db := db;
      m := new Map();
      block := startBlock;
    }

    /** Applies the next block's diff; None when caught up with the store. */
    method Next(ghost c: Chain) returns (r: Option<Batch>)
      requires Valid(c)
      modifies this`block, m`accounts
      ensures Valid(c)
      ensures old(block) < c.s + |c.blocks| ==>
                block == old(block) + 1 && r == Some(c.blocks[old(block) - c.s])
      ensures old(block) == c.s + |c.blocks| ==> block == old(block) && r == None
    {
      hide Represents, Respects, Exact, PinOps, GetDiff;
      NextDiff(db.kv, db.keccak, c, block);
      var diff := GetDiff(db.kv, block + 1);
      if diff.Err? {
        return None;
      }
      ExactAdvances(c, block - c.s, m.accounts);
      m.Apply(diff.value);
      block := diff.value.block;
      return Some(diff.value);
    }

    /** Every account answer is the reference value at the session's height. */
    method Account(a: Address, ghost c: Chain) returns (r: Result<Option<Account>>)
      requires Valid(c)
      modifies m`accounts
      ensures Valid(c)
      ensures r == if a !in old(m.accounts) && AccountUncovered(db.kv, db.keccak, c, a, block)
                   then Err(BaselineIncomplete) else Ok(AccountAt(c.base, c.blocks, block - c.s, a))
      ensures m.accounts == if a !in old(m.accounts) && r.Ok? then WithAccount(old(m.accounts), a, r.value)
                            else old(m.accounts)
    {
      hide Represents, Respects, AccountAt, Store.GetAccount, NewestRow;
      if a in m.accounts {
        return Ok(m.accounts[a].account);
      }
      GetAccountIsReference(db.kv, db.keccak, c, a, block);
      r := Store.GetAccount(db.kv, db.keccak, a, block);
      if r.Ok? {
        PinExactAccount(c, block - c.s, m.accounts, a);
        m.PinAccount(a, r.value);
      }
    }

    /** Every slot answer is the reference value at the session's height. */
    method Slot(k: SKey, ghost c: Chain) returns (r: Result<Hash>)
      requires Valid(c)
      modifies m`accounts
      ensures Valid(c)
      ensures r == if !old(Has(m.accounts, k))
                      && ((k.addr !in old(m.accounts) && AccountUncovered(db.kv, db.keccak, c, k.addr, block))
                          || SlotUncovered(db.kv, db.keccak, c, k, block))
                   then Err(BaselineIncomplete) else Ok(SlotAt(c.base, c.blocks, block - c.s, k))
      ensures r.Ok? ==> Has(m.accounts, k)
    {
      hide Represents, Respects, AccountAt, SlotAt, Store.GetSlot, NewestRow;
      if k.addr in m.accounts {
        if m.accounts[k.addr].account.None? {
          DeadSlotIsZero(c, block - c.s, k);
          return Ok(ZERO);
        }
        if k.slot in m.accounts[k.addr].storage {
          return Ok(m.accounts[k.addr].storage[k.slot]);
        }
      } else {
        var acct := Account(k.addr, c);
        if acct.Err? {
          return Err(acct.error);
        }
      }
      GetSlotIsReference(db.kv, db.keccak, c, k, block);
      r := Store.GetSlot(db.kv, db.keccak, k, block);
      if r.Ok? {
        PinExactSlot(c, block - c.s, m.accounts, k);
        m.PinSlot(k, r.value);
      }
    }
  }

  /** A writer appends a block beside a session: the session stays valid, for the longer chain. */
  method AppendBeside(session: Session, b: Batch, ghost c: Chain)
    requires session.Valid(c) && Respects(Extend(c, b)) && Fits(b)
    modifies session.db
    ensures session.Valid(Extend(c, b)) && session.block == old(session.block)
  {
    hide Respects, Fits, AfterWriteBlock, Represents, Exact;
    RespectsIsNumbered(Extend(c, b));
    WriteBlockExtends(session.db.kv, session.db.keccak, c, b);
    ExactSurvivesAppend(c, b, session.block - c.s, session.m.accounts);
    session.db.WriteBlock(b);
  }

  lemma RespectsIsNumbered(c: Chain)
    requires Respects(c)
    ensures Numbered(c)
  {
  }

  /** A loader commits true baseline rows beside a session: the session stays valid. */
  method LoadBeside(session: Session, kv: KV, ghost c: Chain)
    requires session.Valid(c) && BaselineTrue(kv, session.db.keccak, c.base)
    requires forall k: Key :: Observed(k) && !k.BaseAccount? && !k.BaseSlot? ==>
        Lookup(kv, k) == Lookup(session.db.kv, k)
    requires MetaBaselineComplete in session.db.kv ==> BaselineFull(kv, session.db.keccak, c.base)
    modifies session.db
    ensures session.Valid(c) && session.block == old(session.block) && session.db.kv == kv
  {
    hide Respects, Represents, Exact, BaselineTrue, BaselineFull;
    BaselineFlushKeeps(session.db.kv, kv, session.db.keccak, c);
    session.db.kv := kv;
  }

  /** The diff row above the session is the next batch, or missing at the head. */
  lemma NextDiff(kv: KV, keccak: Keccak, c: Chain, block: U64)
    requires Represents(kv, keccak, c) && Respects(c) && AllFit(c) && c.s <= block <= c.s + |c.blocks|
    ensures block < MAX_U64
    ensures block < c.s + |c.blocks| ==>
              GetDiff(kv, block + 1) == Ok(c.blocks[block - c.s]) && c.blocks[block - c.s].block == block + 1
    ensures block == c.s + |c.blocks| ==> GetDiff(kv, block + 1).Err?
  {
    hide DecodeSpec, Encode, HistoryRows, BaselineTrue, BaselineFull, ChainContract, Clean;
    assert Lookup(kv, Diff(block + 1))
        == if c.s < block + 1 <= c.s + |c.blocks| then Some(Encode(c.blocks[block - c.s])) else None;
    if block < c.s + |c.blocks| {
      DecodeEncode(c.blocks[block - c.s]);
    }
  }

  lemma PinExactAccount(c: Chain, n: nat, p: Pinned, a: Address)
    requires Exact(c, n, p)
    ensures Exact(c, n, WithAccount(p, a, AccountAt(c.base, c.blocks, n, a)))
  {
    hide AccountAt, SlotAt;
  }

  lemma PinExactSlot(c: Chain, n: nat, p: Pinned, k: SKey)
    requires Exact(c, n, p) && k.addr in p
    ensures Exact(c, n, WithSlot(p, k, SlotAt(c.base, c.blocks, n, k)))
  {
    hide AccountAt, SlotAt;
  }

  lemma DeadSlotIsZero(c: Chain, n: nat, k: SKey)
    requires Respects(c) && n <= |c.blocks| && AccountAt(c.base, c.blocks, n, k.addr).None?
    ensures SlotAt(c.base, c.blocks, n, k) == ZERO
  {
    ChainKeepsClean(c.base, c.blocks, n);
  }

  /**
   With the baseline complete, the session's answers are exactly the store's own
   reads at the session's height.
   */
  lemma AnswersAreStoreReads(kv: KV, keccak: Keccak, c: Chain, at: U64, a: Address, k: SKey)
    requires Represents(kv, keccak, c) && Respects(c) && MetaBaselineComplete in kv
    requires c.s <= at <= c.s + |c.blocks|
    ensures Store.GetAccount(kv, keccak, a, at) == Ok(AccountAt(c.base, c.blocks, at - c.s, a))
    ensures Store.GetSlot(kv, keccak, k, at) == Ok(SlotAt(c.base, c.blocks, at - c.s, k))
  {
    hide Store.GetAccount, Store.GetSlot, AccountAt, SlotAt, NewestRow, Represents;
    GetAccountIsReference(kv, keccak, c, a, at);
    GetSlotIsReference(kv, keccak, c, k, at);
  }
}
