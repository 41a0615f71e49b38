/**
 The in-memory tip view itself (mem/mem.go): State and SideBuffer with their
 fields updated in place. Each method is proved to be the corresponding step of
 the TipView state machine, whose runs are the subject of TipView's theorems.
 */
module Mem {
  import opened Bytes
  import opened Collections
  import opened Schema
  import opened Capture
  import opened Reference
  import opened Store
  import Codes
  import opened Layers
  import opened Pins
  import opened TipView

  class SideBuffer {
    var accounts: map<Address, Option<Account>>
    var slots: map<SKey, Hash>
    var code: map<Hash, bytes>

    constructor ()
      ensures Value() == EMPTY_BUFFER && code == map[]
    {
      accounts, slots, code := map[], map[], map[];
    }

    ghost function Value(): Buffer
      reads this
    {
      Buffer(accounts, slots)
    }
  }

  /** An unfinalized block with its compiled form. */
  datatype MemLayer = MemLayer(batch: Batch, layer: Layer)

  function Batches(layers: seq<MemLayer>): (r: seq<Batch>)
    ensures |r| == |layers|
    ensures forall i :: 0 <= i < |r| ==> r[i] == layers[i].batch
  {
    if layers == [] then [] else Batches(layers[..|layers| - 1]) + [layers[|layers| - 1].batch]
  }

  predicate Compiled(layers: seq<MemLayer>) {
    forall i :: 0 <= i < |layers| ==> layers[i].layer == Compile(layers[i].batch.ops)
  }

  ghost function Values(buffers: seq<SideBuffer>): (r: seq<Buffer>)
    reads buffers
    ensures |r| == |buffers|
    ensures forall i :: 0 <= i < |r| ==> r[i] == buffers[i].Value()
  {
    if buffers == [] then [] else Values(buffers[..|buffers| - 1]) + [buffers[|buffers| - 1].Value()]
  }

  ghost function BufferCodes(buffers: seq<SideBuffer>): (r: seq<map<Hash, bytes>>)
    reads buffers
    ensures |r| == |buffers|
    ensures forall i :: 0 <= i < |r| ==> r[i] == buffers[i].code
  {
    if buffers == [] then [] else BufferCodes(buffers[..|buffers| - 1]) + [buffers[|buffers| - 1].code]
  }

  lemma BatchesPush(layers: seq<MemLayer>, l: MemLayer)
    ensures Batches(layers + [l]) == Batches(layers) + [l.batch]
  {
  }

  lemma BatchesPop(layers: seq<MemLayer>)
    requires layers != []
    ensures Batches(layers[1..]) == Batches(layers)[1..]
  {
  }

  // ----- searching the layers, newest first -----

  lemma StackUnfold(blocks: seq<Batch>, a: Address, k: SKey)
    requires blocks != []
    ensures var top := Compile(blocks[|blocks| - 1].ops);
            && StackAccount(StackOf(blocks), a)
               == Then(StackAccount(StackOf(blocks[..|blocks| - 1]), a), top.Account(a))
            && StackSlot(StackOf(blocks), k)
               == Then(StackSlot(StackOf(blocks[..|blocks| - 1]), k), top.Slot(k))
  {
    hide Compile;
    assert StackOf(blocks)[1..] == StackOf(blocks[..|blocks| - 1]);
  }

  method SearchAccount(layers: seq<MemLayer>, a: Address) returns (e: Effect<Option<Account>>)
    requires Compiled(layers)
    ensures e == StackAccount(StackOf(Batches(layers)), a)
  {
    hide Compile, StackOf, StackAccount;
    ghost var blocks := Batches(layers);
    var i := |layers|;
    assert blocks[..i] == blocks;
    while i > 0
      invariant 0 <= i <= |layers|
      invariant StackAccount(StackOf(blocks), a) == StackAccount(StackOf(blocks[..i]), a)
    {
      i := i - 1;
      StackUnfold(blocks[..i + 1], a, SKey(a, ZERO));
      assert blocks[..i + 1][..i] == blocks[..i];
      var l := layers[i].layer;
      assert l == Compile(blocks[i].ops);
      if a in l.accounts {
        return Set(Some(l.accounts[a]));
      }
      if a in l.destructed {
        return Set(None);
      }
    }
    EmptyStack(a, SKey(a, ZERO));
    assert blocks[..0] == [];
    return Keep;
  }

  method SearchSlot(layers: seq<MemLayer>, k: SKey) returns (e: Effect<Hash>)
    requires Compiled(layers)
    ensures e == StackSlot(StackOf(Batches(layers)), k)
  {
    hide Compile, StackOf, StackSlot;
    ghost var blocks := Batches(layers);
    var i := |layers|;
    assert blocks[..i] == blocks;
    while i > 0
      invariant 0 <= i <= |layers|
      invariant StackSlot(StackOf(blocks), k) == StackSlot(StackOf(blocks[..i]), k)
    {
      i := i - 1;
      StackUnfold(blocks[..i + 1], k.addr, k);
      assert blocks[..i + 1][..i] == blocks[..i];
      var l := layers[i].layer;
      assert l == Compile(blocks[i].ops);
      if k in l.slots {
        return Set(l.slots[k]);
      }
      if k.addr in l.destructed {
        return Set(ZERO);
      }
    }
    EmptyStack(k.addr, k);
    assert blocks[..0] == [];
    return Keep;
  }

  lemma EmptyStack(a: Address, k: SKey)
    ensures StackAccount(StackOf([]), a) == Keep && StackSlot(StackOf([]), k) == Keep
  {
  }

  // ----- merging one entry at a time, in any order -----

  lemma MergeOneAccount(p: Pinned, m: map<Address, Option<Account>>, a: Address, x: Option<Account>)
    requires a !in m
    ensures WithAccount(MergeAccounts(p, m), a, x) == MergeAccounts(p, m[a := x])
  {
  }

  lemma MergeOneSlot(p: Pinned, m: map<SKey, Hash>, k: SKey, v: Hash)
    requires k !in m
    ensures k.addr in p ==> WithSlot(MergeSlots(p, m), k, v) == MergeSlots(p, m[k := v])
    ensures k.addr !in p ==> MergeSlots(p, m) == MergeSlots(p, m[k := v])
  {
    hide MergeStorage;
    forall a | a in p && a != k.addr
      ensures MergeStorage(p[a].storage, m[k := v], a) == MergeStorage(p[a].storage, m, a)
    {
      OtherStorage(p[a].storage, m, k, v, a);
    }
    if k.addr in p {
      OwnStorage(p[k.addr].storage, m, k, v);
    }
  }

  lemma OtherStorage(st: map<Hash, Hash>, m: map<SKey, Hash>, k: SKey, v: Hash, a: Address)
    requires a != k.addr
    ensures MergeStorage(st, m[k := v], a) == MergeStorage(st, m, a)
  {
    assert SlotsOf(m[k := v], a) == SlotsOf(m, a);
    forall s | s in SlotsOf(m, a) ensures SKey(a, s) in m {
      var l :| l in m && l.addr == a && l.slot == s;
      assert l == SKey(a, s);
    }
  }

  lemma OwnStorage(st: map<Hash, Hash>, m: map<SKey, Hash>, k: SKey, v: Hash)
    requires k !in m
    ensures var t := MergeStorage(st, m, k.addr);
            MergeStorage(st, m[k := v], k.addr) == if k.slot in t then t else t[k.slot := v]
    ensures k.slot in MergeStorage(st, m, k.addr) <==> k.slot in st
  {
    var a := k.addr;
    forall s | s in SlotsOf(m, a) ensures SKey(a, s) in m {
      var l :| l in m && l.addr == a && l.slot == s;
      assert l == SKey(a, s);
    }
    assert SlotsOf(m[k := v], a) == SlotsOf(m, a) + {k.slot};
  }

  lemma MergeNoSlots(p: Pinned)
    ensures MergeSlots(p, map[]) == p
  {
    hide MergeStorage;
    forall a | a in p ensures MergeStorage(p[a].storage, map[], a) == p[a].storage {
      NoStorage(p[a].storage, a);
    }
  }

  lemma NoStorage(st: map<Hash, Hash>, a: Address)
    ensures MergeStorage(st, map[], a) == st
  {
    assert SlotsOf(map[], a) == {};
  }

  lemma MergeNone(p: Pinned, bufs: seq<Buffer>)
    ensures MergeAll(p, bufs[..0]) == p
  {
  }

  lemma MergeNext(p: Pinned, bufs: seq<Buffer>, i: nat)
    requires i < |bufs|
    ensures MergeAll(p, bufs[..i + 1]) == Merge(MergeAll(p, bufs[..i]), bufs[i])
  {
    hide Merge;
    assert bufs[..i + 1][..i] == bufs[..i];
  }

  class State {
    const db: DB
    const base: Map
    var layers: seq<MemLayer>
    var buffers: seq<SideBuffer>
    var finalized: U64
    var tip: Hash
    var tipBlock: U64
    var tipTime: U64

    ghost predicate Valid()
      reads this
    {
      && Compiled(layers)
      && forall i, j :: 0 <= i < j < |buffers| ==> buffers[i] != buffers[j]
    }

    /** The view this object holds. */
    ghost function Value(): View
      reads this, base, buffers
    {
      View(base.accounts, Batches(layers), Values(buffers))
    }

    /** The codes it has pinned. */
    ghost function Pinned(): Codes.CodePins
      reads this, base, buffers
    {
      Codes.CodePins(base.code, BufferCodes(buffers))
    }

    constructor (db: DB)
      ensures Valid() && this.db == db && Value() == View(map[], [], []) && fresh(base)
      ensures Pinned() == Codes.CodePins(map[], [])
      ensures finalized == Watermark(db.kv)
    {
      this.db := db;
      base := new Map();
      layers, buffers, tip, tipBlock, tipTime := [], [], ZERO, 0, 0;
      finalized := Watermark(db.kv);
    }

    method Register(sb: SideBuffer)
      requires Valid() && sb !in buffers
      modifies this`buffers
      ensures Valid() && buffers == old(buffers) + [sb]
    {
      buffers := buffers + [sb];
    }

    // ----- read phase -----

    method Account(a: Address, sb: SideBuffer) returns (r: Result<Option<Account>>)
      requires Valid()
      modifies sb`accounts
      ensures var dbr := Store.GetAccount(db.kv, db.keccak, a, LATEST);
              && r == FindAccount(old(Value()), old(sb.Value()), a, dbr)
              && sb.Value() == if MissesAccount(old(Value()), old(sb.Value()), a)
                               then PinAccountIn(old(sb.Value()), a, dbr) else old(sb.Value())
    {
      hide Store.GetAccount, StackAccount;
      var e := SearchAccount(layers, a);
      if e.Set? {
        return Ok(e.value);
      }
      if a in base.accounts {
        return Ok(base.accounts[a].account);
      }
      if a in sb.accounts {
        return Ok(sb.accounts[a]);
      }
      r := Store.GetAccount(db.kv, db.keccak, a, LATEST);
      if r.Ok? {
        sb.accounts := sb.accounts[a := r.value];
      }
    }

    /**
     The slot half, then the account half when the slot came from the store and
     the account is fully unknown. An error of the account half is the result,
     though the slot pin stays.
     */
    method Slot(k: SKey, sb: SideBuffer) returns (r: Result<Hash>)
      requires Valid()
      modifies sb`accounts, sb`slots
      ensures var dbs := Store.GetSlot(db.kv, db.keccak, k, LATEST);
              var dba := Store.GetAccount(db.kv, db.keccak, k.addr, LATEST);
              var v, buf := old(Value()), old(sb.Value());
              var missed := MissesSlot(v, buf, k) && dbs.Ok?;
              var unknown := k.addr !in v.base && k.addr !in buf.accounts;
              && r == (if missed && unknown && dba.Err? then Err(dba.error) else FindSlot(v, buf, k, dbs))
              && sb.Value() == if !missed then buf
                               else if unknown then PinAccountIn(PinSlotIn(buf, k, dbs), k.addr, dba)
                               else PinSlotIn(buf, k, dbs)
    {
      hide Store.GetAccount, Store.GetSlot, StackSlot;
      var e := SearchSlot(layers, k);
      if e.Set? {
        return Ok(e.value);
      }
      if k.addr in base.accounts {
        if base.accounts[k.addr].account.None? {
          return Ok(ZERO);
        }
        if k.slot in base.accounts[k.addr].storage {
          return Ok(base.accounts[k.addr].storage[k.slot]);
        }
      }
      if k in sb.slots {
        return Ok(sb.slots[k]);
      }
      r := Store.GetSlot(db.kv, db.keccak, k, LATEST);
      if r.Ok? {
        sb.slots := sb.slots[k := r.value];
        if k.addr !in base.accounts && k.addr !in sb.accounts {
          var acct := Store.GetAccount(db.kv, db.keccak, k.addr, LATEST);
          if acct.Err? {
            return Err(acct.error);
          }
          sb.accounts := sb.accounts[k.addr := acct.value];
        }
      }
    }

    method Code(h: Hash, sb: SideBuffer) returns (r: Result<bytes>)
      modifies sb`code
      ensures r == Codes.FindCode(base.code, old(sb.code), GetCode(db.kv, h), h)
      ensures sb.code == Codes.PinCodeIn(base.code, old(sb.code), GetCode(db.kv, h), h)
    {
      if h in base.code {
        return Ok(base.code[h]);
      }
      if h in sb.code {
        return Ok(sb.code[h]);
      }
      r := GetCode(db.kv, h);
      if r.Ok? {
        sb.code := sb.code[h := r.value];
      }
    }

    // ----- write phase -----

    /** Merges one buffer, entries in any order, and clears it. */
    method DrainBuffer(sb: SideBuffer)
      modifies base, sb
      ensures base.accounts == Merge(old(base.accounts), old(sb.Value()))
      ensures base.code == old(sb.code) + old(base.code)
      ensures sb.Value() == EMPTY_BUFFER && sb.code == map[]
    {
      MergeAccountsInto(sb.accounts);
      MergeSlotsInto(sb.slots);
      MergeCodesInto(sb.code);
      sb.accounts, sb.slots, sb.code := map[], map[], map[];
    }

    method MergeAccountsInto(accounts: map<Address, Option<Account>>)
      modifies base`accounts
      ensures base.accounts == MergeAccounts(old(base.accounts), accounts)
    {
      ghost var p := base.accounts;
      var todo := accounts.Keys;
      AllAndNone(accounts);
      assert MergeAccounts(p, map[]) == p;
      while todo != {}
        invariant todo <= accounts.Keys
        invariant base.accounts == MergeAccounts(p, accounts - todo)
      {
        var a :| a in todo;
        base.PinAccount(a, accounts[a]);
        OneMoreKey(accounts, todo, a);
        MergeOneAccount(p, accounts - todo, a, accounts[a]);
        todo := todo - {a};
      }
    }

    method MergeSlotsInto(slots: map<SKey, Hash>)
      modifies base`accounts
      ensures base.accounts == MergeSlots(old(base.accounts), slots)
    {
      hide MergeStorage;
      ghost var p := base.accounts;
      var todo := slots.Keys;
      AllAndNone(slots);
      MergeNoSlots(p);
      while todo != {}
        invariant todo <= slots.Keys
        invariant base.accounts == MergeSlots(p, slots - todo)
      {
        var k :| k in todo;
        OneMoreKey(slots, todo, k);
        MergeOneSlot(p, slots - todo, k, slots[k]);
        if k.addr in base.accounts {
          base.PinSlot(k, slots[k]);
        }
        todo := todo - {k};
      }
    }

    method MergeCodesInto(code: map<Hash, bytes>)
      modifies base`code
      ensures base.code == code + old(base.code)
    {
      ghost var p := base.code;
      var todo := code.Keys;
      AllAndNone(code);
      while todo != {}
        invariant todo <= code.Keys
        invariant base.code == (code - todo) + p
      {
        var h :| h in todo;
        base.PinCode(h, code[h]);
        OneMoreKey(code, todo, h);
        todo := todo - {h};
      }
    }

    method Drain()
      requires Valid()
      modifies base, buffers
      ensures Valid() && Value() == Drained(old(Value())) && Pinned() == Codes.DrainedCodes(old(Pinned()))
    {
      hide Merge, MergeAll, Values, Batches, Compiled, BufferCodes, Codes.MergeCodes;
      var i := 0;
      ghost var before := Values(buffers);
      ghost var codes := BufferCodes(buffers);
      MergeNone(base.accounts, before);
      Codes.MergeCodesNone(base.code, codes);
      while i < |buffers|
        invariant 0 <= i <= |buffers|
        invariant base.accounts == MergeAll(old(base.accounts), before[..i])
        invariant base.code == Codes.MergeCodes(old(base.code), codes[..i])
        invariant forall j :: 0 <= j < i ==> buffers[j].Value() == EMPTY_BUFFER && buffers[j].code == map[]
        invariant forall j :: i <= j < |buffers| ==> buffers[j].Value() == before[j] && buffers[j].code == codes[j]
      {
        DrainBuffer(buffers[i]);
        MergeNext(old(base.accounts), before, i);
        Codes.MergeCodesNext(old(base.code), codes, i);
        i := i + 1;
      }
      assert before[..i] == before && codes[..i] == codes;
    }

    method ApplyBlock(b: Batch)
      requires Valid()
      modifies this`layers, this`tip, this`tipBlock, this`tipTime, base, buffers
      ensures Valid() && Value() == AfterApplyBlock(old(Value()), b)
      ensures Pinned() == Codes.DrainedCodes(old(Pinned()))
      ensures tip == b.hash && tipBlock == b.block && tipTime == b.time / 1000
    {
      hide Drained, Compile, LayerOps, Values, Batches, BufferCodes;
      DrainKeepsLayers(Value());
      Drain();
      var l := ApplyLayer(EMPTY, b.ops);
      CompileIs(b.ops);
      BatchesPush(layers, MemLayer(b, l));
      layers := layers + [MemLayer(b, l)];
      tip, tipBlock, tipTime := b.hash, b.block, b.time / 1000;
    }

    method Finalize(block: U64, hash: Hash) returns (ok: bool)
      requires Valid()
      modifies this`layers, this`finalized, this`tip, base, buffers
      ensures Valid() && Value() == AfterFinalize(old(Value()), block, hash)
      ensures Pinned() == Codes.DrainedCodes(old(Pinned()))
      ensures ok <==> FinalizeMatches(old(Value()), block, hash)
      ensures finalized == (if ok then block else old(finalized))
      ensures tip == if ok && |old(layers)| == 1 then hash else old(tip)
    {
      hide Drained, PinOps, Values, Batches, BufferCodes;
      DrainKeepsLayers(Value());
      Drain();
      if |layers| == 0 || layers[0].batch.block != block || layers[0].batch.hash != hash {
        return false;
      }
      base.Apply(layers[0].batch);
      BatchesPop(layers);
      layers := layers[1..];
      finalized := block;
      if |layers| == 0 {
        tip := hash;
      }
      return true;
    }

    /** Replaces the layers; an empty chain leaves the tip fields as they were. */
    method PreferenceReset(preferred: seq<Batch>)
      requires Valid()
      modifies this`layers, this`tip, this`tipBlock, this`tipTime, base, buffers
      ensures Valid() && Value() == AfterReset(old(Value()), preferred)
      ensures Pinned() == Codes.DrainedCodes(old(Pinned()))
      ensures if preferred == [] then tip == old(tip) && tipBlock == old(tipBlock) && tipTime == old(tipTime)
              else var b := preferred[|preferred| - 1];
                   tip == b.hash && tipBlock == b.block && tipTime == b.time / 1000
    {
      hide Drained, Compile, Values, Batches, BufferCodes;
      DrainKeepsLayers(Value());
      Drain();
      layers := BuildLayers(preferred);
      if preferred != [] {
        var b := preferred[|preferred| - 1];
        tip, tipBlock, tipTime := b.hash, b.block, b.time / 1000;
      }
    }
  }

  method BuildLayers(preferred: seq<Batch>) returns (layers: seq<MemLayer>)
    ensures Compiled(layers) && Batches(layers) == preferred
  {
    hide Compile, LayerOps, Batches;
    layers := [];
    var i := 0;
    while i < |preferred|
      invariant 0 <= i <= |preferred|
      invariant Compiled(layers) && Batches(layers) == preferred[..i]
    {
      var b := preferred[i];
      var l := ApplyLayer(EMPTY, b.ops);
      CompileIs(b.ops);
      BatchesPush(layers, MemLayer(b, l));
      layers := layers + [MemLayer(b, l)];
      i := i + 1;
    }
  }

  lemma CompileIs(ops: seq<Op>)
    ensures Compile(ops) == LayerOps(EMPTY, ops)
  {
  }
}
