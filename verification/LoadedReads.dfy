/** What a store reads while and after the loader fills its baseline. */
module LoadedReads {
  import opened Bytes
  import opened Collections
  import opened Schema
  import Capture
  import opened Reference
  import Store
  import Codes
  import opened History
  import opened Loader
  import opened LoaderSafety

  /** The tries are the state's, under the hash function. */
  ghost predicate TriesOf(w: World, keccak: Store.Keccak, base: State) {
    && (forall a: Address :: keccak(a) in w.accounts <==> a in base.accounts)
    && (forall a: Address :: a in base.accounts ==> w.accounts[keccak(a)].account == base.accounts[a])
    && (forall k: SKey :: base.Slot(k) != ZERO ==>
          keccak(k.addr) in w.accounts && keccak(k.slot) in w.accounts[keccak(k.addr)].slots)
    && (forall k: SKey :: keccak(k.addr) in w.accounts && keccak(k.slot) in w.accounts[keccak(k.addr)].slots ==>
          w.accounts[keccak(k.addr)].slots[keccak(k.slot)] == base.Slot(k))
  }

  lemma RowsAreBaseline(w: World, kv: KV, keccak: Store.Keccak, base: State)
    requires TriesOf(w, keccak, base) && TrueRows(w, kv)
    ensures BaselineTrue(kv, keccak, base)
    ensures Full(w, kv) ==> BaselineFull(kv, keccak, base)
  {
    hide EncodeAccount, CodesFull;
  }

  /** The rows of block history are not the loader's to write. */
  ghost predicate SameHistory(kv: KV, kv': KV) {
    forall k: Key :: k.Row? || k.Diff? || k.MetaGenesis? ==> Lookup(kv', k) == Lookup(kv, k)
  }

  lemma {:induction false} OpsKeepHistory(d: Disk, ops: seq<Op>)
    requires forall op :: op in ops ==> Sane(op)
    ensures SameHistory(d.kv, ApplyAll(d, ops).kv)
    decreases |ops|
  {
    if ops != [] {
      var front := ops[..|ops| - 1];
      assert ops[|ops| - 1] in ops && forall op :: op in front ==> op in ops;
      OpsKeepHistory(d, front);
    }
  }

  /** The rows of block history stand for the chain. */
  ghost predicate HistoryOf(kv: KV, c: Chain) {
    Lookup(kv, MetaGenesis) == Some(U64Bytes(c.s)) && HistoryRows(kv, c) && DiffRows(kv, c)
  }

  lemma SameHistoryOf(kv: KV, kv': KV, c: Chain)
    requires SameHistory(kv, kv') && HistoryOf(kv, c)
    ensures HistoryOf(kv', c)
  {
    hide RowAt, Capture.Encode, U64Bytes;
    forall stem: Stem, b: U64 ensures Lookup(kv', Row(stem, b)) == RowAt(c, stem, b) {
      assert Lookup(kv, Row(stem, b)) == RowAt(c, stem, b);
    }
    forall b: U64
      ensures Lookup(kv', Diff(b))
          == if c.s < b <= c.s + |c.blocks| then Some(Capture.Encode(c.blocks[b - c.s - 1])) else None
    {
      assert Lookup(kv, Diff(b))
          == if c.s < b <= c.s + |c.blocks| then Some(Capture.Encode(c.blocks[b - c.s - 1])) else None;
    }
  }

  /** The chain grows by the blocks captured during the load. */
  function ChainAfter(c: Chain, es: seq<Event>): (r: Chain)
    ensures r.s == c.s && r.base == c.base
  {
    if es == [] then c
    else
      var front, e := ChainAfter(c, es[..|es| - 1]), es[|es| - 1];
      if e.Block? then Extend(front, e.b) else front
  }

  lemma StepKeepsHistory(w: World, m: Machine, e: Event, c: Chain)
    requires Inv(w, m) && Allowed(w, m, e) && HistoryOf(m.disk.kv, c)
    requires e.Block? ==> Numbered(Extend(c, e.b))
    ensures HistoryOf(Next(w, m, e).disk.kv, if e.Block? then Extend(c, e.b) else c)
  {
    hide PrefixesOk, WalkerOk, Covered, CodesFull, Sane, ApplyAll, Exhausted, Received, Bundle, CodePuts, Resume,
         RowAt, Capture.Encode, Store.AfterWriteBlock, U64Bytes;
    if e.Block? {
      WriteBlockExtendsHistory(m.disk.kv, c, e.b);
      WriteBlockRow(m.disk.kv, e.b, MetaGenesis);
    } else {
      if e.Commit? {
        assert forall op :: op in m.buf[..e.n] ==> op in m.buf;
        OpsKeepHistory(m.disk, m.buf[..e.n]);
      }
      SameHistoryOf(m.disk.kv, Next(w, m, e).disk.kv, c);
    }
  }

  lemma {:induction false} ChainGrows(c: Chain, es: seq<Event>, n: nat)
    requires n <= |es|
    ensures ChainAfter(c, es[..n]).blocks <= ChainAfter(c, es).blocks
    decreases |es|
  {
    if n == |es| {
      assert es[..n] == es;
    } else {
      ChainGrows(c, es[..|es| - 1], n);
      assert es[..|es| - 1][..n] == es[..n];
    }
  }

  lemma {:induction false} RunKeepsHistory(w: World, ms: seq<Machine>, es: seq<Event>, n: nat, c: Chain)
    requires WorldOk(w) && Runs(w, ms, es) && Inv(w, ms[0]) && n < |ms|
    requires HistoryOf(ms[0].disk.kv, c) && Numbered(ChainAfter(c, es))
    ensures HistoryOf(ms[n].disk.kv, ChainAfter(c, es[..n]))
    decreases n
  {
    hide WorldOk, Inv, Allowed, Next, HistoryOf;
    if n == 0 {
      assert es[..0] == [];
    } else {
      RunKeepsHistory(w, ms, es, n - 1, c);
      RunKeepsInv(w, ms, es, n - 1);
      assert es[..n][..n - 1] == es[..n - 1];
      ChainGrows(c, es, n);
      StepKeepsHistory(w, ms[n - 1], es[n - 1], ChainAfter(c, es[..n - 1]));
    }
  }

  /**
   At every point of every load, crashes included, with blocks captured beside it,
   the store stands for its chain as it is then: history rows are those of the
   blocks, loaded baseline rows are true, and the completion mark means nothing is
   missing.
   */
  lemma LoadKeepsChain(w: World, d: Disk, ms: seq<Machine>, es: seq<Event>, n: nat, keccak: Store.Keccak, c: Chain)
    requires WorldOk(w) && DiskOk(w, d) && Runs(w, ms, es) && ms[0] == Booted(d) && n < |ms|
    requires Represents(d.kv, keccak, c) && TriesOf(w, keccak, c.base) && Numbered(ChainAfter(c, es))
    ensures Represents(ms[n].disk.kv, keccak, ChainAfter(c, es[..n]))
  {
    hide WorldOk, DiskOk, Next, Allowed, TrueRows, Full, TriesOf, BaselineTrue, BaselineFull, U64Bytes, HistoryRows,
         DiffRows;
    var kv := ms[n].disk.kv;
    LoadIsSound(w, d, ms, es, n);
    RowsAreBaseline(w, kv, keccak, c.base);
    BootedOk(w, d);
    RunKeepsHistory(w, ms, es, n, c);
    ChainGrows(c, es, n);
  }

  /** Once a load has been marked complete, every read at or above S is the reference value. */
  lemma CompletedLoadAnswers(
    w: World, d: Disk, ms: seq<Machine>, es: seq<Event>, n: nat, keccak: Store.Keccak, c: Chain, k: SKey, at: U64)
    requires WorldOk(w) && DiskOk(w, d) && Runs(w, ms, es) && ms[0] == Booted(d) && n < |es| && es[n] == Complete
    requires Represents(d.kv, keccak, c) && TriesOf(w, keccak, c.base) && Numbered(ChainAfter(c, es)) && c.s <= at
    requires Respects(ChainAfter(c, es[..n + 1]))
    ensures var now := ChainAfter(c, es[..n + 1]);
            && Store.GetAccount(ms[n + 1].disk.kv, keccak, k.addr, at)
                == Store.Ok(AccountAt(now.base, now.blocks, Depth(now, at), k.addr))
            && Store.GetSlot(ms[n + 1].disk.kv, keccak, k, at)
                == Store.Ok(SlotAt(now.base, now.blocks, Depth(now, at), k))
  {
    hide WorldOk, DiskOk, Allowed, Next, TriesOf, Represents, Respects, AccountAt, SlotAt, Depth, Store.GetAccount,
         Store.GetSlot, ChainAfter;
    var now := ChainAfter(c, es[..n + 1]);
    ChainGrows(c, es, n + 1);
    LoadKeepsChain(w, d, ms, es, n + 1, keccak, c);
    GetAccountIsReference(ms[n + 1].disk.kv, keccak, now, k.addr, at);
    GetSlotIsReference(ms[n + 1].disk.kv, keccak, now, k, at);
    CompleteMarks(w, ms, es, n);
  }

  /**
   From a new store at S: when a load completes, every read at or above S is the
   baseline state with the blocks captured meanwhile applied to it.
   */
  lemma FirstLoadAnswers(w: World, s: U64, ms: seq<Machine>, es: seq<Event>, n: nat, keccak: Store.Keccak,
      base: State, k: SKey, at: U64)
    requires WorldOk(w) && TriesOf(w, keccak, base) && s <= at
    requires Runs(w, ms, es) && ms[0] == Booted(Disk(map[MetaGenesis := U64Bytes(s)], {}))
    requires n < |es| && es[n] == Complete
    requires Numbered(ChainAfter(Chain(s, base, []), es)) && Respects(ChainAfter(Chain(s, base, []), es[..n + 1]))
    ensures var now := ChainAfter(Chain(s, base, []), es[..n + 1]);
            && Store.GetAccount(ms[n + 1].disk.kv, keccak, k.addr, at)
                == Store.Ok(AccountAt(base, now.blocks, Depth(now, at), k.addr))
            && Store.GetSlot(ms[n + 1].disk.kv, keccak, k, at) == Store.Ok(SlotAt(base, now.blocks, Depth(now, at), k))
  {
    hide WorldOk, DiskOk, Allowed, Next, TriesOf, Represents, Respects, Store.GetAccount, Store.GetSlot, U64Bytes,
         ChainAfter;
    var kv: KV := map[MetaGenesis := U64Bytes(s)];
    var c := Chain(s, base, []);
    NewStoreRepresents(s, keccak, base);
    UntouchedDiskOk(w, kv);
    ChainGrows(c, es, n + 1);
    CompletedLoadAnswers(w, Disk(kv, {}), ms, es, n, keccak, c, k, at);
  }

  // ----- codes -----

  ghost predicate OpsNamed(names: Codes.Names, ops: seq<Op>) {
    forall op :: op in ops && op.Put? && op.k.Code? ==> op.k.hash in names && op.v == names[op.k.hash]
  }

  lemma {:induction false} ApplyNamed(names: Codes.Names, d: Disk, ops: seq<Op>)
    requires Codes.Named(names, d.kv) && OpsNamed(names, ops)
    ensures Codes.Named(names, ApplyAll(d, ops).kv)
    decreases |ops|
  {
    if ops != [] {
      var front := ops[..|ops| - 1];
      assert ops[|ops| - 1] in ops && forall op :: op in front ==> op in ops;
      ApplyNamed(names, d, front);
    }
  }

  lemma {:induction false} CodePutsNamed(names: Codes.Names, w: World, hs: seq<Hash>)
    requires (forall h :: h in hs ==> h in w.codes) && NamesWorld(names, w)
    ensures OpsNamed(names, CodePuts(w, hs))
    decreases |hs|
  {
    if hs != [] {
      CodePutsNamed(names, w, hs[..|hs| - 1]);
    }
  }

  /** The tries' codes are what their hashes name. */
  ghost predicate NamesWorld(names: Codes.Names, w: World) {
    forall h :: h in w.codes ==> h in names && w.codes[h] == names[h]
  }

  ghost predicate BlocksNamed(names: Codes.Names, blocks: seq<Capture.Batch>) {
    forall i :: 0 <= i < |blocks| ==> Codes.Addressed(names, blocks[i].ops)
  }

  /** What the codes of the disk and of the writer's buffer are at a point of a load. */
  ghost predicate CodesOk(names: Codes.Names, m: Machine, blocks: seq<Capture.Batch>) {
    && Codes.Named(names, m.disk.kv) && OpsNamed(names, m.buf)
    && BlocksNamed(names, blocks) && Codes.Readable(m.disk.kv, blocks)
  }

  lemma ReadableGrows(names: Codes.Names, kv: KV, kv': KV, blocks: seq<Capture.Batch>)
    requires Codes.Named(names, kv') && BlocksNamed(names, blocks) && Codes.Readable(kv, blocks) && Grows(kv, kv')
    ensures Codes.Readable(kv', blocks)
  {
    forall i, op | 0 <= i < |blocks| && op in blocks[i].ops && op.OpCode?
      ensures Store.GetCode(kv', op.codeHash) == Store.Ok(op.code)
    {
      assert Store.GetCode(kv, op.codeHash) == Store.Ok(op.code);
      assert Codes.Addressed(names, blocks[i].ops);
      Codes.NamedRead(names, kv', op.codeHash);
    }
  }

  lemma BundleNamed(names: Codes.Names, w: World, p: Part, k: Hash)
    requires k in Leaves(w, p)
    ensures OpsNamed(names, Bundle(w, p, k))
  {
    hide EncodeAccount;
  }

  lemma StepKeepsCodes(names: Codes.Names, w: World, m: Machine, e: Event, blocks: seq<Capture.Batch>)
    requires Inv(w, m) && Allowed(w, m, e) && NamesWorld(names, w) && CodesOk(names, m, blocks)
    requires e.Block? ==> Codes.Addressed(names, e.b.ops)
    ensures CodesOk(names, Next(w, m, e), if e.Block? then blocks + [e.b] else blocks)
  {
    hide Inv, DiskOk, WalkerOk, Bundle, CodePuts, Resume, Received, Exhausted, Store.AfterWriteBlock, ApplyAll,
         Codes.Named, Codes.Readable, Codes.Addressed;
    var m' := Next(w, m, e);
    match e {
      case Send(p) => BundleNamed(names, w, p, m.walkers[p].todo[0]);
      case Sweep(missing) => CodePutsNamed(names, w, missing);
      case Commit(n) => CommitKeepsCodes(names, w, m, n, blocks);
      case Complete => MarkKeepsCodes(names, m.disk.kv, blocks);
      case Block(b) =>
        assert BlocksNamed(names, blocks + [b]);
        Codes.WriteBlockReadable(names, m.disk.kv, blocks, b);
      case Begin =>
      case Start(_, _) =>
      case Fetch(_, _) =>
      case Finish(_) =>
      case Dequeue(_) =>
      case Claim(_) =>
      case ToStorage =>
      case Crash =>
    }
  }

  lemma CommitKeepsCodes(names: Codes.Names, w: World, m: Machine, n: nat, blocks: seq<Capture.Batch>)
    requires Inv(w, m) && CodesOk(names, m, blocks) && n <= |m.buf|
    ensures CodesOk(names, Next(w, m, Commit(n)), blocks)
  {
    hide DiskOk, WalkerOk, PrefixesOk, Covered, ApplyAll, Codes.Named, Codes.Readable, Codes.Addressed;
    assert forall op :: op in m.buf[..n] ==> op in m.buf;
    assert forall op :: op in m.buf[n..] ==> op in m.buf;
    ApplyNamed(names, m.disk, m.buf[..n]);
    ApplyGrows(m.disk, m.buf[..n]);
    ReadableGrows(names, m.disk.kv, ApplyAll(m.disk, m.buf[..n]).kv, blocks);
  }

  lemma MarkKeepsCodes(names: Codes.Names, kv: KV, blocks: seq<Capture.Batch>)
    requires Codes.Named(names, kv) && BlocksNamed(names, blocks) && Codes.Readable(kv, blocks)
    ensures Codes.Named(names, kv[MetaBaselineComplete := [1]])
    ensures Codes.Readable(kv[MetaBaselineComplete := [1]], blocks)
  {
    ReadableGrows(names, kv, kv[MetaBaselineComplete := [1]], blocks);
  }

  lemma {:induction false} RunKeepsCodes(
    names: Codes.Names, w: World, ms: seq<Machine>, es: seq<Event>, n: nat, c: Chain)
    requires WorldOk(w) && NamesWorld(names, w) && Runs(w, ms, es) && Inv(w, ms[0]) && n < |ms|
    requires CodesOk(names, ms[0], c.blocks)
    requires forall i :: 0 <= i < |es| && es[i].Block? ==> Codes.Addressed(names, es[i].b.ops)
    ensures CodesOk(names, ms[n], ChainAfter(c, es[..n]).blocks)
    decreases n
  {
    hide WorldOk, Inv, Allowed, Next, CodesOk, NamesWorld, Codes.Addressed;
    if n == 0 {
      assert es[..0] == [];
    } else {
      RunKeepsCodes(names, w, ms, es, n - 1, c);
      RunKeepsInv(w, ms, es, n - 1);
      assert es[..n][..n - 1] == es[..n - 1];
      StepKeepsCodes(names, w, ms[n - 1], es[n - 1], ChainAfter(c, es[..n - 1]).blocks);
    }
  }

  /**
   At every point of every load the code of every block captured so far can be
   read, and any code that is there is the one its hash names. Once the baseline is
   complete, so can the code of every account of the baseline state.
   */
  lemma CodesDuringLoad(names: Codes.Names, w: World, d: Disk, ms: seq<Machine>, es: seq<Event>, n: nat,
      keccak: Store.Keccak, c: Chain)
    requires WorldOk(w) && DiskOk(w, d) && Runs(w, ms, es) && ms[0] == Booted(d) && n < |ms|
    requires NamesWorld(names, w) && TriesOf(w, keccak, c.base)
    requires Codes.Named(names, d.kv) && BlocksNamed(names, c.blocks) && Codes.Readable(d.kv, c.blocks)
    requires forall i :: 0 <= i < |es| && es[i].Block? ==> Codes.Addressed(names, es[i].b.ops)
    ensures Codes.Named(names, ms[n].disk.kv)
    ensures Codes.Readable(ms[n].disk.kv, ChainAfter(c, es[..n]).blocks)
    ensures MetaBaselineComplete in ms[n].disk.kv ==>
              forall a :: a in c.base.accounts && NeedsCode(w, c.base.accounts[a].codeHash) ==>
                            var h := c.base.accounts[a].codeHash;
                            h in names && Store.GetCode(ms[n].disk.kv, h) == Store.Ok(names[h])
  {
    hide WorldOk, DiskOk, Next, Allowed, TrueRows, Full, Codes.Named, Codes.Readable, Codes.Addressed;
    BootedOk(w, d);
    RunKeepsCodes(names, w, ms, es, n, c);
    LoadIsSound(w, d, ms, es, n);
    if MetaBaselineComplete in ms[n].disk.kv {
      forall a | a in c.base.accounts && NeedsCode(w, c.base.accounts[a].codeHash)
        ensures var h := c.base.accounts[a].codeHash;
                h in names && Store.GetCode(ms[n].disk.kv, h) == Store.Ok(names[h])
      {
        assert w.accounts[keccak(a)].account == c.base.accounts[a];
      }
    }
  }

  lemma CompleteMarks(w: World, ms: seq<Machine>, es: seq<Event>, n: nat)
    requires Runs(w, ms, es) && n < |es| && es[n] == Complete
    ensures MetaBaselineComplete in ms[n + 1].disk.kv
  {
    hide Allowed;
  }
}
