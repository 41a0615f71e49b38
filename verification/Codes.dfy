/**
 Contract code (store/store.go, mem/mem.go): rows and pins under the hash of the
 code. Written by block capture and by the baseline load, fetched into side
 buffers, merged into the shared base; every lookup of every run gives the code its
 hash names, and a captured code is found from the moment its block is written.
 */
module Codes {
  import opened Bytes
  import opened Collections
  import opened Schema
  import opened Capture
  import opened Store

  /** What each hash names. Codes are content-addressed, so this is one function for all writers. */
  type Names = imap<Hash, bytes>

  ghost predicate Addressed(names: Names, ops: seq<Op>) {
    forall op :: op in ops && op.OpCode? ==> op.codeHash in names && op.code == names[op.codeHash]
  }

  ghost predicate Named(names: Names, kv: KV) {
    forall h: Hash :: Code(h) in kv ==> h in names && kv[Code(h)] == names[h]
  }

  // ----- what a store reads -----

  /** Every code captured in the blocks can be read. */
  ghost predicate Readable(kv: KV, blocks: seq<Batch>) {
    forall n, op :: 0 <= n < |blocks| && op in blocks[n].ops && op.OpCode? ==>
      GetCode(kv, op.codeHash) == Ok(op.code)
  }

  /** A code reads as what it is named, or is missing. */
  lemma NamedRead(names: Names, kv: KV, h: Hash)
    requires Named(names, kv)
    ensures GetCode(kv, h) == if Code(h) in kv then Ok(names[h]) else Err(NotFound)
  {
  }

  lemma WriteBlockNames(names: Names, kv: KV, b: Batch, h: Hash)
    requires Named(names, kv) && Addressed(names, b.ops)
    ensures Named(names, AfterWriteBlock(kv, b))
    ensures (exists op :: op in b.ops && NamesCode(op, h)) || Code(h) in kv <==> Code(h) in AfterWriteBlock(kv, b)
  {
    hide AfterWriteBlock, NamesCode;
    var kv' := AfterWriteBlock(kv, b);
    forall g: Hash
      ensures Code(g) in kv' ==> g in names && kv'[Code(g)] == names[g]
      ensures (exists op :: op in b.ops && NamesCode(op, g)) || Code(g) in kv <==> Code(g) in kv'
    {
      WriteBlockCode(kv, b, g);
      LastOrNone(b.ops, g);
      if NamesNone(b.ops, g) {
        assert GetCode(kv', g) == GetCode(kv, g);
      } else {
        var i: nat :| NamesLast(b.ops, i, g);
        assert b.ops[i] in b.ops && NamesCode(b.ops[i], g);
        IsCode(b.ops[i], g);
      }
    }
  }

  lemma IsCode(op: Op, h: Hash)
    requires NamesCode(op, h)
    ensures op.OpCode? && op.codeHash == h
  {
  }

  /** The codes of a written block can be read, and no earlier one is lost. */
  lemma WriteBlockReadable(names: Names, kv: KV, blocks: seq<Batch>, b: Batch)
    requires Named(names, kv) && Readable(kv, blocks)
    requires forall n :: 0 <= n < |blocks + [b]| ==> Addressed(names, (blocks + [b])[n].ops)
    ensures Named(names, AfterWriteBlock(kv, b)) && Readable(AfterWriteBlock(kv, b), blocks + [b])
  {
    hide AfterWriteBlock;
    var all, kv' := blocks + [b], AfterWriteBlock(kv, b);
    assert all[|blocks|] == b;
    assert Addressed(names, all[|blocks|].ops);
    WriteBlockNames(names, kv, b, ZERO);
    forall n, op | 0 <= n < |all| && op in all[n].ops && op.OpCode? ensures GetCode(kv', op.codeHash) == Ok(op.code) {
      WriteBlockNames(names, kv, b, op.codeHash);
      assert Addressed(names, all[n].ops);
      if n < |blocks| {
        assert op in blocks[n].ops;
      } else {
        assert NamesCode(op, op.codeHash);
      }
      NamedRead(names, kv', op.codeHash);
    }
  }

  /** Writing a block again changes no code. */
  lemma RewriteKeepsCodes(names: Names, kv: KV, blocks: seq<Batch>, n: nat, h: Hash)
    requires Named(names, kv) && Readable(kv, blocks) && n < |blocks| && Addressed(names, blocks[n].ops)
    ensures GetCode(AfterWriteBlock(kv, blocks[n]), h) == GetCode(kv, h)
  {
    hide AfterWriteBlock;
    WriteBlockNames(names, kv, blocks[n], h);
    NamedRead(names, kv, h);
    NamedRead(names, AfterWriteBlock(kv, blocks[n]), h);
    if op :| op in blocks[n].ops && NamesCode(op, h) {
      assert GetCode(kv, op.codeHash) == Ok(op.code);
    }
  }

  /** The store after a chain of blocks. */
  function WriteAll(kv: KV, blocks: seq<Batch>): KV {
    if blocks == [] then kv else AfterWriteBlock(WriteAll(kv, blocks[..|blocks| - 1]), blocks[|blocks| - 1])
  }

  /** Every code captured in a block at or below the head can be read. */
  lemma {:induction false} ChainReadable(names: Names, kv: KV, blocks: seq<Batch>)
    requires Named(names, kv) && forall n :: 0 <= n < |blocks| ==> Addressed(names, blocks[n].ops)
    ensures Named(names, WriteAll(kv, blocks)) && Readable(WriteAll(kv, blocks), blocks)
  {
    hide AfterWriteBlock, Addressed, Named, Readable;
    if blocks == [] {
      NoneReadable(kv);
    } else {
      var front := blocks[..|blocks| - 1];
      ChainReadable(names, kv, front);
      assert front + [blocks[|blocks| - 1]] == blocks;
      WriteBlockReadable(names, WriteAll(kv, front), front, blocks[|blocks| - 1]);
    }
  }

  lemma NoneReadable(kv: KV)
    ensures Readable(kv, [])
  {
  }

  // ----- pinned codes -----

  /** The shared base and the executors' buffers. */
  datatype CodePins = CodePins(base: map<Hash, bytes>, buffers: seq<map<Hash, bytes>>)

  /** Base, then the executor's own buffer, then the store. */
  function FindCode(base: map<Hash, bytes>, buf: map<Hash, bytes>, db: Result<bytes>, h: Hash): Result<bytes> {
    if h in base then Ok(base[h]) else if h in buf then Ok(buf[h]) else db
  }

  /** A lookup that reached the store pins what it found. */
  function PinCodeIn(base: map<Hash, bytes>, buf: map<Hash, bytes>, db: Result<bytes>, h: Hash): map<Hash, bytes> {
    if h !in base && h !in buf && db.Ok? then buf[h := db.value] else buf
  }

  /** What the store answered is pinned as answered, and not asked for again. */
  lemma LookupPinsCode(base: map<Hash, bytes>, buf: map<Hash, bytes>, db: Result<bytes>, h: Hash)
    ensures var after := PinCodeIn(base, buf, db, h);
            && (db.Ok? ==> FindCode(base, after, Err(NotFound), h) == FindCode(base, buf, db, h))
            && (forall g :: g != h || db.Err? ==> Lookup(after, g) == Lookup(buf, g))
  {
  }

  /** What is in the base stays; a buffer only adds. */
  function MergeCodes(base: map<Hash, bytes>, bufs: seq<map<Hash, bytes>>): map<Hash, bytes> {
    if bufs == [] then base else bufs[|bufs| - 1] + MergeCodes(base, bufs[..|bufs| - 1])
  }

  lemma MergeCodesNone(base: map<Hash, bytes>, bufs: seq<map<Hash, bytes>>)
    ensures MergeCodes(base, bufs[..0]) == base
  {
  }

  lemma MergeCodesNext(base: map<Hash, bytes>, bufs: seq<map<Hash, bytes>>, i: nat)
    requires i < |bufs|
    ensures MergeCodes(base, bufs[..i + 1]) == bufs[i] + MergeCodes(base, bufs[..i])
  {
    assert bufs[..i + 1][..i] == bufs[..i];
  }

  function DrainedCodes(p: CodePins): CodePins {
    CodePins(MergeCodes(p.base, p.buffers), seq(|p.buffers|, _ => map[]))
  }

  ghost predicate NamedPins(names: Names, m: map<Hash, bytes>) {
    forall h :: h in m ==> h in names && m[h] == names[h]
  }

  ghost predicate InSome(bufs: seq<map<Hash, bytes>>, h: Hash) {
    exists j :: 0 <= j < |bufs| && h in bufs[j]
  }

  lemma InSomeMore(bufs: seq<map<Hash, bytes>>, h: Hash)
    requires bufs != []
    ensures InSome(bufs, h) <==> InSome(bufs[..|bufs| - 1], h) || h in bufs[|bufs| - 1]
  {
    var front := bufs[..|bufs| - 1];
    if InSome(front, h) {
      var j :| 0 <= j < |front| && h in front[j];
      assert h in bufs[j];
    }
    if InSome(bufs, h) {
      var j :| 0 <= j < |bufs| && h in bufs[j];
      assert j < |front| ==> h in front[j];
    }
  }

  /** A drain forgets no code and makes none up. */
  lemma {:induction false} MergeKeeps(names: Names, base: map<Hash, bytes>, bufs: seq<map<Hash, bytes>>)
    requires NamedPins(names, base) && forall j :: 0 <= j < |bufs| ==> NamedPins(names, bufs[j])
    ensures NamedPins(names, MergeCodes(base, bufs))
    ensures forall h: Hash :: h in MergeCodes(base, bufs) <==> h in base || InSome(bufs, h)
  {
    hide InSome;
    if bufs == [] {
      forall h: Hash ensures !InSome(bufs, h) {
        InNone(h);
      }
    } else {
      var front := bufs[..|bufs| - 1];
      MergeKeeps(names, base, front);
      forall h: Hash ensures h in MergeCodes(base, bufs) <==> h in base || InSome(bufs, h) {
        InSomeMore(bufs, h);
      }
    }
  }

  lemma InNone(h: Hash)
    ensures !InSome([], h)
  {
  }

  // ----- every run -----

  /** The store's rows, the pins, and the blocks written so far. */
  datatype World = World(kv: KV, pins: CodePins, blocks: seq<Batch>)

  datatype Step =
    | Write(b: Batch)         // a captured block is committed
    | OtherRows(kv: KV)       // the baseline load adds codes, other rows change
    | Ask(j: nat, h: Hash)    // an executor asks for a code
    | Drain                   // a write phase
    | Register                // a new executor

  ghost predicate Allowed(names: Names, w: World, step: Step) {
    match step
    case Write(b) => Addressed(names, b.ops)
    case OtherRows(kv) => Named(names, kv) && forall h: Hash :: Code(h) in w.kv ==> Code(h) in kv
    case Ask(j, _) => j < |w.pins.buffers|
    case Drain => true
    case Register => true
  }

  function Next(w: World, step: Step): World
    requires step.Ask? ==> step.j < |w.pins.buffers|
  {
    match step
    case Write(b) => w.(kv := AfterWriteBlock(w.kv, b), blocks := w.blocks + [b])
    case OtherRows(kv) => w.(kv := kv)
    case Ask(j, h) =>
      var p := w.pins;
      w.(pins := p.(buffers := p.buffers[j := PinCodeIn(p.base, p.buffers[j], GetCode(w.kv, h), h)]))
    case Drain => w.(pins := DrainedCodes(w.pins))
    case Register => w.(pins := w.pins.(buffers := w.pins.buffers + [map[]]))
  }

  ghost predicate PinsOk(names: Names, p: CodePins) {
    NamedPins(names, p.base) && forall j :: 0 <= j < |p.buffers| ==> NamedPins(names, p.buffers[j])
  }

  ghost predicate Inv(names: Names, w: World) {
    && Named(names, w.kv) && Readable(w.kv, w.blocks)
    && (forall n :: 0 <= n < |w.blocks| ==> Addressed(names, w.blocks[n].ops))
    && PinsOk(names, w.pins)
  }

  lemma StepKeepsCodes(names: Names, w: World, step: Step)
    requires Inv(names, w) && Allowed(names, w, step)
    ensures Inv(names, Next(w, step))
  {
    match step
    case Write(b) =>
      hide AfterWriteBlock, Addressed, Named, Readable, PinsOk;
      WriteBlockReadable(names, w.kv, w.blocks, b);
    case OtherRows(kv) =>
      hide PinsOk;
      forall n, op | 0 <= n < |w.blocks| && op in w.blocks[n].ops && op.OpCode?
        ensures GetCode(kv, op.codeHash) == Ok(op.code)
      {
        assert GetCode(w.kv, op.codeHash) == Ok(op.code);
        assert Addressed(names, w.blocks[n].ops);
      }
    case Ask(j, h) =>
      hide Addressed, Readable;
      NamedRead(names, w.kv, h);
    case Drain =>
      hide Addressed, Readable, Named, NamedPins;
      MergeKeeps(names, w.pins.base, w.pins.buffers);
      NoPins(names);
    case Register =>
      hide Addressed, Readable, Named, NamedPins;
      NoPins(names);
  }

  lemma NoPins(names: Names)
    ensures NamedPins(names, map[])
  {
  }

  ghost predicate Runs(names: Names, ws: seq<World>, steps: seq<Step>) {
    && |ws| == |steps| + 1 && Inv(names, ws[0])
    && forall n :: 0 <= n < |steps| ==> Allowed(names, ws[n], steps[n]) && ws[n + 1] == Next(ws[n], steps[n])
  }

  lemma {:induction false} RunKeepsCodes(names: Names, ws: seq<World>, steps: seq<Step>, n: nat)
    requires Runs(names, ws, steps) && n < |ws|
    ensures Inv(names, ws[n])
    decreases n
  {
    hide Inv, Allowed, Next;
    if n > 0 {
      RunKeepsCodes(names, ws, steps, n - 1);
      StepKeepsCodes(names, ws[n - 1], steps[n - 1]);
    }
  }

  /**
   In every run every executor's lookup of a code is what its hash names, if the
   base, its buffer or the store has it, and the code of every block written so far
   is found.
   */
  lemma CodeInEveryRun(names: Names, ws: seq<World>, steps: seq<Step>, n: nat, j: nat, h: Hash)
    requires Runs(names, ws, steps) && n < |ws| && j < |ws[n].pins.buffers|
    ensures var w := ws[n];
            var r := FindCode(w.pins.base, w.pins.buffers[j], GetCode(w.kv, h), h);
            && (if h in w.pins.base || h in w.pins.buffers[j] || Code(h) in w.kv
                then h in names && r == Ok(names[h]) else r == Err(NotFound))
            && forall i, op :: 0 <= i < |w.blocks| && op in w.blocks[i].ops && NamesCode(op, h) ==> r == Ok(op.code)
  {
    hide Runs, Allowed, Next;
    RunKeepsCodes(names, ws, steps, n);
    var w := ws[n];
    NamedRead(names, w.kv, h);
    forall i, op | 0 <= i < |w.blocks| && op in w.blocks[i].ops && NamesCode(op, h)
      ensures FindCode(w.pins.base, w.pins.buffers[j], GetCode(w.kv, h), h) == Ok(op.code)
    {
      assert Addressed(names, w.blocks[i].ops);
      assert GetCode(w.kv, op.codeHash) == Ok(op.code);
    }
  }

  /** A drain changes no executor's answer, pins or no pins. */
  lemma DrainKeepsAnswers(names: Names, w: World, j: nat, h: Hash)
    requires Inv(names, w) && j < |w.pins.buffers|
    requires h in w.pins.base || h in w.pins.buffers[j] || Code(h) in w.kv
    ensures var p := DrainedCodes(w.pins);
            FindCode(p.base, p.buffers[j], GetCode(w.kv, h), h)
            == FindCode(w.pins.base, w.pins.buffers[j], GetCode(w.kv, h), h)
  {
    hide Readable, Addressed;
    MergeKeeps(names, w.pins.base, w.pins.buffers);
    NamedRead(names, w.kv, h);
    assert h in w.pins.buffers[j] ==> InSome(w.pins.buffers, h);
  }
}
