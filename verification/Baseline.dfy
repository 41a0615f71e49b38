/**
 The loader's single writer (store/store.go, Baseline): rows are buffered and
 committed in order, the progress bitmap with them, and Finish refuses while a
 storage trie is still queued.
 */
module Baseline {
  import opened Bytes
  import opened Schema
  import opened Loader
  import opened LoaderSafety

  const CHUNK := 0x1_0000

  class Writer {
    var disk: Disk
    var ops: seq<Op>
    var progress: Option<set<nat>>
    /** Run's bitmap: what was on disk plus the segments finished since. */
    var bitmap: set<nat>

    /** The disk once everything added so far is committed. */
    ghost function Written(): Disk
      reads this
    {
      var d := ApplyAll(disk, ops);
      if progress.Some? then d.(done := progress.value) else d
    }

    ghost predicate Valid()
      reads this
    {
      && (forall op :: op in ops ==> Sane(op) && !op.Mark?)
      && bitmap == if progress.Some? then progress.value else disk.done
    }

    constructor (d: Disk)
      ensures Valid() && disk == d && ops == [] && Written() == d
    {
      disk, ops, progress, bitmap := d, [], None, d.done;
    }

    /** One transaction: every buffered row in order, and the bitmap. */
    method Flush()
      requires Valid()
      modifies this
      ensures Valid() && disk == old(Written()) && Written() == old(Written())
      ensures ops == [] && progress == None
    {
      ghost var start := disk;
      var d := disk;
      var i := 0;
      while i < |ops|
        invariant 0 <= i <= |ops| && d == ApplyAll(start, ops[..i])
      {
        assert ops[..i + 1][..i] == ops[..i];
        d := Apply(d, ops[i]);
        i := i + 1;
      }
      assert ops[..i] == ops;
      NoMarks(start, ops);
      if progress.Some? {
        d := d.(done := progress.value);
      }
      disk, ops, progress := d, [], None;
    }

    /** Buffers one row operation; a full chunk is committed with it. */
    method Add(op: Op)
      requires Valid() && Sane(op) && !op.Mark?
      modifies this
      ensures Valid() && Written() == Apply(old(Written()), op)
      ensures disk == old(disk) || (disk == Written() && ops == [])
    {
      ApplyOne(disk, ops, op);
      ops := ops + [op];
      if |ops| >= CHUNK {
        Flush();
      }
    }

    /** The last bundle of a segment: its bit goes in with the next commit, never before its rows. */
    method MarkDone(seg: nat)
      requires Valid()
      modifies this
      ensures Valid() && Written() == Apply(old(Written()), Mark(seg))
      ensures disk == old(disk) && ops == old(ops)
    {
      NoMarks(disk, ops);
      bitmap := bitmap + {seg};
      progress := Some(bitmap);
    }

    /** Marks the baseline complete, unless a storage trie is still queued. */
    method Finish() returns (ok: bool)
      requires Valid()
      modifies this
      ensures ok <==> forall a: Hash :: Queue(a) !in old(Written()).kv
      ensures ok ==> disk == Disk(old(Written()).kv[MetaBaselineComplete := [1]], {})
      ensures !ok ==> disk == Disk(old(Written()).kv, old(disk).done)
    {
      NoMarks(disk, ops);
      bitmap, progress := disk.done, None;
      Flush();
      QueueProbe(disk.kv.Keys);
      var first := SetRange(disk.kv.Keys, [9]);
      if first.Some? && EncodeKey(first.value) != [] && EncodeKey(first.value)[0] == 9 {
        return false;
      }
      disk := Disk(disk.kv[MetaBaselineComplete := [1]], {});
      return true;
    }
  }

  lemma {:induction false} NoMarks(d: Disk, ops: seq<Op>)
    requires forall op :: op in ops ==> !op.Mark?
    ensures ApplyAll(d, ops).done == d.done
    decreases |ops|
  {
    if ops != [] {
      assert ops[|ops| - 1] in ops && forall op :: op in ops[..|ops| - 1] ==> op in ops;
      NoMarks(d, ops[..|ops| - 1]);
    }
  }

  /** One seek to the queue's prefix tells whether any queue row is left. */
  lemma QueueProbe(keys: set<Key>)
    ensures var f := SetRange(keys, [9]);
            (f.Some? && EncodeKey(f.value) != [] && EncodeKey(f.value)[0] == 9) <==> exists a: Hash :: Queue(a) in keys
  {
    hide SetRange, Less;
    var f := SetRange(keys, [9]);
    if f.Some? && EncodeKey(f.value) != [] && EncodeKey(f.value)[0] == 9 {
      ParseEncodeKey(f.value);
    }
    forall a: Hash | Queue(a) in keys
      ensures f.Some? && EncodeKey(f.value) != [] && EncodeKey(f.value)[0] == 9
    {
      PrefixFirst([9], a);
      if f.Some? {
        assert [9] + [] == [9];
        BetweenSharesPrefix([9], [], EncodeKey(f.value), a);
      }
    }
  }

  lemma PrefixFirst(p: bytes, s: bytes)
    ensures AtMost(p, p + s)
  {
    assert p + [] == p;
    LessSamePrefix(p, [], s);
  }

  // ----- the code sweep -----

  /** The keys from a cursor's position on. */
  ghost function From(keys: set<Key>, k: Option<Key>): set<Key> {
    if k.None? then {} else set l | l in keys && AtMost(EncodeKey(k.value), EncodeKey(l))
  }

  /** LMDB's Next: the least key after the cursor's. */
  function NextKey(keys: set<Key>, k: Key): Option<Key> {
    SetRange(keys - {k}, EncodeKey(k))
  }

  /** One step passes exactly the key the cursor was on. */
  lemma NextPassesOne(keys: set<Key>, k: Key)
    requires k in keys
    ensures From(keys, NextKey(keys, k)) == From(keys, Some(k)) - {k}
    ensures k in From(keys, Some(k)) && (NextKey(keys, k).Some? ==> NextKey(keys, k).value in keys)
  {
    hide EncodeKey, Less;
    var n := NextKey(keys, k);
    forall l | l in keys ensures l in From(keys, n) <==> l in From(keys, Some(k)) && l != k {
      if n.Some? {
        StepOver(keys, k, n.value, l);
      }
    }
  }

  lemma StepOver(keys: set<Key>, k: Key, n: Key, l: Key)
    requires IsFirstAtOrAfter(keys - {k}, EncodeKey(k), n) && l in keys
    ensures AtMost(EncodeKey(n), EncodeKey(l)) <==> AtMost(EncodeKey(k), EncodeKey(l)) && l != k
  {
    hide EncodeKey, Less;
    LessTrichotomy(EncodeKey(k), EncodeKey(n));
    if EncodeKey(k) == EncodeKey(n) {
      EncodeKeyInjective(k, n);
    }
    if AtMost(EncodeKey(n), EncodeKey(l)) {
      AtMostTransitive(EncodeKey(k), EncodeKey(n), EncodeKey(l));
    }
  }

  /** Account rows are the keys from the prefix on, up to the first of another keyspace. */
  lemma AccountsFrom(keys: set<Key>, k: Option<Key>, a: Hash)
    requires BaseAccount(a) in From(keys, k) && k.Some? && AtMost([7], EncodeKey(k.value))
    ensures k.value.BaseAccount?
  {
    hide Less;
    assert [7] + [] == [7];
    BetweenSharesPrefix([7], [], EncodeKey(k.value), a);
    ParseEncodeKey(k.value);
  }

  lemma ScanStarts(keys: set<Key>, a: Hash)
    requires BaseAccount(a) in keys
    ensures BaseAccount(a) in From(keys, SetRange(keys, [7]))
  {
    hide Less;
    PrefixFirst([7], a);
  }

  function RowCode(kv: KV, a: Hash): Option<Hash> {
    if BaseAccount(a) in kv && DecodeAccount(kv[BaseAccount(a)]).Some?
    then Some(DecodeAccount(kv[BaseAccount(a)]).value.codeHash) else None
  }

  /** A code hash some account row names and no code row has. */
  ghost predicate MissingCode(kv: KV, emptyCode: Hash, h: Hash) {
    h != ZERO && h != emptyCode && Code(h) !in kv && exists a: Hash :: RowCode(kv, a) == Some(h)
  }

  /** The rows before the cursor decode, and their codes have been looked at. */
  ghost predicate Scanned(kv: KV, emptyCode: Hash, k: Option<Key>, seen: set<Hash>) {
    && (forall a: Hash :: BaseAccount(a) in kv && BaseAccount(a) !in From(kv.Keys, k) ==>
          && RowCode(kv, a).Some?
          && var h := RowCode(kv, a).value;
             h in seen || h == ZERO || h == emptyCode)
    && (forall h :: h in seen ==> h != ZERO && h != emptyCode && exists a: Hash :: RowCode(kv, a) == Some(h))
  }

  lemma ScannedMore(kv: KV, emptyCode: Hash, a: Hash, seen: set<Hash>, seen': set<Hash>)
    requires Scanned(kv, emptyCode, Some(BaseAccount(a)), seen) && RowCode(kv, a).Some?
    requires var h := RowCode(kv, a).value;
             seen' == if h == ZERO || h == emptyCode then seen else seen + {h}
    ensures Scanned(kv, emptyCode, NextKey(kv.Keys, BaseAccount(a)), seen')
  {
    hide From, NextKey, DecodeAccount;
    NextPassesOne(kv.Keys, BaseAccount(a));
  }

  /**
   Scans the account rows with a cursor for code hashes without a code row, each
   once. None is a row that does not decode.
   */
  method MissingCodeHashes(kv: KV, emptyCode: Hash) returns (r: Option<seq<Hash>>)
    ensures r.Some? <==> forall a: Hash :: BaseAccount(a) in kv ==> DecodeAccount(kv[BaseAccount(a)]).Some?
    ensures r.Some? ==> forall h: Hash :: h in r.value <==> MissingCode(kv, emptyCode, h)
    ensures r.Some? ==> forall i, j :: 0 <= i < j < |r.value| ==> r.value[i] != r.value[j]
  {
    hide DecodeAccount, From, NextKey, Scanned, EncodeKey, Less;
    var seen: set<Hash> := {};
    var missing: seq<Hash> := [];
    var k := SetRange(kv.Keys, [7]);
    ScanBegins(kv, emptyCode);
    while k.Some? && k.value.BaseAccount?
      invariant Scanned(kv, emptyCode, k, seen)
      invariant k.Some? ==> k.value in kv && AtMost([7], EncodeKey(k.value))
      invariant forall h :: h in missing <==> h in seen && Code(h) !in kv
      invariant forall j, i :: 0 <= j < i < |missing| ==> missing[j] != missing[i]
      decreases From(kv.Keys, k)
    {
      var a := k.value.addrHash;
      var acct := DecodeAccount(kv[k.value]);
      if acct.None? {
        return None;
      }
      var h := acct.value.codeHash;
      ghost var before := seen;
      if h != ZERO && h != emptyCode && h !in seen {
        seen := seen + {h};
        if Code(h) !in kv {
          missing := missing + [h];
        }
      }
      assert k.value == BaseAccount(a) && RowCode(kv, a) == Some(h);
      assert h in before ==> before + {h} == before;
      ScannedMore(kv, emptyCode, a, before, seen);
      NextPassesOne(kv.Keys, k.value);
      NextStaysAbove(kv.Keys, k.value);
      k := NextKey(kv.Keys, k.value);
    }
    ScanEnds(kv, emptyCode, k, seen);
    return Some(missing);
  }

  lemma ScanBegins(kv: KV, emptyCode: Hash)
    ensures Scanned(kv, emptyCode, SetRange(kv.Keys, [7]), {})
  {
    hide From, RowCode, SetRange;
    forall a: Hash | BaseAccount(a) in kv ensures BaseAccount(a) in From(kv.Keys, SetRange(kv.Keys, [7])) {
      ScanStarts(kv.Keys, a);
    }
  }

  lemma NextStaysAbove(keys: set<Key>, k: Key)
    requires AtMost([7], EncodeKey(k))
    ensures NextKey(keys, k).Some? ==> AtMost([7], EncodeKey(NextKey(keys, k).value))
  {
    hide EncodeKey, Less;
    var n := NextKey(keys, k);
    if n.Some? {
      AtMostTransitive([7], EncodeKey(k), EncodeKey(n.value));
    }
  }

  lemma ScanEnds(kv: KV, emptyCode: Hash, k: Option<Key>, seen: set<Hash>)
    requires Scanned(kv, emptyCode, k, seen)
    requires k.Some? ==> AtMost([7], EncodeKey(k.value)) && !k.value.BaseAccount?
    ensures forall a: Hash :: BaseAccount(a) in kv ==> DecodeAccount(kv[BaseAccount(a)]).Some?
    ensures forall h: Hash :: h in seen && Code(h) !in kv <==> MissingCode(kv, emptyCode, h)
  {
    hide DecodeAccount, EncodeKey, Less;
    forall a: Hash | BaseAccount(a) in kv ensures BaseAccount(a) !in From(kv.Keys, k) {
      if BaseAccount(a) in From(kv.Keys, k) {
        AccountsFrom(kv.Keys, k, a);
      }
    }
    forall a: Hash | BaseAccount(a) in kv ensures DecodeAccount(kv[BaseAccount(a)]).Some? {
      assert RowCode(kv, a).Some?;
    }
  }

  /** On a sound disk the scan succeeds, and what it returns is all the sweep needs. */
  lemma ScanFeedsSweep(w: World, m: Machine, missing: seq<Hash>)
    requires WorldOk(w) && TrueRows(w, m.disk.kv) && m.phase == Storage && m.buf == []
    requires forall h: Hash :: h in missing <==> MissingCode(m.disk.kv, w.emptyCode, h)
    ensures forall a: Hash :: BaseAccount(a) in m.disk.kv ==> DecodeAccount(m.disk.kv[BaseAccount(a)]).Some?
    ensures Allowed(w, m, Sweep(missing))
  {
    hide DecodeAccount, EncodeAccount;
    var kv := m.disk.kv;
    forall a: Hash | BaseAccount(a) in kv ensures RowCode(kv, a) == Some(w.accounts[a].account.codeHash) {
      AccountRoundTrip(w.accounts[a].account, []);
    }
    forall h | h in missing ensures h in w.codes {
      var a: Hash :| RowCode(kv, a) == Some(h);
    }
  }
}
