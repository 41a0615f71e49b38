/**
 The main environment (store/store.go, store/read.go): history rows keyed by
 inverted block number, destruct markers, the hash-keyed baseline and the
 fail-loud reads over them. LMDB is a map from keys to bytes; one write
 transaction is one update of the map.
 */
module Store {
  import opened Bytes
  import opened Collections
  import opened Schema
  import opened Capture

  type KV = map<Key, bytes>

  /** The hash of a preimage; the store only ever probes with its results. */
  type Keccak = bytes -> Hash

  datatype Error = NoGenesis | BelowGenesis | BaselineIncomplete | DestructEdge | NotFound | Corrupt

  datatype Result<+T> = Ok(value: T) | Err(error: Error)

  const LATEST: U64 := MAX_U64

  // ----- seeks -----

  /** The greatest write of the stem at or before the block: its block and value. */
  function SeekLE(kv: KV, stem: Stem, at: U64): Option<(U64, bytes)> {
    var seek := EncodeKey(Row(stem, at));
    match SetRange(kv.Keys, seek)
    case None => None
    case Some(k) => AcceptSeek(seek, EncodeKey(k), kv[k])
  }

  /** The cursor landed on key: it counts only if it differs from seek in the version alone. */
  function AcceptSeek(seek: bytes, key: bytes, value: bytes): Option<(U64, bytes)>
    requires |seek| >= 8
  {
    var n := |seek| - 8;
    if |key| != |seek| || key[..n] != seek[..n] then None
    else Some((InvBlock(U64Of(key[n..])), value))
  }

  ghost predicate IsLatest(kv: KV, stem: Stem, at: U64, b: U64) {
    && b <= at
    && Row(stem, b) in kv
    && forall c: U64 :: b < c <= at ==> Row(stem, c) !in kv
  }

  lemma AcceptsOwnRow(stem: Stem, at: U64, b: U64, value: bytes)
    ensures AcceptSeek(EncodeKey(Row(stem, at)), EncodeKey(Row(stem, b)), value) == Some((b, value))
  {
    hide EncodeStem, U64Bytes, U64Of;
    var p := EncodeStem(stem);
    var key := EncodeKey(Row(stem, b));
    assert key[..|p|] == p && EncodeKey(Row(stem, at))[..|p|] == p;
    assert key[|p|..] == U64Bytes(InvBlock(b));
    U64RoundTrip(InvBlock(b));
  }

  lemma RefusesOtherKeys(stem: Stem, at: U64, k: Key, value: bytes)
    requires !(k.Row? && k.stem == stem)
    ensures AcceptSeek(EncodeKey(Row(stem, at)), EncodeKey(k), value) == None
  {
    hide U64Bytes, EncodeStem;
    var p := EncodeStem(stem);
    var seek := EncodeKey(Row(stem, at));
    assert seek[..|p|] == p;
    if |EncodeKey(k)| == |seek| && EncodeKey(k)[..|p|] == p {
      StemPrefixIdentifies(stem, k);
    }
  }

  /** The cursor never skips a row of the stem. */
  lemma SeekReachesStem(keys: set<Key>, stem: Stem, at: U64, b: U64, k: Key)
    requires b <= at && Row(stem, b) in keys
    requires IsFirstAtOrAfter(keys, EncodeKey(Row(stem, at)), k)
    ensures k.Row? && k.stem == stem && b <= k.block <= at
  {
    hide EncodeStem, Less, U64Bytes;
    var p := EncodeStem(stem);
    NewerSortsFirst(stem, at, b);
    var key := EncodeKey(k);
    assert AtMost(key, EncodeKey(Row(stem, b)));
    BetweenSharesPrefix(p, U64Bytes(InvBlock(at)), key, U64Bytes(InvBlock(b)));
    StemPrefixIdentifies(stem, k);
    NewerSortsFirst(stem, at, k.block);
    NewerSortsFirst(stem, k.block, b);
  }

  /** One seek lands on the greatest write at or before the block, and fails only if there is none. */
  lemma SeekFindsLatest(kv: KV, stem: Stem, at: U64)
    ensures SeekLE(kv, stem, at).None? <==> forall b: U64 :: b <= at ==> Row(stem, b) !in kv
    ensures SeekLE(kv, stem, at).Some? ==>
              var (b, v) := SeekLE(kv, stem, at).value;
              IsLatest(kv, stem, at, b) && v == kv[Row(stem, b)]
  {
    hide EncodeKey, AtMost, AcceptSeek;
    var seek := EncodeKey(Row(stem, at));
    var r := SetRange(kv.Keys, seek);
    forall b: U64 | b <= at && Row(stem, b) in kv
      ensures r.Some? && r.value.Row? && r.value.stem == stem && b <= r.value.block <= at
    {
      NewerSortsFirst(stem, at, b);
      if r.Some? {
        SeekReachesStem(kv.Keys, stem, at, b, r.value);
      }
    }
    if r.Some? {
      var k := r.value;
      if k.Row? && k.stem == stem {
        AcceptsOwnRow(stem, at, k.block, kv[k]);
        NewerSortsFirst(stem, at, k.block);
      } else {
        RefusesOtherKeys(stem, at, k, kv[k]);
      }
    }
  }

  // ----- reads -----

  function CheckAt(kv: KV, at: U64): Result<()> {
    if MetaGenesis !in kv then Err(NoGenesis)
    else if |kv[MetaGenesis]| != 8 then Err(Corrupt)
    else if at < U64Of(kv[MetaGenesis]) then Err(BelowGenesis)
    else Ok(())
  }

  function DecodeAccountRow(raw: bytes): Result<Option<Account>> {
    match DecodeAccount(raw)
    case None => Err(Corrupt)
    case Some(a) => Ok(Some(a))
  }

  function DecodeSlotRow(raw: bytes): Result<Hash> {
    if |raw| != 32 then Err(Corrupt) else Ok(raw)
  }

  /** An absent row means zero only once the baseline is complete. */
  function MissAllowed<T>(kv: KV, zero: T): Result<T> {
    if MetaBaselineComplete in kv then Ok(zero) else Err(BaselineIncomplete)
  }

  function GetAccount(kv: KV, keccak: Keccak, a: Address, at: U64): Result<Option<Account>> {
    var ok := CheckAt(kv, at);
    if ok.Err? then Err(ok.error)
    else
      ResolveAccount(kv, keccak, a, SeekLE(kv, AccountStem(a), at), SeekLE(kv, DestructStem(a), at))
  }

  function ResolveAccount(kv: KV, keccak: Keccak, a: Address,
                          row: Option<(U64, bytes)>, des: Option<(U64, bytes)>): Result<Option<Account>> {
    if row.Some? && (des.None? || des.value.0 <= row.value.0) then DecodeAccountRow(row.value.1)
    else if row.Some? || des.Some? then Ok(None)
    else if BaseAccount(keccak(a)) in kv then DecodeAccountRow(kv[BaseAccount(keccak(a))])
    else MissAllowed(kv, None)
  }

  function GetSlot(kv: KV, keccak: Keccak, k: SKey, at: U64): Result<Hash> {
    var ok := CheckAt(kv, at);
    if ok.Err? then Err(ok.error)
    else
      ResolveSlot(kv, keccak, k, SeekLE(kv, SlotStem(k.addr, k.slot), at), SeekLE(kv, DestructStem(k.addr), at))
  }

  function ResolveSlot(kv: KV, keccak: Keccak, k: SKey,
                       row: Option<(U64, bytes)>, des: Option<(U64, bytes)>): Result<Hash> {
    if row.None? then
      if des.Some? then Ok(ZERO)
      else if BaseSlot(keccak(k.addr), keccak(k.slot)) in kv then
        DecodeSlotRow(kv[BaseSlot(keccak(k.addr), keccak(k.slot))])
      else MissAllowed(kv, ZERO)
    else if des.Some? && des.value.0 > row.value.0 then Ok(ZERO)
    else if des.Some? && des.value.0 == row.value.0 && !RecreatedAt(kv, k.addr, des.value.0) then Err(DestructEdge)
    else DecodeSlotRow(row.value.1)
  }

  /** The account has a row at exactly this block. */
  predicate RecreatedAt(kv: KV, a: Address, b: U64) {
    var acc := SeekLE(kv, AccountStem(a), b);
    acc.Some? && acc.value.0 == b
  }

  function GetCode(kv: KV, h: Hash): Result<bytes> {
    if Code(h) in kv then Ok(kv[Code(h)]) else Err(NotFound)
  }

  function GetDiff(kv: KV, block: U64): Result<Batch> {
    if Diff(block) !in kv then Err(NotFound)
    else
      match DecodeSpec(kv[Diff(block)])
      case Refused(_) => Err(Corrupt)
      case Accepted(b) => Ok(b)
  }

  /** The finalized height a process starts from. */
  function Watermark(kv: KV): U64 {
    if MetaFinalized in kv && |kv[MetaFinalized]| == 8 then U64Of(kv[MetaFinalized]) else 0
  }

  // ----- one block's write transaction -----

  function PutOp(kv: KV, block: U64, op: Op): KV {
    match op
    case OpAccount(a, acct) => kv[Row(AccountStem(a), block) := EncodeAccount(acct)]
    case OpSlot(a, s, v) => kv[Row(SlotStem(a, s), block) := v]
    case OpDeleteSlot(a, s) => kv[Row(SlotStem(a, s), block) := ZERO]
    case OpDestruct(a) => kv[Row(DestructStem(a), block) := []]
    case OpCode(h, c) => kv[Code(h) := c]
  }

  function PutOps(kv: KV, block: U64, ops: seq<Op>): KV {
    if ops == [] then kv else PutOp(PutOps(kv, block, ops[..|ops| - 1]), block, ops[|ops| - 1])
  }

  function AfterWriteBlock(kv: KV, b: Batch): KV {
    PutOps(kv, b.block, b.ops)[Diff(b.block) := Encode(b)]
  }

  /** The row one batch leaves under a stem, if any. */
  function RowOfOp(op: Op, stem: Stem, prev: Option<bytes>): Option<bytes> {
    match op
    case OpAccount(a, acct) => if stem == AccountStem(a) then Some(EncodeAccount(acct)) else prev
    case OpSlot(a, s, v) => if stem == SlotStem(a, s) then Some(v) else prev
    case OpDeleteSlot(a, s) => if stem == SlotStem(a, s) then Some(ZERO) else prev
    case OpDestruct(a) => if stem == DestructStem(a) then Some([]) else prev
    case OpCode(_, _) => prev
  }

  function RowOf(ops: seq<Op>, stem: Stem): Option<bytes> {
    if ops == [] then None else RowOfOp(ops[|ops| - 1], stem, RowOf(ops[..|ops| - 1], stem))
  }

  lemma {:induction false} PutOpsRows(kv: KV, block: U64, ops: seq<Op>, k: Key)
    ensures k.Row? && k.block == block ==>
              Lookup(PutOps(kv, block, ops), k)
              == if RowOf(ops, k.stem).Some? then RowOf(ops, k.stem) else Lookup(kv, k)
    ensures !(k.Row? && k.block == block) && !k.Code? ==>
              Lookup(PutOps(kv, block, ops), k) == Lookup(kv, k)
  {
    hide EncodeAccount;
    if ops != [] {
      PutOpsRows(kv, block, ops[..|ops| - 1], k);
    }
  }

  lemma PutOpCode(kv: KV, block: U64, op: Op, h: Hash)
    ensures GetCode(PutOp(kv, block, op), h) == if NamesCode(op, h) then Ok(op.code) else GetCode(kv, h)
  {
    hide EncodeAccount;
  }

  lemma {:induction false} PutOpsCode(kv: KV, block: U64, ops: seq<Op>, h: Hash)
    ensures forall i: nat :: NamesLast(ops, i, h) ==> GetCode(PutOps(kv, block, ops), h) == Ok(ops[i].code)
    ensures NamesNone(ops, h) ==> GetCode(PutOps(kv, block, ops), h) == GetCode(kv, h)
  {
    hide PutOp, GetCode;
    if ops != [] {
      var front, last := ops[..|ops| - 1], ops[|ops| - 1];
      PutOpsCode(kv, block, front, h);
      PutOpCode(PutOps(kv, block, front), block, last, h);
      if !NamesCode(last, h) {
        forall i: nat | NamesLast(ops, i, h) ensures NamesLast(front, i, h) {
        }
      }
    }
  }

  /** After a block is written a code reads as the last op of the block that names it, or as before if none does. */
  lemma WriteBlockCode(kv: KV, b: Batch, h: Hash)
    ensures forall i: nat :: NamesLast(b.ops, i, h) ==> GetCode(AfterWriteBlock(kv, b), h) == Ok(b.ops[i].code)
    ensures NamesNone(b.ops, h) ==> GetCode(AfterWriteBlock(kv, b), h) == GetCode(kv, h)
  {
    hide PutOps, Encode, NamesLast, NamesNone;
    PutOpsCode(kv, b.block, b.ops, h);
  }

  /** The environment handle of the writer process. */
  class DB {
    var kv: KV
    const keccak: Keccak

    constructor (kv: KV, keccak: Keccak)
      ensures this.kv == kv && this.keccak == keccak
    {
      this.kv, this.keccak := kv, keccak;
    }

    /** One transaction: a row per op, then the batch itself as the diff row. */
    method WriteBlock(b: Batch)
      modifies this
      ensures kv == AfterWriteBlock(old(kv), b)
    {
      var txn := kv;
      var i := 0;
      while i < |b.ops|
        invariant 0 <= i <= |b.ops|
        invariant txn == PutOps(old(kv), b.block, b.ops[..i])
      {
        assert b.ops[..i + 1][..i] == b.ops[..i];
        match b.ops[i] {
        case OpAccount(a, acct) => txn := txn[Row(AccountStem(a), b.block) := EncodeAccount(acct)];
        case OpSlot(a, s, v) => txn := txn[Row(SlotStem(a, s), b.block) := v];
        case OpDeleteSlot(a, s) => txn := txn[Row(SlotStem(a, s), b.block) := ZERO];
        case OpDestruct(a) => txn := txn[Row(DestructStem(a), b.block) := []];
        case OpCode(h, c) => txn := txn[Code(h) := c];
        }
        i := i + 1;
      }
      assert b.ops[..i] == b.ops;
      kv := txn[Diff(b.block) := Encode(b)];
    }

    method SetFinalized(height: U64)
      modifies this
      ensures kv == old(kv)[MetaFinalized := U64Bytes(height)]
    {
      kv := kv[MetaFinalized := U64Bytes(height)];
    }
  }
}
