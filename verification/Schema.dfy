/**
 The LMDB key layout (DESIGN.md D6) and the fixed account encoding.

 A row key is a typed value; EncodeKey gives its bytes. ParseKey inverts it, so
 a map over typed keys is the same thing as a map over the encoded bytes, and
 FirstAtOrAfter is LMDB's SetRange in byte order.
 */
module Schema {
  import opened Bytes

  type Address = s: bytes | |s| == 20 witness seq(20, _ => 0)

  type Hash = s: bytes | |s| == 32 witness seq(32, _ => 0)

  const ZERO: Hash := Blank(32)

  datatype Option<+T> = None | Some(value: T)

  datatype SKey = SKey(addr: Address, slot: Hash)

  datatype Account = Account(balance: U256, nonce: U64, codeHash: Hash)

  const ACCOUNT_SIZE := 72

  const MAX_U64: U64 := 0xFFFF_FFFF_FFFF_FFFF

  /** A key without its version: everything before the inverted block number. */
  datatype Stem =
    | AccountStem(addr: Address)
    | SlotStem(addr: Address, slot: Hash)
    | DestructStem(addr: Address)

  datatype Key =
    | MetaGenesis
    | MetaBaselineComplete
    | MetaFinalized
    | MetaProgress
    | Row(stem: Stem, block: U64)
    | Diff(number: U64)
    | Code(hash: Hash)
    | BaseAccount(addrHash: Hash)
    | BaseSlot(addrHash: Hash, slotHash: Hash)
    | Queue(addrHash: Hash)

  /** The big-endian encoding of v, as wide as the field it fills. */
  function Fill(v: nat, field: bytes): (r: bytes)
    requires v < Pow256(|field|)
    ensures |r| == |field| && Val(r) == v
  {
    ValOfBE(v, |field|);
    BE(v, |field|)
  }

  function Blank(n: nat): (r: bytes)
    ensures |r| == n
  {
    seq(n, _ => 0)
  }

  function U64Bytes(v: U64): (r: bytes)
    ensures |r| == 8 && Val(r) == v
  {
    PowersOfWords();
    Fill(v, Blank(8))
  }

  function U32Bytes(v: U32): (r: bytes)
    ensures |r| == 4 && Val(r) == v
  {
    PowersOfWords();
    Fill(v, Blank(4))
  }

  function U256Bytes(v: U256): (r: bytes)
    ensures |r| == 32 && Val(r) == v
  {
    PowerOfHash();
    Fill(v, Blank(32))
  }

  function U64Of(s: bytes): (v: U64)
    requires |s| == 8
    ensures U64Bytes(v) == s
  {
    PowersOfWords();
    BEOfVal(s);
    Val(s)
  }

  function U32Of(s: bytes): (v: U32)
    requires |s| == 4
    ensures U32Bytes(v) == s
  {
    PowersOfWords();
    BEOfVal(s);
    Val(s)
  }

  function U256Of(s: bytes): (v: U256)
    requires |s| == 32
    ensures U256Bytes(v) == s
  {
    PowerOfHash();
    BEOfVal(s);
    Val(s)
  }

  /** The bitwise complement of a 64-bit number. */
  function InvBlock(block: U64): U64 {
    MAX_U64 - block
  }

  function StemTag(stem: Stem): byte {
    match stem
    case AccountStem(_) => 1
    case SlotStem(_, _) => 2
    case DestructStem(_) => 3
  }

  function EncodeStem(stem: Stem): bytes {
    match stem
    case AccountStem(a) => [1] + a
    case SlotStem(a, s) => [2] + a + s
    case DestructStem(a) => [3] + a
  }

  function EncodeKey(k: Key): bytes {
    match k
    case MetaGenesis => [0, 1]
    case MetaBaselineComplete => [0, 2]
    case MetaFinalized => [0, 3]
    case MetaProgress => [0, 4]
    case Row(stem, b) => EncodeStem(stem) + U64Bytes(InvBlock(b))
    case Diff(b) => [4] + U64Bytes(b)
    case Code(h) => [6] + h
    case BaseAccount(h) => [7] + h
    case BaseSlot(h, s) => [8] + h + s
    case Queue(h) => [9] + h
  }

  /** The first byte of a key: its keyspace. */
  function Keyspace(k: Key): byte {
    match k
    case MetaGenesis => 0
    case MetaBaselineComplete => 0
    case MetaFinalized => 0
    case MetaProgress => 0
    case Row(stem, _) => StemTag(stem)
    case Diff(_) => 4
    case Code(_) => 6
    case BaseAccount(_) => 7
    case BaseSlot(_, _) => 8
    case Queue(_) => 9
  }

  function ParseKey(s: bytes): Option<Key> {
    if s == [0, 1] then Some(MetaGenesis)
    else if s == [0, 2] then Some(MetaBaselineComplete)
    else if s == [0, 3] then Some(MetaFinalized)
    else if s == [0, 4] then Some(MetaProgress)
    else if |s| == 29 && s[0] == 1 then Some(Row(AccountStem(s[1..21]), InvBlock(U64Of(s[21..]))))
    else if |s| == 61 && s[0] == 2 then Some(Row(SlotStem(s[1..21], s[21..53]), InvBlock(U64Of(s[53..]))))
    else if |s| == 29 && s[0] == 3 then Some(Row(DestructStem(s[1..21]), InvBlock(U64Of(s[21..]))))
    else if |s| == 9 && s[0] == 4 then Some(Diff(U64Of(s[1..])))
    else if |s| == 33 && s[0] == 6 then Some(Code(s[1..]))
    else if |s| == 33 && s[0] == 7 then Some(BaseAccount(s[1..]))
    else if |s| == 65 && s[0] == 8 then Some(BaseSlot(s[1..33], s[33..]))
    else if |s| == 33 && s[0] == 9 then Some(Queue(s[1..]))
    else None
  }

  lemma U64RoundTrip(v: U64)
    ensures U64Of(U64Bytes(v)) == v
  {
  }

  lemma ParseRow(stem: Stem, b: U64)
    ensures ParseKey(EncodeKey(Row(stem, b))) == Some(Row(stem, b))
  {
    var tail := U64Bytes(InvBlock(b));
    U64RoundTrip(InvBlock(b));
    var s := EncodeKey(Row(stem, b));
    match stem
    case AccountStem(a) => assert s[1..21] == a && s[21..] == tail;
    case SlotStem(a, k) => assert s[1..21] == a && s[21..53] == k && s[53..] == tail;
    case DestructStem(a) => assert s[1..21] == a && s[21..] == tail;
  }

  /** Decoding a key's bytes gives the key back, so no two keys share their bytes. */
  lemma ParseEncodeKey(k: Key)
    ensures ParseKey(EncodeKey(k)) == Some(k)
    ensures EncodeKey(k) != [] && EncodeKey(k)[0] == Keyspace(k)
  {
    var s := EncodeKey(k);
    match k
    case Row(stem, b) => ParseRow(stem, b);
    case Diff(b) => assert s[1..] == U64Bytes(b); U64RoundTrip(b);
    case Code(h) => assert s[1..] == h;
    case BaseAccount(h) => assert s[1..] == h;
    case BaseSlot(h, t) => assert s[1..33] == h && s[33..] == t;
    case Queue(h) => assert s[1..] == h;
    case _ =>
  }

  lemma EncodeParsedRow(s: bytes, n: nat)
    requires n <= |s| && |s| == n + 8
    ensures s[..n] + U64Bytes(InvBlock(InvBlock(U64Of(s[n..])))) == s
  {
    hide U64Bytes, U64Of;
    assert s == s[..n] + s[n..];
  }

  /** EncodeKey is onto the strings ParseKey accepts. */
  lemma EncodeParseKey(s: bytes)
    requires ParseKey(s).Some?
    ensures EncodeKey(ParseKey(s).value) == s
  {
    hide U64Bytes, U64Of;
    if |s| == 29 {
      EncodeParsedRow(s, 21);
      assert s[..21] == [s[0]] + s[1..21];
    } else if |s| == 61 {
      EncodeParsedRow(s, 53);
      assert s[..53] == [s[0]] + s[1..21] + s[21..53];
    } else if |s| == 65 {
      assert s == [8] + s[1..33] + s[33..];
    } else if |s| > 2 {
      assert s == [s[0]] + s[1..];
    }
  }

  lemma EncodeKeyInjective(k: Key, l: Key)
    requires EncodeKey(k) == EncodeKey(l)
    ensures k == l
  {
    ParseEncodeKey(k);
    ParseEncodeKey(l);
  }

  // ----- byte order -----

  /** Anything that sorts between two extensions of p extends p itself. */
  lemma {:induction false} BetweenSharesPrefix(p: bytes, x: bytes, k: bytes, y: bytes)
    requires AtMost(p + x, k) && AtMost(k, p + y)
    ensures p <= k
  {
    if p != [] {
      assert (p + x)[0] == p[0] && (p + y)[0] == p[0];
      assert (p + x)[1..] == p[1..] + x && (p + y)[1..] == p[1..] + y;
      assert k != [] && k[0] == p[0];
      assert AtMost(p[1..] + x, k[1..]) && AtMost(k[1..], p[1..] + y);
      BetweenSharesPrefix(p[1..], x, k[1..], y);
      assert k == [k[0]] + k[1..] && p == [p[0]] + p[1..];
    }
  }

  /** Each keyspace is an interval of the key order: no two keyspaces interleave. */
  lemma KeyspacesDoNotInterleave(a: Key, m: Key, b: Key)
    requires Keyspace(a) == Keyspace(b)
    requires Less(EncodeKey(a), EncodeKey(m)) && Less(EncodeKey(m), EncodeKey(b))
    ensures Keyspace(m) == Keyspace(a)
  {
    hide EncodeKey, ParseKey, Keyspace, Less;
    ParseEncodeKey(a);
    ParseEncodeKey(m);
    ParseEncodeKey(b);
    var p := [Keyspace(a)];
    var x, y := EncodeKey(a)[1..], EncodeKey(b)[1..];
    assert EncodeKey(a) == p + x && EncodeKey(b) == p + y;
    BetweenSharesPrefix(p, x, EncodeKey(m), y);
  }

  lemma EncodeStemInjective(stem: Stem, t: Stem)
    requires EncodeStem(stem) == EncodeStem(t)
    ensures stem == t
  {
    var p, q := EncodeStem(stem), EncodeStem(t);
    assert p[0] == StemTag(stem) && q[0] == StemTag(t);
    assert p[1..21] == stem.addr && q[1..21] == t.addr;
    if stem.SlotStem? {
      assert p[21..53] == stem.slot && q[21..53] == t.slot;
    }
  }

  /** Only rows of the stem itself start with the stem's bytes. */
  lemma StemPrefixIdentifies(stem: Stem, k: Key)
    requires EncodeStem(stem) <= EncodeKey(k)
    ensures k.Row? && k.stem == stem
  {
    hide U64Bytes, ParseKey;
    ParseEncodeKey(k);
    var p := EncodeStem(stem);
    assert EncodeKey(k)[0] == p[0] == StemTag(stem);
    assert |p| == |EncodeStem(k.stem)|;
    assert EncodeStem(k.stem) == EncodeKey(k)[..|p|];
    EncodeStemInjective(stem, k.stem);
  }

  /** Within one stem, newer rows sort first. */
  lemma NewerSortsFirst(stem: Stem, b: U64, c: U64)
    ensures Less(EncodeKey(Row(stem, b)), EncodeKey(Row(stem, c))) <==> c < b
    ensures AtMost(EncodeKey(Row(stem, b)), EncodeKey(Row(stem, c))) <==> c <= b
  {
    hide U64Bytes, EncodeStem, Less;
    LessSamePrefix(EncodeStem(stem), U64Bytes(InvBlock(b)), U64Bytes(InvBlock(c)));
    LessIsValueOrder(U64Bytes(InvBlock(b)), U64Bytes(InvBlock(c)));
    if EncodeKey(Row(stem, b)) == EncodeKey(Row(stem, c)) {
      EncodeKeyInjective(Row(stem, b), Row(stem, c));
    }
  }

  // ----- cursor positioning -----

  /** k is the first key at or after the seek string. */
  predicate IsFirstAtOrAfter(keys: set<Key>, seek: bytes, k: Key) {
    && k in keys
    && AtMost(seek, EncodeKey(k))
    && forall l :: l in keys && AtMost(seek, EncodeKey(l)) ==> AtMost(EncodeKey(k), EncodeKey(l))
  }

  lemma {:induction false} FirstExists(keys: set<Key>, seek: bytes)
    ensures (exists k :: IsFirstAtOrAfter(keys, seek, k))
         || (forall l :: l in keys ==> !AtMost(seek, EncodeKey(l)))
    decreases keys
  {
    if keys != {} {
      var k :| k in keys;
      FirstExists(keys - {k}, seek);
      if m :| IsFirstAtOrAfter(keys - {k}, seek, m) {
        FirstOfMore(keys, seek, k, m);
      } else if AtMost(seek, EncodeKey(k)) {
        assert IsFirstAtOrAfter(keys, seek, k);
      }
    }
  }

  lemma FirstOfMore(keys: set<Key>, seek: bytes, k: Key, m: Key)
    requires k in keys && IsFirstAtOrAfter(keys - {k}, seek, m)
    ensures exists f :: IsFirstAtOrAfter(keys, seek, f)
  {
    LessTrichotomy(EncodeKey(k), EncodeKey(m));
    if AtMost(seek, EncodeKey(k)) && Less(EncodeKey(k), EncodeKey(m)) {
      forall l | l in keys && AtMost(seek, EncodeKey(l))
        ensures AtMost(EncodeKey(k), EncodeKey(l))
      {
        if l != k {
          AtMostTransitive(EncodeKey(k), EncodeKey(m), EncodeKey(l));
        }
      }
      assert IsFirstAtOrAfter(keys, seek, k);
    } else {
      assert IsFirstAtOrAfter(keys, seek, m);
    }
  }

  lemma AtMostTransitive(a: bytes, b: bytes, c: bytes)
    requires AtMost(a, b) && AtMost(b, c)
    ensures AtMost(a, c)
  {
    if a != b && b != c {
      LessTransitive(a, b, c);
    }
  }

  lemma FirstIsUnique(keys: set<Key>, seek: bytes, k: Key, l: Key)
    requires IsFirstAtOrAfter(keys, seek, k) && IsFirstAtOrAfter(keys, seek, l)
    ensures k == l
  {
    LessTrichotomy(EncodeKey(k), EncodeKey(l));
    if EncodeKey(k) == EncodeKey(l) {
      EncodeKeyInjective(k, l);
    }
  }

  /** LMDB's SetRange: the first key at or after seek, None past the last key. */
  function SetRange(keys: set<Key>, seek: bytes): (r: Option<Key>)
    ensures r.Some? ==> IsFirstAtOrAfter(keys, seek, r.value)
    ensures r.None? ==> forall l :: l in keys ==> !AtMost(seek, EncodeKey(l))
  {
    if exists k :: k in keys && IsFirstAtOrAfter(keys, seek, k) then
      assert forall k, l :: IsFirstAtOrAfter(keys, seek, k) && IsFirstAtOrAfter(keys, seek, l) ==> k == l by {
        forall k, l | IsFirstAtOrAfter(keys, seek, k) && IsFirstAtOrAfter(keys, seek, l) ensures k == l {
          FirstIsUnique(keys, seek, k, l);
        }
      }
      var k :| k in keys && IsFirstAtOrAfter(keys, seek, k);
      Some(k)
    else
      FirstExists(keys, seek);
      None
  }

  // ----- accounts -----

  function EncodeAccount(a: Account): (r: bytes)
    ensures |r| == ACCOUNT_SIZE
  {
    U256Bytes(a.balance) + U64Bytes(a.nonce) + a.codeHash
  }

  function DecodeAccount(s: bytes): (r: Option<Account>)
    ensures r.Some? <==> |s| == ACCOUNT_SIZE
  {
    if |s| != ACCOUNT_SIZE then None
    else Some(Account(U256Of(s[..32]), U64Of(s[32..40]), s[40..]))
  }

  /** The account codec is a bijection between accounts and 72-byte strings. */
  lemma AccountRoundTrip(a: Account, s: bytes)
    ensures DecodeAccount(EncodeAccount(a)) == Some(a)
    ensures |s| == ACCOUNT_SIZE ==> EncodeAccount(DecodeAccount(s).value) == s
  {
    var e := EncodeAccount(a);
    assert e[..32] == U256Bytes(a.balance) && e[32..40] == U64Bytes(a.nonce) && e[40..] == a.codeHash;
    if |s| == ACCOUNT_SIZE {
      assert s == s[..32] + s[32..40] + s[40..];
    }
  }
}
