/**
 The per-suite snapshot cache (suitecache/suitecache.go): three maps of reads at
 one fixed block, filled on a miss from the store, written out as a record file
 in whatever order the maps iterate, and loaded again by the next run.
 */
module SuiteCache {
  import opened Bytes
  import opened Collections
  import opened Schema
  import opened Wire
  import opened Capture
  import S = Store
  import opened History

  /** What an account read returned; the account is blank when it does not exist. */
  datatype Entry = Entry(account: Account, present: bool)

  const NO_ACCOUNT := Account(0, 0, ZERO)

  function EntryOf(x: Option<Account>): Entry {
    if x.Some? then Entry(x.value, true) else Entry(NO_ACCOUNT, false)
  }

  /** The read an entry stands for. */
  function AsRead(e: Entry): Option<Account> {
    if e.present then Some(e.account) else None
  }

  /** An entry gives back the read it was made of. */
  lemma EntryStandsFor(x: Option<Account>)
    ensures AsRead(EntryOf(x)) == x && (x.None? ==> EntryOf(x).account == NO_ACCOUNT)
  {
  }

  datatype Maps = Maps(accounts: map<Address, Entry>, slots: map<SKey, Hash>, code: map<Hash, bytes>)

  const NOTHING := Maps(map[], map[], map[])

  // ----- the record file -----

  datatype Record =
    | AccountRecord(a: Address, entry: Entry)
    | SlotRecord(k: SKey, v: Hash)
    | CodeRecord(h: Hash, code: bytes)

  function Put(m: Maps, r: Record): Maps {
    match r
    case AccountRecord(a, e) => m.(accounts := m.accounts[a := e])
    case SlotRecord(k, v) => m.(slots := m.slots[k := v])
    case CodeRecord(h, c) => m.(code := m.code[h := c])
  }

  function PutAll(m: Maps, rs: seq<Record>): Maps
    decreases |rs|
  {
    if rs == [] then m else PutAll(Put(m, rs[0]), rs[1..])
  }

  function Flag(present: bool): bytes {
    [if present then 1 else 0]
  }

  function EncodeRecord(r: Record): bytes {
    match r
    case AccountRecord(a, e) => [1] + (a + (Flag(e.present) + EncodeAccount(e.account)))
    case SlotRecord(k, v) => [2] + (k.addr + (k.slot + v))
    case CodeRecord(h, c) => [3] + (h + (U32Bytes(Wrap32(|c|)) + c))
  }

  /** The end of the record's bytes, 36 of header and then the code, is computed in 32 bits. */
  predicate Fits(r: Record) {
    r.CodeRecord? ==> 36 + |r.code| < TWO32
  }

  function ParseBody(tag: byte, s: bytes): Parsed<Record> {
    if tag == 1 then
      var (a, s) :- Take(s, 20);
      var (flag, s) :- Take(s, 1);
      var (e, s) :- Take(s, ACCOUNT_SIZE);
      Good(AccountRecord(a, Entry(DecodeAccount(e).value, flag[0] == 1)), s)
    else if tag == 2 then
      var (a, s) :- Take(s, 20);
      var (slot, s) :- Take(s, 32);
      var (v, s) :- Take(s, 32);
      Good(SlotRecord(SKey(a, slot), v), s)
    else if tag == 3 then
      var (h, s) :- Take(s, 32);
      var (n, s) :- Take(s, 4);
      var (c, s) :- TakeAfter(36, s, U32Of(n));
      Good(CodeRecord(h, c), s)
    else Bad(UnknownKind)
  }

  function ParseRecord(s: bytes): Parsed<Record> {
    var (tag, s) :- Take(s, 1);
    ParseBody(tag[0], s)
  }

  lemma ParseShrinks(s: bytes)
    ensures ParseRecord(s).Good? ==> |ParseRecord(s).rest| < |s|
  {
    hide DecodeAccount, U32Of;
  }

  function EncodeRecords(rs: seq<Record>): bytes {
    EncodeAll(EncodeRecord, rs)
  }

  /** Records are read until the file is used up. */
  function LoadRecords(s: bytes, m: Maps): Option<Maps>
    decreases |s|
  {
    if s == [] then Some(m)
    else
      ParseShrinks(s);
      match ParseRecord(s)
      case Bad(_) => None
      case Good(r, rest) => LoadRecords(rest, Put(m, r))
  }

  const MAGIC: bytes := [0x46, 0x53, 0x43, 0x31, 0, 0, 0, 0]

  /** None for a bad magic, another block, a record that does not parse, or one that overruns. */
  function LoadFile(data: bytes, block: U64): Option<Maps> {
    if |data| < 16 || data[..8] != MAGIC then None
    else if U64Of(data[8..16]) != block then None
    else LoadRecords(data[16..], NOTHING)
  }

  // ----- reading back what was written -----

  lemma ParseAccountRecord(a: Address, e: Entry, rest: bytes)
    ensures ParseRecord(EncodeRecord(AccountRecord(a, e)) + rest) == Good(AccountRecord(a, e), rest)
  {
    hide DecodeAccount, EncodeAccount;
    var f, body := Flag(e.present), EncodeAccount(e.account);
    AccountRoundTrip(e.account, []);
    assert EncodeRecord(AccountRecord(a, e)) + rest == [1] + (a + (f + (body + rest)));
    TakeFront([1], a + (f + (body + rest)));
    TakeFront(a, f + (body + rest));
    TakeFront(f, body + rest);
    TakeFront(body, rest);
  }

  lemma ParseSlotRecord(k: SKey, v: Hash, rest: bytes)
    ensures ParseRecord(EncodeRecord(SlotRecord(k, v)) + rest) == Good(SlotRecord(k, v), rest)
  {
    assert EncodeRecord(SlotRecord(k, v)) + rest == [2] + (k.addr + (k.slot + (v + rest)));
    TakeFront([2], k.addr + (k.slot + (v + rest)));
    TakeFront(k.addr, k.slot + (v + rest));
    TakeFront(k.slot, v + rest);
    TakeFront(v, rest);
  }

  lemma ParseCodeRecord(h: Hash, c: bytes, rest: bytes)
    requires 36 + |c| < TWO32
    ensures ParseRecord(EncodeRecord(CodeRecord(h, c)) + rest) == Good(CodeRecord(h, c), rest)
  {
    hide U32Bytes, U32Of, ParseBody;
    var n := U32Bytes(|c|);
    AppendAssociates([3], h + (n + c), rest);
    AppendAssociates(h, n + c, rest);
    AppendAssociates(n, c, rest);
    TakeFront([3], h + (n + (c + rest)));
    ParseCodeBody(h, c, rest);
  }

  lemma ParseCodeBody(h: Hash, c: bytes, rest: bytes)
    requires 36 + |c| < TWO32
    ensures ParseBody(3, h + (U32Bytes(|c|) + (c + rest))) == Good(CodeRecord(h, c), rest)
  {
    hide U32Bytes, U32Of, Take, TakeAfter, DecodeAccount;
    var n := U32Bytes(|c|);
    U32RoundTrip(|c|);
    TakeFront(h, n + (c + rest));
    TakeFront(n, c + rest);
    TakeAfterIsTake(36, c + rest, |c|);
    TakeFront(c, rest);
  }

  lemma ParseEncoded(r: Record, rest: bytes)
    requires Fits(r)
    ensures ParseRecord(EncodeRecord(r) + rest) == Good(r, rest)
  {
    hide ParseRecord, EncodeRecord;
    match r
    case AccountRecord(a, e) => ParseAccountRecord(a, e, rest);
    case SlotRecord(k, v) => ParseSlotRecord(k, v, rest);
    case CodeRecord(h, c) => ParseCodeRecord(h, c, rest);
  }

  /** Loading a list of records puts them one after the other. */
  lemma {:induction false} LoadEncoded(rs: seq<Record>, m: Maps)
    requires forall i :: 0 <= i < |rs| ==> Fits(rs[i])
    ensures LoadRecords(EncodeRecords(rs), m) == Some(PutAll(m, rs))
    decreases |rs|
  {
    hide ParseRecord, EncodeRecord;
    if rs != [] {
      ParseEncoded(rs[0], EncodeRecords(rs[1..]));
      ParseShrinks(EncodeRecords(rs));
      assert EncodeRecords(rs) != [] by { RecordsNotEmpty(rs[0]); }
      LoadEncoded(rs[1..], Put(m, rs[0]));
    }
  }

  lemma RecordsNotEmpty(r: Record)
    ensures EncodeRecord(r) != []
  {
  }

  lemma {:induction false} EncodeOneMore(rs: seq<Record>, r: Record)
    ensures EncodeRecords(rs + [r]) == EncodeRecords(rs) + EncodeRecord(r)
    decreases |rs|
  {
    hide EncodeRecord;
    if rs == [] {
      assert [r][1..] == [];
      assert rs + [r] == [r];
    } else {
      EncodeOneMore(rs[1..], r);
      assert (rs + [r])[1..] == rs[1..] + [r];
    }
  }

  lemma {:induction false} PutOneMore(m: Maps, rs: seq<Record>, r: Record)
    ensures PutAll(m, rs + [r]) == Put(PutAll(m, rs), r)
    decreases |rs|
  {
    hide Put;
    if rs == [] {
      assert rs + [r] == [r] && [r][1..] == [];
    } else {
      PutOneMore(Put(m, rs[0]), rs[1..], r);
      assert (rs + [r])[1..] == rs[1..] + [r];
    }
  }

  lemma LoadWritten(rs: seq<Record>, block: U64)
    requires forall i :: 0 <= i < |rs| ==> Fits(rs[i])
    ensures LoadFile(MAGIC + U64Bytes(block) + EncodeRecords(rs), block) == Some(PutAll(NOTHING, rs))
  {
    hide LoadRecords, EncodeRecords, PutAll, U64Of, U64Bytes;
    var data := MAGIC + U64Bytes(block) + EncodeRecords(rs);
    assert data[..8] == MAGIC && data[8..16] == U64Bytes(block) && data[16..] == EncodeRecords(rs);
    U64RoundTrip(block);
    LoadEncoded(rs, NOTHING);
  }

  // ----- exactly which files load -----

  /** A record as it may stand in a file: any presence byte but one means absent. */
  datatype Found = Found(r: Record, flag: byte)

  predicate Sound(x: Found) {
    Fits(x.r) && (x.r.AccountRecord? ==> (x.flag == 1 <==> x.r.entry.present))
  }

  function Render(x: Found): bytes {
    match x.r
    case AccountRecord(a, e) => [1] + (a + ([x.flag] + EncodeAccount(e.account)))
    case _ => EncodeRecord(x.r)
  }

  function RenderAll(xs: seq<Found>): bytes {
    if xs == [] then [] else Render(xs[0]) + RenderAll(xs[1..])
  }

  function PutFound(m: Maps, xs: seq<Found>): Maps
    decreases |xs|
  {
    if xs == [] then m else PutFound(Put(m, xs[0].r), xs[1..])
  }

  lemma ParseRendered(x: Found, rest: bytes)
    requires Sound(x)
    ensures ParseRecord(Render(x) + rest) == Good(x.r, rest)
  {
    hide DecodeAccount, EncodeAccount, EncodeRecord;
    if x.r.AccountRecord? {
      var a, f, body := x.r.a, [x.flag], EncodeAccount(x.r.entry.account);
      AccountRoundTrip(x.r.entry.account, []);
      assert Render(x) + rest == [1] + (a + (f + (body + rest)));
      TakeFront([1], a + (f + (body + rest)));
      TakeFront(a, f + (body + rest));
      TakeFront(f, body + rest);
      TakeFront(body, rest);
    } else {
      ParseEncoded(x.r, rest);
    }
  }

  lemma AccountParsed(s: bytes) returns (x: Found)
    requires ParseBody(1, s).Good?
    ensures Sound(x) && ParseBody(1, s).value == x.r && Render(x) + ParseBody(1, s).rest == [1] + s
  {
    hide DecodeAccount, EncodeAccount;
    var a, s1 := Take(s, 20).value, Take(s, 20).rest;
    var f, s2 := Take(s1, 1).value, Take(s1, 1).rest;
    var e, s3 := Take(s2, ACCOUNT_SIZE).value, Take(s2, ACCOUNT_SIZE).rest;
    TakeIsFront(s, 20);
    TakeIsFront(s1, 1);
    TakeIsFront(s2, ACCOUNT_SIZE);
    AccountRoundTrip(DecodeAccount(e).value, e);
    x := Found(ParseBody(1, s).value, f[0]);
    assert f == [f[0]];
    assert Render(x) == [1] + (a + (f + e));
    AppendAssociates([1], a + (f + e), s3);
    AppendAssociates(a, f + e, s3);
    AppendAssociates(f, e, s3);
  }

  lemma SlotParsed(s: bytes)
    requires ParseBody(2, s).Good?
    ensures EncodeRecord(ParseBody(2, s).value) + ParseBody(2, s).rest == [2] + s
  {
    var a, s1 := Take(s, 20).value, Take(s, 20).rest;
    var k, s2 := Take(s1, 32).value, Take(s1, 32).rest;
    var v, s3 := Take(s2, 32).value, Take(s2, 32).rest;
    TakeIsFront(s, 20);
    TakeIsFront(s1, 32);
    TakeIsFront(s2, 32);
    AppendAssociates([2], a + (k + v), s3);
    AppendAssociates(a, k + v, s3);
    AppendAssociates(k, v, s3);
  }

  lemma CodeParts(s: bytes) returns (h: Hash, n: bytes, c: bytes, rest: bytes)
    requires ParseBody(3, s).Good?
    ensures ParseBody(3, s) == Good(CodeRecord(h, c), rest) && s == h + (n + (c + rest))
    ensures |n| == 4 && |c| == U32Of(n) && 36 + |c| < TWO32
  {
    hide U32Of, DecodeAccount;
    TakeIsFront(s, 32);
    var s1 := Take(s, 32).rest;
    TakeIsFront(s1, 4);
    h, n := Take(s, 32).value, Take(s1, 4).value;
    var s2 := Take(s1, 4).rest;
    TakeAfterIsTake(36, s2, U32Of(n));
    TakeIsFront(s2, U32Of(n));
    c, rest := Take(s2, U32Of(n)).value, Take(s2, U32Of(n)).rest;
  }

  lemma CodeParsed(s: bytes)
    requires ParseBody(3, s).Good?
    ensures Fits(ParseBody(3, s).value)
    ensures EncodeRecord(ParseBody(3, s).value) + ParseBody(3, s).rest == [3] + s
  {
    hide U32Bytes, U32Of, ParseBody;
    var h, n, c, rest := CodeParts(s);
    LengthBytes(n);
    assert U32Bytes(Wrap32(|c|)) == n;
    AppendAssociates([3], h + (n + c), rest);
    AppendAssociates(h, n + c, rest);
    AppendAssociates(n, c, rest);
  }

  lemma LengthBytes(n: bytes)
    requires |n| == 4
    ensures U32Bytes(U32Of(n)) == n
  {
  }

  /** What is read as a record is a rendering of it. */
  lemma RecordParsed(s: bytes) returns (x: Found)
    requires ParseRecord(s).Good?
    ensures Sound(x) && ParseRecord(s).value == x.r && s == Render(x) + ParseRecord(s).rest
  {
    hide ParseBody, EncodeRecord, EncodeAccount;
    TakeIsFront(s, 1);
    var tag, body := s[0], s[1..];
    assert s == [tag] + body && ParseRecord(s) == ParseBody(tag, body);
    TagIsKnown(tag, body);
    if tag == 1 {
      x := AccountParsed(body);
    } else if tag == 2 {
      SlotParsed(body);
      x := Found(ParseBody(2, body).value, 0);
    } else {
      CodeParsed(body);
      x := Found(ParseBody(3, body).value, 0);
    }
  }

  lemma TagIsKnown(tag: byte, s: bytes)
    requires ParseBody(tag, s).Good?
    ensures tag == 1 || tag == 2 || tag == 3
    ensures tag == 2 ==> ParseBody(tag, s).value.SlotRecord?
    ensures tag == 3 ==> ParseBody(tag, s).value.CodeRecord?
  {
    hide DecodeAccount;
  }

  lemma {:induction false} LoadRendered(xs: seq<Found>, m: Maps)
    requires forall i :: 0 <= i < |xs| ==> Sound(xs[i])
    ensures LoadRecords(RenderAll(xs), m) == Some(PutFound(m, xs))
    decreases |xs|
  {
    hide ParseRecord, Render, Sound;
    if xs != [] {
      ParseRendered(xs[0], RenderAll(xs[1..]));
      ParseShrinks(RenderAll(xs));
      assert RenderAll(xs) != [] by { RenderNotEmpty(xs[0]); }
      LoadRendered(xs[1..], Put(m, xs[0].r));
    }
  }

  lemma RenderNotEmpty(x: Found)
    ensures Render(x) != []
  {
  }

  lemma {:induction false} RecordsLoaded(s: bytes, m: Maps) returns (xs: seq<Found>)
    requires LoadRecords(s, m).Some?
    ensures (forall i :: 0 <= i < |xs| ==> Sound(xs[i])) && s == RenderAll(xs)
    decreases |s|
  {
    hide ParseRecord, Render, Sound;
    if s == [] {
      xs := [];
    } else {
      ParseShrinks(s);
      var x := RecordParsed(s);
      var rest := RecordsLoaded(ParseRecord(s).rest, Put(m, x.r));
      xs := [x] + rest;
      assert xs[1..] == rest;
    }
  }

  ghost predicate IsFile(data: bytes, block: U64, xs: seq<Found>) {
    (forall i :: 0 <= i < |xs| ==> Sound(xs[i])) && data == MAGIC + U64Bytes(block) + RenderAll(xs)
  }

  lemma FileLoads(data: bytes, block: U64, xs: seq<Found>)
    requires IsFile(data, block, xs)
    ensures LoadFile(data, block) == Some(PutFound(NOTHING, xs))
  {
    hide LoadRecords, RenderAll, PutFound, U64Of, U64Bytes, Sound;
    U64RoundTrip(block);
    assert data[..8] == MAGIC && data[8..16] == U64Bytes(block) && data[16..] == RenderAll(xs);
    LoadRendered(xs, NOTHING);
  }

  lemma LoadedFile(data: bytes, block: U64) returns (xs: seq<Found>)
    requires LoadFile(data, block).Some?
    ensures IsFile(data, block, xs)
  {
    hide LoadRecords, RenderAll, PutFound, U64Of, U64Bytes, Sound;
    xs := RecordsLoaded(data[16..], NOTHING);
    HeaderIs(data, block);
    assert data == data[..8] + data[8..16] + data[16..];
  }

  /**
   A file loads exactly if it is the magic, this block's number and renderings of
   records, one after the other; the maps are then what these records put.
   */
  lemma FileLoadsIff(data: bytes, block: U64, m: Maps)
    ensures LoadFile(data, block) == Some(m)
       <==> exists xs: seq<Found> :: IsFile(data, block, xs) && m == PutFound(NOTHING, xs)
  {
    hide LoadFile, IsFile, PutFound;
    if xs: seq<Found> :| IsFile(data, block, xs) && m == PutFound(NOTHING, xs) {
      FileLoads(data, block, xs);
    }
    if LoadFile(data, block) == Some(m) {
      var xs := LoadedFile(data, block);
      FileLoads(data, block, xs);
    }
  }

  lemma HeaderIs(data: bytes, block: U64)
    requires |data| >= 16 && U64Of(data[8..16]) == block
    ensures U64Bytes(block) == data[8..16]
  {
  }

  // ----- the cache -----

  datatype Outcome<T> = Got(value: T) | Failed(error: S.Error) | NoStore

  /** The store a cache falls through to. */
  datatype Db = Db(kv: S.KV, keccak: S.Keccak)

  ghost predicate EntriesTrue(db: Db, block: U64, m: Maps) {
    && (forall a :: a in m.accounts ==>
          var x := S.GetAccount(db.kv, db.keccak, a, block);
          x.Ok? && m.accounts[a] == EntryOf(x.value))
    && (forall k :: k in m.slots ==> S.GetSlot(db.kv, db.keccak, k, block) == S.Ok(m.slots[k]))
    && (forall h :: h in m.code ==> S.GetCode(db.kv, h) == S.Ok(m.code[h]))
  }

  predicate CodeFits(m: Maps) {
    forall h :: h in m.code ==> 36 + |m.code[h]| < TWO32
  }

  datatype Query = AskAccount(a: Address) | AskSlot(k: SKey) | AskCode(h: Hash)

  /** A read: a hit changes nothing, a miss that the store answers is kept. */
  function AfterQuery(db: Db, block: U64, m: Maps, q: Query): Maps {
    match q
    case AskAccount(a) =>
      var x := S.GetAccount(db.kv, db.keccak, a, block);
      if a in m.accounts || x.Err? then m else m.(accounts := m.accounts[a := EntryOf(x.value)])
    case AskSlot(k) =>
      var v := S.GetSlot(db.kv, db.keccak, k, block);
      if k in m.slots || v.Err? then m else m.(slots := m.slots[k := v.value])
    case AskCode(h) =>
      var c := S.GetCode(db.kv, h);
      if h in m.code || c.Err? then m else m.(code := m.code[h := c.value])
  }

  class Cache {
    const block: U64
    var accounts: map<Address, Entry>
    var slots: map<SKey, Hash>
    var code: map<Hash, bytes>
    var dirty: bool

    ghost function Contents(): Maps
      reads this
    {
      Maps(accounts, slots, code)
    }

    constructor (block: U64)
      ensures this.block == block && Contents() == NOTHING && !dirty
    {
      this.block := block;
      accounts, slots, code, dirty := map[], map[], map[], false;
    }

    /** Fills an empty cache from a file. */
    method Load(data: bytes) returns (ok: bool)
      requires Contents() == NOTHING
      modifies this
      ensures ok <==> LoadFile(data, block).Some?
      ensures ok ==> Contents() == LoadFile(data, block).value && dirty == old(dirty)
    {
      hide ParseRecord, U64Of;
      if |data| < 16 || data[..8] != MAGIC {
        return false;
      }
      if U64Of(data[8..16]) != block {
        return false;
      }
      var rest := data[16..];
      while rest != []
        invariant LoadRecords(rest, Contents()) == LoadFile(data, block) && dirty == old(dirty)
        decreases |rest|
      {
        ParseShrinks(rest);
        var p := ParseRecord(rest);
        if p.Bad? {
          return false;
        }
        match p.value {
          case AccountRecord(a, e) => accounts := accounts[a := e];
          case SlotRecord(k, v) => slots := slots[k := v];
          case CodeRecord(h, c) => code := code[h := c];
        }
        rest := p.rest;
      }
      return true;
    }

    /** Hits come from the map; misses are read at the block and kept. */
    method GetAccount(a: Address, db: Option<Db>) returns (r: Outcome<Entry>)
      modifies this`accounts, this`dirty
      ensures a in old(accounts) ==> r == Got(old(accounts)[a]) && accounts == old(accounts) && dirty == old(dirty)
      ensures a !in old(accounts) && db.None? ==> r == NoStore && accounts == old(accounts) && dirty == old(dirty)
      ensures a !in old(accounts) && db.Some? ==>
                match S.GetAccount(db.value.kv, db.value.keccak, a, block)
                case Err(e) => r == Failed(e) && accounts == old(accounts) && dirty == old(dirty)
                case Ok(x) => r == Got(EntryOf(x)) && accounts == old(accounts)[a := EntryOf(x)] && dirty
      ensures Contents()
          == if db.Some? then AfterQuery(db.value, block, old(Contents()), AskAccount(a)) else old(Contents())
      ensures db.Some? && old(EntriesTrue(db.value, block, Contents())) ==>
                EntriesTrue(db.value, block, Contents())
                && r == match S.GetAccount(db.value.kv, db.value.keccak, a, block)
                        case Err(e) => Failed(e)
                        case Ok(x) => Got(EntryOf(x))
      ensures db.Some? && old(EntriesTrue(db.value, block, Contents())) && r.Got? ==>
                S.GetAccount(db.value.kv, db.value.keccak, a, block) == S.Ok(AsRead(r.value))
    {
      hide S.GetAccount, S.GetSlot, S.GetCode;
      if a in accounts {
        return Got(accounts[a]);
      }
      if db.None? {
        return NoStore;
      }
      var x := S.GetAccount(db.value.kv, db.value.keccak, a, block);
      if x.Err? {
        return Failed(x.error);
      }
      accounts, dirty := accounts[a := EntryOf(x.value)], true;
      return Got(EntryOf(x.value));
    }

    method GetSlot(k: SKey, db: Option<Db>) returns (r: Outcome<Hash>)
      modifies this`slots, this`dirty
      ensures k in old(slots) ==> r == Got(old(slots)[k]) && slots == old(slots) && dirty == old(dirty)
      ensures k !in old(slots) && db.None? ==> r == NoStore && slots == old(slots) && dirty == old(dirty)
      ensures k !in old(slots) && db.Some? ==>
                match S.GetSlot(db.value.kv, db.value.keccak, k, block)
                case Err(e) => r == Failed(e) && slots == old(slots) && dirty == old(dirty)
                case Ok(v) => r == Got(v) && slots == old(slots)[k := v] && dirty
      ensures Contents()
          == if db.Some? then AfterQuery(db.value, block, old(Contents()), AskSlot(k)) else old(Contents())
      ensures db.Some? && old(EntriesTrue(db.value, block, Contents())) ==>
                EntriesTrue(db.value, block, Contents())
                && r == match S.GetSlot(db.value.kv, db.value.keccak, k, block)
                        case Err(e) => Failed(e)
                        case Ok(v) => Got(v)
    {
      hide S.GetAccount, S.GetSlot, S.GetCode;
      if k in slots {
        return Got(slots[k]);
      }
      if db.None? {
        return NoStore;
      }
      var v := S.GetSlot(db.value.kv, db.value.keccak, k, block);
      if v.Err? {
        return Failed(v.error);
      }
      slots, dirty := slots[k := v.value], true;
      return Got(v.value);
    }

    method GetCode(h: Hash, db: Option<Db>) returns (r: Outcome<bytes>)
      modifies this`code, this`dirty
      ensures h in old(code) ==> r == Got(old(code)[h]) && code == old(code) && dirty == old(dirty)
      ensures h !in old(code) && db.None? ==> r == NoStore && code == old(code) && dirty == old(dirty)
      ensures h !in old(code) && db.Some? ==>
                match S.GetCode(db.value.kv, h)
                case Err(e) => r == Failed(e) && code == old(code) && dirty == old(dirty)
                case Ok(c) => r == Got(c) && code == old(code)[h := c] && dirty
      ensures Contents()
          == if db.Some? then AfterQuery(db.value, block, old(Contents()), AskCode(h)) else old(Contents())
      ensures db.Some? && old(EntriesTrue(db.value, block, Contents())) ==>
                EntriesTrue(db.value, block, Contents())
                && r == match S.GetCode(db.value.kv, h)
                        case Err(e) => Failed(e)
                        case Ok(c) => Got(c)
    {
      hide S.GetAccount, S.GetSlot, S.GetCode;
      if h in code {
        return Got(code[h]);
      }
      if db.None? {
        return NoStore;
      }
      var c := S.GetCode(db.value.kv, h);
      if c.Err? {
        return Failed(c.error);
      }
      code, dirty := code[h := c.value], true;
      return Got(c.value);
    }

    /**
     Writes the file if anything was added. The maps are iterated in any order;
     whichever it is, loading the file gives back exactly the three maps, if and only
     if every code ends within 32 bits of its record's start.
     */
    method Close() returns (file: Option<bytes>)
      modifies this`dirty
      ensures !dirty && (file.Some? <==> old(dirty))
      ensures file.Some? ==> (LoadFile(file.value, block) == Some(Contents()) <==> CodeFits(Contents()))
    {
      hide LoadFile, Written, PutAll, CodeFits;
      if !dirty {
        return None;
      }
      var bufA, rsA := WriteAccounts(accounts);
      var bufS, rsS := WriteSlots(bufA, rsA, slots, accounts);
      var buf, rs := WriteCode(bufS, rsS, code, Contents());
      dirty := false;
      file := Some(MAGIC + U64Bytes(block) + buf);
      if CodeFits(Contents()) {
        LoadFileWritten(buf, rs, block);
      }
      LoadedFileFits(file.value, block);
    }
  }

  /** Whatever a file says, the codes read from it are within the bound. */
  lemma {:induction false} LoadedCodeFits(s: bytes, m: Maps)
    requires CodeFits(m)
    ensures LoadRecords(s, m).Some? ==> CodeFits(LoadRecords(s, m).value)
    decreases |s|
  {
    hide ParseRecord;
    if s != [] {
      ParseShrinks(s);
      ParsedFits(s);
      if ParseRecord(s).Good? {
        LoadedCodeFits(ParseRecord(s).rest, Put(m, ParseRecord(s).value));
      }
    }
  }

  lemma ParsedFits(s: bytes)
    ensures ParseRecord(s).Good? ==> Fits(ParseRecord(s).value)
  {
    hide DecodeAccount, U32Of;
  }

  lemma LoadedFileFits(data: bytes, block: U64)
    ensures LoadFile(data, block).Some? ==> CodeFits(LoadFile(data, block).value)
  {
    hide LoadRecords, U64Of;
    if LoadFile(data, block).Some? {
      LoadedCodeFits(data[16..], NOTHING);
    }
  }

  lemma LoadFileWritten(buf: bytes, rs: seq<Record>, block: U64)
    requires Written(buf, rs) && AllFit(rs)
    ensures LoadFile(MAGIC + U64Bytes(block) + buf, block) == Some(PutAll(NOTHING, rs))
  {
    LoadWritten(rs, block);
  }

  method WriteAccounts(accounts: map<Address, Entry>) returns (buf: bytes, ghost rs: seq<Record>)
    ensures Written(buf, rs) && AllFit(rs) && PutAll(NOTHING, rs) == Maps(accounts, map[], map[])
  {
    hide Written, PutAll, EncodeRecord, AllFit;
    buf, rs := [], [];
    EmptyFile();
    AllAndNone(accounts);
    var left := accounts.Keys;
    while left != {}
      invariant left <= accounts.Keys && Written(buf, rs) && AllFit(rs)
      invariant PutAll(NOTHING, rs) == Maps(accounts - left, map[], map[])
      decreases |left|
    {
      var a :| a in left;
      var r := AccountRecord(a, accounts[a]);
      OneMore(buf, rs, r);
      OneMoreKey(accounts, left, a);
      buf, rs := buf + EncodeRecord(r), rs + [r];
      left := left - {a};
    }
  }

  method WriteSlots(front: bytes, ghost done: seq<Record>, slots: map<SKey, Hash>, ghost accounts: map<Address, Entry>)
    returns (buf: bytes, ghost rs: seq<Record>)
    requires Written(front, done) && AllFit(done) && PutAll(NOTHING, done) == Maps(accounts, map[], map[])
    ensures Written(buf, rs) && AllFit(rs) && PutAll(NOTHING, rs) == Maps(accounts, slots, map[])
  {
    hide Written, PutAll, EncodeRecord, AllFit;
    buf, rs := front, done;
    AllAndNone(slots);
    var left := slots.Keys;
    while left != {}
      invariant left <= slots.Keys && Written(buf, rs) && AllFit(rs)
      invariant PutAll(NOTHING, rs) == Maps(accounts, slots - left, map[])
      decreases |left|
    {
      var k :| k in left;
      var r := SlotRecord(k, slots[k]);
      OneMore(buf, rs, r);
      OneMoreKey(slots, left, k);
      buf, rs := buf + EncodeRecord(r), rs + [r];
      left := left - {k};
    }
  }

  method WriteCode(front: bytes, ghost done: seq<Record>, code: map<Hash, bytes>, ghost m: Maps)
    returns (buf: bytes, ghost rs: seq<Record>)
    requires Written(front, done) && AllFit(done) && PutAll(NOTHING, done) == m.(code := map[]) && m.code == code
    ensures Written(buf, rs) && PutAll(NOTHING, rs) == m && (CodeFits(m) ==> AllFit(rs))
  {
    hide Written, PutAll, EncodeRecord, AllFit;
    buf, rs := front, done;
    AllAndNone(code);
    var left := code.Keys;
    while left != {}
      invariant left <= code.Keys && Written(buf, rs) && (CodeFits(m) ==> AllFit(rs))
      invariant PutAll(NOTHING, rs) == m.(code := code - left)
      decreases |left|
    {
      var h :| h in left;
      var r := CodeRecord(h, code[h]);
      OneMore(buf, rs, r);
      OneMoreKey(code, left, h);
      buf, rs := buf + EncodeRecord(r), rs + [r];
      left := left - {h};
    }
  }

  ghost predicate Written(buf: bytes, rs: seq<Record>) {
    buf == EncodeRecords(rs)
  }

  ghost predicate AllFit(rs: seq<Record>) {
    forall i :: 0 <= i < |rs| ==> Fits(rs[i])
  }

  lemma EmptyFile()
    ensures Written([], []) && AllFit([]) && PutAll(NOTHING, []) == NOTHING
  {
  }

  lemma OneMore(buf: bytes, rs: seq<Record>, r: Record)
    requires Written(buf, rs)
    ensures Written(buf + EncodeRecord(r), rs + [r])
    ensures AllFit(rs) && Fits(r) ==> AllFit(rs + [r])
    ensures PutAll(NOTHING, rs + [r]) == Put(PutAll(NOTHING, rs), r)
  {
    hide EncodeRecord, EncodeRecords, PutAll, Put;
    EncodeOneMore(rs, r);
    PutOneMore(NOTHING, rs, r);
  }

  /** Entries stay true as the store goes on: a cache file never needs invalidating. */
  lemma EntriesStayTrue(db: Db, kv': S.KV, c: Chain, c': Chain, block: U64, m: Maps)
    requires Represents(db.kv, db.keccak, c) && Respects(c)
    requires Represents(kv', db.keccak, c') && Respects(c') && Later(db.kv, c, kv', c')
    requires forall h: Hash :: Code(h) in db.kv ==> Code(h) in kv' && kv'[Code(h)] == db.kv[Code(h)]
    requires c.s <= block <= c.s + |c.blocks| && EntriesTrue(db, block, m)
    ensures EntriesTrue(db.(kv := kv'), block, m)
  {
    hide Represents, Respects, Later, S.GetAccount, S.GetSlot;
    forall a | a in m.accounts
      ensures S.GetAccount(kv', db.keccak, a, block) == S.GetAccount(db.kv, db.keccak, a, block)
    {
      AnswersAreFinal(db.kv, kv', db.keccak, c, c', a, block);
    }
    forall k | k in m.slots ensures S.GetSlot(kv', db.keccak, k, block) == S.GetSlot(db.kv, db.keccak, k, block) {
      SlotAnswersAreFinal(db.kv, kv', db.keccak, c, c', k, block);
    }
  }

  // ----- open, read, close, again -----

  /** One use of the cache: the store as it was then, and what was read. */
  datatype Use = Use(db: Db, chain: Chain, queries: seq<Query>)

  function AfterQueries(db: Db, block: U64, m: Maps, qs: seq<Query>): Maps {
    if qs == [] then m else AfterQuery(db, block, AfterQueries(db, block, m, qs[..|qs| - 1]), qs[|qs| - 1])
  }

  /** What Open finds: nothing, or what the file loads to. */
  ghost predicate OpensAs(file: Option<bytes>, block: U64, m: Maps) {
    if file.None? then m == NOTHING else LoadFile(file.value, block) == Some(m)
  }

  /** The store only goes on between uses. */
  ghost predicate GoesOn(u: Use, u': Use) {
    && u'.db.keccak == u.db.keccak && Later(u.db.kv, u.chain, u'.db.kv, u'.chain)
    && forall h: Hash :: Code(h) in u.db.kv ==> Code(h) in u'.db.kv && u'.db.kv[Code(h)] == u.db.kv[Code(h)]
  }

  ghost predicate StandsFor(u: Use, block: U64) {
    && Represents(u.db.kv, u.db.keccak, u.chain) && Respects(u.chain)
    && u.chain.s <= block <= u.chain.s + |u.chain.blocks|
  }

  /** Files and contents over a list of uses: each use opens the file the one before left. */
  ghost predicate Uses(us: seq<Use>, files: seq<Option<bytes>>, ms: seq<Maps>, block: U64) {
    && |files| == |ms| == |us| + 1 && files[0] == None
    && (forall i :: 0 <= i < |ms| ==> OpensAs(files[i], block, ms[i]))
    && (forall i :: 0 <= i < |us| ==> StandsFor(us[i], block))
    && (forall i :: 0 < i < |us| ==> GoesOn(us[i - 1], us[i]))
    && (forall i :: 0 <= i < |us| ==>
          var m := AfterQueries(us[i].db, block, ms[i], us[i].queries);
          || (m == ms[i] && files[i + 1] == files[i])
          || (files[i + 1].Some? && LoadFile(files[i + 1].value, block) == Some(m)))
  }

  lemma {:induction false} QueriesKeepTrue(db: Db, block: U64, m: Maps, qs: seq<Query>)
    requires EntriesTrue(db, block, m)
    ensures EntriesTrue(db, block, AfterQueries(db, block, m, qs))
    decreases |qs|
  {
    hide S.GetAccount, S.GetSlot, S.GetCode;
    if qs != [] {
      QueriesKeepTrue(db, block, m, qs[..|qs| - 1]);
    }
  }

  /**
   Over any number of uses, with the store going on between them, every entry the
   cache ever opens with or ends with is the store's read at the fixed block.
   */
  lemma {:induction false} EveryUseIsTrue(us: seq<Use>, files: seq<Option<bytes>>, ms: seq<Maps>, block: U64, n: nat)
    requires Uses(us, files, ms, block) && n < |us|
    ensures EntriesTrue(us[n].db, block, ms[n])
    ensures EntriesTrue(us[n].db, block, AfterQueries(us[n].db, block, ms[n], us[n].queries))
    ensures forall a :: a in ms[n].accounts ==>
              S.GetAccount(us[n].db.kv, us[n].db.keccak, a, block) == S.Ok(AsRead(ms[n].accounts[a]))
    decreases n
  {
    hide EntriesTrue, LoadFile, AfterQueries, StandsFor, GoesOn;
    if n == 0 {
      assert OpensAs(files[0], block, ms[0]);
      NothingIsTrue(us[0].db, block);
    } else {
      EveryUseIsTrue(us, files, ms, block, n - 1);
      var m := AfterQueries(us[n - 1].db, block, ms[n - 1], us[n - 1].queries);
      assert OpensAs(files[n], block, ms[n]) && OpensAs(files[n - 1], block, ms[n - 1]);
      assert ms[n] == m;
      assert GoesOn(us[n - 1], us[n]) && StandsFor(us[n - 1], block) && StandsFor(us[n], block);
      UseToUse(us[n - 1], us[n], block, m);
    }
    QueriesKeepTrue(us[n].db, block, ms[n], us[n].queries);
    EntriesAreReads(us[n].db, block, ms[n]);
  }

  lemma EntriesAreReads(db: Db, block: U64, m: Maps)
    requires EntriesTrue(db, block, m)
    ensures forall a :: a in m.accounts ==> S.GetAccount(db.kv, db.keccak, a, block) == S.Ok(AsRead(m.accounts[a]))
  {
    hide S.GetAccount, S.GetSlot, S.GetCode;
  }

  lemma NothingIsTrue(db: Db, block: U64)
    ensures EntriesTrue(db, block, NOTHING)
  {
  }

  lemma UseToUse(u: Use, u': Use, block: U64, m: Maps)
    requires GoesOn(u, u') && StandsFor(u, block) && StandsFor(u', block) && EntriesTrue(u.db, block, m)
    ensures EntriesTrue(u'.db, block, m)
  {
    hide EntriesTrue, Represents, Respects, Later;
    EntriesStayTrue(u.db, u'.db.kv, u.chain, u'.chain, block, m);
    assert u'.db == u.db.(kv := u'.db.kv);
  }
}
