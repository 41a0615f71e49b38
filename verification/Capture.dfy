/**
 The per-block capture batch (capture/capture.go) and its binary encoding: the
 value of every 0x04 diff row and the payload of every tip-bus block event.
 */
module Capture {
  import opened Bytes
  import opened Schema
  import opened Wire

  datatype Op =
    | OpAccount(addr: Address, account: Account)
    | OpSlot(addr: Address, slot: Hash, value: Hash)
    | OpDeleteSlot(addr: Address, slot: Hash)
    | OpDestruct(addr: Address)
    | OpCode(codeHash: Hash, code: bytes)

  /** One block's post-images. time is in unix milliseconds. */
  datatype Batch = Batch(block: U64, hash: Hash, parent: Hash, time: U64, ops: seq<Op>)

  // ----- the ops that name a code -----

  predicate NamesCode(op: Op, h: Hash) {
    op.OpCode? && op.codeHash == h
  }

  /** The op at i is the last one that names the code. */
  ghost predicate NamesLast(ops: seq<Op>, i: nat, h: Hash) {
    i < |ops| && NamesCode(ops[i], h) && forall j :: i < j < |ops| ==> !NamesCode(ops[j], h)
  }

  ghost predicate NamesNone(ops: seq<Op>, h: Hash) {
    forall i :: 0 <= i < |ops| ==> !NamesCode(ops[i], h)
  }

  lemma LastOrNone(ops: seq<Op>, h: Hash)
    ensures NamesNone(ops, h) || exists i: nat :: NamesLast(ops, i, h)
  {
    if ops != [] && !NamesCode(ops[|ops| - 1], h) {
      var front := ops[..|ops| - 1];
      LastOrNone(front, h);
      if !NamesNone(front, h) {
        var i: nat :| NamesLast(front, i, h);
        assert NamesLast(ops, i, h);
      }
    } else if ops != [] {
      assert NamesLast(ops, |ops| - 1, h);
    }
  }

  // ----- encoding -----

  datatype Decoded = Refused(error: Error) | Accepted(batch: Batch)

  const TWO32 := 0x1_0000_0000

  /** Go's uint32(len) conversion. */
  function Wrap32(n: nat): U32 {
    n % TWO32
  }

  /** n bytes that follow a header of the given size, where the end of both is computed in 32 bits. */
  function TakeAfter(header: nat, s: bytes, n: nat): Parsed<bytes> {
    if |s| < n then Bad(Truncated)
    else if header + n >= TWO32 then Bad(Overrun)
    else Good(s[..n], s[n..])
  }

  lemma TakeAfterIsTake(header: nat, s: bytes, n: nat)
    requires header + n < TWO32
    ensures TakeAfter(header, s, n) == Take(s, n)
  {
  }

  function EncodeOp(op: Op): bytes {
    match op
    case OpAccount(a, acct) => [1] + (a + EncodeAccount(acct))
    case OpSlot(a, s, v) => [2] + (a + (s + v))
    case OpDeleteSlot(a, s) => [3] + (a + s)
    case OpDestruct(a) => [4] + a
    case OpCode(h, c) => [5] + (h + (U32Bytes(Wrap32(|c|)) + c))
  }

  /** The fixed fields in front of the op list. */
  datatype Header = Header(block: U64, hash: Hash, parent: Hash, time: U64, count: U32)

  function HeaderOf(b: Batch): Header {
    Header(b.block, b.hash, b.parent, b.time, Wrap32(|b.ops|))
  }

  function WithHeader(h: Header, body: bytes): bytes {
    U64Bytes(h.block) + (h.hash + (h.parent + (U64Bytes(h.time) + (U32Bytes(h.count) + body))))
  }

  function Encode(b: Batch): bytes {
    WithHeader(HeaderOf(b), EncodeAll(EncodeOp, b.ops))
  }

  /** Lengths that fit the 32-bit length fields. */
  predicate OpFits(op: Op) {
    op.OpCode? ==> |op.code| < TWO32
  }

  predicate Fits(b: Batch) {
    |b.ops| < TWO32 && AllOk(OpFits, b.ops)
  }

  // ----- the grammar Decode accepts -----

  function ParseAccountOp(s: bytes): Parsed<Op> {
    var (a, s) :- Take(s, 20);
    var (enc, s) :- Take(s, ACCOUNT_SIZE);
    Good(OpAccount(a, DecodeAccount(enc).value), s)
  }

  function ParseSlotOp(s: bytes): Parsed<Op> {
    var (a, s) :- Take(s, 20);
    var (k, s) :- Take(s, 32);
    var (v, s) :- Take(s, 32);
    Good(OpSlot(a, k, v), s)
  }

  function ParseDeleteSlotOp(s: bytes): Parsed<Op> {
    var (a, s) :- Take(s, 20);
    var (k, s) :- Take(s, 32);
    Good(OpDeleteSlot(a, k), s)
  }

  function ParseDestructOp(s: bytes): Parsed<Op> {
    var (a, s) :- Take(s, 20);
    Good(OpDestruct(a), s)
  }

  function ParseCodeOp(s: bytes): Parsed<Op> {
    var (h, s) :- Take(s, 32);
    var (n, s) :- Take(s, 4);
    var (c, s) :- Take(s, U32Of(n));
    Good(OpCode(h, c), s)
  }

  function ParseBody(kind: byte, s: bytes): Parsed<Op> {
    match kind
    case 1 => ParseAccountOp(s)
    case 2 => ParseSlotOp(s)
    case 3 => ParseDeleteSlotOp(s)
    case 4 => ParseDestructOp(s)
    case 5 => ParseCodeOp(s)
    case _ => Bad(UnknownKind)
  }

  function ParseOp(s: bytes): Parsed<Op> {
    var (kind, s) :- Take(s, 1);
    ParseBody(kind[0], s)
  }

  function ParseHeader(s: bytes): Parsed<Header> {
    var (block, s) :- Take(s, 8);
    var (hash, s) :- Take(s, 32);
    var (parent, s) :- Take(s, 32);
    var (time, s) :- Take(s, 8);
    var (n, s) :- Take(s, 4);
    Good(Header(U64Of(block), hash, parent, U64Of(time), U32Of(n)), s)
  }

  function ParseOps(s: bytes, n: nat): Parsed<seq<Op>> {
    ParseN(ParseOp, s, n)
  }

  function ParseBatch(s: bytes): Parsed<Batch> {
    var (h, s) :- ParseHeader(s);
    var (ops, s) :- ParseOps(s, h.count);
    Good(Batch(h.block, h.hash, h.parent, h.time, ops), s)
  }

  function DecodeSpec(s: bytes): Decoded {
    match ParseBatch(s)
    case Bad(e) => Refused(e)
    case Good(b, rest) => if rest != [] then Refused(Trailing) else Accepted(b)
  }

  // ----- both directions of the codec -----

  lemma U32RoundTrip(v: U32)
    ensures U32Of(U32Bytes(v)) == v
  {
  }

  lemma AppendAssociates(a: bytes, b: bytes, c: bytes)
    ensures (a + b) + c == a + (b + c)
  {
  }

  lemma ParseTagged(tag: byte, body: bytes, rest: bytes)
    ensures ParseOp(([tag] + body) + rest) == ParseBody(tag, body + rest)
  {
    AppendAssociates([tag], body, rest);
    TakeFront([tag], body + rest);
  }

  lemma ParseEncodedAccountOp(a: Address, acct: Account, rest: bytes)
    ensures ParseAccountOp((a + EncodeAccount(acct)) + rest) == Good(OpAccount(a, acct), rest)
  {
    AppendAssociates(a, EncodeAccount(acct), rest);
    TakeFront(a, EncodeAccount(acct) + rest);
    TakeFront(EncodeAccount(acct), rest);
    AccountRoundTrip(acct, []);
  }

  lemma ParseEncodedSlotOp(a: Address, k: Hash, v: Hash, rest: bytes)
    ensures ParseSlotOp((a + (k + v)) + rest) == Good(OpSlot(a, k, v), rest)
  {
    AppendAssociates(a, k + v, rest);
    AppendAssociates(k, v, rest);
    TakeFront(a, k + (v + rest));
    TakeFront(k, v + rest);
    TakeFront(v, rest);
  }

  lemma ParseEncodedDeleteSlotOp(a: Address, k: Hash, rest: bytes)
    ensures ParseDeleteSlotOp((a + k) + rest) == Good(OpDeleteSlot(a, k), rest)
  {
    AppendAssociates(a, k, rest);
    TakeFront(a, k + rest);
    TakeFront(k, rest);
  }

  lemma ParseEncodedCodeOp(h: Hash, c: bytes, rest: bytes)
    requires |c| < TWO32
    ensures ParseCodeOp((h + (U32Bytes(|c|) + c)) + rest) == Good(OpCode(h, c), rest)
  {
    var n := U32Bytes(|c|);
    AppendAssociates(h, n + c, rest);
    AppendAssociates(n, c, rest);
    TakeFront(h, n + (c + rest));
    TakeFront(n, c + rest);
    U32RoundTrip(|c|);
    TakeFront(c, rest);
  }

  lemma WrapFits(n: nat)
    requires n < TWO32
    ensures Wrap32(n) == n
  {
  }

  lemma ParseEncodedOp(op: Op, rest: bytes)
    requires OpFits(op)
    ensures ParseOp(EncodeOp(op) + rest) == Good(op, rest)
  {
    hide ParseOp, Take, EncodeAccount, U32Bytes, Wrap32, ParseAccountOp, ParseSlotOp, ParseDeleteSlotOp, ParseCodeOp;
    match op
    case OpAccount(a, acct) =>
      ParseTagged(1, a + EncodeAccount(acct), rest);
      ParseEncodedAccountOp(a, acct, rest);
    case OpSlot(a, k, v) =>
      ParseTagged(2, a + (k + v), rest);
      ParseEncodedSlotOp(a, k, v, rest);
    case OpDeleteSlot(a, k) =>
      ParseTagged(3, a + k, rest);
      ParseEncodedDeleteSlotOp(a, k, rest);
    case OpDestruct(a) =>
      ParseTagged(4, a, rest);
      TakeFront(a, rest);
    case OpCode(h, c) =>
      WrapFits(|c|);
      ParseTagged(5, h + (U32Bytes(|c|) + c), rest);
      ParseEncodedCodeOp(h, c, rest);
  }

  lemma EncodeParsedAccountOp(s: bytes)
    requires ParseAccountOp(s).Good?
    ensures EncodeOp(ParseAccountOp(s).value) + ParseAccountOp(s).rest == [1] + s
  {
    var a, s1 := Take(s, 20).value, Take(s, 20).rest;
    var e, s2 := Take(s1, ACCOUNT_SIZE).value, Take(s1, ACCOUNT_SIZE).rest;
    TakeIsFront(s, 20);
    TakeIsFront(s1, ACCOUNT_SIZE);
    AccountRoundTrip(DecodeAccount(e).value, e);
    AppendAssociates([1], a + e, s2);
    AppendAssociates(a, e, s2);
  }

  lemma EncodeParsedSlotOp(s: bytes)
    requires ParseSlotOp(s).Good?
    ensures EncodeOp(ParseSlotOp(s).value) + ParseSlotOp(s).rest == [2] + s
  {
    var a, s1 := Take(s, 20).value, Take(s, 20).rest;
    var k, s2 := Take(s1, 32).value, Take(s1, 32).rest;
    var v, s3 := Take(s2, 32).value, Take(s2, 32).rest;
    TakeIsFront(s, 20);
    TakeIsFront(s1, 32);
    TakeIsFront(s2, 32);
    AppendAssociates([2], a + (k + v), s3);
    AppendAssociates(a, k + v, s3);
    AppendAssociates(k, v, s3);
  }

  lemma EncodeParsedDeleteSlotOp(s: bytes)
    requires ParseDeleteSlotOp(s).Good?
    ensures EncodeOp(ParseDeleteSlotOp(s).value) + ParseDeleteSlotOp(s).rest == [3] + s
  {
    var a, s1 := Take(s, 20).value, Take(s, 20).rest;
    var k, s2 := Take(s1, 32).value, Take(s1, 32).rest;
    TakeIsFront(s, 20);
    TakeIsFront(s1, 32);
    AppendAssociates([3], a + k, s2);
    AppendAssociates(a, k, s2);
  }

  lemma EncodeParsedCodeOp(s: bytes)
    requires ParseCodeOp(s).Good?
    ensures OpFits(ParseCodeOp(s).value)
    ensures EncodeOp(ParseCodeOp(s).value) + ParseCodeOp(s).rest == [5] + s
  {
    hide U32Bytes, U32Of;
    var h, s1 := Take(s, 32).value, Take(s, 32).rest;
    var n, s2 := Take(s1, 4).value, Take(s1, 4).rest;
    var c, s3 := Take(s2, U32Of(n)).value, Take(s2, U32Of(n)).rest;
    TakeIsFront(s, 32);
    TakeIsFront(s1, 4);
    TakeIsFront(s2, U32Of(n));
    assert U32Bytes(|c|) == n;
    AppendAssociates([5], h + (n + c), s3);
    AppendAssociates(h, n + c, s3);
    AppendAssociates(n, c, s3);
  }

  lemma EncodeParsedOp(s: bytes)
    requires ParseOp(s).Good?
    ensures OpFits(ParseOp(s).value)
    ensures EncodeOp(ParseOp(s).value) + ParseOp(s).rest == s
  {
    TakeIsFront(s, 1);
    var kind, s1 := s[0], s[1..];
    assert s[..1] == [kind];
    match kind
    case 1 => EncodeParsedAccountOp(s1);
    case 2 => EncodeParsedSlotOp(s1);
    case 3 => EncodeParsedDeleteSlotOp(s1);
    case 4 =>
      TakeIsFront(s1, 20);
      AppendAssociates([4], Take(s1, 20).value, Take(s1, 20).rest);
    case 5 => EncodeParsedCodeOp(s1);
    case _ =>
  }

  lemma OpCodec()
    ensures ReadsBack(EncodeOp, ParseOp, OpFits)
    ensures WritesBack(EncodeOp, ParseOp, OpFits)
  {
    forall op, rest: bytes | OpFits(op) ensures ParseOp(EncodeOp(op) + rest) == Good(op, rest) {
      ParseEncodedOp(op, rest);
    }
    forall s: bytes | ParseOp(s).Good?
      ensures OpFits(ParseOp(s).value) && EncodeOp(ParseOp(s).value) + ParseOp(s).rest == s
    {
      EncodeParsedOp(s);
    }
  }

  lemma ParseWithHeader(h: Header, body: bytes)
    ensures ParseHeader(WithHeader(h, body)) == Good(h, body)
  {
    var s4 := U32Bytes(h.count) + body;
    var s3 := U64Bytes(h.time) + s4;
    TakeFront(U64Bytes(h.block), h.hash + (h.parent + s3));
    TakeFront(h.hash, h.parent + s3);
    TakeFront(h.parent, s3);
    TakeFront(U64Bytes(h.time), s4);
    TakeFront(U32Bytes(h.count), body);
    U64RoundTrip(h.block);
    U64RoundTrip(h.time);
    U32RoundTrip(h.count);
  }

  lemma WithParsedHeader(s: bytes)
    requires ParseHeader(s).Good?
    ensures WithHeader(ParseHeader(s).value, ParseHeader(s).rest) == s
  {
    var s1 := Take(s, 8).rest;
    var s2 := Take(s1, 32).rest;
    var s3 := Take(s2, 32).rest;
    var s4 := Take(s3, 8).rest;
    TakeIsFront(s, 8);
    TakeIsFront(s1, 32);
    TakeIsFront(s2, 32);
    TakeIsFront(s3, 8);
    TakeIsFront(s4, 4);
  }

  lemma ParseEncodedOps(ops: seq<Op>)
    requires AllOk(OpFits, ops)
    ensures ParseN(ParseOp, EncodeAll(EncodeOp, ops), |ops|) == Good(ops, [])
  {
    OpCodec();
    hide ParseOp, EncodeOp, ReadsBack, WritesBack;
    ParseEncoded(EncodeOp, ParseOp, OpFits, ops, []);
    assert EncodeAll(EncodeOp, ops) + [] == EncodeAll(EncodeOp, ops);
  }

  lemma EncodeParsedOps(s: bytes, n: nat)
    requires ParseN(ParseOp, s, n).Good? && ParseN(ParseOp, s, n).rest == []
    ensures var ops := ParseN(ParseOp, s, n).value;
            |ops| == n && AllOk(OpFits, ops) && EncodeAll(EncodeOp, ops) == s
  {
    OpCodec();
    hide ParseOp, EncodeOp, ReadsBack, WritesBack;
    EncodeOfParsed(EncodeOp, ParseOp, OpFits, s, n);
    var e := EncodeAll(EncodeOp, ParseN(ParseOp, s, n).value);
    assert e + [] == e;
  }

  /** Every batch within the 32-bit bounds survives a round trip. */
  lemma DecodeEncode(b: Batch)
    requires Fits(b)
    ensures DecodeSpec(Encode(b)) == Accepted(b)
  {
    hide ParseHeader, WithHeader, ParseOp, EncodeOp, ParseN, EncodeAll;
    ParseWithHeader(HeaderOf(b), EncodeAll(EncodeOp, b.ops));
    ParseEncodedOps(b.ops);
  }

  /** Whatever bytes are accepted are exactly the encoding of the decoded batch. */
  lemma EncodeDecode(s: bytes)
    requires DecodeSpec(s).Accepted?
    ensures Fits(DecodeSpec(s).batch) && Encode(DecodeSpec(s).batch) == s
  {
    hide ParseHeader, WithHeader, ParseOp, EncodeOp, ParseN, EncodeAll;
    WithParsedHeader(s);
    EncodeParsedOps(ParseHeader(s).rest, ParseHeader(s).value.count);
  }

  /** The encoding of a batch determines it. */
  lemma EncodeInjective(b: Batch, c: Batch)
    requires Fits(b) && Fits(c) && Encode(b) == Encode(c)
    ensures b == c
  {
    DecodeEncode(b);
    DecodeEncode(c);
  }

  // ----- the decoder itself -----

  /** The decoder's cursor: the remaining bytes and the first error, which sticks. */
  class Reader {
    var b: bytes
    var err: Option<Error>

    constructor (data: bytes)
      ensures b == data && err == None
    {
      b, err := data, None;
    }

    /** Reads n bytes into a zeroed field of that size; an error leaves zeroes. */
    method Fill(n: nat) returns (v: bytes)
      modifies this
      ensures |v| == n
      ensures old(err.Some?) ==> b == old(b) && err == old(err) && v == seq(n, _ => 0)
      ensures old(err.None?) ==>
                match Take(old(b), n)
                case Bad(e) => b == old(b) && err == Some(e) && v == seq(n, _ => 0)
                case Good(x, rest) => v == x && b == rest && err == None
    {
      v := seq(n, _ => 0);
      if err.None? {
        if |b| < n {
          err := Some(Truncated);
        } else {
          v := b[..n];
          b := b[n..];
        }
      }
    }

    /** The reader's state after a parse of what was left. */
    ghost predicate After(p: Parsed<Op>, op: Op)
      reads this
    {
      match p
      case Bad(e) => err == Some(e)
      case Good(x, rest) => err == None && op == x && b == rest
    }

    method ReadAccountOp() returns (op: Op)
      requires err == None
      modifies this
      ensures After(ParseAccountOp(old(b)), op)
    {
      var addr := Fill(20);
      var enc := Fill(ACCOUNT_SIZE);
      op := OpAccount(addr, DecodeAccount(enc).value);
    }

    method ReadSlotOp() returns (op: Op)
      requires err == None
      modifies this
      ensures After(ParseSlotOp(old(b)), op)
    {
      var addr := Fill(20);
      var slot := Fill(32);
      var value := Fill(32);
      op := OpSlot(addr, slot, value);
    }

    method ReadDeleteSlotOp() returns (op: Op)
      requires err == None
      modifies this
      ensures After(ParseDeleteSlotOp(old(b)), op)
    {
      var addr := Fill(20);
      var slot := Fill(32);
      op := OpDeleteSlot(addr, slot);
    }

    method ReadCodeOp() returns (op: Op)
      requires err == None
      modifies this
      ensures After(ParseCodeOp(old(b)), op)
    {
      var hash := Fill(32);
      var len := Fill(4);
      var code := Fill(U32Of(len));
      op := OpCode(hash, code);
    }

    method ReadOp() returns (op: Op)
      requires err == None
      modifies this
      ensures After(ParseOp(old(b)), op)
    {
      op := OpDestruct(seq(20, _ => 0));
      var kind := Fill(1);
      if err.Some? {
        return;
      }
      match kind[0]
      case 1 => op := ReadAccountOp();
      case 2 => op := ReadSlotOp();
      case 3 => op := ReadDeleteSlotOp();
      case 4 =>
        var addr := Fill(20);
        op := OpDestruct(addr);
      case 5 => op := ReadCodeOp();
      case _ => err := Some(UnknownKind);
    }
  }

  /** Reads the op list: n ops, or the first error. */
  method ReadOps(rd: Reader, n: nat) returns (ops: seq<Op>)
    requires rd.err == None
    modifies rd
    ensures match ParseN(ParseOp, old(rd.b), n)
            case Bad(e) => rd.err == Some(e)
            case Good(xs, rest) => rd.err == None && ops == xs && rd.b == rest
  {
    hide ParseOp;
    ops := [];
    var i := 0;
    PrependNothing(ParseN(ParseOp, rd.b, n));
    while i < n
      invariant 0 <= i <= n && rd.err == None
      invariant ParseN(ParseOp, old(rd.b), n) == Prepend(ops, ParseN(ParseOp, rd.b, n - i))
    {
      ghost var here := rd.b;
      var op := rd.ReadOp();
      if rd.err.Some? {
        return;
      }
      ParseStep(ParseOp, ops, here, n - i);
      ops := ops + [op];
      i := i + 1;
    }
    assert ops + [] == ops;
  }

  method Decode(data: bytes) returns (r: Decoded)
    ensures r == DecodeSpec(data)
  {
    var rd := new Reader(data);
    var block := rd.Fill(8);
    var hash := rd.Fill(32);
    var parent := rd.Fill(32);
    var time := rd.Fill(8);
    var count := rd.Fill(4);
    if rd.err.Some? {
      return Refused(rd.err.value);
    }
    var ops := ReadOps(rd, U32Of(count));
    if rd.err.Some? {
      return Refused(rd.err.value);
    }
    if rd.b != [] {
      return Refused(Trailing);
    }
    return Accepted(Batch(U64Of(block), hash, parent, U64Of(time), ops));
  }
}
