/**
 The ephemeral tip bus (tipbus/tipbus.go): one writer publishes block, finalize
 and reset events; readers join by handshake and poll from the sequence number
 it returns. One writer epoch, from the truncation at open.
 */
module TipBus {
  import opened Bytes
  import opened Schema
  import opened Wire
  import opened Capture

  datatype Event =
    | EvBlock(batch: Batch)
    | EvFinalize(height: U64, hash: Hash)
    | EvReset(batches: seq<Batch>)

  /** The three row kinds: 0x00, 0x01 and 0x02|seq. */
  datatype BusKey = SeqKey | StateKey | EventKey(n: nat)

  type Rows = map<BusKey, bytes>

  // ----- framing -----

  function Frame(b: Batch): bytes {
    U32Bytes(Wrap32(|Encode(b)|)) + Encode(b)
  }

  predicate FrameFits(b: Batch) {
    Fits(b) && 4 + |Encode(b)| < TWO32
  }

  function ParseFrame(s: bytes): Parsed<Batch> {
    var (n, s) :- Take(s, 4);
    var (body, s) :- TakeAfter(4, s, U32Of(n));
    match DecodeSpec(body)
    case Refused(e) => Bad(e)
    case Accepted(b) => Good(b, s)
  }

  lemma ParseOwnFrame(b: Batch, rest: bytes)
    requires FrameFits(b)
    ensures ParseFrame(Frame(b) + rest) == Good(b, rest)
  {
    hide Encode, DecodeSpec, U32Bytes, U32Of;
    var n, e := U32Bytes(|Encode(b)|), Encode(b);
    AppendAssociates(n, e, rest);
    TakeFront(n, e + rest);
    U32RoundTrip(|e|);
    TakeFront(e, rest);
    TakeAfterIsTake(4, e + rest, |e|);
    DecodeEncode(b);
  }

  lemma FrameOfParsed(s: bytes)
    requires ParseFrame(s).Good?
    ensures FrameFits(ParseFrame(s).value)
    ensures Frame(ParseFrame(s).value) + ParseFrame(s).rest == s
  {
    hide Encode, DecodeSpec, U32Bytes, U32Of;
    TakeIsFront(s, 4);
    var n, s1 := Take(s, 4).value, Take(s, 4).rest;
    TakeAfterIsTake(4, s1, U32Of(n));
    TakeIsFront(s1, U32Of(n));
    var body, s2 := Take(s1, U32Of(n)).value, Take(s1, U32Of(n)).rest;
    EncodeDecode(body);
    AppendAssociates(n, body, s2);
  }

  lemma FrameCodec()
    ensures ReadsBack(Frame, ParseFrame, FrameFits)
    ensures WritesBack(Frame, ParseFrame, FrameFits)
  {
    hide Frame, ParseFrame, FrameFits;
    forall b, rest: bytes | FrameFits(b) ensures ParseFrame(Frame(b) + rest) == Good(b, rest) {
      ParseOwnFrame(b, rest);
    }
    forall s: bytes | ParseFrame(s).Good?
      ensures FrameFits(ParseFrame(s).value) && Frame(ParseFrame(s).value) + ParseFrame(s).rest == s
    {
      FrameOfParsed(s);
    }
  }

  /** A list of batches behind its 32-bit count. */
  function FrameAll(bs: seq<Batch>): bytes {
    U32Bytes(Wrap32(|bs|)) + EncodeAll(Frame, bs)
  }

  function ParseFrames(s: bytes, n: nat): Parsed<seq<Batch>> {
    ParseN(ParseFrame, s, n)
  }

  /** Bytes after the last frame are ignored, as in the source. */
  function ParseList(s: bytes): Parsed<seq<Batch>> {
    var (n, s) :- Take(s, 4);
    ParseFrames(s, U32Of(n))
  }

  predicate ListFits(bs: seq<Batch>) {
    |bs| < TWO32 && AllOk(FrameFits, bs)
  }

  /** What is read as a list is its framing, and the rest whatever follows. */
  lemma ParseListIff(s: bytes, bs: seq<Batch>, rest: bytes)
    ensures ParseList(s) == Good(bs, rest) <==> ListFits(bs) && s == FrameAll(bs) + rest
  {
    hide Frame, ParseFrame, FrameFits, U32Bytes, U32Of, ParseN, EncodeAll;
    FrameCodec();
    if ListFits(bs) && s == FrameAll(bs) + rest {
      ParseOwnList(bs, rest);
    }
    if ParseList(s) == Good(bs, rest) {
      TakeIsFront(s, 4);
      var n, s1 := Take(s, 4).value, Take(s, 4).rest;
      EncodeOfParsed(Frame, ParseFrame, FrameFits, s1, U32Of(n));
      U32OfInverts(n);
      AppendAssociates(n, EncodeAll(Frame, bs), rest);
    }
  }

  lemma U32OfInverts(n: bytes)
    requires |n| == 4
    ensures U32Of(n) < TWO32 && U32Bytes(U32Of(n)) == n
  {
  }

  lemma ParseOwnList(bs: seq<Batch>, rest: bytes)
    requires ListFits(bs)
    ensures ParseList(FrameAll(bs) + rest) == Good(bs, rest)
  {
    hide Frame, ParseFrame, FrameFits, U32Bytes, U32Of, ParseN, EncodeAll;
    var body := EncodeAll(Frame, bs);
    AppendAssociates(U32Bytes(|bs|), body, rest);
    TakeFront(U32Bytes(|bs|), body + rest);
    U32RoundTrip(|bs|);
    FrameCodec();
    ParseEncoded(Frame, ParseFrame, FrameFits, bs, rest);
  }

  // ----- events and the handshake state -----

  function EncodeEvent(ev: Event): bytes {
    match ev
    case EvBlock(b) => [1] + Encode(b)
    case EvFinalize(h, hash) => [2] + (U64Bytes(h) + hash)
    case EvReset(bs) => [3] + FrameAll(bs)
  }

  predicate EventFits(ev: Event) {
    match ev
    case EvBlock(b) => Fits(b)
    case EvFinalize(_, _) => true
    case EvReset(bs) => ListFits(bs)
  }

  datatype Read<+T> = Failed | Got(value: T)

  function DecodeEventSpec(v: bytes): Read<Event> {
    if |v| == 0 then Failed
    else
      match v[0]
      case 1 => (match DecodeSpec(v[1..])
                 case Refused(_) => Failed
                 case Accepted(b) => Got(EvBlock(b)))
      case 2 => if |v| != 41 then Failed else Got(EvFinalize(U64Of(v[1..][..8]), v[1..][8..]))
      case 3 => (match ParseList(v[1..])
                 case Bad(_) => Failed
                 case Good(bs, _) => Got(EvReset(bs)))
      case _ => Failed
  }

  /** Every event the writer can frame is read back as published. */
  lemma EventRoundTrip(ev: Event)
    requires EventFits(ev)
    ensures DecodeEventSpec(EncodeEvent(ev)) == Got(ev)
  {
    hide Encode, DecodeSpec, FrameAll, ParseList, U64Bytes, U64Of;
    var v := EncodeEvent(ev);
    match ev
    case EvBlock(b) =>
      assert v[1..] == Encode(b);
      DecodeEncode(b);
    case EvFinalize(h, hash) =>
      var body := U64Bytes(h) + hash;
      assert v[1..] == body;
      assert body[..8] == U64Bytes(h) && body[8..] == hash;
      U64RoundTrip(h);
    case EvReset(bs) =>
      assert v[1..] == FrameAll(bs) + [];
      ParseOwnList(bs, []);
  }

  /**
   A payload is accepted exactly if it is the encoding of the event read from it; a
   reset may be followed by anything.
   */
  lemma EventAcceptedIff(v: bytes, ev: Event)
    ensures DecodeEventSpec(v) == Got(ev)
       <==> EventFits(ev) && if ev.EvReset? then EncodeEvent(ev) <= v else v == EncodeEvent(ev)
  {
    hide Encode, DecodeSpec, FrameAll, ParseList, U64Bytes, U64Of, ListFits, Fits;
    if DecodeEventSpec(v) == Got(ev) {
      AcceptedIsEncoded(v, ev);
    } else if EventFits(ev) {
      EventRoundTrip(ev);
      if ev.EvReset? && EncodeEvent(ev) <= v {
        var rest := v[|EncodeEvent(ev)|..];
        assert v[1..] == FrameAll(ev.batches) + rest;
        ParseListIff(v[1..], ev.batches, rest);
      }
    }
  }

  lemma AcceptedIsEncoded(v: bytes, ev: Event)
    requires DecodeEventSpec(v) == Got(ev)
    ensures EventFits(ev) && if ev.EvReset? then EncodeEvent(ev) <= v else v == EncodeEvent(ev)
  {
    hide Encode, DecodeSpec, FrameAll, ParseList, U64Bytes, U64Of, ListFits, Fits;
    var body := v[1..];
    assert v == [v[0]] + body;
    match ev
    case EvBlock(b) => EncodeDecode(body);
    case EvFinalize(h, hash) =>
      U64OfInverts(body[..8]);
      assert body == body[..8] + body[8..];
    case EvReset(bs) =>
      var rest := ParseList(body).rest;
      ParseListIff(body, bs, rest);
      PrefixOf([3], FrameAll(bs), rest, v);
  }

  function EncodeState(finalized: U64, layers: seq<Batch>): bytes {
    U64Bytes(finalized) + FrameAll(layers)
  }

  function DecodeStateSpec(v: bytes): Read<(U64, seq<Batch>)> {
    if |v| < 12 then Failed
    else
      match ParseList(v[8..])
      case Bad(_) => Failed
      case Good(bs, _) => Got((U64Of(v[..8]), bs))
  }

  lemma StateRoundTrip(finalized: U64, layers: seq<Batch>)
    requires ListFits(layers)
    ensures DecodeStateSpec(EncodeState(finalized, layers)) == Got((finalized, layers))
  {
    hide ParseList, EncodeAll, U64Bytes, U64Of, U32Bytes;
    var v := EncodeState(finalized, layers);
    assert v[..8] == U64Bytes(finalized) && v[8..] == FrameAll(layers) + [];
    U64RoundTrip(finalized);
    ParseOwnList(layers, []);
  }

  /** The handshake row is accepted exactly if it begins with the encoding of what is read from it. */
  lemma StateAcceptedIff(v: bytes, finalized: U64, layers: seq<Batch>)
    ensures DecodeStateSpec(v) == Got((finalized, layers)) <==> ListFits(layers) && EncodeState(finalized, layers) <= v
  {
    hide ParseList, FrameAll, ListFits, U64Bytes, U64Of;
    var head := U64Bytes(finalized);
    U64RoundTrip(finalized);
    if ListFits(layers) && EncodeState(finalized, layers) <= v {
      var rest := v[|EncodeState(finalized, layers)|..];
      assert v[..8] == head && v[8..] == FrameAll(layers) + rest;
      ParseListIff(v[8..], layers, rest);
      assert |FrameAll(layers)| >= 4 by { FramesHaveCount(layers); }
    }
    if DecodeStateSpec(v) == Got((finalized, layers)) {
      ParseListIff(v[8..], layers, ParseList(v[8..]).rest);
      U64OfInverts(v[..8]);
      assert v == head + v[8..];
      assert EncodeState(finalized, layers) == head + FrameAll(layers);
      PrefixOf(head, FrameAll(layers), ParseList(v[8..]).rest, v);
    }
  }

  lemma FramesHaveCount(bs: seq<Batch>)
    ensures |FrameAll(bs)| >= 4
  {
  }

  lemma PrefixOf(a: bytes, b: bytes, c: bytes, v: bytes)
    requires v == a + (b + c)
    ensures a + b <= v
  {
    assert v == (a + b) + c;
  }

  lemma U64OfInverts(n: bytes)
    requires |n| == 8
    ensures U64Bytes(U64Of(n)) == n
  {
  }

  // ----- what a subscriber does with events -----

  /** A subscriber's unfinalized stack; None once a finalize was refused. */
  type Stack = Option<(U64, seq<Batch>)>

  /** The same acceptance test as the in-memory view: height and hash of the oldest layer. */
  function Feed(st: Stack, ev: Event): Stack {
    match st
    case None => None
    case Some((finalized, layers)) =>
      match ev
      case EvBlock(b) => Some((finalized, layers + [b]))
      case EvReset(bs) => Some((finalized, bs))
      case EvFinalize(h, hash) =>
        if layers != [] && layers[0].block == h && layers[0].hash == hash then Some((h, layers[1..])) else None
  }

  function FeedAll(st: Stack, evs: seq<Event>): Stack {
    if evs == [] then st else Feed(FeedAll(st, evs[..|evs| - 1]), evs[|evs| - 1])
  }

  const START: Stack := Some((0, []))

  lemma {:induction false} FeedAllAppend(st: Stack, a: seq<Event>, b: seq<Event>)
    ensures FeedAll(st, a + b) == FeedAll(FeedAll(st, a), b)
  {
    if b == [] {
      assert a + b == a;
    } else {
      FeedAllAppend(st, a, b[..|b| - 1]);
      assert (a + b)[..|a + b| - 1] == a + b[..|b| - 1];
    }
  }

  lemma {:induction false} RefusedStays(evs: seq<Event>)
    ensures FeedAll(None, evs) == None
  {
    if evs != [] {
      RefusedStays(evs[..|evs| - 1]);
    }
  }

  // ----- the bus -----

  class Bus {
    var rows: Rows
    var seqNo: nat
    var finalized: U64
    var layers: seq<Batch>
    ghost var log: seq<Event>

    /** The rows hold exactly the log, and the state row is the replay of the log. */
    ghost predicate Valid()
      reads this
    {
      && seqNo == |log|
      && SeqKey in rows && StateKey in rows
      && (seqNo <= MAX_U64 ==> rows[SeqKey] == U64Bytes(seqNo))
      && rows[StateKey] == EncodeState(finalized, layers)
      && (forall i :: 0 <= i < |log| ==> EventKey(i) in rows && rows[EventKey(i)] == EncodeEvent(log[i]))
      && (forall i :: 0 <= i < |log| ==> EventFits(log[i]))
      && ListFits(layers)
    }

    /** No finalize in the log was for anything but the oldest layer. */
    ghost predicate Accepted()
      reads this
    {
      FeedAll(START, log) == Some((finalized, layers))
    }

    /** Opening as writer truncates: an empty log, nothing unfinalized. */
    constructor OpenWriter()
      ensures Valid() && Accepted() && log == [] && layers == [] && finalized == 0
    {
      seqNo, finalized, layers, log := 0, 0, [], [];
      rows := map[SeqKey := U64Bytes(0), StateKey := EncodeState(0, [])];
    }

    /** One transaction: the event row, the state row, then the counter. */
    method Publish(payload: bytes, ghost ev: Event)
      requires seqNo == |log| < MAX_U64 && payload == EncodeEvent(ev) && EventFits(ev)
      requires forall i :: 0 <= i < |log| ==> EventKey(i) in rows && rows[EventKey(i)] == EncodeEvent(log[i])
      requires forall i :: 0 <= i < |log| ==> EventFits(log[i])
      requires ListFits(layers)
      modifies this`rows, this`seqNo, this`log
      ensures Valid() && log == old(log) + [ev]
    {
      hide EncodeEvent, EncodeState, U64Bytes, EventFits;
      rows := rows[EventKey(seqNo) := payload];
      rows := rows[StateKey := EncodeState(finalized, layers)];
      seqNo := seqNo + 1;
      rows := rows[SeqKey := U64Bytes(seqNo)];
      log := log + [ev];
    }

    method PublishBlock(b: Batch)
      requires Valid() && |log| < MAX_U64 && FrameFits(b) && |layers| + 1 < TWO32
      modifies this
      ensures Valid() && log == old(log) + [EvBlock(b)]
      ensures layers == old(layers) + [b] && finalized == old(finalized)
      ensures old(Accepted()) ==> Accepted()
    {
      hide Encode, EncodeState, FrameAll;
      layers := layers + [b];
      Publish([1] + Encode(b), EvBlock(b));
    }

    /** Checks the height of the oldest layer, and only the height. */
    method PublishFinalize(height: U64, hash: Hash) returns (ok: bool)
      requires Valid() && |log| < MAX_U64
      modifies this
      ensures Valid()
      ensures ok <==> old(layers) != [] && old(layers)[0].block == height
      ensures !ok ==> log == old(log) && layers == old(layers) && finalized == old(finalized)
      ensures ok ==> log == old(log) + [EvFinalize(height, hash)] && layers == old(layers)[1..] && finalized == height
      ensures ok && old(layers)[0].hash == hash && old(Accepted()) ==> Accepted()
    {
      hide Encode, EncodeState, FrameAll, FrameFits;
      if |layers| == 0 || layers[0].block != height {
        return false;
      }
      layers := layers[1..];
      finalized := height;
      Publish([2] + (U64Bytes(height) + hash), EvFinalize(height, hash));
      return true;
    }

    method PublishReset(preferred: seq<Batch>)
      requires Valid() && |log| < MAX_U64 && ListFits(preferred)
      modifies this
      ensures Valid() && log == old(log) + [EvReset(preferred)]
      ensures layers == preferred && finalized == old(finalized)
      ensures old(Accepted()) ==> Accepted()
    {
      hide Encode, EncodeState, FrameAll;
      layers := preferred;
      Publish([3] + FrameAll(preferred), EvReset(preferred));
    }

    // ----- subscriber -----

    /** Finalized height, unfinalized layers and the next sequence number, from one snapshot. */
    method Handshake() returns (r: Read<(U64, seq<Batch>)>, next: nat)
      requires Valid() && seqNo <= MAX_U64
      ensures r == Got((finalized, layers)) && next == |log|
    {
      hide EncodeState, DecodeStateSpec, EncodeEvent, EventFits, ListFits;
      next := U64Of(rows[SeqKey]);
      r := DecodeState(rows[StateKey]);
      StateRoundTrip(finalized, layers);
    }

    /** The events from a cursor to the end of the log. */
    method Poll(from: nat) returns (events: seq<Event>, next: nat, ok: bool)
      requires Valid() && seqNo <= MAX_U64
      ensures ok
      ensures from <= |log| ==> events == log[from..] && next == |log|
      ensures from > |log| ==> events == [] && next == from
    {
      hide EncodeState, EncodeEvent, EventFits, DecodeEventSpec, ListFits;
      var cur := U64Of(rows[SeqKey]);
      events, next, ok := [], from, true;
      while next < cur
        invariant from <= next && (from <= |log| ==> next <= |log|) && (from > |log| ==> next == from)
        invariant from <= |log| ==> events == log[from..next]
        invariant from > |log| ==> events == []
      {
        EventRoundTrip(log[next]);
        var ev := DecodeEvent(rows[EventKey(next)]);
        events := events + [ev.value];
        next := next + 1;
      }
    }
  }

  method ReadFrames(s: bytes, n: nat) returns (p: Parsed<seq<Batch>>)
    ensures p == ParseFrames(s, n)
  {
    hide ParseFrame;
    var rest := s;
    var bs: seq<Batch> := [];
    var i := 0;
    PrependNothing(ParseN(ParseFrame, s, n));
    while i < n
      invariant 0 <= i <= n
      invariant ParseN(ParseFrame, s, n) == Prepend(bs, ParseN(ParseFrame, rest, n - i))
    {
      var f := ReadFrame(rest);
      if f.Bad? {
        return Bad(f.error);
      }
      ParseStep(ParseFrame, bs, rest, n - i);
      bs, rest, i := bs + [f.value], f.rest, i + 1;
    }
    assert bs + [] == bs;
    return Good(bs, rest);
  }

  method ReadFrame(s: bytes) returns (p: Parsed<Batch>)
    ensures p == ParseFrame(s)
  {
    hide DecodeSpec;
    if |s| < 4 {
      return Bad(Truncated);
    }
    var l := U32Of(s[..4]);
    var rest := s[4..];
    if |rest| < l {
      return Bad(Truncated);
    }
    if 4 + l >= TWO32 {
      return Bad(Overrun);
    }
    var d := Decode(rest[..l]);
    match d
    case Refused(e) => return Bad(e);
    case Accepted(b) => return Good(b, rest[l..]);
  }

  method DecodeEvent(v: bytes) returns (r: Read<Event>)
    ensures r == DecodeEventSpec(v)
  {
    hide DecodeSpec, ParseFrames;
    if |v| == 0 {
      return Failed;
    }
    var body := v[1..];
    match v[0] {
    case 1 =>
      var d := Decode(body);
      return if d.Accepted? then Got(EvBlock(d.batch)) else Failed;
    case 2 =>
      return if |body| != 40 then Failed else Got(EvFinalize(U64Of(body[..8]), body[8..]));
    case 3 =>
      if |body| < 4 {
        return Failed;
      }
      var p := ReadFrames(body[4..], U32Of(body[..4]));
      return if p.Good? then Got(EvReset(p.value)) else Failed;
    case _ =>
      return Failed;
    }
  }

  method DecodeState(v: bytes) returns (r: Read<(U64, seq<Batch>)>)
    ensures r == DecodeStateSpec(v)
  {
    hide ParseFrames, U32Of, U64Of;
    if |v| < 12 {
      return Failed;
    }
    var p := ReadFrames(v[8..][4..], U32Of(v[8..][..4]));
    return if p.Good? then Got((U64Of(v[..8]), p.value)) else Failed;
  }

  // ----- joining late -----

  /** Positions at which a subscriber's successive polls ended. */
  ghost predicate Cuts(from: nat, cuts: seq<nat>, end: nat) {
    && (forall i :: 0 <= i < |cuts| ==> from <= cuts[i] <= end)
    && (forall i, j :: 0 <= i < j < |cuts| ==> cuts[i] <= cuts[j])
  }

  /** Polls in chunks: the first ends at cuts[0], the next at cuts[1], and so on. */
  ghost function FeedChunks(st: Stack, log: seq<Event>, from: nat, cuts: seq<nat>): Stack
    requires from <= |log| && Cuts(from, cuts, |log|)
  {
    if cuts == [] then st
    else
      FeedAll(FeedChunks(st, log, from, cuts[..|cuts| - 1]),
              log[(if |cuts| == 1 then from else cuts[|cuts| - 2])..cuts[|cuts| - 1]])
  }

  lemma {:induction false} ChunksDoNotMatter(st: Stack, log: seq<Event>, from: nat, cuts: seq<nat>)
    requires from <= |log| && Cuts(from, cuts, |log|) && cuts != []
    ensures FeedChunks(st, log, from, cuts) == FeedAll(st, log[from..cuts[|cuts| - 1]])
  {
    hide FeedAll;
    var n := |cuts|;
    var last := cuts[n - 1];
    if n == 1 {
      assert cuts[..0] == [];
    } else {
      var mid := cuts[n - 2];
      assert cuts[..n - 1][n - 2] == mid;
      ChunksDoNotMatter(st, log, from, cuts[..n - 1]);
      FeedAllAppend(st, log[from..mid], log[mid..last]);
      assert log[from..mid] + log[mid..last] == log[from..last];
    }
  }

  /**
   A subscriber that handshakes at any committed point m and then polls in any
   chunks holds exactly the layers of one that polled everything from the start,
   and is refused nothing the other was not refused.
   */
  lemma LateJoinerCatchesUp(log: seq<Event>, m: nat, cuts: seq<nat>)
    requires m <= |log| && Cuts(m, cuts, |log|) && cuts != []
    ensures FeedChunks(FeedAll(START, log[..m]), log, m, cuts) == FeedAll(START, log[..cuts[|cuts| - 1]])
  {
    hide FeedAll, FeedChunks;
    var end := cuts[|cuts| - 1];
    ChunksDoNotMatter(FeedAll(START, log[..m]), log, m, cuts);
    FeedAllAppend(START, log[..m], log[m..end]);
    assert log[..m] + log[m..end] == log[..end];
  }

  /** If the whole log is accepted, so is every prefix: no poll along the way is refused. */
  lemma PrefixAccepted(log: seq<Event>, m: nat)
    requires m <= |log| && FeedAll(START, log).Some?
    ensures FeedAll(START, log[..m]).Some?
  {
    hide FeedAll;
    assert log[..m] + log[m..] == log;
    FeedAllAppend(START, log[..m], log[m..]);
    RefusedStays(log[m..]);
  }
}
