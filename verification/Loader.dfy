/**
 The bulk baseline loader (follower/sync/sync.go over store.Baseline): workers
 walk the account trie in 256 segments, then the queued storage tries, and hand
 rows to one buffered writer. Block capture may write between its commits. A run
 can crash at any point, losing every row the writer had not committed, and a later
 run resumes from what was committed.
 */
module Loader {
  import opened Bytes
  import opened Schema
  import opened Keys
  import Capture
  import Store

  type KV = Store.KV

  // ----- the tries being copied -----

  datatype Leaf = Leaf(account: Account, root: Hash, slots: map<Hash, Hash>)

  /** The state at S as its tries hold it; giants lists the sub-ranges of each trie that is split. */
  datatype World = World(
    accounts: map<Hash, Leaf>,
    codes: map<Hash, bytes>,
    emptyRoot: Hash,
    emptyCode: Hash,
    giants: map<Hash, seq<Range>>)

  predicate HasStorage(w: World, leaf: Leaf) {
    leaf.root != ZERO && leaf.root != w.emptyRoot
  }

  predicate NeedsCode(w: World, h: Hash) {
    h != ZERO && h != w.emptyCode
  }

  ghost predicate WorldOk(w: World) {
    && (forall a :: a in w.accounts ==> (HasStorage(w, w.accounts[a]) <==> w.accounts[a].slots != map[]))
    && (forall a :: a in w.accounts && NeedsCode(w, w.accounts[a].account.codeHash) ==>
          w.accounts[a].account.codeHash in w.codes)
    && (forall a :: a in w.giants ==>
          w.giants[a] != [] && |w.giants[a][0].lo| == 32 && Contiguous(w.giants[a][0].lo, w.giants[a]))
  }

  // ----- the ranges workers walk -----

  /** A segment of the account trie; the sequential start of a storage trie; one sub-range of a giant. */
  datatype Part = Segment(i: nat) | Warmup(a: Hash) | Sub(a: Hash, j: nat)

  predicate PartOf(w: World, p: Part) {
    match p
    case Segment(i) => i < 256
    case Warmup(a) => a in w.accounts
    case Sub(a, j) => a in w.accounts && a in w.giants && j < |w.giants[a]|
  }

  function Top(): nat {
    Pow256(32)
  }

  function Lo(w: World, p: Part): nat {
    match p
    case Segment(i) => i * Pow256(31)
    case Warmup(_) => 0
    case Sub(a, j) => if PartOf(w, p) then Val(w.giants[a][j].lo) else 0
  }

  /** The last position of the part. */
  function Hi(w: World, p: Part): int {
    match p
    case Segment(i) => (i + 1) * Pow256(31) - 1
    case Warmup(a) => if a in w.giants && w.giants[a] != [] then Val(w.giants[a][0].lo) - 1 else Top() - 1
    case Sub(a, j) =>
      if PartOf(w, p) && w.giants[a][j].hi.Some? then Val(w.giants[a][j].hi.value) else Top() - 1
  }

  /** Where a response is cut. The warmup has no end: it stops by counting requests. */
  function End(w: World, p: Part): int {
    if p.Warmup? then Top() - 1 else Hi(w, p)
  }

  function Leaves(w: World, p: Part): set<Hash> {
    match p
    case Segment(_) => w.accounts.Keys
    case Warmup(a) => if a in w.accounts then w.accounts[a].slots.Keys else {}
    case Sub(a, _) => if a in w.accounts then w.accounts[a].slots.Keys else {}
  }

  predicate Within(w: World, p: Part, k: Hash) {
    Lo(w, p) <= Val(k) <= Hi(w, p)
  }

  predicate In(w: World, p: Part, k: Hash) {
    k in Leaves(w, p) && Within(w, p, k)
  }

  /** A hash lies in the segment its first byte names. */
  lemma SegmentIsFirstByte(w: World, k: Hash)
    ensures Within(w, Segment(k[0]), k)
  {
    hide Val, Pow256;
    ValHead(k);
    OneMore(k[0], Pow256(31));
  }

  function RowKey(p: Part, k: Hash): Key {
    if p.Segment? then BaseAccount(k) else BaseSlot(p.a, k)
  }

  predicate Has(kv: KV, p: Part, k: Hash) {
    RowKey(p, k) in kv
  }

  /** The rows of the part are the first leaves of it. */
  ghost predicate Closed(w: World, kv: KV, p: Part) {
    forall j: Hash, k: Hash :: In(w, p, j) && In(w, p, k) && Val(j) < Val(k) && Has(kv, p, k) ==> Has(kv, p, j)
  }

  ghost predicate Covered(w: World, kv: KV, p: Part) {
    forall k: Hash :: In(w, p, k) ==> Has(kv, p, k)
  }

  // ----- what is on disk -----

  /** Committed rows, with the progress bitmap as the set of finished segments. */
  datatype Disk = Disk(kv: KV, done: set<nat>)

  /** A code row under a hash the tries refer to holds the code of that hash. */
  ghost predicate CodesTrue(w: World, kv: KV) {
    forall h: Hash :: Code(h) in kv && h in w.codes ==> kv[Code(h)] == w.codes[h]
  }

  ghost predicate TrueRows(w: World, kv: KV) {
    && (forall a: Hash :: BaseAccount(a) in kv ==>
          a in w.accounts && kv[BaseAccount(a)] == EncodeAccount(w.accounts[a].account))
    && (forall a: Hash, s: Hash :: BaseSlot(a, s) in kv ==>
          a in w.accounts && s in w.accounts[a].slots && kv[BaseSlot(a, s)] == w.accounts[a].slots[s])
    && (forall a: Hash :: Queue(a) in kv ==>
          a in w.accounts && HasStorage(w, w.accounts[a]) && kv[Queue(a)] == w.accounts[a].root)
    && CodesTrue(w, kv)
  }

  ghost predicate SlotsFull(w: World, kv: KV, a: Hash)
    requires a in w.accounts
  {
    forall s: Hash :: s in w.accounts[a].slots ==> BaseSlot(a, s) in kv
  }

  /** A committed account row without a queue row has all its storage. */
  ghost predicate QueueOk(w: World, kv: KV) {
    forall a: Hash :: a in w.accounts && BaseAccount(a) in kv && Queue(a) !in kv ==> SlotsFull(w, kv, a)
  }

  ghost predicate AllClosed(w: World, kv: KV) {
    forall p :: PartOf(w, p) ==> Closed(w, kv, p)
  }

  /** No sub-range of a giant has a row before its warmup is complete. */
  ghost predicate WarmupFirst(w: World, kv: KV) {
    forall p, s: Hash :: PartOf(w, p) && p.Sub? && Within(w, p, s) && Has(kv, p, s) ==> Covered(w, kv, Warmup(p.a))
  }

  ghost predicate CodesFull(w: World, kv: KV) {
    forall a: Hash :: a in w.accounts && NeedsCode(w, w.accounts[a].account.codeHash) ==>
      Code(w.accounts[a].account.codeHash) in kv
  }

  /** Every leaf has its row and every referenced code its code row. */
  ghost predicate Full(w: World, kv: KV) {
    && (forall a: Hash :: a in w.accounts ==> BaseAccount(a) in kv && SlotsFull(w, kv, a))
    && CodesFull(w, kv)
  }

  ghost predicate DiskOk(w: World, d: Disk) {
    && TrueRows(w, d.kv)
    && QueueOk(w, d.kv)
    && AllClosed(w, d.kv)
    && WarmupFirst(w, d.kv)
    && (forall i :: i in d.done && i < 256 ==> Covered(w, d.kv, Segment(i)))
    && (MetaBaselineComplete in d.kv ==> Full(w, d.kv))
  }

  // ----- the writer's operations -----

  datatype Op = Put(k: Key, v: bytes) | Del(k: Key) | Mark(seg: nat)

  function Apply(d: Disk, op: Op): Disk {
    match op
    case Put(k, v) => d.(kv := d.kv[k := v])
    case Del(k) => d.(kv := d.kv - {k})
    case Mark(seg) => d.(done := d.done + {seg})
  }

  function ApplyAll(d: Disk, ops: seq<Op>): Disk {
    if ops == [] then d else Apply(ApplyAll(d, ops[..|ops| - 1]), ops[|ops| - 1])
  }

  /** The loader writes baseline, queue and code rows, and deletes only queue rows. */
  predicate Sane(op: Op) {
    match op
    case Put(k, _) => k.BaseAccount? || k.BaseSlot? || k.Queue? || k.Code?
    case Del(k) => k.Queue?
    case Mark(_) => true
  }

  /** The rows one leaf becomes, in the order the writer adds them. */
  function Bundle(w: World, p: Part, k: Hash): seq<Op>
    requires k in Leaves(w, p)
  {
    if p.Segment? then
      var leaf := w.accounts[k];
      (if HasStorage(w, leaf) then [Put(Queue(k), leaf.root)] else [])
      + [Put(BaseAccount(k), EncodeAccount(leaf.account))]
    else
      [Put(BaseSlot(p.a, k), w.accounts[p.a].slots[k])]
  }

  // ----- one worker's walk -----

  /** A verified response: leaves from the requested start on, none skipped. */
  datatype Page = Page(keys: seq<Hash>, more: bool)

  ghost predicate Legal(leaves: set<Hash>, start: nat, page: Page) {
    && Ascending(page.keys)
    && (forall k :: k in page.keys ==> k in leaves && start <= Val(k))
    && (forall k :: k in leaves && start <= Val(k) ==>
          k in page.keys || (page.more && forall j :: j in page.keys ==> Val(j) < Val(k)))
  }

  /** Leaves received and not yet handed to the writer; where the next request starts, unless exhausted. */
  datatype Walker = Walker(todo: seq<Hash>, next: Option<nat>)

  /** The keys up to the end of a range. */
  function Cut(keys: seq<Hash>, end: int): (r: seq<Hash>)
    ensures r <= keys
  {
    if keys == [] || Val(keys[|keys| - 1]) <= end then keys else Cut(keys[..|keys| - 1], end)
  }

  /** How a response moves a walk on; None is the error of an empty response that promises more. */
  function Received(page: Page, end: int): Option<Walker> {
    var kept := Cut(page.keys, end);
    if |kept| < |page.keys| || !page.more then Some(Walker(kept, None))
    else if page.keys == [] then None
    else
      var after := Val(page.keys[|page.keys| - 1]) + 1;
      Some(Walker(kept, if after == Top() then None else Some(after)))
  }

  lemma {:induction false} CutIsKept(keys: seq<Hash>, end: int, n: nat)
    requires n <= |keys|
    requires forall i :: 0 <= i < |keys| ==> (i < n <==> Val(keys[i]) <= end)
    ensures Cut(keys, end) == keys[..n]
    decreases |keys|
  {
    hide Val;
    if |keys| > n {
      var front := keys[..|keys| - 1];
      CutIsKept(front, end, n);
      assert front[..n] == keys[..n];
    } else {
      assert keys[..n] == keys;
    }
  }

  /** What a worker does with a response: cut it, and step past its last key. */
  method Advance(page: Page, end: Option<Hash>) returns (r: Option<Walker>)
    requires Ascending(page.keys)
    ensures r == Received(page, if end.Some? then Val(end.value) else Top() - 1)
  {
    hide Val, Cut, Pow256;
    var bound := if end.Some? then Val(end.value) else Top() - 1;
    var kept, done := TruncateAt(page.keys, end);
    forall i | 0 <= i < |page.keys| ensures i < |kept| <==> Val(page.keys[i]) <= bound {
      BelowTop(page.keys[i]);
    }
    CutIsKept(page.keys, bound, |kept|);
    var todo := page.keys[..|kept|];
    if done || !page.more {
      return Some(Walker(todo, None));
    }
    if |kept| == 0 {
      return None;
    }
    var next := IncKey(kept[|kept| - 1]);
    if next.None? {
      return Some(Walker(todo, None));
    }
    BelowTop(next.value);
    return Some(Walker(todo, Some(Val(next.value))));
  }

  lemma BelowTop(k: Hash)
    ensures Val(k) < Top()
  {
  }

  ghost predicate WalkerOk(w: World, kv: KV, p: Part, wk: Walker) {
    && Ascending(wk.todo)
    && (forall k :: k in wk.todo ==> In(w, p, k))
    && (wk.next.Some? ==> Lo(w, p) <= wk.next.value && forall k :: k in wk.todo ==> Val(k) < wk.next.value)
    && (forall k: Hash :: In(w, p, k) ==>
          Has(kv, p, k) || k in wk.todo || (wk.next.Some? && wk.next.value <= Val(k)))
  }

  /** A split trie's warmup stops where the sub-ranges begin, on every run. */
  ghost predicate Reproducible(w: World, p: Part, wk: Walker) {
    p.Warmup? && p.a in w.giants ==> wk.next.Some? && wk.next.value <= Hi(w, p) + 1
  }

  predicate Exhausted(w: World, p: Part, wk: Walker) {
    wk.todo == [] && (wk.next.None? || wk.next.value > Hi(w, p))
  }

  // ----- resuming -----

  /** The greatest committed row of the part, if there is one. */
  ghost predicate IsWatermark(w: World, kv: KV, p: Part, wm: Option<Hash>) {
    match wm
    case None => forall k: Hash :: Within(w, p, k) ==> !Has(kv, p, k)
    case Some(h) =>
      Within(w, p, h) && Has(kv, p, h) && forall k: Hash :: Within(w, p, k) && Has(kv, p, k) ==> Val(k) <= Val(h)
  }

  /** A segment with no key after its watermark starts over; a sub-range then has nothing left. */
  function Resume(w: World, p: Part, wm: Option<Hash>): Walker {
    if p.Warmup? || wm.None? then Walker([], Some(Lo(w, p)))
    else if Val(wm.value) + 1 < Top() then Walker([], Some(Val(wm.value) + 1))
    else if p.Segment? then Walker([], Some(Lo(w, p)))
    else Walker([], None)
  }

  // ----- the whole loader -----

  datatype Phase = Idle | Accounts | Storage | Swept

  datatype Machine = Machine(
    disk: Disk,
    buf: seq<Op>,
    phase: Phase,
    walkers: map<Part, Walker>,
    finished: set<Part>)
  {
    function Written(): Disk {
      ApplyAll(disk, buf)
    }
  }

  datatype Event =
    | Begin
    | Start(p: Part, wm: Option<Hash>)
    | Fetch(p: Part, page: Page)
    | Send(p: Part)
    | Finish(p: Part)
    | Dequeue(a: Hash)
    | Claim(h: Hash)
    | Commit(n: nat)
    | ToStorage
    | Sweep(missing: seq<Hash>)
    | Complete
    | Block(b: Capture.Batch)
    | Crash

  /** Codes are content-addressed: a captured code is the one its hash names. */
  ghost predicate Addressed(w: World, b: Capture.Batch) {
    forall op :: op in b.ops && op.OpCode? && op.codeHash in w.codes ==> op.code == w.codes[op.codeHash]
  }

  ghost predicate Allowed(w: World, m: Machine, e: Event) {
    match e
    case Begin => m.phase == Idle && m.buf == []
    case Start(p, wm) =>
      && PartOf(w, p) && p !in m.walkers && p !in m.finished
      && (p.Segment? ==> m.phase == Accounts && p.i !in m.disk.done)
      && (p.Warmup? ==> m.phase == Storage && Queue(p.a) in m.disk.kv)
      && (p.Sub? ==> m.phase == Storage && Warmup(p.a) in m.finished)
      && (!p.Warmup? ==> IsWatermark(w, m.disk.kv, p, wm))
    case Fetch(p, page) =>
      && p in m.walkers && m.walkers[p].todo == [] && !Exhausted(w, p, m.walkers[p])
      && Legal(Leaves(w, p), m.walkers[p].next.value, page)
      && Received(page, End(w, p)).Some?
      && Reproducible(w, p, Received(page, End(w, p)).value)
    case Send(p) => p in m.walkers && m.walkers[p].todo != [] && m.walkers[p].todo[0] in Leaves(w, p)
    case Finish(p) => p in m.walkers && Exhausted(w, p, m.walkers[p])
    case Dequeue(a) =>
      && m.phase == Storage && a in w.accounts && Warmup(a) in m.finished
      && (a in w.giants ==> forall j :: 0 <= j < |w.giants[a]| ==> Sub(a, j) in m.finished)
    case Claim(h) => m.phase == Accounts && h in w.codes
    case Commit(n) => n <= |m.buf|
    case ToStorage =>
      && m.phase == Accounts && m.buf == []
      && forall i :: 0 <= i < 256 ==> i in m.disk.done || Segment(i) in m.finished
    case Sweep(missing) =>
      && m.phase == Storage && m.buf == []
      && (forall h :: h in missing ==> h in w.codes)
      && (forall a: Hash :: a in w.accounts && BaseAccount(a) in m.disk.kv ==>
            var h := w.accounts[a].account.codeHash;
            NeedsCode(w, h) && Code(h) !in m.disk.kv ==> h in missing)
    case Complete => m.phase == Swept && m.buf == [] && forall a: Hash :: Queue(a) !in m.disk.kv
    case Block(b) => Addressed(w, b)
    case Crash => true
  }

  function CodePuts(w: World, hs: seq<Hash>): seq<Op>
    requires forall h :: h in hs ==> h in w.codes
  {
    if hs == [] then [] else CodePuts(w, hs[..|hs| - 1]) + [Put(Code(hs[|hs| - 1]), w.codes[hs[|hs| - 1]])]
  }

  ghost function Next(w: World, m: Machine, e: Event): Machine
    requires Allowed(w, m, e)
  {
    match e
    case Begin => m.(phase := Accounts)
    case Start(p, wm) => m.(walkers := m.walkers[p := Resume(w, p, wm)])
    case Fetch(p, page) => m.(walkers := m.walkers[p := Received(page, End(w, p)).value])
    case Send(p) =>
      var wk := m.walkers[p];
      m.(buf := m.buf + Bundle(w, p, wk.todo[0]), walkers := m.walkers[p := wk.(todo := wk.todo[1..])])
    case Finish(p) =>
      m.(walkers := m.walkers - {p}, finished := m.finished + {p},
         buf := if p.Segment? then m.buf + [Mark(p.i)] else m.buf)
    case Dequeue(a) => m.(buf := m.buf + [Del(Queue(a))])
    case Claim(h) => m.(buf := m.buf + [Put(Code(h), w.codes[h])])
    case Commit(n) => m.(disk := ApplyAll(m.disk, m.buf[..n]), buf := m.buf[n..])
    case ToStorage => m.(phase := Storage)
    case Sweep(missing) => m.(phase := Swept, buf := CodePuts(w, missing))
    case Complete => m.(phase := Idle, disk := Disk(m.disk.kv[MetaBaselineComplete := [1]], {}),
                        walkers := map[], finished := {})
    case Block(b) => m.(disk := m.disk.(kv := Store.AfterWriteBlock(m.disk.kv, b)))
    case Crash => m.(buf := [], phase := Idle, walkers := map[], finished := {})
  }

  // ----- the invariant -----

  /** Whatever prefix of the buffer is committed when a crash comes, the disk is sound. */
  ghost predicate PrefixesOk(w: World, d: Disk, buf: seq<Op>) {
    forall n :: 0 <= n <= |buf| ==> DiskOk(w, ApplyAll(d, buf[..n]))
  }

  ghost predicate Inv(w: World, m: Machine) {
    && PrefixesOk(w, m.disk, m.buf)
    && (forall op :: op in m.buf ==> Sane(op))
    && (forall p :: p in m.walkers ==> PartOf(w, p) && WalkerOk(w, m.Written().kv, p, m.walkers[p]))
    && (forall p :: p in m.walkers && p.Sub? ==> Warmup(p.a) in m.finished)
    && (forall p :: p in m.finished ==> PartOf(w, p) && Covered(w, m.Written().kv, p))
    && (m.phase == Storage || m.phase == Swept ==> forall i :: 0 <= i < 256 ==> Covered(w, m.Written().kv, Segment(i)))
    && (m.phase == Swept ==> CodesFull(w, m.Written().kv))
  }
}
