/**
 The batch engine (engine/engine.go) over the tip view: per-call overlays, one
 read phase per batch, and the tip-hash stamp that decides whether a batch's
 results still stand.
 */
module Engine {
  import opened Bytes
  import opened Schema
  import opened Capture
  import opened Reference
  import opened Store
  import opened History
  import opened Pins
  import opened TipView
  import Mem

  // ----- the per-call overlay -----

  datatype Overlay = Overlay(balances: map<Address, U256>, slots: map<SKey, Hash>)

  const NO_OVERRIDES := Overlay(map[], map[])

  /** What a running call asks of its view. */
  datatype Query =
    | Balance(a: Address)
    | Slot(k: SKey)
    | Shared(a: Address)
    | SetBalance(a: Address, amount: U256)
    | SetSlot(k: SKey, v: Hash)

  datatype Answer = Amount(n: U256) | Word(h: Hash) | Info(x: Option<Account>) | Failed(e: Store.Error) | Noted

  function BalanceOf(x: Option<Account>): U256 {
    if x.Some? then x.value.balance else 0
  }

  /** Overridden balances and slots win; everything else is the shared state's. */
  function Respond(o: Overlay, account: Result<Option<Account>>, slot: Result<Hash>, q: Query): Answer {
    match q
    case Balance(a) =>
      if a in o.balances then Amount(o.balances[a])
      else if account.Ok? then Amount(BalanceOf(account.value)) else Failed(account.error)
    case Slot(k) =>
      if k in o.slots then Word(o.slots[k])
      else if slot.Ok? then Word(slot.value) else Failed(slot.error)
    case Shared(_) => if account.Ok? then Info(account.value) else Failed(account.error)
    case SetBalance(_, _) => Noted
    case SetSlot(_, _) => Noted
  }

  function Overridden(o: Overlay, q: Query): Overlay {
    match q
    case SetBalance(a, n) => o.(balances := o.balances[a := n])
    case SetSlot(k, v) => o.(slots := o.slots[k := v])
    case _ => o
  }

  function Subject(q: Query): SKey {
    match q
    case Slot(k) => k
    case SetSlot(k, _) => k
    case Balance(a) => SKey(a, ZERO)
    case Shared(a) => SKey(a, ZERO)
    case SetBalance(a, _) => SKey(a, ZERO)
  }

  /** A call of the shared state's account read: the answer, and the executor's buffer after it. */
  function ReadAccount(v: TipView.View, buf: Buffer, a: Address,
      dba: Result<Option<Account>>): (Result<Option<Account>>, Buffer)
  {
    (FindAccount(v, buf, a, dba), if MissesAccount(v, buf, a) then PinAccountIn(buf, a, dba) else buf)
  }

  /** A call of its slot read: a slot that comes from the store pins its account too. */
  function ReadSlot(v: TipView.View, buf: Buffer, k: SKey, dbs: Result<Hash>,
      dba: Result<Option<Account>>): (Result<Hash>, Buffer)
  {
    var missed := MissesSlot(v, buf, k) && dbs.Ok?;
    var unknown := k.addr !in v.base && k.addr !in buf.accounts;
    (if missed && unknown && dba.Err? then Err(dba.error) else FindSlot(v, buf, k, dbs),
     if !missed then buf
     else if unknown then PinAccountIn(PinSlotIn(buf, k, dbs), k.addr, dba)
     else PinSlotIn(buf, k, dbs))
  }

  predicate ReadsAccount(o: Overlay, q: Query) {
    q.Shared? || (q.Balance? && q.a !in o.balances)
  }

  predicate ReadsSlot(o: Overlay, q: Query) {
    q.Slot? && q.k !in o.slots
  }

  /** One executor's view: the shared state, its side buffer, and the overlay maps cleared before each call. */
  class View {
    const st: Mem.State
    const sb: Mem.SideBuffer
    var balances: map<Address, U256>
    var slots: map<SKey, Hash>

    ghost function Overrides(): Overlay
      reads this
    {
      Overlay(balances, slots)
    }

    constructor (st: Mem.State, sb: Mem.SideBuffer)
      ensures Overrides() == NO_OVERRIDES && this.st == st && this.sb == sb
    {
      this.st, this.sb := st, sb;
      balances, slots := map[], map[];
    }

    method Reset()
      modifies this
      ensures Overrides() == NO_OVERRIDES
    {
      balances, slots := map[], map[];
    }

    /** Answers one question of a running call. Only what the overlay does not hold is read from the shared state. */
    method Ask(q: Query) returns (r: Answer)
      requires st.Valid()
      modifies this`balances, this`slots, sb`accounts, sb`slots
      ensures var o, v, buf, k := old(Overrides()), old(st.Value()), old(sb.Value()), Subject(q);
              var dba := Store.GetAccount(st.db.kv, st.db.keccak, k.addr, LATEST);
              var dbs := Store.GetSlot(st.db.kv, st.db.keccak, k, LATEST);
              && r == Respond(o, ReadAccount(v, buf, k.addr, dba).0, ReadSlot(v, buf, k, dbs, dba).0, q)
              && Overrides() == Overridden(o, q)
              && sb.Value() == (if ReadsSlot(o, q) then ReadSlot(v, buf, k, dbs, dba).1
                                else if ReadsAccount(o, q) then ReadAccount(v, buf, k.addr, dba).1
                                else buf)
    {
      hide Mem.State.Valid, Mem.State.Value, FindAccount, FindSlot, MissesAccount, MissesSlot, Store.GetAccount,
           Store.GetSlot;
      match q {
        case SetBalance(a, n) =>
          balances := balances[a := n];
          return Noted;
        case SetSlot(k, v) =>
          slots := slots[k := v];
          return Noted;
        case Balance(a) =>
          if a in balances {
            return Amount(balances[a]);
          }
          var x := st.Account(a, sb);
          return if x.Ok? then Amount(BalanceOf(x.value)) else Failed(x.error);
        case Slot(k) =>
          if k in slots {
            return Word(slots[k]);
          }
          var x := st.Slot(k, sb);
          return if x.Ok? then Word(x.value) else Failed(x.error);
        case Shared(a) =>
          var x := st.Account(a, sb);
          return if x.Ok? then Info(x.value) else Failed(x.error);
      }
    }
  }

  // ----- calls -----

  /** One question a call asked, and what it was told. */
  datatype Entry = Entry(q: Query, answer: Answer)

  function OverlayAfter(tr: seq<Entry>): Overlay {
    if tr == [] then NO_OVERRIDES else Overridden(OverlayAfter(tr[..|tr| - 1]), tr[|tr| - 1].q)
  }

  /** The call was answered throughout from one state, with an overlay that started empty. */
  ghost predicate AnsweredBy(st: State, tr: seq<Entry>) {
    forall i :: 0 <= i < |tr| ==>
      var k := Subject(tr[i].q);
      tr[i].answer == Respond(OverlayAfter(tr[..i]), Ok(st.Account(k.addr)), Ok(st.Slot(k)), tr[i].q)
  }

  predicate SetsBalance(q: Query, a: Address) {
    q.SetBalance? && q.a == a
  }

  predicate SetsSlot(q: Query, k: SKey) {
    q.SetSlot? && q.k == k
  }

  /** The last question before n that sets the balance. */
  ghost predicate LastSetsBalance(tr: seq<Entry>, n: nat, i: nat, a: Address) {
    i < n <= |tr| && SetsBalance(tr[i].q, a) && forall j :: i < j < n ==> !SetsBalance(tr[j].q, a)
  }

  ghost predicate LastSetsSlot(tr: seq<Entry>, n: nat, i: nat, k: SKey) {
    i < n <= |tr| && SetsSlot(tr[i].q, k) && forall j :: i < j < n ==> !SetsSlot(tr[j].q, k)
  }

  /** The overlay holds what was set last. */
  lemma {:induction false} BalanceSetLast(tr: seq<Entry>, n: nat, i: nat, a: Address)
    requires LastSetsBalance(tr, n, i, a)
    ensures a in OverlayAfter(tr[..n]).balances && OverlayAfter(tr[..n]).balances[a] == tr[i].q.amount
    decreases n
  {
    assert tr[..n][..n - 1] == tr[..n - 1];
    if i < n - 1 {
      BalanceSetLast(tr, n - 1, i, a);
      assert !SetsBalance(tr[n - 1].q, a);
    }
  }

  lemma {:induction false} SlotSetLast(tr: seq<Entry>, n: nat, i: nat, k: SKey)
    requires LastSetsSlot(tr, n, i, k)
    ensures k in OverlayAfter(tr[..n]).slots && OverlayAfter(tr[..n]).slots[k] == tr[i].q.v
    decreases n
  {
    assert tr[..n][..n - 1] == tr[..n - 1];
    if i < n - 1 {
      SlotSetLast(tr, n - 1, i, k);
      assert !SetsSlot(tr[n - 1].q, k);
    }
  }

  lemma {:induction false} NothingSet(tr: seq<Entry>, n: nat, a: Address, k: SKey)
    requires n <= |tr|
    ensures (forall j :: 0 <= j < n ==> !SetsBalance(tr[j].q, a)) ==> a !in OverlayAfter(tr[..n]).balances
    ensures (forall j :: 0 <= j < n ==> !SetsSlot(tr[j].q, k)) ==> k !in OverlayAfter(tr[..n]).slots
    decreases n
  {
    if n > 0 {
      NothingSet(tr, n - 1, a, k);
      assert tr[..n][..n - 1] == tr[..n - 1];
    }
  }

  /**
   What a call is told about a balance: what it set last itself, or the state's own
   balance, zero for an account that does not exist.
   */
  lemma CallIsToldBalance(st: State, tr: seq<Entry>, n: nat, a: Address)
    requires AnsweredBy(st, tr) && n < |tr| && tr[n].q == Balance(a)
    ensures forall i: nat :: LastSetsBalance(tr, n, i, a) ==> tr[n].answer == Amount(tr[i].q.amount)
    ensures (forall j :: 0 <= j < n ==> !SetsBalance(tr[j].q, a)) ==>
              && (a in st.accounts ==> tr[n].answer == Amount(st.accounts[a].balance))
              && (a !in st.accounts ==> tr[n].answer == Amount(0))
  {
    hide OverlayAfter;
    NothingSet(tr, n, a, SKey(a, ZERO));
    forall i: nat | LastSetsBalance(tr, n, i, a) ensures tr[n].answer == Amount(tr[i].q.amount) {
      BalanceSetLast(tr, n, i, a);
    }
  }

  /** The same for a slot; an account is always the state's. */
  lemma CallIsToldState(st: State, tr: seq<Entry>, n: nat, a: Address, k: SKey)
    requires AnsweredBy(st, tr) && n < |tr|
    ensures tr[n].q == Slot(k) ==>
              && (forall i: nat :: LastSetsSlot(tr, n, i, k) ==> tr[n].answer == Word(tr[i].q.v))
              && ((forall j :: 0 <= j < n ==> !SetsSlot(tr[j].q, k)) ==> tr[n].answer == Word(st.Slot(k)))
    ensures tr[n].q == Shared(a) ==> tr[n].answer == Info(st.Account(a))
  {
    hide OverlayAfter;
    NothingSet(tr, n, a, k);
    forall i: nat | LastSetsSlot(tr, n, i, k) && tr[n].q == Slot(k) ensures tr[n].answer == Word(tr[i].q.v) {
      SlotSetLast(tr, n, i, k);
    }
  }

  function LiveAccount(w: World, j: nat, a: Address): Result<Option<Account>>
    requires j < |w.view.buffers|
  {
    ReadAccount(w.view, w.view.buffers[j], a, DbAccount(w, a)).0
  }

  function LiveSlot(w: World, j: nat, k: SKey): Result<Hash>
    requires j < |w.view.buffers|
  {
    ReadSlot(w.view, w.view.buffers[j], k, DbSlot(w, k), DbAccount(w, k.addr)).0
  }

  /** On a complete baseline the view's reads are the lookups of the tip view. */
  lemma ReadsAreLookups(w: World, j: nat, k: SKey)
    requires Inv(w) && j < |w.view.buffers| && MetaBaselineComplete in w.kv
    ensures LiveAccount(w, j, k.addr) == FindAccount(w.view, w.view.buffers[j], k.addr, DbAccount(w, k.addr))
    ensures LiveSlot(w, j, k) == FindSlot(w.view, w.view.buffers[j], k, DbSlot(w, k))
  {
    hide FindAccount, FindSlot, DbAccount, DbSlot, MissesSlot, BaseInRange, BuffersInRange;
    StoreAnswersInRange(w, k.addr, k);
  }

  /** The call was answered by executor j, entry i at moment times[i] of the run. */
  ghost predicate AnsweredLive(ws: seq<World>, j: nat, times: seq<nat>, tr: seq<Entry>) {
    && |times| == |tr|
    && forall i :: 0 <= i < |tr| ==>
         && times[i] < |ws| && j < |ws[times[i]].view.buffers|
         && var w := ws[times[i]];
            var k := Subject(tr[i].q);
            tr[i].answer == Respond(OverlayAfter(tr[..i]), LiveAccount(w, j, k.addr), LiveSlot(w, j, k), tr[i].q)
  }

  function Answers(tr: seq<Entry>): seq<Answer> {
    if tr == [] then [] else Answers(tr[..|tr| - 1]) + [tr[|tr| - 1].answer]
  }

  /** A call is a deterministic program: what it asks next depends on what it was told. */
  ghost predicate Follows(program: imap<seq<Answer>, Query>, tr: seq<Entry>) {
    forall i :: 0 <= i < |tr| ==> Answers(tr[..i]) in program && tr[i].q == program[Answers(tr[..i])]
  }

  /** On one state a program has one evaluation: two of them agree as far as both go. */
  lemma {:induction false} OneEvaluation(st: State, program: imap<seq<Answer>, Query>, x: seq<Entry>, y: seq<Entry>,
      n: nat)
    requires AnsweredBy(st, x) && AnsweredBy(st, y) && Follows(program, x) && Follows(program, y)
    requires n <= |x| && n <= |y|
    ensures x[..n] == y[..n]
    decreases n
  {
    hide Respond, Overridden, Subject;
    if n > 0 {
      OneEvaluation(st, program, x, y, n - 1);
      assert x[..n] == x[..n - 1] + [x[n - 1]];
      assert y[..n] == y[..n - 1] + [y[n - 1]];
    }
  }

  // ----- the stamp -----

  /** How a step moves the tip hash. An empty reset leaves it alone. */
  function TipAfter(w: World, tip: Hash, step: Step): Hash {
    match step
    case ApplyBlock(b) => b.hash
    case Finalize(block, hash) => if FinalizeMatches(w.view, block, hash) && |w.view.layers| == 1 then hash else tip
    case Reset(preferred) => if preferred == [] then tip else preferred[|preferred| - 1].hash
    case _ => tip
  }

  /** An empty reset has dropped layers and no block has come since. */
  function StaleAfter(w: World, stale: bool, step: Step): bool {
    match step
    case ApplyBlock(_) => false
    case Reset(preferred) => preferred == [] && (stale || w.view.layers != [])
    case _ => stale
  }

  /** The stamp a batch would take at each moment, and whether it has gone stale. */
  datatype Stamp = Stamp(tip: Hash, stale: bool)

  ghost predicate Stamped(ws: seq<World>, steps: seq<Step>, stamps: seq<Stamp>) {
    && |ws| == |stamps| == |steps| + 1
    && stamps[0] == Stamp(ZERO, false)
    && forall n :: 0 <= n < |steps| ==>
         stamps[n + 1] == Stamp(TipAfter(ws[n], stamps[n].tip, steps[n]), StaleAfter(ws[n], stamps[n].stale, steps[n]))
  }

  /** A block hash names one chain, and the zero hash none. */
  ghost predicate Named(chains: imap<Hash, seq<Batch>>, ws: seq<World>) {
    && ZERO !in chains
    && (forall h :: h in chains ==> chains[h] != [] && chains[h][|chains[h]| - 1].hash == h)
    && forall n :: 0 <= n < |ws| && ws[n].folded <= |ws[n].store.blocks| && Seen(ws[n]) != [] ==>
         var tip := Seen(ws[n])[|Seen(ws[n])| - 1].hash;
         tip in chains && chains[tip] == Seen(ws[n])
  }

  /** Only new blocks and resets change the chain the view stands for. */
  lemma SeenAfter(w: World, step: Step)
    requires OnChain(w) && Allowed(w, step)
    ensures var w' := Next(w, step);
            w'.folded <= |w'.store.blocks| &&
            Seen(w') == match step
                        case ApplyBlock(b) => Seen(w) + [b]
                        case Reset(preferred) => w.store.blocks[..w.folded] + preferred
                        case _ => Seen(w)
    ensures Next(w, step).store.base == w.store.base
    ensures !step.ApplyBlock? && !step.Reset? && !(step.Finalize? && FinalizeMatches(w.view, step.block, step.hash)) ==>
              Next(w, step).view.layers == w.view.layers && Next(w, step).folded == w.folded
  {
    hide Respects, Represents, AfterWriteBlock, PinOps;
    var w' := Next(w, step);
    if step.Commit? {
      assert w'.store.blocks[..w.folded] == w.store.blocks[..w.folded];
    } else if step.Finalize? && FinalizeMatches(w.view, step.block, step.hash) {
      assert w.store.blocks[w.folded..][0] == w.view.layers[0];
      assert w.store.blocks[..w.folded + 1] == w.store.blocks[..w.folded] + [w.view.layers[0]];
      assert [w.view.layers[0]] + w.view.layers[1..] == w.view.layers;
    } else if step.ApplyBlock? {
      assert w.store.blocks[..w.folded] + (w.view.layers + [step.b]) == Seen(w) + [step.b];
    }
  }

  /** Before any block: the zero hash. Then the hash of the newest block, unless an empty reset took it away. */
  ghost predicate StampOk(chains: imap<Hash, seq<Batch>>, start: seq<Batch>, w: World, s: Stamp) {
    && w.folded <= |w.store.blocks|
    && (s.stale ==> w.view.layers == [] && s.tip in chains && Seen(w) < chains[s.tip])
    && (!s.stale && s.tip == ZERO ==> w.view.layers == [] && Seen(w) == start)
    && (!s.stale && s.tip != ZERO ==> s.tip in chains && chains[s.tip] == Seen(w))
  }

  lemma ResetStamp(chains: imap<Hash, seq<Batch>>, start: seq<Batch>, w: World, s: Stamp, preferred: seq<Batch>)
    requires StampOk(chains, start, w, s) && ZERO !in chains
    requires OnChain(w) && Allowed(w, Reset(preferred))
    requires forall h :: h in chains ==> chains[h] != [] && chains[h][|chains[h]| - 1].hash == h
    requires preferred != [] ==> preferred[|preferred| - 1].hash in chains
                                 && chains[preferred[|preferred| - 1].hash] == w.store.blocks[..w.folded] + preferred
    ensures StampOk(chains, start, Next(w, Reset(preferred)),
                    Stamp(TipAfter(w, s.tip, Reset(preferred)), StaleAfter(w, s.stale, Reset(preferred))))
  {
    hide Respects, Represents, OnChain;
    SeenAfter(w, Reset(preferred));
    var w' := Next(w, Reset(preferred));
    assert w'.view.layers == preferred;
    if preferred == [] {
      assert Seen(w) == w.store.blocks[..w.folded] + w.view.layers;
      assert Seen(w') == w.store.blocks[..w.folded];
    }
  }

  /** The chain a view stands for is the one its newest block's hash names. */
  ghost predicate TipNames(chains: imap<Hash, seq<Batch>>, seen: seq<Batch>) {
    seen != [] ==> seen[|seen| - 1].hash in chains && chains[seen[|seen| - 1].hash] == seen
  }

  lemma ApplyStamp(chains: imap<Hash, seq<Batch>>, start: seq<Batch>, w: World, b: Batch, w': World)
    requires ZERO !in chains && w.folded <= |w.store.blocks| && w'.folded <= |w'.store.blocks|
    requires Seen(w') == Seen(w) + [b]
    requires TipNames(chains, Seen(w'))
    ensures StampOk(chains, start, w', Stamp(b.hash, false))
  {
    assert Seen(w')[|Seen(w')| - 1] == b;
  }

  /** Folding the oldest layer leaves the newest block the newest. */
  lemma FinalizeStamp(chains: imap<Hash, seq<Batch>>, start: seq<Batch>, w: World, s: Stamp, block: U64, hash: Hash,
      w': World)
    requires StampOk(chains, start, w, s) && ZERO !in chains && FinalizeMatches(w.view, block, hash)
    requires w'.folded <= |w'.store.blocks| && Seen(w') == Seen(w) && TipNames(chains, Seen(w))
    ensures StampOk(chains, start, w', Stamp(TipAfter(w, s.tip, Finalize(block, hash)), s.stale))
  {
    assert Seen(w)[|Seen(w)| - 1] == w.view.layers[|w.view.layers| - 1];
  }

  lemma StepStamp(chains: imap<Hash, seq<Batch>>, start: seq<Batch>, w: World, s: Stamp, step: Step)
    requires OnChain(w) && Allowed(w, step) && StampOk(chains, start, w, s) && ZERO !in chains
    requires forall h :: h in chains ==> chains[h] != [] && chains[h][|chains[h]| - 1].hash == h
    requires TipNames(chains, Seen(w))
    requires var w' := Next(w, step); w'.folded <= |w'.store.blocks| && TipNames(chains, Seen(w'))
    ensures StampOk(chains, start, Next(w, step), Stamp(TipAfter(w, s.tip, step), StaleAfter(w, s.stale, step)))
  {
    hide Next, Allowed, StampOk, TipNames, Seen, Represents, Respects;
    SeenAfter(w, step);
    var w' := Next(w, step);
    if step.Reset? {
      ResetNames(chains, w, step.preferred);
      ResetStamp(chains, start, w, s, step.preferred);
    } else if step.ApplyBlock? {
      ApplyStamp(chains, start, w, step.b, w');
    } else if step.Finalize? && FinalizeMatches(w.view, step.block, step.hash) {
      FinalizeStamp(chains, start, w, s, step.block, step.hash, w');
    } else {
      QuietStamp(chains, start, w, s, w');
    }
  }

  lemma QuietStamp(chains: imap<Hash, seq<Batch>>, start: seq<Batch>, w: World, s: Stamp, w': World)
    requires StampOk(chains, start, w, s) && w'.folded <= |w'.store.blocks|
    requires w.folded <= |w.store.blocks| && Seen(w') == Seen(w) && w'.view.layers == w.view.layers
    ensures StampOk(chains, start, w', s)
  {
  }

  lemma ResetNames(chains: imap<Hash, seq<Batch>>, w: World, preferred: seq<Batch>)
    requires w.folded <= |w.store.blocks| && TipNames(chains, w.store.blocks[..w.folded] + preferred)
    ensures preferred != [] ==> preferred[|preferred| - 1].hash in chains
                                && chains[preferred[|preferred| - 1].hash] == w.store.blocks[..w.folded] + preferred
  {
    var seen := w.store.blocks[..w.folded] + preferred;
    assert preferred != [] ==> seen[|seen| - 1] == preferred[|preferred| - 1];
  }

  lemma {:induction false} RunStamps(chains: imap<Hash, seq<Batch>>, ws: seq<World>, steps: seq<Step>,
      stamps: seq<Stamp>, n: nat)
    requires Runs(ws, steps) && Stamped(ws, steps, stamps) && Named(chains, ws) && n < |ws|
    ensures StampOk(chains, Seen(ws[0]), ws[n], stamps[n])
    decreases n
  {
    hide Inv, Next, Allowed, StampOk, Named, Represents, Respects;
    if n == 0 {
      FirstStamp(chains, ws[0]);
    } else {
      RunStamps(chains, ws, steps, stamps, n - 1);
      RunStep(chains, ws, steps, n - 1);
      StepStamp(chains, Seen(ws[0]), ws[n - 1], stamps[n - 1], steps[n - 1]);
    }
  }

  lemma RunStep(chains: imap<Hash, seq<Batch>>, ws: seq<World>, steps: seq<Step>, n: nat)
    requires Runs(ws, steps) && Named(chains, ws) && n < |steps|
    ensures OnChain(ws[n]) && Allowed(ws[n], steps[n]) && ws[n + 1] == Next(ws[n], steps[n])
    ensures ws[n + 1].folded <= |ws[n + 1].store.blocks|
    ensures TipNames(chains, Seen(ws[n])) && TipNames(chains, Seen(ws[n + 1])) && ZERO !in chains
    ensures forall h :: h in chains ==> chains[h] != [] && chains[h][|chains[h]| - 1].hash == h
  {
    hide Next, Allowed, Represents, Respects, Fresh, BaseInRange, BuffersInRange;
    RunKeepsInv(ws, steps, n);
    RunKeepsInv(ws, steps, n + 1);
  }

  lemma FirstStamp(chains: imap<Hash, seq<Batch>>, w: World)
    requires Fresh(w)
    ensures StampOk(chains, Seen(w), w, Stamp(ZERO, false))
  {
    hide Represents, Respects;
  }

  /** Where the stamp left the chain: at its tip, or stale above the finalized block. */
  predicate SameFooting(w: World, s: Stamp, w': World, s': Stamp) {
    s.stale == s'.stale && (s.stale ==> w.folded == w'.folded)
  }

  /**
   Equal stamps mean an equal chain exactly when neither is stale from an empty
   reset, or both are and nothing was finalized between.
   */
  lemma StampTellsChainIff(
    chains: imap<Hash, seq<Batch>>, ws: seq<World>, steps: seq<Step>, stamps: seq<Stamp>, t: nat, v: nat)
    requires Runs(ws, steps) && Stamped(ws, steps, stamps) && Named(chains, ws)
    requires t < |ws| && v < |ws| && stamps[t].tip == stamps[v].tip
    ensures ws[t].folded <= |ws[t].store.blocks| && ws[v].folded <= |ws[v].store.blocks|
    ensures Seen(ws[t]) == Seen(ws[v]) <==> SameFooting(ws[t], stamps[t], ws[v], stamps[v])
  {
    hide Inv, Next, Allowed, Represents, Respects, Fresh, TipAfter, StaleAfter;
    RunStamps(chains, ws, steps, stamps, t);
    RunStamps(chains, ws, steps, stamps, v);
    if stamps[t].stale && stamps[v].stale {
      StalePrefixes(ws[t], ws[v], chains[stamps[t].tip]);
    }
  }

  /** Without layers the view stands for the folded blocks: two prefixes of one chain. */
  lemma StalePrefixes(w: World, w': World, chain: seq<Batch>)
    requires w.folded <= |w.store.blocks| && w'.folded <= |w'.store.blocks|
    requires w.view.layers == [] && w'.view.layers == [] && Seen(w) < chain && Seen(w') < chain
    ensures Seen(w) == Seen(w') <==> w.folded == w'.folded
  {
    assert |Seen(w)| == w.folded && |Seen(w')| == w'.folded;
    assert chain[..|Seen(w)|] == Seen(w) && chain[..|Seen(w')|] == Seen(w');
  }

  /** Every step but the writers': what can happen while a batch holds the read lock. */
  predicate ReadPhase(step: Step) {
    !step.ApplyBlock? && !step.Finalize? && !step.Reset?
  }

  lemma {:induction false} ReadPhaseKeepsChain(ws: seq<World>, steps: seq<Step>, t: nat, u: nat)
    requires Runs(ws, steps) && t <= u < |ws|
    requires forall n :: t <= n < u ==> ReadPhase(steps[n])
    ensures ws[t].folded <= |ws[t].store.blocks| && ws[u].folded <= |ws[u].store.blocks|
    ensures Seen(ws[u]) == Seen(ws[t]) && ws[u].store.base == ws[t].store.base
    decreases u
  {
    hide Next, Allowed, Represents, Respects, Fresh, BaseInRange, BuffersInRange;
    RunKeepsInv(ws, steps, u);
    RunKeepsInv(ws, steps, t);
    if t < u {
      ReadPhaseKeepsChain(ws, steps, t, u - 1);
      RunKeepsInv(ws, steps, u - 1);
      SeenAfter(ws[u - 1], steps[u - 1]);
    }
  }

  lemma {:induction false} BaseIsFixed(ws: seq<World>, steps: seq<Step>, n: nat)
    requires Runs(ws, steps) && n < |ws|
    ensures ws[n].store.base == ws[0].store.base
    decreases n
  {
    hide Next, Allowed, Represents, Respects, Fresh, BaseInRange, BuffersInRange;
    if n > 0 {
      BaseIsFixed(ws, steps, n - 1);
      RunKeepsInv(ws, steps, n - 1);
      SeenAfter(ws[n - 1], steps[n - 1]);
    }
  }

  /**
   A batch begun at t, its read phase ending at u: every call of it, whichever
   executor ran it and whatever the buffers held, is answered from the one reference
   state of t.
   */
  lemma BatchReadsOneState(
    ws: seq<World>, steps: seq<Step>, t: nat, u: nat, j: nat, times: seq<nat>, tr: seq<Entry>)
    requires Runs(ws, steps) && t <= u < |ws| && forall n :: t <= n < u ==> ReadPhase(steps[n])
    requires AnsweredLive(ws, j, times, tr)
    requires forall i :: 0 <= i < |times| ==> t <= times[i] <= u && MetaBaselineComplete in ws[times[i]].kv
    ensures ws[t].folded <= |ws[t].store.blocks| && AnsweredBy(Truth(ws[t]), tr)
  {
    hide Next, Allowed, Represents, Respects, Fresh, Inv, Runs, Respond, LiveAccount, LiveSlot;
    ReadPhaseKeepsChain(ws, steps, t, t);
    forall i | 0 <= i < |tr|
      ensures var k := Subject(tr[i].q);
              LiveAccount(ws[times[i]], j, k.addr) == Ok(Truth(ws[t]).Account(k.addr))
              && LiveSlot(ws[times[i]], j, k) == Ok(Truth(ws[t]).Slot(k))
    {
      LiveReadIsTruth(ws, steps, t, u, times[i], j, Subject(tr[i].q));
    }
  }

  /**
   What Execute returns: a batch whose stamp is the tip again at the final check v.
   The chain it was answered from is the one current at v exactly when the two
   stamps are on the same footing.
   */
  lemma ExecuteIsReference(
    chains: imap<Hash, seq<Batch>>, ws: seq<World>, steps: seq<Step>, stamps: seq<Stamp>,
    t: nat, u: nat, v: nat, j: nat, times: seq<nat>, tr: seq<Entry>)
    requires Runs(ws, steps) && Stamped(ws, steps, stamps) && Named(chains, ws)
    requires t <= u <= v < |ws| && forall n :: t <= n < u ==> ReadPhase(steps[n])
    requires stamps[t].tip == stamps[v].tip && AnsweredLive(ws, j, times, tr)
    requires forall i :: 0 <= i < |times| ==> t <= times[i] <= u && MetaBaselineComplete in ws[times[i]].kv
    ensures ws[t].folded <= |ws[t].store.blocks| && AnsweredBy(Truth(ws[t]), tr)
    ensures ws[v].folded <= |ws[v].store.blocks|
    ensures SameFooting(ws[t], stamps[t], ws[v], stamps[v]) ==> AnsweredBy(Truth(ws[v]), tr)
    ensures Seen(ws[t]) == Seen(ws[v]) <==> SameFooting(ws[t], stamps[t], ws[v], stamps[v])
  {
    hide Next, Allowed, Represents, Respects, Fresh, Inv, Runs, Stamped, Named, AnsweredLive, AnsweredBy, SameFooting;
    BatchReadsOneState(ws, steps, t, u, j, times, tr);
    StampTellsChainIff(chains, ws, steps, stamps, t, v);
    BaseIsFixed(ws, steps, t);
    BaseIsFixed(ws, steps, v);
  }

  lemma LiveReadIsTruth(ws: seq<World>, steps: seq<Step>, t: nat, u: nat, n: nat, j: nat, k: SKey)
    requires Runs(ws, steps) && t <= n <= u < |ws| && forall m :: t <= m < u ==> ReadPhase(steps[m])
    requires ws[t].folded <= |ws[t].store.blocks|
    requires j < |ws[n].view.buffers| && MetaBaselineComplete in ws[n].kv
    ensures LiveAccount(ws[n], j, k.addr) == Ok(Truth(ws[t]).Account(k.addr))
    ensures LiveSlot(ws[n], j, k) == Ok(Truth(ws[t]).Slot(k))
  {
    hide Next, Allowed, Represents, Respects, Fresh, Inv, Runs, FindAccount, FindSlot, DbAccount, DbSlot, Seen,
         LiveAccount, LiveSlot;
    ReadPhaseKeepsChain(ws, steps, t, n);
    RunKeepsInv(ws, steps, n);
    ReadsAreLookups(ws[n], j, k);
    EveryLookupInEveryRun(ws, steps, n, j, k.addr, k);
  }

  /**
   The empty reset is a real exception: the stamp stays, and a lookup that saw the
   dropped block's account no longer does.
   */
  lemma EmptyResetKeepsStamp(w: World, tip: Hash, b: Batch, a: Address, x: Account)
    requires Inv(w) && w.view.layers == [b] && b.ops == [OpAccount(a, x)] && Allowed(w, Reset([]))
    requires StateAfter(w.store.base, w.store.blocks[..w.folded]).Account(a).None?
    ensures TipAfter(w, tip, Reset([])) == tip
    ensures w.folded <= |w.store.blocks| && Truth(w).Account(a) == Some(x)
    ensures var w' := Next(w, Reset([])); w'.folded <= |w'.store.blocks| && Truth(w').Account(a) == None
  {
    hide Respects, Represents, BaseInRange, BuffersInRange;
    var done := w.store.blocks[..w.folded];
    assert (done + [b])[..|done + [b]| - 1] == done;
    assert b.ops[..0] == [];
    var w' := Next(w, Reset([]));
    assert done + [] == done;
  }
}
