/**
 Bootstrap's backfill (follower/consensus/consensus.go): containers arrive in any
 order and with any junk, and only the next parent down from the anchor is kept;
 the gap is then executed and accepted forward, one height at a time.
 */
module Backfill {
  import opened Bytes
  import opened Schema
  import opened Capture
  import opened Protocol
  import opened Node

  type Id = Hash

  /** A consensus container around a block: its own ids and the block's hashes. */
  datatype Container = Container(id: Id, parentId: Id, height: U64, hash: Hash, parentHash: Hash)

  /** The point to resume from, with its block hash when the store knows it. */
  datatype Resume = Resume(height: U64, hash: Option<Hash>)

  predicate Link(low: Container, high: Container) {
    low.hash == high.parentHash && low.id == high.parentId
  }

  /** Exactly the heights from low to the anchor, each the verified parent of the next. */
  ghost predicate Descends(anchorId: Id, chain: map<nat, Container>, anchor: Container, low: Container) {
    && anchor.id == anchorId && low.height <= anchor.height
    && (forall h: nat :: h in chain <==> low.height <= h <= anchor.height)
    && (forall h: nat :: h in chain ==> chain[h].height == h)
    && chain[low.height] == low && chain[anchor.height] == anchor
    && (forall h: nat :: low.height <= h < anchor.height ==> Link(chain[h], chain[h + 1]))
  }

  /** The height the walk goes down to: the resume point, less the header window the executor asks for. */
  function Target(resume: Option<Resume>, window: Option<U64>, anchor: Container): U64 {
    if resume.None? then anchor.height
    else if window.None? || resume.value.height < window.value then resume.value.height
    else resume.value.height - window.value
  }

  /** A 64-bit decrement. */
  function Down(h: U64): U64 {
    if h == 0 then MAX_U64 else h - 1
  }

  /** The container the forward pass starts from: the resume point if the chain agrees with it. */
  function StartOf(chain: map<nat, Container>, low: Option<Container>, resume: Option<Resume>): Option<Container> {
    if resume.None? then low
    else
      var h := resume.value.height;
      if h !in chain then None
      else if resume.value.hash.Some? && chain[h].hash != resume.value.hash.value then None
      else Some(chain[h])
  }

  /**
   A start point is at the resume height, with the stored hash if there is one, and
   the bottom of the walk if there is nothing to resume. There is none exactly if
   the chain lacks that height or has another block there.
   */
  lemma StartIsResume(anchorId: Id, chain: map<nat, Container>, anchor: Container, low: Container,
                      resume: Option<Resume>)
    requires Descends(anchorId, chain, anchor, low)
    ensures var start := StartOf(chain, Some(low), resume);
            && (resume.None? ==> start == Some(low))
            && (resume.Some? && start.Some? ==>
                  && start.value.height == resume.value.height && low.height <= resume.value.height <= anchor.height
                  && (resume.value.hash.Some? ==> start.value.hash == resume.value.hash.value))
            && (resume.Some? && start.None? ==>
                  forall c: Container, h: nat :: h in chain && chain[h] == c && c.height == resume.value.height ==>
                    resume.value.hash.Some? && c.hash != resume.value.hash.value)
  {
  }

  /** The walk has stopped: it is at its target or at zero, and was at neither before. */
  ghost predicate Stopped(resume: Option<Resume>, window: Option<U64>, anchor: Container, low: Container) {
    && (low.height == Target(resume, window, anchor) || low.height == 0)
    && !(low.height < Target(resume, window, anchor) <= anchor.height)
  }

  class Walker {
    const anchorId: Id
    const resume: Option<Resume>
    const window: Option<U64>
    var chain: map<nat, Container>
    var anchor: Option<Container>
    var low: Option<Container>

    ghost predicate Valid()
      reads this
    {
      if low.None? then anchor.None? && chain == map[]
      else anchor.Some? && Descends(anchorId, chain, anchor.value, low.value)
    }

    constructor (anchorId: Id, resume: Option<Resume>, window: Option<U64>)
      ensures Valid() && chain == map[] && low == None
      ensures this.anchorId == anchorId && this.resume == resume && this.window == window
    {
      this.anchorId, this.resume, this.window := anchorId, resume, window;
      chain, anchor, low := map[], None, None;
    }

    /** No height so far was one to stop at. */
    ghost predicate Walking()
      reads this
    {
      anchor.Some? ==> forall h: nat :: h in chain ==> h != 0 && h != Target(resume, window, anchor.value)
    }

    /** The one container that may come next. */
    predicate Fits(c: Container)
      reads this
    {
      if low.None? then c.id == anchorId
      else c.height == Down(low.value.height) && Link(c, low.value)
    }

    /** A container that would be taken below a block of height zero, where the height wraps around. */
    predicate Wraps(c: Container)
      reads this
    {
      Fits(c) && low.Some? && low.value.height == 0
    }

    /**
     Takes the anchor, or the next parent down; ignores everything else. The chain
     stays gap-free exactly unless the height wraps, and for that a block would have
     to hash to the parent hash of a block of height zero.
     */
    method Receive(c: Container) returns (finished: bool)
      modifies this
      ensures old(Valid()) ==> (Valid() <==> !old(Wraps(c)))
      ensures !old(Fits(c)) ==> !finished && chain == old(chain) && anchor == old(anchor) && low == old(low)
      ensures old(Fits(c)) ==> chain == old(chain)[c.height := c] && low == Some(c)
                               && anchor == if old(anchor).None? then Some(c) else old(anchor)
      ensures old(Fits(c)) ==> (finished <==> c.height == Target(resume, window, anchor.value) || c.height == 0)
      ensures old(Valid()) && old(Walking()) ==>
                Valid() && if finished then Stopped(resume, window, anchor.value, low.value) else Walking()
    {
      if !Fits(c) {
        return false;
      }
      ghost var bottom := low;
      chain := chain[c.height := c];
      if anchor.None? {
        anchor := Some(c);
      }
      low := Some(c);
      finished := c.height == Target(resume, window, anchor.value) || c.height == 0;
      assert bottom.Some? && bottom.value.height == 0 && old(Valid()) ==> 0 in chain && c.height > 0;
      ghost var target: nat := Target(resume, window, anchor.value);
      assert bottom.Some? && old(Valid()) && old(Walking()) && c.height < target <= anchor.value.height ==>
          target in old(chain);
    }

    /** None of the containers hashes to the parent hash of a block of height zero at the bottom. */
    predicate NoneWraps(cs: seq<Option<Container>>)
      reads this
    {
      low.Some? && low.value.height == 0 ==>
        forall i :: 0 <= i < |cs| && cs[i].Some? ==> cs[i].value.hash != low.value.parentHash
    }

    /** An ancestors response: a container that does not parse ends it, as does reaching the target. */
    method ReceiveAll(cs: seq<Option<Container>>) returns (finished: bool)
      modifies this
      ensures old(Valid()) && old(NoneWraps(cs)) ==> Valid()
      ensures old(Valid()) && old(NoneWraps(cs)) ==>
                forall h: nat :: h in old(chain) ==> h in chain && chain[h] == old(chain)[h]
      ensures finished ==> low.Some? && anchor.Some?
                           && (low.value.height == Target(resume, window, anchor.value) || low.value.height == 0)
      ensures old(anchor).Some? ==> anchor == old(anchor)
      ensures old(Valid()) && old(Walking()) ==>
                Valid() && if finished then Stopped(resume, window, anchor.value, low.value) else Walking()
    {
      ghost var sound := Valid() && NoneWraps(cs);
      var i := 0;
      while i < |cs|
        invariant 0 <= i <= |cs| && (sound ==> Valid())
        invariant sound && low.Some? && low.value.height == 0 ==> low == old(low)
        invariant old(anchor).Some? ==> anchor == old(anchor)
        invariant old(Valid()) && old(Walking()) ==> Valid() && Walking()
        invariant sound ==> forall h: nat :: h in old(chain) ==> h in chain && chain[h] == old(chain)[h]
      {
        if cs[i].None? {
          return false;
        }
        finished := Receive(cs[i].value);
        if finished {
          return true;
        }
        i := i + 1;
      }
      return false;
    }

    /** Where the forward pass starts; None is a fatal error (no such height, or another block there). */
    method StartPoint() returns (r: Option<Container>)
      requires Valid() && low.Some?
      ensures r == StartOf(chain, low, resume)
      ensures r.Some? ==> r.value.height in chain && chain[r.value.height] == r.value
    {
      if resume.None? {
        return low;
      }
      var at := resume.value.height;
      if at !in chain {
        return None;
      }
      if resume.value.hash.Some? && chain[at].hash != resume.value.hash.value {
        return None;
      }
      return Some(chain[at]);
    }
  }

  /** With a resume point at or below the anchor, a finished walk contains it. */
  lemma FinishedHoldsResume(anchorId: Id, chain: map<nat, Container>, anchor: Container, low: Container,
                            resume: Resume, window: Option<U64>)
    requires Descends(anchorId, chain, anchor, low)
    requires low.height == Target(Some(resume), window, anchor) || low.height == 0
    ensures resume.height in chain <==> resume.height <= anchor.height
  {
  }

  /** Every height of the header window, from the resume point down to zero at the most, is there. */
  ghost predicate HoldsWindow(chain: map<nat, Container>, resume: Resume, window: U64) {
    forall h: nat :: h <= resume.height <= h + window ==> h in chain
  }

  /**
   A stopped walk holds the whole header window if and only if the resume point is
   not below the window's size, or is at zero: a lower one gets no window at all.
   */
  lemma WindowHeldIff(anchorId: Id, chain: map<nat, Container>, anchor: Container, low: Container, resume: Resume,
                      window: U64)
    requires Descends(anchorId, chain, anchor, low) && Stopped(Some(resume), Some(window), anchor, low)
    requires resume.height <= anchor.height
    ensures HoldsWindow(chain, resume, window) <==> window <= resume.height || resume.height == 0
    ensures low.height == if window <= resume.height then resume.height - window else resume.height
  {
    if resume.height < window && resume.height > 0 {
      assert resume.height - 1 !in chain;
    }
  }

  /** Resuming at height one with a window of two leaves out the block at zero. */
  lemma LowResumeHasNoWindow(anchorId: Id, zero: Container, one: Container)
    requires one.id == anchorId && one.height == 1 && zero.height == 0 && Link(zero, one)
    ensures var chain: map<nat, Container> := map[1 := one];
            && Descends(anchorId, chain, one, one)
            && Stopped(Some(Resume(1, None)), Some(2), one, one)
            && !HoldsWindow(chain, Resume(1, None), 2)
  {
    var chain: map<nat, Container> := map[1 := one];
    assert 0 !in chain && 0 <= 1 <= 0 + 2;
  }

  // ----- the forward pass -----

  /** Executing a container's block gives its batch. */
  ghost predicate Executed(u: Universe, c: Container, b: Batch) {
    Good(u, b) && b.hash == c.hash && b.parent == c.parentHash && b.block == c.height
  }

  /** The heights from start to end are all there, linked, and nothing above. */
  ghost predicate Gap(chain: map<nat, Container>, start: nat, end: nat) {
    && start <= end && end + 1 !in chain
    && (forall h: nat :: start <= h <= end ==> h in chain && chain[h].height == h)
    && (forall h: nat :: start <= h < end ==> Link(chain[h], chain[h + 1]))
  }

  /** A finished walk leaves no hole between any of its heights and the anchor. */
  lemma WalkLeavesGap(anchorId: Id, chain: map<nat, Container>, anchor: Container, low: Container, start: nat)
    requires Descends(anchorId, chain, anchor, low) && low.height <= start <= anchor.height
    ensures Gap(chain, start, anchor.height)
  {
  }

  function HashAt(chain: map<nat, Container>, h: nat): Hash {
    if h in chain then chain[h].hash else ZERO
  }

  /** Every executed block of the gap is the batch of its container. */
  ghost predicate Results(u: Universe, chain: map<nat, Container>, results: map<Hash, Batch>, start: nat) {
    forall h: nat :: start < h && h in chain && chain[h].hash in results ==>
        Executed(u, chain[h], results[chain[h].hash])
  }

  predicate AllExecute(chain: map<nat, Container>, results: map<Hash, Batch>, start: nat, end: nat) {
    forall h: nat :: start < h <= end ==> HashAt(chain, h) in results
  }

  /** The batches of heights from + 1, from + 2, ... as far as n of them. */
  ghost function Batches(chain: map<nat, Container>, results: map<Hash, Batch>, from: nat, n: nat): seq<Batch> {
    if n == 0 || HashAt(chain, from + n) !in results then []
    else Batches(chain, results, from, n - 1) + [results[HashAt(chain, from + n)]]
  }

  /** Finalized at a height of the chain, with nothing published above it. */
  ghost predicate SitsAt(tracker: Tracker, h: nat, hash: Hash)
    reads tracker
  {
    tracker.finalizedHeight == h && tracker.finalizedHash == hash && tracker.stack == []
  }

  /**
   Executes and accepts the gap. Every height above the start up to the end is
   accepted exactly once, in order, and the tracker never refuses one; the pass
   stops early only at a block that does not execute.
   */
  method Forward(tracker: Tracker, chain: map<nat, Container>, results: map<Hash, Batch>, start: U64, ghost end: nat)
    returns (ok: bool, next: nat)
    requires tracker.Valid() && Gap(chain, start, end) && SitsAt(tracker, start, HashAt(chain, start))
    requires Results(tracker.u, chain, results, start)
    requires |tracker.sink.bus.log| + 2 * (end - start) + 2 < MAX_U64
    modifies tracker, tracker.sink, tracker.sink.db, tracker.sink.st, tracker.sink.st.base, tracker.sink.st.buffers
    modifies tracker.sink.bus
    ensures tracker.Valid() && start < next <= end + 1 && SitsAt(tracker, next - 1, HashAt(chain, next - 1))
    ensures ok <==> next == end + 1
    ensures !ok ==> HashAt(chain, next) !in results
    ensures next > start + 1 ==> tracker.sink.Marked(next - 1)
    ensures AllExecute(chain, results, start, next - 1)
    ensures tracker.sink.chain.blocks
        == old(tracker.sink.chain.blocks) + Batches(chain, results, start, next - 1 - start)
  {
    hide Tracker.Valid, Good, Executed, Batches, Sink.Marked;
    var h: nat := start + 1;
    NoBatches(chain, results, start, tracker.sink.chain.blocks);
    while h in chain
      invariant start < h <= end + 1 && tracker.Valid() && SitsAt(tracker, h - 1, HashAt(chain, h - 1))
      invariant |tracker.sink.bus.log| + 2 * (end + 1 - h) + 2 < MAX_U64
      invariant h > start + 1 ==> tracker.sink.Marked(h - 1)
      invariant tracker.sink.st.buffers == old(tracker.sink.st.buffers) && AllExecute(chain, results, start, h - 1)
      invariant tracker.sink.chain.blocks
          == old(tracker.sink.chain.blocks) + Batches(chain, results, start, h - 1 - start)
      decreases end + 1 - h
    {
      assert h <= end;
      if chain[h].hash !in results {
        return false, h;
      }
      assert Link(chain[h - 1], chain[h]);
      ghost var blocks := tracker.sink.chain.blocks;
      AcceptNext(tracker, chain[h], results[chain[h].hash]);
      NextBatch(chain, results, start, h - start, old(tracker.sink.chain.blocks), blocks);
      h := h + 1;
    }
    assert h == end + 1;
    return true, h;
  }

  lemma NoBatches(chain: map<nat, Container>, results: map<Hash, Batch>, from: nat, was: seq<Batch>)
    ensures was == was + Batches(chain, results, from, 0)
  {
  }

  lemma NextBatch(chain: map<nat, Container>, results: map<Hash, Batch>, from: nat, n: nat, was: seq<Batch>,
      blocks: seq<Batch>)
    requires n > 0 && HashAt(chain, from + n) in results
    requires blocks == was + Batches(chain, results, from, n - 1)
    ensures blocks + [results[HashAt(chain, from + n)]] == was + Batches(chain, results, from, n)
  {
  }

  /** One height of the forward pass: the executed child of the finalized block is accepted. */
  method AcceptNext(tracker: Tracker, c: Container, b: Batch)
    requires tracker.Valid() && c.height > 0 && SitsAt(tracker, c.height - 1, c.parentHash) && Executed(tracker.u, c, b)
    requires |tracker.sink.bus.log| + 1 < MAX_U64
    modifies tracker, tracker.sink, tracker.sink.db, tracker.sink.st, tracker.sink.st.base, tracker.sink.st.buffers
    modifies tracker.sink.bus
    ensures tracker.Valid() && SitsAt(tracker, c.height, c.hash) && tracker.sink.Marked(c.height)
    ensures |tracker.sink.bus.log| <= |old(tracker.sink.bus.log)| + 2
    ensures tracker.sink.st.buffers == old(tracker.sink.st.buffers)
    ensures tracker.sink.chain.blocks == old(tracker.sink.chain.blocks) + [b]
  {
    hide Tracker.Valid, Good, Sink.Marked;
    tracker.Verified(b);
    var accepted := tracker.Accepted(c.height, b.hash);
    assert accepted;
  }

  /** Exactly the heights from + 1, ..., end of the chain were added, each once and in order. */
  ghost predicate Adds(chain: map<nat, Container>, from: nat, end: nat, was: seq<Batch>, now: seq<Batch>) {
    && from <= end && was <= now && |now| == |was| + (end - from)
    && forall i :: |was| <= i < |now| ==>
         now[i].block == from + 1 + (i - |was|) && now[i].hash == HashAt(chain, now[i].block)
  }

  lemma {:induction false} BatchesAreHeights(
    u: Universe, chain: map<nat, Container>, results: map<Hash, Batch>, from: nat, n: nat, was: seq<Batch>)
    requires Results(u, chain, results, from) && AllExecute(chain, results, from, from + n)
    requires forall h: nat :: from < h <= from + n ==> h in chain && chain[h].height == h
    ensures Adds(chain, from, from + n, was, was + Batches(chain, results, from, n))
    decreases n
  {
    hide Good;
    if n > 0 {
      BatchesAreHeights(u, chain, results, from, n - 1, was);
      assert HashAt(chain, from + n) in results;
      assert Executed(u, chain[from + n], results[chain[from + n].hash]);
      NextBatch(chain, results, from, n, was, was + Batches(chain, results, from, n - 1));
    }
  }

  /**
   The end of a finished walk: from its start point every height up to the anchor is
   executed and accepted by the tracker made for that point, exactly once and in
   order. It fails only if the chain disagrees with the resume point or a block of
   the gap does not execute.
   */
  method FinishBootstrap(walker: Walker, tracker: Tracker, results: map<Hash, Batch>) returns (ok: bool)
    requires walker.Valid() && walker.low.Some? && tracker.Valid()
    requires Results(tracker.u, walker.chain, results, 0)
    requires var start := StartOf(walker.chain, walker.low, walker.resume);
             start.Some? ==> SitsAt(tracker, start.value.height, start.value.hash)
    requires |tracker.sink.bus.log| + 2 * walker.anchor.value.height + 2 < MAX_U64
    modifies tracker, tracker.sink, tracker.sink.db, tracker.sink.st, tracker.sink.st.base, tracker.sink.st.buffers
    modifies tracker.sink.bus
    ensures tracker.Valid()
    ensures var start := old(StartOf(walker.chain, walker.low, walker.resume));
            var end := old(walker.anchor.value);
            ok <==> start.Some? && AllExecute(old(walker.chain), results, start.value.height, end.height)
    ensures ok ==>
              var start, end := old(StartOf(walker.chain, walker.low, walker.resume)).value, old(walker.anchor.value);
              && SitsAt(tracker, end.height, end.hash)
              && (walker.resume.Some? ==> start.height == walker.resume.value.height)
              && (end.height > start.height ==> tracker.sink.Marked(end.height))
              && var (was, now) := (old(tracker.sink.chain.blocks), tracker.sink.chain.blocks);
                 Adds(old(walker.chain), start.height, end.height, was, now)
  {
    hide Tracker.Valid, Good, Batches, Adds, AllExecute, Sink.Marked;
    var start := walker.StartPoint();
    if start.None? {
      return false;
    }
    var chain, from := walker.chain, start.value.height;
    ghost var anchor, blocks := walker.anchor.value, tracker.sink.chain.blocks;
    WalkLeavesGap(walker.anchorId, chain, anchor, walker.low.value, from);
    FewerResults(tracker.u, chain, results, from);
    var next;
    ok, next := Forward(tracker, chain, results, from, anchor.height);
    if ok {
      BatchesAreHeights(tracker.u, chain, results, from, anchor.height - from, blocks);
    } else {
      StoppedAt(chain, results, from, next, anchor.height);
    }
  }

  lemma StoppedAt(chain: map<nat, Container>, results: map<Hash, Batch>, from: nat, next: nat, end: nat)
    requires from < next <= end && HashAt(chain, next) !in results
    ensures !AllExecute(chain, results, from, end)
  {
  }

  lemma FewerResults(u: Universe, chain: map<nat, Container>, results: map<Hash, Batch>, from: nat)
    requires Results(u, chain, results, 0)
    ensures Results(u, chain, results, from)
  {
    hide Executed;
  }
}
