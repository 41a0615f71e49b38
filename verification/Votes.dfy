/**
 Vote routing of the consensus shell (follower/consensus/consensus.go). A sampled
 validator's vote waits for its answer, may be parked on a container not yet
 known, and ends as one Vote or Drop call on the poll set. What consensus holds
 between two such calls is a parameter: only the shell is modelled.
 */
module Votes {
  import opened Schema

  type Id = Hash
  type Req = nat
  type Node = nat
  type Time = int

  const EMPTY_ID: Id := ZERO

  // ----- what the shell knows of the containers -----

  datatype Rec = Rec(parent: Id, height: nat)

  /**
   The containers known, the accepted frontier, and what consensus is processing.
   A container names its parent by hash, so parents have a lower rank.
   */
  datatype Known = Known(recs: map<Id, Rec>, rank: map<Id, nat>, accepted: Id, acceptedHeight: nat, processing: set<Id>)

  predicate Acyclic(c: Known) {
    && c.rank.Keys == c.recs.Keys
    && forall id :: id in c.recs && c.recs[id].parent in c.recs ==> c.rank[c.recs[id].parent] < c.rank[id]
  }

  predicate Votable(c: Known, id: Id) {
    id == c.accepted || id in c.processing
  }

  /** Where a walk towards the frontier ends. */
  datatype Walk = Reached(vote: Id) | Blocked(on: Id) | StaleFork

  function Bubble(c: Known, id: Id): Walk
    requires Acyclic(c)
    decreases if id in c.recs then c.rank[id] + 1 else 0
  {
    if Votable(c, id) then Reached(id)
    else if id !in c.recs then Blocked(id)
    else if c.recs[id].height <= c.acceptedHeight then StaleFork
    else Bubble(c, c.recs[id].parent)
  }

  method BubbleUp(c: Known, start: Id) returns (r: Walk)
    requires Acyclic(c)
    ensures r == Bubble(c, start)
  {
    var id := start;
    while true
      invariant Bubble(c, id) == Bubble(c, start)
      decreases if id in c.recs then c.rank[id] + 1 else 0
    {
      if Votable(c, id) {
        return Reached(id);
      }
      if id !in c.recs {
        return Blocked(id);
      }
      if c.recs[id].height <= c.acceptedHeight {
        return StaleFork;
      }
      id := c.recs[id].parent;
    }
  }

  /** path leads from a container up through known parents. */
  predicate Ancestry(c: Known, path: seq<Id>) {
    forall i :: 0 <= i < |path| - 1 ==> path[i] in c.recs && path[i + 1] == c.recs[path[i]].parent
  }

  /**
   A vote goes to the nearest ancestor consensus can count it for; a blocked walk
   ends at the first unknown container, with nothing countable on the way.
   */
  lemma {:induction false} BubbleFindsNearest(c: Known, id: Id) returns (path: seq<Id>)
    requires Acyclic(c)
    ensures path != [] && path[0] == id && Ancestry(c, path)
    ensures forall i :: 0 <= i < |path| - 1 ==> !Votable(c, path[i]) && c.recs[path[i]].height > c.acceptedHeight
    ensures var last := path[|path| - 1];
            match Bubble(c, id)
            case Reached(v) => v == last && Votable(c, last)
            case Blocked(b) => b == last && last !in c.recs && !Votable(c, last)
            case StaleFork => last in c.recs && c.recs[last].height <= c.acceptedHeight && !Votable(c, last)
    decreases if id in c.recs then c.rank[id] + 1 else 0
  {
    if Votable(c, id) || id !in c.recs || c.recs[id].height <= c.acceptedHeight {
      path := [id];
    } else {
      var rest := BubbleFindsNearest(c, c.recs[id].parent);
      path := [id] + rest;
      assert path[|path| - 1] == rest[|rest| - 1];
    }
  }

  // ----- routing -----

  /** One sampled validator of one poll. */
  datatype Seat = Seat(req: Req, node: Node)

  datatype Ballot = Ballot(seat: Seat, options: seq<Id>, deadline: Time)

  datatype Poll = Poll(remaining: set<Node>, deadline: Time)

  /** A call on the poll set: a vote, or a drop. */
  datatype Call = Vote(seat: Seat, choice: Id) | Drop(seat: Seat)

  datatype Outcome = Cast(choice: Id) | ParkOn(blocker: Id) | Abstain

  function FirstReached(c: Known, options: seq<Id>): Option<Id>
    requires Acyclic(c)
  {
    if options == [] then None
    else
      match Bubble(c, options[0])
      case Reached(v) => Some(v)
      case _ => FirstReached(c, options[1..])
  }

  /** The first option that reaches consensus wins; only the highest may park; then the peer's frontier. */
  function Choose(c: Known, frontier: Option<Id>, options: seq<Id>, allowPark: bool): Outcome
    requires Acyclic(c)
  {
    if allowPark && options != [] && Bubble(c, options[0]).Blocked? && Bubble(c, options[0]).on != EMPTY_ID then
      ParkOn(Bubble(c, options[0]).on)
    else
      match FirstReached(c, options)
      case Some(v) => Cast(v)
      case None =>
        if frontier.Some? && Bubble(c, frontier.value).Reached?
        then Cast(Bubble(c, frontier.value).vote) else Abstain
  }

  /** A cast vote is always for a block consensus can count. */
  lemma {:induction false} ReachedIsVotable(c: Known, id: Id)
    requires Acyclic(c) && Bubble(c, id).Reached?
    ensures Votable(c, Bubble(c, id).vote)
    decreases if id in c.recs then c.rank[id] + 1 else 0
  {
    if !Votable(c, id) {
      ReachedIsVotable(c, c.recs[id].parent);
    }
  }

  lemma {:induction false} FirstReachedIsVotable(c: Known, options: seq<Id>)
    requires Acyclic(c)
    ensures FirstReached(c, options).Some? ==> Votable(c, FirstReached(c, options).value)
  {
    if options != [] {
      if Bubble(c, options[0]).Reached? {
        ReachedIsVotable(c, options[0]);
      } else {
        FirstReachedIsVotable(c, options[1..]);
      }
    }
  }

  lemma CastIsVotable(c: Known, frontier: Option<Id>, options: seq<Id>, allowPark: bool)
    requires Acyclic(c)
    ensures Choose(c, frontier, options, allowPark).Cast? ==> Votable(c, Choose(c, frontier, options, allowPark).choice)
    ensures !allowPark ==> !Choose(c, frontier, options, allowPark).ParkOn?
  {
    FirstReachedIsVotable(c, options);
    if frontier.Some? && Bubble(c, frontier.value).Reached? {
      ReachedIsVotable(c, frontier.value);
    }
  }

  // ----- what a choice is, by the ancestry of the options -----

  /** path leads from a container to the first ancestor that is countable, unknown or at the accepted height. */
  ghost predicate LeadsTo(c: Known, path: seq<Id>, id: Id, last: Id) {
    && path != [] && path[0] == id && path[|path| - 1] == last && Ancestry(c, path)
    && forall i :: 0 <= i < |path| - 1 ==> !Votable(c, path[i]) && c.recs[path[i]].height > c.acceptedHeight
  }

  /** v is the nearest ancestor of the container that consensus can count. */
  ghost predicate CountsFor(c: Known, id: Id, v: Id) {
    Votable(c, v) && exists path :: LeadsTo(c, path, id, v)
  }

  /** The container's ancestry ends at one that is not known, with nothing countable before it. */
  ghost predicate Missing(c: Known, id: Id, b: Id) {
    b !in c.recs && !Votable(c, b) && exists path :: LeadsTo(c, path, id, b)
  }

  ghost predicate Uncountable(c: Known, id: Id) {
    forall v: Id :: !CountsFor(c, id, v)
  }

  lemma PathTail(c: Known, path: seq<Id>, id: Id, last: Id)
    requires LeadsTo(c, path, id, last) && |path| > 1
    ensures id in c.recs && LeadsTo(c, path[1..], c.recs[id].parent, last)
    ensures !Votable(c, id) && c.recs[id].height > c.acceptedHeight
  {
    hide Votable;
    assert path[0] in c.recs && path[1] == c.recs[path[0]].parent;
    forall i | 0 <= i < |path[1..]| - 1
      ensures path[1..][i] in c.recs && path[1..][i + 1] == c.recs[path[1..][i]].parent
      ensures !Votable(c, path[1..][i]) && c.recs[path[1..][i]].height > c.acceptedHeight
    {
      assert path[1..][i] == path[i + 1] && path[1..][i + 1] == path[i + 2];
    }
  }

  /** A path to a countable or an unknown container is the walk. */
  lemma {:induction false} PathIsWalk(c: Known, path: seq<Id>, id: Id, last: Id)
    requires Acyclic(c) && LeadsTo(c, path, id, last) && (Votable(c, last) || last !in c.recs)
    ensures Bubble(c, id) == if Votable(c, last) then Reached(last) else Blocked(last)
    decreases |path|
  {
    hide LeadsTo, Acyclic;
    if |path| > 1 {
      PathTail(c, path, id, last);
      PathIsWalk(c, path[1..], c.recs[id].parent, last);
    } else {
      assert id == last by { OnePath(c, path, id, last); }
    }
  }

  lemma OnePath(c: Known, path: seq<Id>, id: Id, last: Id)
    requires LeadsTo(c, path, id, last) && |path| <= 1
    ensures id == last
  {
  }

  lemma WalkIff(c: Known, id: Id, v: Id)
    requires Acyclic(c)
    ensures Bubble(c, id) == Reached(v) <==> CountsFor(c, id, v)
    ensures Bubble(c, id) == Blocked(v) <==> Missing(c, id, v)
  {
    hide Bubble, Votable, Acyclic;
    var path := BubbleFindsNearest(c, id);
    assert LeadsTo(c, path, id, path[|path| - 1]);
    if CountsFor(c, id, v) || Missing(c, id, v) {
      var other :| LeadsTo(c, other, id, v);
      PathIsWalk(c, other, id, v);
    }
  }

  lemma UncountableIff(c: Known, id: Id)
    requires Acyclic(c)
    ensures Uncountable(c, id) <==> !Bubble(c, id).Reached?
  {
    hide Bubble, CountsFor, Acyclic, Missing;
    forall v: Id ensures Bubble(c, id) == Reached(v) <==> CountsFor(c, id, v) {
      WalkIff(c, id, v);
    }
  }

  /** The first option with a countable ancestor has v as its nearest one. */
  ghost predicate FirstCounts(c: Known, options: seq<Id>, v: Id) {
    exists i ::
      0 <= i < |options| && CountsFor(c, options[i], v) && forall j :: 0 <= j < i ==> Uncountable(c, options[j])
  }

  lemma {:induction false} FirstReachedIff(c: Known, options: seq<Id>, v: Id)
    requires Acyclic(c)
    ensures FirstReached(c, options) == Some(v) <==> FirstCounts(c, options, v)
    ensures FirstReached(c, options) == None <==> forall j :: 0 <= j < |options| ==> Uncountable(c, options[j])
  {
    hide Bubble, CountsFor, Uncountable, Acyclic, Missing;
    if options != [] {
      var rest := options[1..];
      WalkIff(c, options[0], v);
      UncountableIff(c, options[0]);
      FirstReachedIff(c, rest, v);
      if Bubble(c, options[0]).Reached? {
        FirstIsOwn(c, options, v);
      } else {
        FirstOfRest(c, options, v);
      }
    }
  }

  lemma FirstIsOwn(c: Known, options: seq<Id>, v: Id)
    requires options != [] && !Uncountable(c, options[0])
    ensures FirstCounts(c, options, v) <==> CountsFor(c, options[0], v)
  {
    hide CountsFor, Uncountable;
  }

  lemma FirstOfRest(c: Known, options: seq<Id>, v: Id)
    requires options != [] && Uncountable(c, options[0])
    ensures FirstCounts(c, options, v) <==> FirstCounts(c, options[1..], v)
    ensures (forall j :: 0 <= j < |options| ==> Uncountable(c, options[j]))
       <==> (forall j :: 0 <= j < |options[1..]| ==> Uncountable(c, options[1..][j]))
  {
    hide CountsFor;
    var rest := options[1..];
    if FirstCounts(c, rest, v) {
      var i :| 0 <= i < |rest| && CountsFor(c, rest[i], v) && forall j :: 0 <= j < i ==> Uncountable(c, rest[j]);
      assert CountsFor(c, options[i + 1], v);
      forall j | 0 <= j < i + 1 ensures Uncountable(c, options[j]) {
        if j > 0 {
          assert options[j] == rest[j - 1];
        }
      }
    }
    if FirstCounts(c, options, v) {
      var i :| 0 <= i < |options| && CountsFor(c, options[i], v)
        && forall j :: 0 <= j < i ==> Uncountable(c, options[j]);
      assert i > 0 && CountsFor(c, rest[i - 1], v);
      forall j | 0 <= j < i - 1 ensures Uncountable(c, rest[j]) {
        assert rest[j] == options[j + 1];
      }
    }
    if forall j :: 0 <= j < |rest| ==> Uncountable(c, rest[j]) {
      forall j | 0 <= j < |options| ensures Uncountable(c, options[j]) {
        if j > 0 {
          assert options[j] == rest[j - 1];
        }
      }
    }
  }

  /** The vote waits for a container: allowed only for one missing below the first option. */
  ghost predicate Parks(c: Known, options: seq<Id>, allowPark: bool, b: Id) {
    allowPark && options != [] && b != EMPTY_ID && Missing(c, options[0], b)
  }

  /**
   What becomes of a vote, by ancestry alone. It parks exactly if parking is allowed
   and the first option's ancestry ends at an unknown container. Otherwise it goes
   to the nearest countable ancestor of the first option that has one, or of the
   peer's frontier if no option has one, and it is dropped exactly if neither has.
   */
  lemma ChoiceIff(c: Known, frontier: Option<Id>, options: seq<Id>, allowPark: bool, v: Id)
    requires Acyclic(c)
    ensures var o := Choose(c, frontier, options, allowPark);
            var none := forall j :: 0 <= j < |options| ==> Uncountable(c, options[j]);
            && (o == ParkOn(v) <==> Parks(c, options, allowPark, v))
            && (o == Cast(v) <==>
                  && (forall b: Id :: !Parks(c, options, allowPark, b))
                  && (FirstCounts(c, options, v) || (none && frontier.Some? && CountsFor(c, frontier.value, v))))
            && (o == Abstain <==>
                  && (forall b: Id :: !Parks(c, options, allowPark, b))
                  && none && (frontier.Some? ==> Uncountable(c, frontier.value)))
  {
    hide Bubble, CountsFor, Uncountable, Acyclic, FirstReached, FirstCounts, Parks;
    FirstReachedIff(c, options, v);
    forall b: Id ensures Choose(c, frontier, options, allowPark) == ParkOn(b) <==> Parks(c, options, allowPark, b) {
      ParksIff(c, frontier, options, allowPark, b);
    }
    if Choose(c, frontier, options, allowPark).ParkOn? {
      assert Parks(c, options, allowPark, Choose(c, frontier, options, allowPark).blocker);
    }
    if frontier.Some? {
      WalkIff(c, frontier.value, v);
      UncountableIff(c, frontier.value);
    }
  }

  lemma ParksIff(c: Known, frontier: Option<Id>, options: seq<Id>, allowPark: bool, b: Id)
    requires Acyclic(c)
    ensures Choose(c, frontier, options, allowPark) == ParkOn(b) <==> Parks(c, options, allowPark, b)
  {
    hide Bubble, Acyclic, FirstReached, Missing;
    if options != [] {
      WalkIff(c, options[0], b);
    }
  }

  method Decide(c: Known, frontier: Option<Id>, options: seq<Id>, allowPark: bool) returns (r: Outcome)
    requires Acyclic(c)
    ensures r == Choose(c, frontier, options, allowPark)
  {
    hide Bubble;
    var i := 0;
    while i < |options|
      invariant 0 <= i <= |options|
      invariant FirstReached(c, options[i..]) == FirstReached(c, options)
      invariant i > 0 ==> Choose(c, frontier, options, allowPark) == Choose(c, frontier, options, false)
    {
      var b := BubbleUp(c, options[i]);
      if b.Reached? {
        return Cast(b.vote);
      }
      if allowPark && i == 0 && b.Blocked? && b.on != EMPTY_ID {
        return ParkOn(b.on);
      }
      assert options[i..][1..] == options[i + 1..];
      i := i + 1;
    }
    if frontier.Some? {
      var b := BubbleUp(c, frontier.value);
      if b.Reached? {
        return Cast(b.vote);
      }
    }
    return Abstain;
  }

  // ----- the books -----

  /** Where a sampled seat is. */
  datatype Place = Waiting | InHand | Parked(on: Id) | Issued(at: nat)

  /** Polls awaiting answers, ballots parked by container, the calls made; and the place of every seat sampled. */
  datatype Books = Books(
    awaiting: map<Req, Poll>,
    parked: map<Id, seq<Ballot>>,
    calls: seq<Call>,
    places: map<Seat, Place>)

  ghost predicate WaitingOk(b: Books) {
    && (forall req, n :: req in b.awaiting && n in b.awaiting[req].remaining ==>
          Seat(req, n) in b.places && b.places[Seat(req, n)] == Waiting)
    && (forall s :: s in b.places && b.places[s] == Waiting ==>
          s.req in b.awaiting && s.node in b.awaiting[s.req].remaining)
  }

  predicate Listed(q: seq<Ballot>, s: Seat) {
    exists i :: 0 <= i < |q| && q[i].seat == s
  }

  predicate NoRepeats(q: seq<Ballot>) {
    forall i, j :: 0 <= i < j < |q| ==> q[i].seat != q[j].seat
  }

  function ParkedOn(b: Books, id: Id): seq<Ballot> {
    if id in b.parked then b.parked[id] else []
  }

  ghost predicate ParkedOk(b: Books) {
    && (forall id: Id :: NoRepeats(ParkedOn(b, id)))
    && (forall id: Id, s :: Listed(ParkedOn(b, id), s) <==> s in b.places && b.places[s] == Parked(id))
  }

  ghost predicate CallsOk(b: Books) {
    && (forall k :: 0 <= k < |b.calls| ==> b.calls[k].seat in b.places && b.places[b.calls[k].seat] == Issued(k))
    && (forall s :: s in b.places && b.places[s].Issued? ==>
          b.places[s].at < |b.calls| && b.calls[b.places[s].at].seat == s)
  }

  ghost predicate HandOk(b: Books, hand: set<Seat>) {
    forall s :: s in hand <==> s in b.places && b.places[s] == InHand
  }

  /** hand holds the seats a handler has taken out and not yet placed again. */
  ghost predicate Holding(b: Books, hand: set<Seat>) {
    WaitingOk(b) && ParkedOk(b) && CallsOk(b) && HandOk(b, hand)
  }

  function WithCall(b: Books, call: Call): Books {
    b.(calls := b.calls + [call], places := b.places[call.seat := Issued(|b.calls|)])
  }

  function WithParked(b: Books, id: Id, v: Ballot): Books {
    b.(parked := b.parked[id := ParkedOn(b, id) + [v]], places := b.places[v.seat := Parked(id)])
  }

  function Seats(req: Req, nodes: set<Node>): (r: set<Seat>)
    ensures forall s :: s in r <==> s.req == req && s.node in nodes
  {
    set n | n in nodes :: Seat(req, n)
  }

  function Moved(places: map<Seat, Place>, seats: set<Seat>, to: Place): (r: map<Seat, Place>)
    ensures forall s :: s in r <==> s in places || s in seats
    ensures forall s :: s in r ==> r[s] == if s in seats then to else places[s]
  {
    map s | s in places.Keys + seats :: if s in seats then to else places[s]
  }

  /** A poll opens: connected validators wait, the others are in hand. */
  function Opened(b: Books, req: Req, targets: set<Node>, off: set<Node>, deadline: Time): Books {
    b.(awaiting := if targets != {} then b.awaiting[req := Poll(targets, deadline)] else b.awaiting,
       places := Moved(Moved(b.places, Seats(req, targets), Waiting), Seats(req, off), InHand))
  }

  /** A validator answers: the poll entry goes when nobody is left in it. */
  function Answered(b: Books, req: Req, n: Node): Books
    requires req in b.awaiting
  {
    var left := b.awaiting[req].remaining - {n};
    b.(awaiting := if left == {} then b.awaiting - {req} else b.awaiting[req := b.awaiting[req].(remaining := left)],
       places := b.places[Seat(req, n) := InHand])
  }

  /** A poll is closed with its remaining validators in hand. */
  function Closed(b: Books, req: Req): Books
    requires req in b.awaiting
  {
    b.(awaiting := b.awaiting - {req}, places := Moved(b.places, Seats(req, b.awaiting[req].remaining), InHand))
  }

  function SeatsOf(q: seq<Ballot>): (r: set<Seat>)
    ensures forall s :: s in r <==> Listed(q, s)
  {
    set i | 0 <= i < |q| :: q[i].seat
  }

  /** All ballots parked on a container are taken up again. */
  function Unparked(b: Books, id: Id): Books {
    b.(parked := b.parked - {id}, places := Moved(b.places, SeatsOf(ParkedOn(b, id)), InHand))
  }

  /** Ballots still within their deadline go back. */
  function Reparked(b: Books, id: Id, kept: seq<Ballot>): Books {
    b.(parked := if kept == [] then b.parked else b.parked[id := kept],
       places := Moved(b.places, SeatsOf(kept), Parked(id)))
  }

  // Each part of the books is kept by anything that leaves its rows and its seats alone.

  ghost predicate SamePlace(b: Books, b': Books, s: Seat) {
    (s in b.places <==> s in b'.places) && (s in b.places ==> b.places[s] == b'.places[s])
  }

  lemma WaitingFrame(b: Books, b': Books)
    requires WaitingOk(b) && b'.awaiting == b.awaiting
    requires forall s :: (s in b.places && b.places[s] == Waiting) <==> (s in b'.places && b'.places[s] == Waiting)
    ensures WaitingOk(b')
  {
  }

  lemma ParkedFrame(b: Books, b': Books)
    requires ParkedOk(b) && b'.parked == b.parked
    requires forall s :: (s in b.places && b.places[s].Parked?) || (s in b'.places && b'.places[s].Parked?) ==>
        SamePlace(b, b', s)
    ensures ParkedOk(b')
  {
    hide Listed, NoRepeats;
    forall id: Id ensures ParkedOn(b', id) == ParkedOn(b, id) {
    }
    forall id: Id, s ensures Listed(ParkedOn(b', id), s) <==> s in b'.places && b'.places[s] == Parked(id) {
      assert Listed(ParkedOn(b, id), s) <==> s in b.places && b.places[s] == Parked(id);
    }
  }

  lemma CallsFrame(b: Books, b': Books)
    requires CallsOk(b) && b'.calls == b.calls
    requires forall s :: (s in b.places && b.places[s].Issued?) || (s in b'.places && b'.places[s].Issued?) ==>
        SamePlace(b, b', s)
    ensures CallsOk(b')
  {
    forall k | 0 <= k < |b.calls| ensures b.calls[k].seat in b'.places && b'.places[b.calls[k].seat] == Issued(k) {
      assert SamePlace(b, b', b.calls[k].seat);
    }
  }

  lemma CallKeeps(b: Books, call: Call, hand: set<Seat>)
    requires Holding(b, hand) && call.seat in hand
    ensures Holding(WithCall(b, call), hand - {call.seat})
  {
    hide WaitingOk, ParkedOk;
    var b' := WithCall(b, call);
    assert forall s :: s != call.seat ==> SamePlace(b, b', s);
    WaitingFrame(b, b');
    ParkedFrame(b, b');
  }

  lemma ParkKeeps(b: Books, id: Id, v: Ballot, hand: set<Seat>)
    requires Holding(b, hand) && v.seat in hand
    ensures Holding(WithParked(b, id, v), hand - {v.seat})
  {
    hide WaitingOk, CallsOk, Listed, NoRepeats;
    var b' := WithParked(b, id, v);
    assert forall s :: s != v.seat ==> SamePlace(b, b', s);
    WaitingFrame(b, b');
    CallsFrame(b, b');
    forall i: Id
      ensures NoRepeats(ParkedOn(b', i))
      ensures forall s :: Listed(ParkedOn(b', i), s) <==> s in b'.places && b'.places[s] == Parked(i)
    {
      ParkQueue(b, id, v, i);
    }
  }

  lemma ParkQueue(b: Books, id: Id, v: Ballot, i: Id)
    requires ParkedOk(b) && v.seat in b.places && b.places[v.seat] == InHand
    ensures var b' := WithParked(b, id, v);
            && NoRepeats(ParkedOn(b', i))
            && forall s :: Listed(ParkedOn(b', i), s) <==> s in b'.places && b'.places[s] == Parked(i)
  {
    var q := ParkedOn(b, i);
    assert !Listed(q, v.seat);
    if i == id {
      ListedAppend(q, v);
    }
  }

  lemma ListedAppend(q: seq<Ballot>, v: Ballot)
    requires NoRepeats(q) && !Listed(q, v.seat)
    ensures NoRepeats(q + [v])
    ensures forall s :: Listed(q + [v], s) <==> Listed(q, s) || s == v.seat
  {
    forall s ensures Listed(q + [v], s) <==> Listed(q, s) || s == v.seat {
      if Listed(q, s) {
        var i :| 0 <= i < |q| && q[i].seat == s;
        assert (q + [v])[i].seat == s;
      }
      if s == v.seat {
        assert (q + [v])[|q|].seat == s;
      }
    }
  }

  lemma OpenKeeps(b: Books, req: Req, targets: set<Node>, off: set<Node>, deadline: Time)
    requires Holding(b, {}) && targets !! off && forall s :: s in b.places ==> s.req != req
    ensures Holding(Opened(b, req, targets, off, deadline), Seats(req, off))
  {
    hide ParkedOk, CallsOk, Moved, Seats;
    var b' := Opened(b, req, targets, off, deadline);
    assert forall s: Seat :: s.req != req ==> SamePlace(b, b', s);
    ParkedFrame(b, b');
    CallsFrame(b, b');
    assert WaitingOk(b') by { OpenWaiting(b, req, targets, off, deadline); }
  }

  lemma OpenWaiting(b: Books, req: Req, targets: set<Node>, off: set<Node>, deadline: Time)
    requires WaitingOk(b) && targets !! off && forall s :: s in b.places ==> s.req != req
    ensures WaitingOk(Opened(b, req, targets, off, deadline))
  {
    hide Moved, Seats;
    var b' := Opened(b, req, targets, off, deadline);
    forall r, n | r in b'.awaiting && n in b'.awaiting[r].remaining
      ensures Seat(r, n) in b'.places && b'.places[Seat(r, n)] == Waiting
    {
      if r in b.awaiting && n in b.awaiting[r].remaining {
        assert Seat(r, n) in b.places;
      }
    }
  }

  lemma AnswerKeeps(b: Books, req: Req, n: Node)
    requires Holding(b, {}) && req in b.awaiting && n in b.awaiting[req].remaining
    ensures Holding(Answered(b, req, n), {Seat(req, n)})
  {
    hide ParkedOk, CallsOk;
    var b' := Answered(b, req, n);
    assert forall s :: s != Seat(req, n) ==> SamePlace(b, b', s);
    ParkedFrame(b, b');
    CallsFrame(b, b');
    AnswerWaiting(b, req, n);
  }

  lemma AnswerWaiting(b: Books, req: Req, n: Node)
    requires WaitingOk(b) && req in b.awaiting && n in b.awaiting[req].remaining
    ensures WaitingOk(Answered(b, req, n))
  {
    var b' := Answered(b, req, n);
    var left := b.awaiting[req].remaining - {n};
    forall s | s in b'.places && b'.places[s] == Waiting
      ensures s.req in b'.awaiting && s.node in b'.awaiting[s.req].remaining
    {
      assert s in b.places && b.places[s] == Waiting;
      if s.req == req {
        assert s.node in left;
      }
    }
  }

  lemma CloseKeeps(b: Books, req: Req)
    requires Holding(b, {}) && req in b.awaiting
    ensures Holding(Closed(b, req), Seats(req, b.awaiting[req].remaining))
  {
    hide ParkedOk, CallsOk, Moved, Seats;
    var b' := Closed(b, req);
    ParkedFrame(b, b');
    CallsFrame(b, b');
  }

  lemma UnparkKeeps(b: Books, id: Id)
    requires Holding(b, {})
    ensures Holding(Unparked(b, id), SeatsOf(ParkedOn(b, id)))
  {
    hide WaitingOk, CallsOk, NoRepeats, Moved, SeatsOf, Listed;
    var b' := Unparked(b, id);
    var taken := SeatsOf(ParkedOn(b, id));
    assert forall s :: s in taken ==> s in b.places && b.places[s] == Parked(id);
    assert forall s :: s !in taken ==> SamePlace(b, b', s);
    WaitingFrame(b, b');
    CallsFrame(b, b');
    forall i: Id
      ensures NoRepeats(ParkedOn(b', i))
      ensures forall s :: Listed(ParkedOn(b', i), s) <==> s in b'.places && b'.places[s] == Parked(i)
    {
      Nothing();
      assert ParkedOn(b', i) == if i == id then [] else ParkedOn(b, i);
      forall s ensures Listed(ParkedOn(b', i), s) <==> s in b'.places && b'.places[s] == Parked(i) {
        assert Listed(ParkedOn(b, i), s) <==> s in b.places && b.places[s] == Parked(i);
      }
    }
  }

  lemma Nothing()
    ensures NoRepeats([]) && forall s :: !Listed([], s)
  {
  }

  lemma ReparkKeeps(b: Books, id: Id, kept: seq<Ballot>)
    requires Holding(b, SeatsOf(kept)) && id !in b.parked && NoRepeats(kept)
    ensures Holding(Reparked(b, id, kept), {})
  {
    hide WaitingOk, CallsOk, NoRepeats, Moved, SeatsOf, Listed;
    var b' := Reparked(b, id, kept);
    assert forall s :: s !in SeatsOf(kept) ==> SamePlace(b, b', s);
    WaitingFrame(b, b');
    CallsFrame(b, b');
    forall i: Id
      ensures NoRepeats(ParkedOn(b', i))
      ensures forall s :: Listed(ParkedOn(b', i), s) <==> s in b'.places && b'.places[s] == Parked(i)
    {
      Nothing();
      assert ParkedOn(b', i) == if i == id then kept else ParkedOn(b, i);
      forall s ensures Listed(ParkedOn(b', i), s) <==> s in b'.places && b'.places[s] == Parked(i) {
        assert Listed(ParkedOn(b, i), s) <==> s in b.places && b.places[s] == Parked(i);
      }
    }
  }

  /** No seat ever has two calls, and between handlers one without a call is waiting or parked. */
  lemma AtMostOneCall(b: Books, s: Seat, j: nat, k: nat)
    requires Holding(b, {}) && j < |b.calls| && k < |b.calls| && b.calls[j].seat == s == b.calls[k].seat
    ensures j == k
    ensures forall id: Id :: !Listed(ParkedOn(b, id), s)
    ensures !(s.req in b.awaiting && s.node in b.awaiting[s.req].remaining)
  {
    hide NoRepeats, Listed;
    assert b.places[b.calls[j].seat] == Issued(j);
    assert b.places[b.calls[k].seat] == Issued(k);
  }

  // ----- deadlines -----

  /** The polls a tick leaves open. */
  function StillOpen(awaiting: map<Req, Poll>, now: Time): map<Req, Poll> {
    map req | req in awaiting && now < awaiting[req].deadline :: awaiting[req]
  }

  /** The ballots a tick leaves parked, in their order. */
  function Kept(q: seq<Ballot>, now: Time): (r: seq<Ballot>)
    ensures forall v :: v in r <==> now <= v.deadline && v in q
  {
    if q == [] then []
    else
      var v := q[|q| - 1];
      Kept(q[..|q| - 1], now) + if now <= v.deadline then [v] else []
  }

  lemma NoneKept(now: Time)
    ensures Kept([], now) == []
  {
  }

  lemma KeptStep(q: seq<Ballot>, i: nat, now: Time)
    requires i < |q|
    ensures Kept(q[..i + 1], now) == Kept(q[..i], now) + if now <= q[i].deadline then [q[i]] else []
  {
    assert q[..i + 1][..i] == q[..i];
  }

  function StillParked(parked: map<Id, seq<Ballot>>, now: Time): map<Id, seq<Ballot>> {
    map id | id in parked && Kept(parked[id], now) != [] :: Kept(parked[id], now)
  }

  /** What one handler may do to the deadlines a seat is under. */
  datatype Act =
    | Open(req: Req, sample: set<Node>, connected: set<Node>, until: Time)
    | Chits(seat: Seat, until: Time)
    | Arrive(id: Id)
    | Tick(now: Time)

  /** Polls keep their deadline until they close, and a ballot the one it was parked with. */
  ghost predicate After(b: Books, act: Act, b': Books) {
    && Holding(b', {}) && b.calls <= b'.calls
    && match act
       case Open(req, sample, connected, until) =>
         && (forall s :: s in b.places ==> s.req != req)
         && b'.places.Keys == b.places.Keys + Seats(req, sample)
         && b'.parked == b.parked
         && b'.awaiting
             == (if sample * connected != {} then b.awaiting[req := Poll(sample * connected, until)] else b.awaiting)
       case Chits(seat, until) =>
         && b'.places.Keys == b.places.Keys
         && (b' == b
             || (&& seat.req in b.awaiting
                 && b'.awaiting == Answered(b, seat.req, seat.node).awaiting
                 && (b'.parked == b.parked
                     || exists id, options ::
                          b'.parked == b.parked[id := ParkedOn(b, id) + [Ballot(seat, options, until)]])))
       case Arrive(id) =>
         b'.places.Keys == b.places.Keys && b'.awaiting == b.awaiting && b'.parked == b.parked - {id}
       case Tick(now) =>
         && b'.places.Keys == b.places.Keys
         && b'.awaiting == StillOpen(b.awaiting, now) && b'.parked == StillParked(b.parked, now)
  }

  /** The poll and the parking slot a seat is in, if any, will have expired by now. */
  ghost predicate DueBy(b: Books, s: Seat, now: Time) {
    && (s.req in b.awaiting && s.node in b.awaiting[s.req].remaining ==> b.awaiting[s.req].deadline <= now)
    && (forall id: Id, v: Ballot :: v in ParkedOn(b, id) && v.seat == s ==> v.deadline < now)
  }

  /** A handler gives a seat no more time than its own answer does. */
  lemma StaysDue(b: Books, act: Act, b': Books, s: Seat, now: Time)
    requires Holding(b, {}) && After(b, act, b') && s in b.places && DueBy(b, s, now)
    requires act.Chits? && act.seat == s ==> act.until < now
    ensures s in b'.places && DueBy(b', s, now)
  {
    hide Holding, Kept, Seats;
    forall id: Id, v: Ballot | v in ParkedOn(b', id) && v.seat == s ensures v.deadline < now {
      if act.Tick? {
        TickOnlyDrops(b, act.now, b', id, v);
      } else if act.Chits? && b'.parked != b.parked {
        var on, options :| b'.parked == b.parked[on := ParkedOn(b, on) + [Ballot(act.seat, options, act.until)]];
        assert v in ParkedOn(b, id) || v == Ballot(act.seat, options, act.until);
      } else {
        assert v in ParkedOn(b, id);
      }
    }
  }

  /** A ballot a tick leaves parked was parked there before, and is within its deadline. */
  lemma TickOnlyDrops(b: Books, now: Time, b': Books, id: Id, v: Ballot)
    requires b'.parked == StillParked(b.parked, now) && v in ParkedOn(b', id)
    ensures v in ParkedOn(b, id) && now <= v.deadline
  {
    hide Kept;
    assert b'.parked[id] == Kept(b.parked[id], now);
  }

  /** Ballots that stay parked keep their order. */
  lemma {:induction false} KeptInOrder(q: seq<Ballot>, now: Time, i: nat, j: nat)
    requires i < j < |q| && now <= q[i].deadline && now <= q[j].deadline
    ensures exists k, l :: 0 <= k < l < |Kept(q, now)| && Kept(q, now)[k] == q[i] && Kept(q, now)[l] == q[j]
    decreases |q|
  {
    var front := q[..|q| - 1];
    var kept := Kept(q, now);
    if j < |front| {
      KeptInOrder(front, now, i, j);
      var k, l :| 0 <= k < l < |Kept(front, now)| && Kept(front, now)[k] == front[i] && Kept(front, now)[l] == front[j];
      assert kept[k] == q[i] && kept[l] == q[j];
    } else {
      assert front[i] in front && front[i] in Kept(front, now);
      var k :| 0 <= k < |Kept(front, now)| && Kept(front, now)[k] == q[i];
      assert kept[k] == q[i] && kept[|kept| - 1] == q[j];
    }
  }

  /**
   A tick leaves alone whoever is within their deadline: a validator still waited
   for stays in its poll, under the same deadline, and a ballot stays parked where
   it was.
   */
  lemma TickKeepsSeat(b: Books, now: Time, b': Books, s: Seat)
    requires Holding(b, {}) && After(b, Tick(now), b') && s in b.places
    ensures b.places[s] == Waiting && now < b.awaiting[s.req].deadline ==>
              && s in b'.places && b'.places[s] == Waiting
              && s.req in b'.awaiting && b'.awaiting[s.req] == b.awaiting[s.req]
    ensures forall id: Id, v: Ballot :: v in ParkedOn(b, id) && v.seat == s && now <= v.deadline ==>
              v in ParkedOn(b', id) && s in b'.places && b'.places[s] == Parked(id)
  {
    hide NoRepeats, CallsOk, HandOk, Kept;
    forall id: Id, v: Ballot | v in ParkedOn(b, id) && v.seat == s && now <= v.deadline
      ensures v in ParkedOn(b', id) && s in b'.places && b'.places[s] == Parked(id)
    {
      assert v in Kept(b.parked[id], now);
      assert b'.parked[id] == Kept(b.parked[id], now);
      IsListed(ParkedOn(b', id), v);
    }
  }

  lemma IsListed(q: seq<Ballot>, v: Ballot)
    requires v in q
    ensures Listed(q, v.seat)
  {
  }

  /** After the tick a seat that was due has exactly one call. */
  lemma DueSeatIsCalled(b: Books, now: Time, b': Books, s: Seat)
    requires After(b, Tick(now), b') && s in b.places && DueBy(b, s, now)
    ensures CalledOnce(b'.calls, s)
  {
    hide Holding, Kept, DueBy;
    TickSettles(b, now, b', s);
    OneCall(b', s);
  }

  lemma TickSettles(b: Books, now: Time, b': Books, s: Seat)
    requires After(b, Act.Tick(now), b') && s in b.places && DueBy(b, s, now)
    ensures exists k :: 0 <= k < |b'.calls| && b'.calls[k].seat == s
  {
    hide ParkedOk, Kept, ParkedOn, StillParked;
    assert s in b'.places;
    assert b'.places[s] != Waiting;
    assert !b'.places[s].Parked? by { TickUnparks(b, now, b', s); }
    assert b'.calls[b'.places[s].at].seat == s;
  }

  lemma TickUnparks(b: Books, now: Time, b': Books, s: Seat)
    requires After(b, Act.Tick(now), b') && s in b'.places && DueBy(b, s, now)
    ensures !b'.places[s].Parked?
  {
    hide NoRepeats, Kept, WaitingOk, CallsOk, HandOk, StillParked;
    forall id: Id ensures !Listed(ParkedOn(b', id), s) {
      forall i | 0 <= i < |ParkedOn(b', id)| ensures ParkedOn(b', id)[i].seat != s {
        TickOnlyDrops(b, now, b', id, ParkedOn(b', id)[i]);
      }
    }
  }

  /** The seat has had exactly one call. */
  predicate CalledOnce(calls: seq<Call>, s: Seat) {
    && (exists k :: 0 <= k < |calls| && calls[k].seat == s)
    && forall j, k :: 0 <= j < k < |calls| ==> !(calls[j].seat == s && calls[k].seat == s)
  }

  lemma OneCall(b: Books, s: Seat)
    requires Holding(b, {}) && exists k :: 0 <= k < |b.calls| && b.calls[k].seat == s
    ensures CalledOnce(b.calls, s)
  {
    hide Holding;
    forall j, k | 0 <= j < k < |b.calls| ensures !(b.calls[j].seat == s && b.calls[k].seat == s) {
      if b.calls[j].seat == s && b.calls[k].seat == s {
        AtMostOneCall(b, s, j, k);
      }
    }
  }

  /** The books between the handlers of a run. */
  ghost predicate Runs(bs: seq<Books>, acts: seq<Act>) {
    && |bs| == |acts| + 1 && Holding(bs[0], {})
    && forall n :: 0 <= n < |acts| ==> After(bs[n], acts[n], bs[n + 1])
  }

  lemma {:induction false} StaysDueOverRun(bs: seq<Books>, acts: seq<Act>, i: nat, n: nat, s: Seat, now: Time)
    requires Runs(bs, acts) && i <= n < |bs| && s in bs[i].places && DueBy(bs[i], s, now)
    requires forall m :: i <= m < n && acts[m].Chits? && acts[m].seat == s ==> acts[m].until < now
    ensures Holding(bs[n], {}) && s in bs[n].places && DueBy(bs[n], s, now)
    decreases n
  {
    hide Holding, DueBy;
    if n > 0 {
      assert After(bs[n - 1], acts[n - 1], bs[n]);
      if i < n {
        StaysDueOverRun(bs, acts, i, n - 1, s, now);
        StaysDue(bs[n - 1], acts[n - 1], bs[n], s, now);
      }
    }
  }

  /**
   Over any run of handlers: take a seat at any moment, and any later tick past its
   poll's deadline, past the deadline of a slot it is parked in, and past the one
   its answer is parked with. From that tick on it has exactly one call.
   */
  lemma ExactlyOnce(bs: seq<Books>, acts: seq<Act>, i: nat, n: nat, last: nat, s: Seat)
    requires Runs(bs, acts) && i <= n < last < |bs| && acts[n].Tick? && s in bs[i].places
    requires DueBy(bs[i], s, acts[n].now)
    requires forall m :: i <= m < n && acts[m].Chits? && acts[m].seat == s ==> acts[m].until < acts[n].now
    ensures CalledOnce(bs[last].calls, s)
  {
    hide Holding, DueBy;
    StaysDueOverRun(bs, acts, i, n, s, acts[n].now);
    assert After(bs[n], acts[n], bs[n + 1]);
    DueSeatIsCalled(bs[n], acts[n].now, bs[n + 1], s);
    CallsOnlyGrow(bs, acts, n + 1, last);
    var k :| 0 <= k < |bs[n + 1].calls| && bs[n + 1].calls[k].seat == s;
    assert bs[last].calls[k].seat == s;
    assert After(bs[last - 1], acts[last - 1], bs[last]);
    OneCall(bs[last], s);
  }

  lemma {:induction false} CallsOnlyGrow(bs: seq<Books>, acts: seq<Act>, i: nat, n: nat)
    requires Runs(bs, acts) && i <= n < |bs|
    ensures bs[i].calls <= bs[n].calls
    decreases n
  {
    hide Holding;
    if i < n {
      CallsOnlyGrow(bs, acts, i, n - 1);
      assert After(bs[n - 1], acts[n - 1], bs[n]);
    }
  }

  // ----- the shell -----

  function FrontierOf(frontiers: map<Node, Id>, n: Node): Option<Id> {
    if n in frontiers then Some(frontiers[n]) else None
  }

  /** The call that settles a ballot for good. */
  function CallFor(c: Known, frontiers: map<Node, Id>, v: Ballot): Call
    requires Acyclic(c)
  {
    match Choose(c, FrontierOf(frontiers, v.seat.node), v.options, false)
    case Cast(id) => Vote(v.seat, id)
    case _ => Drop(v.seat)
  }

  /** From the given one on, every call is the sampled peer's last known frontier, or a drop. */
  ghost predicate Fallbacks(cs: nat -> Known, frontiers: map<Node, Id>, calls: seq<Call>, from: nat) {
    forall k :: from <= k < |calls| ==>
      Acyclic(cs(k)) && calls[k] == CallFor(cs(k), frontiers, Ballot(calls[k].seat, [], 0))
  }

  lemma FallbackMore(cs: nat -> Known, frontiers: map<Node, Id>, calls: seq<Call>, from: nat, v: Ballot)
    requires Fallbacks(cs, frontiers, calls, from) && v.options == [] && Acyclic(cs(|calls|))
    ensures Fallbacks(cs, frontiers, calls + [CallFor(cs(|calls|), frontiers, v)], from)
  {
    hide Choose, Acyclic;
  }

  lemma FallbackChain(cs: nat -> Known, frontiers: map<Node, Id>, calls: seq<Call>, calls': seq<Call>, from: nat)
    requires Fallbacks(cs, frontiers, calls, from) && calls <= calls' && Fallbacks(cs, frontiers, calls', |calls|)
    ensures Fallbacks(cs, frontiers, calls', from)
  {
    hide CallFor, Acyclic;
    forall k | from <= k < |calls'|
      ensures Acyclic(cs(k)) && calls'[k] == CallFor(cs(k), frontiers, Ballot(calls'[k].seat, [], 0))
    {
      if k < |calls| {
        assert calls'[k] == calls[k];
      }
    }
  }

  lemma NoFallbacks(cs: nat -> Known, frontiers: map<Node, Id>, calls: seq<Call>)
    ensures Fallbacks(cs, frontiers, calls, |calls|) && Settles(cs, frontiers, calls, |calls|, [])
  {
  }

  /** From the given one on, the calls settle the ballots in order, with all their options. */
  ghost predicate Settles(cs: nat -> Known, frontiers: map<Node, Id>, calls: seq<Call>, from: nat, q: seq<Ballot>) {
    && |calls| == from + |q|
    && forall k :: from <= k < |calls| ==> Acyclic(cs(k)) && calls[k] == CallFor(cs(k), frontiers, q[k - from])
  }

  lemma SettlesMore(cs: nat -> Known, frontiers: map<Node, Id>, calls: seq<Call>, from: nat, q: seq<Ballot>, v: Ballot)
    requires Settles(cs, frontiers, calls, from, q) && Acyclic(cs(|calls|))
    ensures Settles(cs, frontiers, calls + [CallFor(cs(|calls|), frontiers, v)], from, q + [v])
  {
    hide CallFor, Acyclic;
    var calls' := calls + [CallFor(cs(|calls|), frontiers, v)];
    forall k | from <= k < |calls'|
      ensures Acyclic(cs(k)) && calls'[k] == CallFor(cs(k), frontiers, (q + [v])[k - from])
    {
      if k < |calls| {
        assert calls'[k] == calls[k];
      }
    }
  }

  class Router {
    var awaiting: map<Req, Poll>
    var parked: map<Id, seq<Ballot>>
    var frontiers: map<Node, Id>
    var calls: seq<Call>
    /** Every seat ever sampled, and its place. */
    ghost var places: map<Seat, Place>

    ghost function View(): Books
      reads this
    {
      Books(awaiting, parked, calls, places)
    }

    /** Between handlers every sampled seat waits, is parked, or has had its one call. */
    ghost predicate Valid()
      reads this
    {
      Holding(View(), {})
    }

    constructor ()
      ensures Valid() && places == map[] && calls == []
    {
      awaiting, parked, frontiers, calls, places := map[], map[], map[], [], map[];
    }

    /** Places one seat: its single call, or, only where allowed, a parking slot. */
    method Apply(v: Ballot, allowPark: bool, c: Known, ghost hand: set<Seat>)
      requires Holding(View(), hand) && v.seat in hand && Acyclic(c)
      modifies this`parked, this`calls, this`places
      ensures Holding(View(), hand - {v.seat})
      ensures View() == match Choose(c, FrontierOf(frontiers, v.seat.node), v.options, allowPark)
                        case Cast(id) => WithCall(old(View()), Vote(v.seat, id))
                        case Abstain => WithCall(old(View()), Drop(v.seat))
                        case ParkOn(id) => WithParked(old(View()), id, v)
      ensures !allowPark ==> parked == old(parked) && calls == old(calls) + [CallFor(c, frontiers, v)]
      ensures old(calls) <= calls
    {
      hide Choose, Bubble, Holding;
      ghost var b := View();
      var o := Decide(c, FrontierOf(frontiers, v.seat.node), v.options, allowPark);
      CastIsVotable(c, FrontierOf(frontiers, v.seat.node), v.options, allowPark);
      match o {
        case Cast(id) =>
          CallKeeps(b, Vote(v.seat, id), hand);
          places := places[v.seat := Issued(|calls|)];
          calls := calls + [Vote(v.seat, id)];
        case Abstain =>
          CallKeeps(b, Drop(v.seat), hand);
          places := places[v.seat := Issued(|calls|)];
          calls := calls + [Drop(v.seat)];
        case ParkOn(id) =>
          ParkKeeps(b, id, v, hand);
          parked := parked[id := (if id in parked then parked[id] else []) + [v]];
          places := places[v.seat := Parked(id)];
      }
    }

    /** Settles validators whose answer will not come. The state of consensus may change with every call. */
    method Settle(req: Req, nodes: set<Node>, cs: nat -> Known)
      requires Holding(View(), Seats(req, nodes)) && forall n :: Acyclic(cs(n))
      modifies this`parked, this`calls, this`places
      ensures Valid() && parked == old(parked) && old(calls) <= calls && places.Keys == old(places.Keys)
      ensures Fallbacks(cs, frontiers, calls, |old(calls)|)
    {
      hide Holding, Seats, Acyclic, CallFor, Fallbacks;
      var left := nodes;
      NoFallbacks(cs, frontiers, calls);
      while left != {}
        invariant left <= nodes && Holding(View(), Seats(req, left))
        invariant parked == old(parked) && old(calls) <= calls && places.Keys == old(places.Keys)
        invariant Fallbacks(cs, frontiers, calls, |old(calls)|)
        decreases |left|
      {
        var n :| n in left;
        ghost var hand := Seats(req, left);
        assert Acyclic(cs(|calls|));
        HandIsPlaced(View(), hand);
        FallbackMore(cs, frontiers, calls, |old(calls)|, Ballot(Seat(req, n), [], 0));
        Apply(Ballot(Seat(req, n), [], 0), false, cs(|calls|), hand);
        left := left - {n};
        assert hand - {Seat(req, n)} == Seats(req, left);
      }
      assert Seats(req, {}) == {};
    }

    /**
     Opens a poll over a sample. Unconnected validators can never answer, so they
     are settled at once.
     */
    method SendPoll(req: Req, sample: set<Node>, connected: set<Node>, deadline: Time, cs: nat -> Known)
      requires Valid() && (forall s :: s in places ==> s.req != req) && forall n :: Acyclic(cs(n))
      modifies this`awaiting, this`parked, this`calls, this`places
      ensures Valid() && old(calls) <= calls
      ensures places.Keys == old(places.Keys) + Seats(req, sample)
      ensures Fallbacks(cs, frontiers, calls, |old(calls)|)
      ensures After(old(View()), Open(req, sample, connected, deadline), View())
    {
      hide Holding, Seats, Moved, Acyclic, Fallbacks;
      var targets, off := sample * connected, sample - connected;
      OpenKeeps(View(), req, targets, off, deadline);
      places := Moved(Moved(places, Seats(req, targets), Waiting), Seats(req, off), InHand);
      if targets != {} {
        awaiting := awaiting[req := Poll(targets, deadline)];
      }
      assert places.Keys == old(places.Keys) + Seats(req, sample);
      Settle(req, off, cs);
    }

    /** A validator's answer. Answers nobody waits for only update its frontier. */
    method OnChits(req: Req, node: Node, options: seq<Id>, accepted: Id, deadline: Time, c: Known)
      requires Valid() && Acyclic(c)
      modifies this
      ensures Valid() && places.Keys == old(places.Keys) && old(calls) <= calls
      ensures frontiers == old(frontiers)[node := accepted]
      ensures After(old(View()), Chits(Seat(req, node), deadline), View())
      ensures !(req in old(awaiting) && node in old(awaiting)[req].remaining) ==> View() == old(View())
      ensures req in old(awaiting) && node in old(awaiting)[req].remaining ==>
                (View() == match Choose(c, Some(accepted), options, true)
                           case Cast(id) => WithCall(Answered(old(View()), req, node), Vote(Seat(req, node), id))
                           case Abstain => WithCall(Answered(old(View()), req, node), Drop(Seat(req, node)))
                           case ParkOn(id) =>
                             var v := Ballot(Seat(req, node), options, deadline);
                             WithParked(Answered(old(View()), req, node), id, v))
    {
      hide Holding, Choose, After;
      ghost var before := View();
      frontiers := frontiers[node := accepted];
      Unanswered(before, Seat(req, node), deadline);
      if req !in awaiting || node !in awaiting[req].remaining {
        return;
      }
      AnswerKeeps(View(), req, node);
      AnsweredSeatSampled(View(), req, node);
      var left := awaiting[req].remaining - {node};
      places := places[Seat(req, node) := InHand];
      if left == {} {
        awaiting := awaiting - {req};
      } else {
        awaiting := awaiting[req := awaiting[req].(remaining := left)];
      }
      Apply(Ballot(Seat(req, node), options, deadline), true, c, {Seat(req, node)});
      assert {Seat(req, node)} - {Seat(req, node)} == {};
      AnswerIsChits(before, req, node, options, deadline, Choose(c, Some(accepted), options, true), View());
    }

    /** A container arrives: the ballots parked on it are settled, in order, without parking again. */
    method Arrived(id: Id, cs: nat -> Known)
      requires Valid() && forall n :: Acyclic(cs(n))
      modifies this`parked, this`calls, this`places
      ensures Valid() && parked == old(parked) - {id} && old(calls) <= calls && places.Keys == old(places.Keys)
      ensures Settles(cs, frontiers, calls, |old(calls)|, ParkedOn(old(View()), id))
      ensures After(old(View()), Arrive(id), View())
    {
      hide Holding, SeatsOf, NoRepeats, Moved, Acyclic, Listed, CallFor, HandIs, Settles;
      var q: seq<Ballot> := if id in parked then parked[id] else [];
      Unpark(id, q);
      NoFallbacks(cs, frontiers, calls);
      ghost var hand := SeatsOf(q);
      HandParts(q);
      var i := 0;
      assert q[0..] == q && q[..0] == [];
      while i < |q|
        invariant 0 <= i <= |q| && Holding(View(), hand) && HandIs(hand, [], q[i..])
        invariant Settles(cs, frontiers, calls, |old(calls)|, q[..i])
        invariant parked == old(parked) - {id} && old(calls) <= calls && places.Keys == old(places.Keys)
      {
        TakeNext(hand, [], q[i..]);
        assert q[i..][1..] == q[i + 1..] && q[..i + 1] == q[..i] + [q[i]];
        assert Acyclic(cs(|calls|));
        HandIsPlaced(View(), hand);
        SettlesMore(cs, frontiers, calls, |old(calls)|, q[..i], q[i]);
        Apply(q[i], false, cs(|calls|), hand);
        hand := hand - {q[i].seat};
        i := i + 1;
      }
      assert q[i..] == [] && q[..i] == q;
      KeptOnly(hand, []);
      NoSeats();
    }

    /** Takes every ballot off a container. */
    method Unpark(id: Id, q: seq<Ballot>)
      requires Valid() && q == ParkedOn(View(), id)
      modifies this`parked, this`places
      ensures View() == Unparked(old(View()), id) && Holding(View(), SeatsOf(q)) && NoRepeats(q)
      ensures parked == old(parked) - {id} && places.Keys == old(places.Keys)
    {
      hide Holding, SeatsOf, NoRepeats, Moved, Listed;
      UnparkKeeps(View(), id);
      ParkedSeats(View(), id);
      places := Moved(places, SeatsOf(q), InHand);
      parked := parked - {id};
    }

    /** Ballots parked on a container past their deadline fall back on the frontier; the rest go back. */
    method ExpireOn(id: Id, now: Time, cs: nat -> Known)
      requires Valid() && forall n :: Acyclic(cs(n))
      modifies this`parked, this`calls, this`places
      ensures Valid() && old(calls) <= calls && places.Keys == old(places.Keys)
      ensures var kept := Kept(ParkedOn(old(View()), id), now);
              parked == if kept == [] then old(parked) - {id} else old(parked)[id := kept]
      ensures Fallbacks(cs, frontiers, calls, |old(calls)|)
    {
      hide Holding, SeatsOf, NoRepeats, Moved, Acyclic, Listed, CallFor, HandIs, Fallbacks, Kept;
      var q: seq<Ballot> := if id in parked then parked[id] else [];
      assert Kept(q[..0], now) == [] by { assert q[..0] == []; NoneKept(now); }
      Unpark(id, q);
      NoFallbacks(cs, frontiers, calls);
      ghost var hand := SeatsOf(q);
      HandParts(q);
      var kept: seq<Ballot> := [];
      var i := 0;
      assert q[0..] == q;
      while i < |q|
        invariant 0 <= i <= |q| && Holding(View(), hand) && HandIs(hand, kept, q[i..])
        invariant kept == Kept(q[..i], now)
        invariant Fallbacks(cs, frontiers, calls, |old(calls)|)
        invariant parked == old(parked) - {id} && old(calls) <= calls && places.Keys == old(places.Keys)
      {
        var v := q[i];
        TakeNext(hand, kept, q[i..]);
        assert q[i..][1..] == q[i + 1..];
        KeptStep(q, i, now);
        if now > v.deadline {
          assert Acyclic(cs(|calls|));
          HandIsPlaced(View(), hand);
          FallbackMore(cs, frontiers, calls, |old(calls)|, v.(options := []));
          Apply(v.(options := []), false, cs(|calls|), hand);
          hand := hand - {v.seat};
        } else {
          kept := kept + [v];
        }
        i := i + 1;
      }
      assert q[i..] == [] && q[..i] == q;
      KeptOnly(hand, kept);
      Repark(id, kept);
    }

    /** Puts the remaining ballots back, or drops the container's entry. */
    method Repark(id: Id, kept: seq<Ballot>)
      requires Holding(View(), SeatsOf(kept)) && id !in parked && NoRepeats(kept)
      modifies this`parked, this`places
      ensures Valid() && places.Keys == old(places.Keys)
      ensures parked == if kept == [] then old(parked) else old(parked)[id := kept]
    {
      hide Holding, SeatsOf, NoRepeats, Moved, Listed;
      HandIsPlaced(View(), SeatsOf(kept));
      ReparkKeeps(View(), id, kept);
      places := Moved(places, SeatsOf(kept), Parked(id));
      if kept != [] {
        parked := parked[id := kept];
      }
    }

    /** Closes every poll whose deadline has passed. */
    method ExpirePolls(now: Time, cs: nat -> Known)
      requires Valid() && forall n :: Acyclic(cs(n))
      modifies this`awaiting, this`parked, this`calls, this`places
      ensures Valid() && old(calls) <= calls && places.Keys == old(places.Keys) && parked == old(parked)
      ensures awaiting == StillOpen(old(awaiting), now)
      ensures Fallbacks(cs, frontiers, calls, |old(calls)|)
    {
      hide Holding, Seats, Moved, Acyclic, Fallbacks;
      NoFallbacks(cs, frontiers, calls);
      var todo := awaiting.Keys;
      while todo != {}
        invariant Valid() && old(calls) <= calls && places.Keys == old(places.Keys) && parked == old(parked)
        invariant todo <= awaiting.Keys && Fallbacks(cs, frontiers, calls, |old(calls)|)
        invariant forall req :: req in awaiting <==> req in todo || req in StillOpen(old(awaiting), now)
        invariant todo <= old(awaiting).Keys && forall req :: req in awaiting ==> awaiting[req] == old(awaiting)[req]
        decreases |todo|
      {
        var req :| req in todo;
        todo := todo - {req};
        if awaiting[req].deadline <= now {
          var nodes := awaiting[req].remaining;
          CloseKeeps(View(), req);
          WaitingSeats(View(), req);
          places := Moved(places, Seats(req, nodes), InHand);
          awaiting := awaiting - {req};
          ghost var before := calls;
          Settle(req, nodes, cs);
          FallbackChain(cs, frontiers, before, calls, |old(calls)|);
        }
      }
    }

    /** Settles every parked ballot whose deadline has passed. */
    method ExpireParked(now: Time, cs: nat -> Known)
      requires Valid() && forall n :: Acyclic(cs(n))
      modifies this`parked, this`calls, this`places
      ensures Valid() && old(calls) <= calls && places.Keys == old(places.Keys)
      ensures parked == StillParked(old(parked), now)
      ensures Fallbacks(cs, frontiers, calls, |old(calls)|)
    {
      hide Holding, Acyclic, Fallbacks, Settles, Kept;
      NoFallbacks(cs, frontiers, calls);
      var todo := parked.Keys;
      while todo != {}
        invariant Valid() && old(calls) <= calls && places.Keys == old(places.Keys)
        invariant Fallbacks(cs, frontiers, calls, |old(calls)|)
        invariant todo <= parked.Keys && todo <= old(parked).Keys
        invariant forall id :: id in parked <==> id in todo || id in StillParked(old(parked), now)
        invariant forall id :: id in parked ==>
            parked[id] == if id in todo then old(parked)[id] else Kept(old(parked)[id], now)
        decreases |todo|
      {
        var id :| id in todo;
        ghost var before := calls;
        ExpireOn(id, now, cs);
        FallbackChain(cs, frontiers, before, calls, |old(calls)|);
        todo := todo - {id};
      }
    }

    /** The live half of a tick: what is past its deadline is settled, the rest is left as it was. */
    method Tick(now: Time, cs: nat -> Known)
      requires Valid() && forall n :: Acyclic(cs(n))
      modifies this`awaiting, this`parked, this`calls, this`places
      ensures Valid() && old(calls) <= calls && places.Keys == old(places.Keys)
      ensures After(old(View()), Act.Tick(now), View())
      ensures Fallbacks(cs, frontiers, calls, |old(calls)|)
    {
      hide Holding, Acyclic, Fallbacks;
      ExpirePolls(now, cs);
      ghost var before := calls;
      ExpireParked(now, cs);
      FallbackChain(cs, frontiers, before, calls, |old(calls)|);
    }
  }

  lemma Unanswered(b: Books, s: Seat, until: Time)
    requires Holding(b, {})
    ensures After(b, Chits(s, until), b)
  {
    hide Holding;
  }

  lemma AnswerIsChits(b: Books, req: Req, n: Node, options: seq<Id>, until: Time, o: Outcome, b': Books)
    requires Holding(b, {}) && Holding(b', {}) && req in b.awaiting && n in b.awaiting[req].remaining
    requires Seat(req, n) in b.places
    requires b' == match o
                   case Cast(id) => WithCall(Answered(b, req, n), Vote(Seat(req, n), id))
                   case Abstain => WithCall(Answered(b, req, n), Drop(Seat(req, n)))
                   case ParkOn(id) => WithParked(Answered(b, req, n), id, Ballot(Seat(req, n), options, until))
    ensures After(b, Chits(Seat(req, n), until), b')
  {
    hide Holding;
    if o.ParkOn? {
      var id := o.blocker;
      assert ParkedOn(Answered(b, req, n), id) == ParkedOn(b, id);
      assert b'.parked == b.parked[id := ParkedOn(b, id) + [Ballot(Seat(req, n), options, until)]];
    }
  }

  lemma HandIsPlaced(b: Books, hand: set<Seat>)
    requires Holding(b, hand)
    ensures forall s :: s in hand ==> s in b.places
  {
  }

  lemma AnsweredSeatSampled(b: Books, req: Req, n: Node)
    requires Holding(b, {}) && req in b.awaiting && n in b.awaiting[req].remaining
    ensures Seat(req, n) in b.places
  {
  }

  lemma ParkedSeats(b: Books, id: Id)
    requires Holding(b, {})
    ensures NoRepeats(ParkedOn(b, id)) && SeatsOf(ParkedOn(b, id)) <= b.places.Keys
  {
    hide NoRepeats, SeatsOf, Listed;
  }

  lemma WaitingSeats(b: Books, req: Req)
    requires Holding(b, {}) && req in b.awaiting
    ensures Seats(req, b.awaiting[req].remaining) <= b.places.Keys
  {
    hide Seats;
  }

  /** In hand are the ballots kept so far and the ones still to come. */
  ghost predicate HandIs(hand: set<Seat>, kept: seq<Ballot>, rest: seq<Ballot>) {
    NoRepeats(kept + rest) && hand == SeatsOf(kept + rest)
  }

  lemma NoSeats()
    ensures SeatsOf([]) == {}
  {
  }

  lemma HandParts(rest: seq<Ballot>)
    requires NoRepeats(rest)
    ensures HandIs(SeatsOf(rest), [], rest)
  {
    assert [] + rest == rest;
  }

  lemma TakeNext(hand: set<Seat>, kept: seq<Ballot>, rest: seq<Ballot>)
    requires HandIs(hand, kept, rest) && rest != []
    ensures rest[0].seat in hand
    ensures HandIs(hand, kept + [rest[0]], rest[1..])
    ensures HandIs(hand - {rest[0].seat}, kept, rest[1..])
  {
    assert kept + [rest[0]] + rest[1..] == kept + rest;
    Without(kept + rest, |kept|);
    assert (kept + rest)[..|kept|] + (kept + rest)[|kept| + 1..] == kept + rest[1..];
  }

  lemma Without(q: seq<Ballot>, n: nat)
    requires NoRepeats(q) && n < |q|
    ensures var r := q[..n] + q[n + 1..]; NoRepeats(r) && SeatsOf(r) == SeatsOf(q) - {q[n].seat}
    ensures q[n].seat in SeatsOf(q)
  {
    hide SeatsOf;
    var r := q[..n] + q[n + 1..];
    assert forall i :: 0 <= i < |r| ==> r[i] == if i < n then q[i] else q[i + 1];
    forall s ensures Listed(r, s) <==> Listed(q, s) && s != q[n].seat {
      if Listed(q, s) && s != q[n].seat {
        var i :| 0 <= i < |q| && q[i].seat == s;
        assert r[if i < n then i else i - 1].seat == s;
      }
    }
  }

  lemma KeptOnly(hand: set<Seat>, kept: seq<Ballot>)
    requires HandIs(hand, kept, [])
    ensures NoRepeats(kept) && hand == SeatsOf(kept)
  {
    assert kept + [] == kept;
  }
}
