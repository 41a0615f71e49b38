/**
 A reader process on the tip bus (the loop around Handshake and Poll): each polled
 event is one write phase of its in-memory view.
 */
module Subscribers {
  import opened Bytes
  import opened Schema
  import opened TipView
  import TipBus
  import Mem

  type Event = TipBus.Event

  /** The write phase an event stands for. */
  function Follow(v: View, ev: Event): View {
    match ev
    case EvBlock(b) => AfterApplyBlock(v, b)
    case EvFinalize(h, hash) => AfterFinalize(v, h, hash)
    case EvReset(bs) => AfterReset(v, bs)
  }

  /** A finalize for anything but the view's oldest layer. */
  predicate Refuses(v: View, ev: Event) {
    ev.EvFinalize? && !FinalizeMatches(v, ev.height, ev.hash)
  }

  function FollowAll(v: View, evs: seq<Event>): View {
    if evs == [] then v else Follow(FollowAll(v, evs[..|evs| - 1]), evs[|evs| - 1])
  }

  /** Each event is accepted by the view the ones before it lead to. */
  predicate AllAccepted(v: View, evs: seq<Event>) {
    evs == []
    || (AllAccepted(v, evs[..|evs| - 1]) && !Refuses(FollowAll(v, evs[..|evs| - 1]), evs[|evs| - 1]))
  }

  /** The in-memory state does what the event says and reports a refused finalize. */
  method Handle(st: Mem.State, ev: Event) returns (ok: bool)
    requires st.Valid()
    modifies st, st.base, st.buffers
    ensures st.Valid() && st.Value() == Follow(old(st.Value()), ev)
    ensures ok <==> !old(Refuses(st.Value(), ev))
  {
    hide Mem.State.Valid, Mem.State.Value, AfterApplyBlock, AfterFinalize, AfterReset;
    match ev {
      case EvBlock(b) =>
        st.ApplyBlock(b);
        return true;
      case EvFinalize(h, hash) =>
        ok := st.Finalize(h, hash);
      case EvReset(bs) =>
        st.PreferenceReset(bs);
        return true;
    }
  }

  /** The bus's replay moves a stack as the write phase moves a view's layers, and refuses the same events. */
  lemma FeedIsFollow(v: View, finalized: U64, ev: Event)
    ensures var st := TipBus.Feed(Some((finalized, v.layers)), ev);
            && (st.None? <==> Refuses(v, ev))
            && (st.Some? ==> Follow(v, ev).layers == st.value.1)
  {
  }

  /**
   Replaying events on the bus's stack and on a view gives the same layers, and the
   bus's replay fails exactly when the view refuses a finalize.
   */
  lemma {:induction false} FeedAllIsFollowAll(v: View, finalized: U64, evs: seq<Event>)
    ensures var st := TipBus.FeedAll(Some((finalized, v.layers)), evs);
            (st.Some? <==> AllAccepted(v, evs)) && (st.Some? ==> FollowAll(v, evs).layers == st.value.1)
    decreases |evs|
  {
    hide Follow, TipBus.Feed, Refuses;
    if evs != [] {
      var front, ev := evs[..|evs| - 1], evs[|evs| - 1];
      FeedAllIsFollowAll(v, finalized, front);
      var before := TipBus.FeedAll(Some((finalized, v.layers)), front);
      if before.Some? {
        FeedIsFollow(FollowAll(v, front), before.value.0, ev);
      } else {
        RefusedFeed(ev);
      }
    }
  }

  lemma RefusedFeed(ev: Event)
    ensures TipBus.Feed(None, ev) == None
  {
  }

  lemma {:induction false} FollowAllAppend(v: View, a: seq<Event>, b: seq<Event>)
    ensures FollowAll(v, a + b) == FollowAll(FollowAll(v, a), b)
    decreases |b|
  {
    hide Follow;
    if b == [] {
      assert a + b == a;
    } else {
      FollowAllAppend(v, a, b[..|b| - 1]);
      assert (a + b)[..|a + b| - 1] == a + b[..|b| - 1];
    }
  }

  function Joined(polls: seq<seq<Event>>): seq<Event> {
    if polls == [] then [] else Joined(polls[..|polls| - 1]) + polls[|polls| - 1]
  }

  /** A reader that handles its polls one after the other. */
  function FollowPolls(v: View, polls: seq<seq<Event>>): View {
    if polls == [] then v else FollowAll(FollowPolls(v, polls[..|polls| - 1]), polls[|polls| - 1])
  }

  lemma {:induction false} PollsAreJoined(v: View, polls: seq<seq<Event>>)
    ensures FollowPolls(v, polls) == FollowAll(v, Joined(polls))
    decreases |polls|
  {
    hide FollowAll;
    if polls == [] {
      FollowNothing(v);
    } else {
      PollsAreJoined(v, polls[..|polls| - 1]);
      FollowAllAppend(v, Joined(polls[..|polls| - 1]), polls[|polls| - 1]);
    }
  }

  lemma FollowNothing(v: View)
    ensures FollowAll(v, []) == v
  {
  }

  /**
   A reader whose view, whatever it has pinned, takes the handshake's layers at any
   point m of an accepted log and then polls the rest in any chunks: it ends with
   the layers of a reader that followed the log from the start, and its view never
   refuses a finalize on the way.
   */
  lemma LateJoinerViews(log: seq<Event>, m: nat, polls: seq<seq<Event>>, v: View, first: View)
    requires m <= |log| && Joined(polls) == log[m..] && first.layers == []
    requires TipBus.FeedAll(TipBus.START, log).Some?
    ensures TipBus.FeedAll(TipBus.START, log[..m]).Some?
    ensures var joined := AfterReset(v, TipBus.FeedAll(TipBus.START, log[..m]).value.1);
            && FollowPolls(joined, polls).layers == FollowAll(first, log).layers
            && AllAccepted(joined, log[m..])
  {
    hide FollowAll, TipBus.FeedAll, FollowPolls, AllAccepted, Joined;
    TipBus.PrefixAccepted(log, m);
    var (finalized, layers) := TipBus.FeedAll(TipBus.START, log[..m]).value;
    var joined := AfterReset(v, layers);
    assert joined.layers == layers;
    PollsAreJoined(joined, polls);
    FeedAllIsFollowAll(joined, finalized, log[m..]);
    FeedAllIsFollowAll(first, 0, log);
    assert log[..m] + log[m..] == log;
    TipBus.FeedAllAppend(TipBus.START, log[..m], log[m..]);
  }
}
