/** The anchor server's limit on failed token checks. It keeps, per peer, only a pruned list of recent failures;
    that decides as if every failure ever sent were still known. */
module Limiter {
  const WINDOW := 60000
  const MAX_TRACKED_PEERS := 256

  /** What the rest of the handler would make of a request that is not limited. */
  datatype Check = RefusedBefore(status: nat) | WrongToken | Admitted

  datatype Decision = TooMany | Refused(status: nat) | Unauthorized | Served

  datatype Failure = Failure(peer: string, time: int)

  datatype Event = Event(peer: string, now: int, check: Check)

  // ---------- The full history ----------

  function Prune(times: seq<int>, now: int): seq<int> {
    if times == [] then []
    else (if now - times[0] < WINDOW then [times[0]] else []) + Prune(times[1..], now)
  }

  function TimesOf(history: seq<Failure>, peer: string): seq<int> {
    if history == [] then []
    else (if history[0].peer == peer then [history[0].time] else []) + TimesOf(history[1..], peer)
  }

  /** Keeps every failure, and counts those of the peer that are less than a minute old. */
  function Decide(history: seq<Failure>, max: int, e: Event): Decision {
    if |Prune(TimesOf(history, e.peer), e.now)| >= max then TooMany
    else
      match e.check
      case RefusedBefore(status) => Refused(status)
      case WrongToken => Unauthorized
      case Admitted => Served
  }

  function Record(history: seq<Failure>, max: int, e: Event): seq<Failure> {
    if Decide(history, max, e).Unauthorized? then history + [Failure(e.peer, e.now)] else history
  }

  // ---------- Pruning ----------

  lemma {:induction false} PruneConcat(s: seq<int>, t: seq<int>, now: int)
    ensures Prune(s + t, now) == Prune(s, now) + Prune(t, now)
    decreases |s|
  {
    if s == [] {
      assert s + t == t;
    } else {
      assert (s + t)[1..] == s[1..] + t;
      PruneConcat(s[1..], t, now);
    }
  }

  /** Pruning early does not change what is pruned later. */
  lemma {:induction false} PruneTwice(s: seq<int>, a: int, b: int)
    requires a <= b
    ensures Prune(Prune(s, a), b) == Prune(s, b)
    decreases |s|
  {
    if s != [] {
      var head := if a - s[0] < WINDOW then [s[0]] else [];
      PruneTwice(s[1..], a, b);
      PruneConcat(head, Prune(s[1..], a), b);
      if head != [] { assert head[1..] == []; }
    }
  }

  lemma SplitsAtHead<T>(s: seq<T>, t: seq<T>)
    requires s != []
    ensures s + t != [] && (s + t)[0] == s[0] && (s + t)[1..] == s[1..] + t
  {}

  lemma Associates<T>(x: seq<T>, y: seq<T>, z: seq<T>)
    ensures (x + y) + z == x + (y + z)
  {}

  lemma {:induction false} TimesConcat(s: seq<Failure>, t: seq<Failure>, peer: string)
    ensures TimesOf(s + t, peer) == TimesOf(s, peer) + TimesOf(t, peer)
    decreases |s|
  {
    if s == [] {
      assert s + t == t;
    } else {
      var head, rest := if s[0].peer == peer then [s[0].time] else [], s[1..];
      SplitsAtHead(s, t);
      TimesConcat(rest, t, peer);
      Associates(head, TimesOf(rest, peer), TimesOf(t, peer));
    }
  }

  lemma TimesSnoc(history: seq<Failure>, f: Failure, peer: string)
    ensures TimesOf(history + [f], peer) == TimesOf(history, peer) + if f.peer == peer then [f.time] else []
  {
    TimesConcat(history, [f], peer);
    assert [f][1..] == [];
  }

  /** Two lists that give the same recent failures. */
  ghost predicate Same(s: seq<int>, t: seq<int>, now: int) {
    Prune(s, now) == Prune(t, now)
  }

  lemma SameLater(s: seq<int>, t: seq<int>, a: int, b: int)
    requires Same(s, t, a) && a <= b
    ensures Same(s, t, b)
  {
    PruneTwice(s, a, b);
    PruneTwice(t, a, b);
  }

  lemma TimesFailed(history: seq<Failure>, peer: string, now: int)
    ensures forall other :: TimesOf(history + [Failure(peer, now)], other)
                         == TimesOf(history, other) + if other == peer then [now] else []
  {
    forall other
      ensures TimesOf(history + [Failure(peer, now)], other)
           == TimesOf(history, other) + if other == peer then [now] else []
    {
      TimesSnoc(history, Failure(peer, now), other);
    }
  }

  lemma SameExtended(s: seq<int>, t: seq<int>, now: int)
    requires Same(s, t, now)
    ensures Same(Prune(s, now) + [now], t + [now], now)
    ensures Prune(Prune(s, now) + [now], now) == Prune(s, now) + [now]
  {
    PruneTwice(s, now, now);
    PruneConcat(Prune(s, now), [now], now);
    PruneConcat(t, [now], now);
    assert [now][1..] == [];
  }

  // ---------- The index ----------

  class AnchorLimiter {
    const maxFailures: int
    var failuresByPeer: map<string, seq<int>>
    ghost var history: seq<Failure>
    ghost var clock: int

    function Stored(peer: string): seq<int>
      reads this
    {
      if peer in failuresByPeer then failuresByPeer[peer] else []
    }

    /** At the clock, and so after it, each stored list is as good as the peer's whole history; and none is
        empty. */
    ghost predicate Valid()
      reads this
    {
      && (forall peer :: Same(Stored(peer), TimesOf(history, peer), clock))
      && forall peer :: peer in failuresByPeer ==> failuresByPeer[peer] != []
    }

    constructor (max: int, start: int)
      ensures Valid() && history == [] && maxFailures == max && clock == start && failuresByPeer == map[]
    {
      maxFailures, failuresByPeer, history, clock := max, map[], [], start;
    }

    /** Prunes one peer's list and forgets the peer when nothing is left. */
    method RecentFailures(peer: string, now: int) returns (recent: seq<int>)
      requires Valid() && clock == now
      modifies this`failuresByPeer
      ensures Valid()
      ensures recent == Stored(peer) == Prune(TimesOf(history, peer), now)
      ensures forall other :: other != peer ==> Stored(other) == old(Stored(other))
    {
      recent := Prune(Stored(peer), now);
      PruneTwice(Stored(peer), now, now);
      if |recent| > 0 {
        failuresByPeer := failuresByPeer[peer := recent];
      } else {
        failuresByPeer := failuresByPeer - {peer};
      }
      assert Stored(peer) == recent;
      forall other ensures Same(Stored(other), TimesOf(history, other), clock) {
        assert Same(old(Stored(other)), TimesOf(history, other), clock);
      }
    }

    /** Prunes the list of every peer; by `Valid` only those with a recent failure are kept. */
    method Sweep(now: int)
      requires Valid() && clock == now
      modifies this`failuresByPeer
      ensures Valid()
      ensures forall peer :: Stored(peer) == Prune(TimesOf(history, peer), now)
    {
      var others := failuresByPeer.Keys;
      forall peer | peer !in others ensures Stored(peer) == Prune(TimesOf(history, peer), now) {
        assert Same(Stored(peer), TimesOf(history, peer), clock);
      }
      while others != {}
        invariant Valid()
        invariant forall peer :: peer !in others ==> Stored(peer) == Prune(TimesOf(history, peer), now)
        decreases |others|
      {
        var other :| other in others;
        var _ := RecentFailures(other, now);
        others := others - {other};
      }
    }

    /** One request. It is decided as by the full history, and only a refused token enters that history. After
        a request that found many peers, only peers with a failure in the last minute are kept. */
    method Handle(e: Event) returns (decision: Decision)
      requires Valid() && clock <= e.now
      modifies this
      ensures Valid() && clock == e.now
      ensures decision == Decide(old(history), maxFailures, e)
      ensures history == Record(old(history), maxFailures, e)
      ensures old(|failuresByPeer|) > 256 ==>
                forall peer :: Stored(peer) == Prune(TimesOf(history, peer), e.now)
    {
      forall peer ensures Same(Stored(peer), TimesOf(history, peer), e.now) {
        assert Same(Stored(peer), TimesOf(history, peer), clock);
        SameLater(Stored(peer), TimesOf(history, peer), clock, e.now);
      }
      clock := e.now;
      if |failuresByPeer| > MAX_TRACKED_PEERS { Sweep(e.now); }
      var recent := RecentFailures(e.peer, e.now);
      if |recent| >= maxFailures { return TooMany; }
      match e.check {
        case RefusedBefore(status) => return Refused(status);
        case Admitted => return Served;
        case WrongToken => Fail(e.peer, e.now);
      }
      return Unauthorized;
    }

    /** Puts down a failure. */
    method Fail(peer: string, now: int)
      requires Valid() && clock == now
      modifies this`failuresByPeer, this`history
      ensures Valid()
      ensures history == old(history) + [Failure(peer, now)]
      ensures Stored(peer) == Prune(TimesOf(history, peer), now)
      ensures forall other :: other != peer ==>
                Stored(other) == old(Stored(other)) && TimesOf(history, other) == TimesOf(old(history), other)
    {
      var recent := RecentFailures(peer, now);
      failuresByPeer := failuresByPeer[peer := recent + [now]];
      history := history + [Failure(peer, now)];
      SameExtended(TimesOf(old(history), peer), TimesOf(old(history), peer), now);
      TimesFailed(old(history), peer, now);
      forall other ensures Same(Stored(other), TimesOf(history, other), clock) {
        if other == peer {
          assert Stored(other) == Prune(TimesOf(old(history), peer), now) + [now];
        } else {
          assert Same(old(Stored(other)), TimesOf(old(history), other), clock);
          assert TimesOf(old(history), other) + [] == TimesOf(old(history), other);
        }
      }
    }
  }

  // ---------- Whole runs ----------

  function HistoryAfter(max: int, events: seq<Event>): seq<Failure> {
    if events == [] then []
    else
      var n := |events| - 1;
      Record(HistoryAfter(max, events[..n]), max, events[n])
  }

  /** The decision of each request. */
  function Decisions(max: int, events: seq<Event>): (r: seq<Decision>)
    ensures |r| == |events|
  {
    if events == [] then []
    else
      var n := |events| - 1;
      Decisions(max, events[..n]) + [Decide(HistoryAfter(max, events[..n]), max, events[n])]
  }

  predicate Ordered(events: seq<Event>) {
    forall i, j :: 0 <= i < j < |events| ==> events[i].now <= events[j].now
  }

  /** The handler over a whole run. */
  method Serve(max: int, start: int, events: seq<Event>) returns (decisions: seq<Decision>)
    requires Ordered(events) && (events != [] ==> start <= events[0].now)
    ensures decisions == Decisions(max, events)
  {
    var limiter := new AnchorLimiter(max, start);
    decisions := [];
    for i := 0 to |events|
      invariant fresh(limiter) && limiter.Valid() && limiter.maxFailures == max
      invariant i < |events| ==> limiter.clock <= events[i].now
      invariant limiter.history == HistoryAfter(max, events[..i])
      invariant decisions == Decisions(max, events[..i])
    {
      var decision := limiter.Handle(events[i]);
      decisions := decisions + [decision];
      OneMore(max, events, i);
    }
    assert events[..|events|] == events;
  }

  lemma OneMore(max: int, events: seq<Event>, i: nat)
    requires i < |events|
    ensures var before := HistoryAfter(max, events[..i]);
            && HistoryAfter(max, events[..i + 1]) == Record(before, max, events[i])
            && Decisions(max, events[..i + 1]) == Decisions(max, events[..i]) + [Decide(before, max, events[i])]
  {
    assert events[..i + 1][..i] == events[..i];
  }

  /** The earlier requests of a peer that were answered 401 less than a minute before `now`. */
  function RefusedTokens(max: int, events: seq<Event>, peer: string, now: int): set<nat> {
    set i | 0 <= i < |events| && events[i].peer == peer && Decisions(max, events)[i].Unauthorized?
            && now - events[i].now < 60000
  }

  lemma {:induction false} CountsRefusedTokens(max: int, events: seq<Event>, peer: string, now: int)
    ensures |Prune(TimesOf(HistoryAfter(max, events), peer), now)| == |RefusedTokens(max, events, peer, now)|
    decreases |events|
  {
    if events != [] {
      var n := |events| - 1;
      var e, before, earlier := events[n], HistoryAfter(max, events[..n]), events[..n];
      CountsRefusedTokens(max, earlier, peer, now);
      var counts := e.peer == peer && Decide(before, max, e).Unauthorized? && now - e.now < 60000;
      assert RefusedTokens(max, events, peer, now)
          == RefusedTokens(max, earlier, peer, now) + if counts then {n} else {};
      TimesSnoc(before, Failure(e.peer, e.now), peer);
      PruneConcat(TimesOf(before, peer), [e.now], now);
      assert [e.now][1..] == [];
      assert TimesOf(before, peer) + [] == TimesOf(before, peer);
    }
  }

  /** A request is limited exactly when at least `max` earlier requests of its peer were answered 401 less than a
      minute before; otherwise it gets what it would get without a limit, and 401 only for a wrong token. */
  lemma LimitedExactly(max: int, events: seq<Event>, e: Event)
    ensures var d := Decisions(max, events + [e])[|events|];
            && (d == TooMany <==> |RefusedTokens(max, events, e.peer, e.now)| >= max)
            && (d != TooMany ==>
                  && (e.check.RefusedBefore? ==> d == Refused(e.check.status))
                  && (e.check.WrongToken? <==> d == Unauthorized)
                  && (e.check.Admitted? <==> d == Served))
  {
    CountsRefusedTokens(max, events, e.peer, e.now);
    assert (events + [e])[..|events|] == events;
  }

  /** The failures of a window of one minute. */
  function InWindow(times: seq<int>, start: int): seq<int> {
    if times == [] then []
    else (if start <= times[0] < start + WINDOW then [times[0]] else []) + InWindow(times[1..], start)
  }

  lemma {:induction false} WindowConcat(s: seq<int>, t: seq<int>, start: int)
    ensures InWindow(s + t, start) == InWindow(s, start) + InWindow(t, start)
    decreases |s|
  {
    if s == [] {
      assert s + t == t;
    } else {
      assert (s + t)[1..] == s[1..] + t;
      WindowConcat(s[1..], t, start);
    }
  }

  /** At a moment of the window, what is in the window is recent. */
  lemma {:induction false} WindowIsRecent(times: seq<int>, start: int, now: int)
    requires now < start + WINDOW
    ensures |InWindow(times, start)| <= |Prune(times, now)|
    decreases |times|
  {
    if times != [] {
      WindowIsRecent(times[1..], start, now);
    }
  }

  /** No window of one minute, wherever it begins, holds more refused tokens of one peer than the limit. */
  lemma {:induction false} NoWindowOverflows(max: int, events: seq<Event>, peer: string, start: int)
    ensures |InWindow(TimesOf(HistoryAfter(max, events), peer), start)| <= if max > 0 then max else 0
    decreases |events|
  {
    if events != [] {
      var n := |events| - 1;
      var e, before := events[n], HistoryAfter(max, events[..n]);
      NoWindowOverflows(max, events[..n], peer, start);
      if Decide(before, max, e).Unauthorized? {
        TimesSnoc(before, Failure(e.peer, e.now), peer);
        WindowConcat(TimesOf(before, peer), if e.peer == peer then [e.now] else [], start);
        if e.peer == peer {
          assert [e.now][1..] == [];
          if start <= e.now < start + WINDOW { WindowIsRecent(TimesOf(before, peer), start, e.now); }
        }
      }
    }
  }

  function OfPeer(events: seq<Event>, peer: string): seq<Event> {
    if events == [] then []
    else
      var n := |events| - 1;
      OfPeer(events[..n], peer) + if events[n].peer == peer then [events[n]] else []
  }

  /** The decisions that one peer gets. */
  function DecisionsFor(max: int, events: seq<Event>, peer: string): seq<Decision> {
    if events == [] then []
    else
      var n := |events| - 1;
      DecisionsFor(max, events[..n], peer)
      + if events[n].peer == peer then [Decide(HistoryAfter(max, events[..n]), max, events[n])] else []
  }

  lemma {:induction false} PeerHistory(max: int, events: seq<Event>, peer: string)
    ensures TimesOf(HistoryAfter(max, events), peer) == TimesOf(HistoryAfter(max, OfPeer(events, peer)), peer)
    decreases |events|
  {
    if events != [] {
      var n := |events| - 1;
      var e, before, alone := events[n], HistoryAfter(max, events[..n]), OfPeer(events[..n], peer);
      PeerHistory(max, events[..n], peer);
      TimesSnoc(before, Failure(e.peer, e.now), peer);
      if e.peer == peer {
        assert OfPeer(events, peer)[..|alone|] == alone;
        TimesSnoc(HistoryAfter(max, alone), Failure(e.peer, e.now), peer);
      } else {
        assert alone + [] == alone;
      }
    }
  }

  /** What other peers send does not matter: a peer gets the decisions it would get alone. */
  lemma {:induction false} PeersAreIndependent(max: int, events: seq<Event>, peer: string)
    ensures DecisionsFor(max, events, peer) == Decisions(max, OfPeer(events, peer))
    decreases |events|
  {
    if events != [] {
      var n := |events| - 1;
      var alone := OfPeer(events[..n], peer);
      PeersAreIndependent(max, events[..n], peer);
      PeerHistory(max, events[..n], peer);
      if events[n].peer == peer {
        assert OfPeer(events, peer)[..|alone|] == alone;
      } else {
        assert alone + [] == alone;
        assert DecisionsFor(max, events[..n], peer) + [] == DecisionsFor(max, events[..n], peer);
      }
    }
  }
}
