/** What dropping the oldest events of a history does to the incidents rebuilt from it. */
module IncidentPruning {
  import opened Options
  import opened Incidents

  lemma {:induction false} FeedAppend(b: Builder, xs: seq<Event>, ys: seq<Event>, n: nat)
    requires n <= |ys|
    ensures FeedAll(b, xs + ys, |xs| + n) == FeedAll(FeedAll(b, xs, |xs|), ys, n)
  {
    if n == 0 {
      FeedPrefix(b, xs, ys, |xs|);
    } else {
      FeedAppend(b, xs, ys, n - 1);
      assert (xs + ys)[|xs| + n - 1] == ys[n - 1];
    }
  }

  lemma {:induction false} FeedPrefix(b: Builder, xs: seq<Event>, ys: seq<Event>, n: nat)
    requires n <= |xs|
    ensures FeedAll(b, xs + ys, n) == FeedAll(b, xs, n)
  {
    if n > 0 {
      FeedPrefix(b, xs, ys, n - 1);
    }
  }

  /** What is already closed plays no part in what follows. */
  lemma {:induction false} ClosedStaysInFront(closed: seq<Incident>, current: Option<OpenIncident>, ys: seq<Event>, n: nat)
    requires n <= |ys|
    ensures var r := FeedAll(Builder([], current), ys, n);
            FeedAll(Builder(closed, current), ys, n) == Builder(closed + r.closed, r.current)
  {
    if n == 0 {
      assert closed + [] == closed;
    } else {
      ClosedStaysInFront(closed, current, ys, n - 1);
      var r := FeedAll(Builder([], current), ys, n - 1);
      ClosedInFrontStep(closed, r, ys[n - 1]);
    }
  }

  predicate IsSuffix<T(==)>(xs: seq<T>, ys: seq<T>) {
    |xs| <= |ys| && ys[|ys| - |xs|..] == xs
  }

  lemma SuffixGrows<T>(xs: seq<T>, ys: seq<T>, x: T)
    requires IsSuffix(xs, ys)
    ensures IsSuffix(xs + [x], ys + [x])
  {
    assert (ys + [x])[|ys| - |xs|..] == ys[|ys| - |xs|..] + [x];
  }

  /** What is left of an incident: the same end, the last of its states and events. */
  predicate Remnant(kept: Incident, whole: Incident) {
    kept.endedAt == whole.endedAt && IsSuffix(kept.states, whole.states) && IsSuffix(kept.events, whole.events)
  }

  predicate OpenRemnant(kept: OpenIncident, whole: OpenIncident) {
    IsSuffix(kept.states, whole.states) && IsSuffix(kept.events, whole.events)
  }

  /** Whether one of the first `n` events leaves the unhealthy states. */
  predicate Left(ys: seq<Event>, n: nat)
    requires n <= |ys|
  {
    exists k :: 0 <= k < n && Leaves(ys[k])
  }

  /** Whether one of the first `n` events names an unhealthy state before any leaves them. */
  predicate NamedAgain(ys: seq<Event>, n: nat)
    requires n <= |ys|
  {
    exists k :: 0 <= k < n && Enters(ys[k]) && !Left(ys, k)
  }

  /** `a` began inside an incident, `b` began with nothing, and both have seen the same events since: `left`
      says that `a`'s incident is over, `named` that `b` has seen it too. */
  predicate Following(a: Builder, b: Builder, left: bool, named: bool) {
    && (left <==> a.closed != [])
    && if !left then
         && b.closed == [] && a.current.Some? && (b.current.Some? <==> named)
         && (named ==> OpenRemnant(b.current.value, a.current.value))
       else
         && a.current == b.current
         && if named then b.closed != [] && b.closed[1..] == a.closed[1..] && Remnant(b.closed[0], a.closed[0])
            else b.closed == a.closed[1..]
  }

  lemma FollowingBefore(a: Builder, b: Builder, named: bool, e: Event)
    requires Following(a, b, false, named)
    ensures Following(Feed(a, e), Feed(b, e), Leaves(e), named || Enters(e))
  {
    var o := a.current.value;
    if b.current.Some? {
      var k := b.current.value;
      SuffixGrows(k.events, o.events, e);
      if Enters(e) { SuffixGrows(k.states, o.states, e.current.value); }
    } else if Enters(e) {
      assert (o.events + [e])[|o.events|..] == [e];
      assert (o.states + [e.current.value])[|o.states|..] == [e.current.value];
    }
  }

  lemma FollowingAfter(a: Builder, b: Builder, named: bool, e: Event)
    requires Following(a, b, true, named)
    ensures Following(Feed(a, e), Feed(b, e), true, named)
  {
    hide Feed, Remnant;
    var closing := Feed(Builder([], a.current), e).closed;
    FeedAddsToClosed(a, e);
    FeedAddsToClosed(b, e);
    assert (a.closed + closing)[1..] == a.closed[1..] + closing;
    if named {
      assert (b.closed + closing)[1..] == b.closed[1..] + closing;
    }
  }

  lemma OneMoreEvent(ys: seq<Event>, n: nat)
    requires n < |ys|
    ensures Left(ys, n + 1) <==> Left(ys, n) || Leaves(ys[n])
    ensures NamedAgain(ys, n + 1) <==> NamedAgain(ys, n) || (Enters(ys[n]) && !Left(ys, n))
  {}

  lemma {:induction false} RunsFollow(open: OpenIncident, ys: seq<Event>, n: nat)
    requires n <= |ys|
    ensures Following(FeedAll(Builder([], Some(open)), ys, n), FeedAll(NOTHING, ys, n), Left(ys, n), NamedAgain(ys, n))
  {
    hide Feed, Left, NamedAgain;
    if n == 0 {
      NoEventYet(ys);
    } else {
      RunsFollow(open, ys, n - 1);
      OneMoreEvent(ys, n - 1);
      var a, b := FeedAll(Builder([], Some(open)), ys, n - 1), FeedAll(NOTHING, ys, n - 1);
      if Left(ys, n - 1) {
        FollowingAfter(a, b, NamedAgain(ys, n - 1), ys[n - 1]);
      } else {
        FollowingBefore(a, b, NamedAgain(ys, n - 1), ys[n - 1]);
      }
    }
  }

  lemma NoEventYet(ys: seq<Event>)
    ensures !Left(ys, 0) && !NamedAgain(ys, 0)
  {}

  lemma FollowingListings(a: Builder, b: Builder, left: bool, named: bool) returns (first: Incident, kept: Incident, later: seq<Incident>)
    requires Following(a, b, left, named)
    ensures Listing(a) == [first] + later
    ensures Listing(b) == if named then [kept] + later else later
    ensures named ==> Remnant(kept, first)
  {
    var tail := if a.current.Some? then [Freeze(a.current.value)] else [];
    if left {
      first, later := a.closed[0], a.closed[1..] + tail;
      assert a.closed == [first] + a.closed[1..];
      assert Listing(a) == [first] + later;
      kept := if named then b.closed[0] else first;
      if named {
        assert b.closed == [kept] + b.closed[1..];
        assert Listing(b) == [kept] + later;
      }
    } else {
      first, later := Freeze(a.current.value), [];
      kept := if named then Freeze(b.current.value) else first;
      assert named ==> Listing(b) == [kept] + later;
    }
  }

  lemma ListingBehind(closed: seq<Incident>, r: Builder)
    ensures Listing(Builder(closed + r.closed, r.current)) == closed + Listing(r)
  {
    var tail := if r.current.Some? then [Freeze(r.current.value)] else [];
    assert (closed + r.closed) + tail == closed + (r.closed + tail);
  }

  lemma ListingOfClosed(closed: seq<Incident>)
    ensures Listing(Builder(closed, None)) == closed
  {}

  /** If no incident is open at the cut, the two parts are rebuilt separately. */
  lemma CutWhileHealthy(xs: seq<Event>, ys: seq<Event>)
    requires FeedAll(NOTHING, xs, |xs|).current == None
    ensures Build(xs + ys) == Build(xs) + Build(ys)
  {
    hide FeedAll, Listing;
    var before := FeedAll(NOTHING, xs, |xs|);
    FeedAppend(NOTHING, xs, ys, |ys|);
    ClosedStaysInFront(before.closed, None, ys, |ys|);
    ListingBehind(before.closed, FeedAll(NOTHING, ys, |ys|));
    ListingOfClosed(before.closed);
    assert |xs + ys| == |xs| + |ys|;
  }

  /** If one is open, losing the prefix loses the incidents closed before the cut, and every later incident is
      the same. Of the open one a suffix of its states and events survives exactly if the rest names an unhealthy
      state again before it leaves them; if not, nothing does. */
  lemma CutDuringIncident(xs: seq<Event>, ys: seq<Event>)
    requires FeedAll(NOTHING, xs, |xs|).current.Some?
    ensures var closed, all, rest := FeedAll(NOTHING, xs, |xs|).closed, Build(xs + ys), Build(ys);
            && |closed| < |all| && all[..|closed|] == closed
            && var whole, later := all[|closed|], all[|closed| + 1..];
               if NamedAgain(ys, |ys|) then rest != [] && Remnant(rest[0], whole) && rest[1..] == later else rest == later
  {
    hide FeedAll, Listing, Remnant, Following, NamedAgain, Left;
    var before := FeedAll(NOTHING, xs, |xs|);
    FeedAppend(NOTHING, xs, ys, |ys|);
    ClosedStaysInFront(before.closed, before.current, ys, |ys|);
    RunsFollow(before.current.value, ys, |ys|);
    var r := FeedAll(Builder([], before.current), ys, |ys|);
    var first, kept, later := FollowingListings(r, FeedAll(NOTHING, ys, |ys|), Left(ys, |ys|), NamedAgain(ys, |ys|));
    ListingBehind(before.closed, r);
    assert |xs + ys| == |xs| + |ys|;
    var all := Build(xs + ys);
    assert all == before.closed + ([first] + later);
    assert all[|before.closed|] == first && all[|before.closed| + 1..] == later;
    assert NamedAgain(ys, |ys|) ==> Build(ys)[0] == kept && Build(ys)[1..] == later;
  }
}
