/** The incidents of a history, characterised without running the builder. */
module IncidentHistories {
  import opened Options
  import opened RuntimeStates
  import opened Incidents

  // Where incidents begin and end.

  /** The last state named by the first `n` events is an unhealthy one. */
  predicate Unhealthy(events: seq<Event>, n: nat)
    requires n <= |events|
  {
    n > 0 && (Enters(events[n - 1]) || (!Leaves(events[n - 1]) && Unhealthy(events, n - 1)))
  }

  predicate Starts(events: seq<Event>, k: nat)
    requires k < |events|
  {
    Enters(events[k]) && !Unhealthy(events, k)
  }

  predicate Ends(events: seq<Event>, k: nat)
    requires k < |events|
  {
    Leaves(events[k]) && Unhealthy(events, k)
  }

  function StartIndices(events: seq<Event>, n: nat): (r: seq<nat>)
    requires n <= |events|
    ensures forall k: nat :: k in r <==> k < n && Starts(events, k)
  {
    if n == 0 then [] else StartIndices(events, n - 1) + if Starts(events, n - 1) then [n - 1] else []
  }

  function EndIndices(events: seq<Event>, n: nat): (r: seq<nat>)
    requires n <= |events|
    ensures forall k: nat :: k in r <==> k < n && Ends(events, k)
  {
    if n == 0 then [] else EndIndices(events, n - 1) + if Ends(events, n - 1) then [n - 1] else []
  }

  /** The unhealthy states named by the events from `from` up to `to`. */
  function Targets(events: seq<Event>, from: nat, to: nat): seq<RuntimeState>
    requires from <= to <= |events|
  {
    if from == to then []
    else Targets(events, from, to - 1) + if Enters(events[to - 1]) then [events[to - 1].current.value] else []
  }

  /** Starts and ends alternate, beginning with a start. */
  predicate Alternating(starts: seq<nat>, ends: seq<nat>, n: nat) {
    && |ends| <= |starts| <= |ends| + 1
    && (forall i :: 0 <= i < |ends| ==> starts[i] < ends[i] < n)
    && (forall i :: 0 <= i < |starts| ==> starts[i] < n)
    && (forall i, j :: 0 <= i < j < |starts| && i < |ends| ==> ends[i] < starts[j])
  }

  lemma OneMoreStart(starts: seq<nat>, ends: seq<nat>, n: nat)
    requires Alternating(starts, ends, n) && |starts| == |ends|
    ensures Alternating(starts, ends, n + 1) && Alternating(starts + [n], ends, n + 1)
  {
    assert forall i :: 0 <= i < |starts| ==> (starts + [n])[i] == starts[i];
  }

  lemma OneMoreEnd(starts: seq<nat>, ends: seq<nat>, n: nat)
    requires Alternating(starts, ends, n) && |starts| == |ends| + 1
    ensures Alternating(starts, ends, n + 1) && Alternating(starts, ends + [n], n + 1)
  {
    assert forall i :: 0 <= i < |ends| ==> (ends + [n])[i] == ends[i];
  }

  lemma {:induction false} StartsAndEndsAlternate(events: seq<Event>, n: nat)
    requires n <= |events|
    ensures Alternating(StartIndices(events, n), EndIndices(events, n), n)
    ensures |StartIndices(events, n)| == |EndIndices(events, n)| + if Unhealthy(events, n) then 1 else 0
  {
    if n > 0 {
      StartsAndEndsAlternate(events, n - 1);
      OneMoreOrNone(events, n - 1, StartIndices(events, n - 1), EndIndices(events, n - 1));
    }
  }

  lemma OneMoreOrNone(events: seq<Event>, n: nat, starts: seq<nat>, ends: seq<nat>)
    requires n < |events| && Alternating(starts, ends, n)
    requires |starts| == |ends| + if Unhealthy(events, n) then 1 else 0
    ensures var starts' := starts + if Starts(events, n) then [n] else [];
            var ends' := ends + if Ends(events, n) then [n] else [];
            Alternating(starts', ends', n + 1) && |starts'| == |ends'| + if Unhealthy(events, n + 1) then 1 else 0
  {
    hide Alternating;
    assert starts + [] == starts && ends + [] == ends;
    if Unhealthy(events, n) {
      OneMoreEnd(starts, ends, n);
    } else {
      OneMoreStart(starts, ends, n);
    }
  }

  /** The slice of the history from `from` up to `to`, as an incident. */
  function Cut(events: seq<Event>, from: nat, to: nat): OpenIncident
    requires from < to <= |events|
  {
    OpenIncident(events[from].timestamp, Targets(events, from, to), events[from..to])
  }

  predicate Closures(events: seq<Event>, n: nat, closed: seq<Incident>, starts: seq<nat>, ends: seq<nat>)
    requires n <= |events| && Alternating(starts, ends, n)
  {
    && |closed| == |ends|
    && forall i :: 0 <= i < |ends| ==> closed[i] == Close(Cut(events, starts[i], ends[i] + 1), events[ends[i]].timestamp)
  }

  /** The incidents are the slices from each start to the next end, in order; what follows a start that has
      no end yet is the open incident. */
  predicate Segmented(events: seq<Event>, n: nat, b: Builder, starts: seq<nat>, ends: seq<nat>)
    requires n <= |events|
  {
    && Alternating(starts, ends, n)
    && Closures(events, n, b.closed, starts, ends)
    && (b.current.Some? <==> |starts| == |ends| + 1)
    && (b.current.Some? ==> b.current.value == Cut(events, starts[|starts| - 1], n))
  }

  lemma CutGrows(events: seq<Event>, from: nat, to: nat)
    requires from < to < |events|
    ensures Cut(events, from, to + 1) ==
            Cut(events, from, to).(states := Cut(events, from, to).states + if Enters(events[to]) then [events[to].current.value] else [],
                                   events := Cut(events, from, to).events + [events[to]])
  {
    assert events[from..to + 1] == events[from..to] + [events[to]];
  }

  lemma IndicesGrow(events: seq<Event>, n: nat)
    requires n < |events|
    ensures StartIndices(events, n + 1) == StartIndices(events, n) + if Starts(events, n) then [n] else []
    ensures EndIndices(events, n + 1) == EndIndices(events, n) + if Ends(events, n) then [n] else []
  {}

  lemma ClosuresKept(events: seq<Event>, n: nat, closed: seq<Incident>, starts: seq<nat>, ends: seq<nat>, starts': seq<nat>)
    requires n < |events| && Alternating(starts, ends, n) && Closures(events, n, closed, starts, ends)
    requires starts <= starts' && Alternating(starts', ends, n + 1)
    ensures Closures(events, n + 1, closed, starts', ends)
  {
    hide Cut;
    assert forall i :: 0 <= i < |ends| ==> starts'[i] == starts[i];
  }

  lemma ClosuresGrow(events: seq<Event>, n: nat, closed: seq<Incident>, starts: seq<nat>, ends: seq<nat>)
    requires n < |events| && Alternating(starts, ends, n) && Closures(events, n, closed, starts, ends)
    requires Alternating(starts, ends + [n], n + 1)
    ensures Closures(events, n + 1, closed + [Close(Cut(events, starts[|ends|], n + 1), events[n].timestamp)], starts, ends + [n])
  {
    hide Cut;
    assert forall i :: 0 <= i < |ends| ==> (ends + [n])[i] == ends[i];
  }

  lemma AlternatingLengths(starts: seq<nat>, ends: seq<nat>, n: nat)
    requires Alternating(starts, ends, n)
    ensures |ends| <= |starts| <= |ends| + 1
    ensures forall i :: 0 <= i < |ends| ==> starts[i] < ends[i] < n
    ensures forall i :: 0 <= i < |starts| ==> starts[i] < n
  {}

  lemma NewCut(events: seq<Event>, n: nat)
    requires n < |events| && Enters(events[n])
    ensures Cut(events, n, n + 1) == OpenIncident(events[n].timestamp, [events[n].current.value], [events[n]])
  {
    assert Targets(events, n, n) == [];
  }

  /** An incident is open: the event joins it, and closes it when it leaves the unhealthy states. */
  lemma OpenStep(events: seq<Event>, n: nat, b: Builder, starts: seq<nat>, ends: seq<nat>, ends': seq<nat>)
    requires n < |events| && Segmented(events, n, b, starts, ends) && b.current.Some?
    requires ends' == ends + (if Leaves(events[n]) then [n] else []) && Alternating(starts, ends', n + 1)
    ensures Segmented(events, n + 1, Feed(b, events[n]), starts, ends')
  {
    hide Targets, Unhealthy, Cut, Alternating, Closures;
    AlternatingLengths(starts, ends, n);
    CutGrows(events, starts[|starts| - 1], n);
    if Leaves(events[n]) {
      var o := b.current.value;
      assert o.states + [] == o.states;
      assert Cut(events, starts[|ends|], n + 1) == o.(events := o.events + [events[n]]);
      ClosuresGrow(events, n, b.closed, starts, ends);
    } else {
      assert ends' == ends;
      ClosuresKept(events, n, b.closed, starts, ends, starts);
    }
  }

  /** None is open: one opens when the event enters the unhealthy states. */
  lemma CalmStep(events: seq<Event>, n: nat, b: Builder, starts: seq<nat>, ends: seq<nat>, starts': seq<nat>)
    requires n < |events| && Segmented(events, n, b, starts, ends) && b.current.None?
    requires starts' == starts + (if Enters(events[n]) then [n] else []) && Alternating(starts', ends, n + 1)
    ensures Segmented(events, n + 1, Feed(b, events[n]), starts', ends)
  {
    hide Targets, Unhealthy, Cut, Alternating, Closures;
    AlternatingLengths(starts, ends, n);
    AlternatingLengths(starts', ends, n + 1);
    if Enters(events[n]) {
      NewCut(events, n);
    }
    ClosuresKept(events, n, b.closed, starts, ends, starts');
  }

  lemma NothingIsSegmented(events: seq<Event>)
    ensures Segmented(events, 0, NOTHING, [], [])
    ensures StartIndices(events, 0) == [] && EndIndices(events, 0) == []
  {}

  /** The builder computes the segmentation, and holds an incident open exactly while the history is unhealthy. */
  lemma {:induction false} BuilderSegments(events: seq<Event>, n: nat)
    requires n <= |events|
    ensures Segmented(events, n, FeedAll(NOTHING, events, n), StartIndices(events, n), EndIndices(events, n))
    ensures FeedAll(NOTHING, events, n).current.Some? <==> Unhealthy(events, n)
  {
    hide Segmented, Alternating, Unhealthy, Feed, StartIndices, EndIndices;
    StartsAndEndsAlternate(events, n);
    if n == 0 {
      NothingIsSegmented(events);
    } else {
      IndicesGrow(events, n - 1);
      BuilderSegments(events, n - 1);
      SegmentedOpen(events, n - 1, FeedAll(NOTHING, events, n - 1), StartIndices(events, n - 1), EndIndices(events, n - 1));
      var b, starts, ends := FeedAll(NOTHING, events, n - 1), StartIndices(events, n - 1), EndIndices(events, n - 1);
      if b.current.Some? {
        assert StartIndices(events, n) == starts;
        OpenStep(events, n - 1, b, starts, ends, EndIndices(events, n));
      } else {
        assert EndIndices(events, n) == ends;
        CalmStep(events, n - 1, b, starts, ends, StartIndices(events, n));
      }
    }
    SegmentedOpen(events, n, FeedAll(NOTHING, events, n), StartIndices(events, n), EndIndices(events, n));
  }

  lemma SegmentedOpen(events: seq<Event>, n: nat, b: Builder, starts: seq<nat>, ends: seq<nat>)
    requires n <= |events| && Segmented(events, n, b, starts, ends)
    ensures b.current.Some? <==> |starts| == |ends| + 1
  {}

  lemma NoEndInside(starts: seq<nat>, ends: seq<nat>, n: nat, i: nat, k: nat)
    requires Alternating(starts, ends, n) && i < |ends| && starts[i] < k < ends[i]
    ensures k !in ends
  {
    forall j | 0 <= j < |ends| ensures ends[j] != k {
      if j < i {
        assert ends[j] < starts[i];
      } else if i < j {
        assert ends[i] < starts[j] < ends[j];
      }
    }
  }

  // The incidents field by field.

  /** `incident` is the stretch of the history from event `from` up to `to`, ended at `endedAt`. */
  predicate Spans(incident: Incident, events: seq<Event>, from: nat, to: nat, endedAt: Option<int>)
    requires from < to <= |events|
  {
    && incident.startedAt == events[from].timestamp && incident.endedAt == endedAt
    && incident.events == events[from..to]
    && incident.states == Targets(events, from, to)
  }

  /** The listed incidents are the stretches from each start through the next end, ended when that event happened;
      a start without an end gives one more, not ended, through the end of the history. */
  predicate ListsStretches(listing: seq<Incident>, events: seq<Event>, starts: seq<nat>, ends: seq<nat>)
    requires Alternating(starts, ends, |events|)
  {
    && |listing| == |starts|
    && (forall i :: 0 <= i < |ends| ==> Spans(listing[i], events, starts[i], ends[i] + 1, Some(events[ends[i]].timestamp)))
    && (|ends| < |starts| ==> Spans(listing[|ends|], events, starts[|ends|], |events|, None))
  }

  lemma SegmentedLists(events: seq<Event>, b: Builder, starts: seq<nat>, ends: seq<nat>)
    requires Segmented(events, |events|, b, starts, ends)
    ensures ListsStretches(Listing(b), events, starts, ends)
  {
    hide Targets;
  }

  /** What a rebuild lists, with its times, events and states. */
  lemma BuildListsStretches(events: seq<Event>)
    ensures Alternating(StartIndices(events, |events|), EndIndices(events, |events|), |events|)
    ensures ListsStretches(Build(events), events, StartIndices(events, |events|), EndIndices(events, |events|))
  {
    hide Segmented, ListsStretches, Alternating, FeedAll, StartIndices, EndIndices, Listing;
    StartsAndEndsAlternate(events, |events|);
    BuilderSegments(events, |events|);
    SegmentedLists(events, FeedAll(NOTHING, events, |events|), StartIndices(events, |events|), EndIndices(events, |events|));
  }

  /** A closed incident ends at the first change out of the unhealthy states. */
  lemma EndsAtFirstWayOut(events: seq<Event>, n: nat, i: nat, k: nat)
    requires n <= |events| && i < |EndIndices(events, n)| && i < |StartIndices(events, n)|
    requires StartIndices(events, n)[i] < k <= EndIndices(events, n)[i]
    ensures EndIndices(events, n)[i] < n
    ensures Unhealthy(events, k)
    ensures k < EndIndices(events, n)[i] ==> !Leaves(events[k])
    decreases k
  {
    StartsAndEndsAlternate(events, n);
    var starts, ends := StartIndices(events, n), EndIndices(events, n);
    assert starts[i] in starts && ends[i] in ends;
    if k > starts[i] + 1 {
      EndsAtFirstWayOut(events, n, i, k - 1);
    }
    if k < ends[i] {
      NoEndInside(starts, ends, n, i, k);
      assert Leaves(events[k]) ==> Ends(events, k);
    }
  }

  // Completeness of the states.

  function StatesOf(incidents: seq<Incident>): seq<RuntimeState> {
    if incidents == [] then [] else StatesOf(incidents[..|incidents| - 1]) + incidents[|incidents| - 1].states
  }

  lemma StatesOfOneMore(incidents: seq<Incident>, i: Incident)
    ensures StatesOf(incidents + [i]) == StatesOf(incidents) + i.states
  {
    assert (incidents + [i])[..|incidents|] == incidents;
  }

  /** The states of the incidents, one after the other, are all the unhealthy states the history names. */
  lemma {:induction false} StatesAreComplete(events: seq<Event>, n: nat)
    requires n <= |events|
    ensures StatesOf(Listing(FeedAll(NOTHING, events, n))) == Targets(events, 0, n)
  {
    var b := FeedAll(NOTHING, events, n);
    if n > 0 {
      StatesAreComplete(events, n - 1);
      var before := FeedAll(NOTHING, events, n - 1);
      StatesStep(before, events[n - 1]);
    }
  }

  lemma StatesStep(b: Builder, e: Event)
    ensures StatesOf(Listing(Feed(b, e))) == StatesOf(Listing(b)) + if Enters(e) then [e.current.value] else []
  {
    var b' := Feed(b, e);
    if b.current.Some? {
      StatesOfOneMore(b.closed, Freeze(b.current.value));
      if b'.current.Some? {
        StatesOfOneMore(b'.closed, Freeze(b'.current.value));
      } else {
        StatesOfOneMore(b.closed, b'.closed[|b.closed|]);
        assert b'.closed + [] == b'.closed;
      }
    } else {
      assert b.closed + [] == b.closed;
      if b'.current.Some? {
        StatesOfOneMore(b'.closed, Freeze(b'.current.value));
      }
    }
  }

  // The bounded live view.

  /** What the tracker holds after `n` events. */
  function Tracked(maxHistory: nat, events: seq<Event>, n: nat): Builder
    requires n <= |events|
  {
    if n == 0 then NOTHING
    else
      var b := Feed(Tracked(maxHistory, events, n - 1), events[n - 1]);
      b.(closed := LastOf(b.closed, maxHistory))
  }

  /** The tracker shows the last `maxHistory` closed incidents of the offline rebuild, and its open one. */
  lemma {:induction false} TrackerShowsTheLatest(maxHistory: nat, events: seq<Event>, n: nat)
    requires 1 <= maxHistory && n <= |events|
    ensures var all := FeedAll(NOTHING, events, n);
            Tracked(maxHistory, events, n) == Builder(LastOf(all.closed, maxHistory), all.current)
  {
    hide Feed, LastOf;
    if n == 0 {
      LastOfNothing(maxHistory);
    } else {
      TrackerShowsTheLatest(maxHistory, events, n - 1);
      LastOfFeed(maxHistory, FeedAll(NOTHING, events, n - 1), events[n - 1]);
    }
  }

  lemma LastOfNothing(maxHistory: nat)
    ensures LastOf([], maxHistory) == []
  {}

  lemma LastOfFeed(maxHistory: nat, b: Builder, e: Event)
    requires 1 <= maxHistory
    ensures var trimmed := Feed(b.(closed := LastOf(b.closed, maxHistory)), e);
            && LastOf(trimmed.closed, maxHistory) == LastOf(Feed(b, e).closed, maxHistory)
            && trimmed.current == Feed(b, e).current
  {
    hide Feed, LastOf;
    var latest, added := LastOf(b.closed, maxHistory), Feed(Builder([], b.current), e).closed;
    FeedAddsToClosed(b, e);
    FeedAddsToClosed(b.(closed := latest), e);
    if added == [] {
      assert latest + added == latest && b.closed + added == b.closed;
      LastOfTwice(maxHistory, b.closed);
    } else {
      assert added == [added[0]];
      LastOfAppend(maxHistory, b.closed, added[0]);
    }
  }

  /** The latest `n`, or all if there are fewer. */
  lemma LastOfIsLatest(n: nat, xs: seq<Incident>)
    ensures var latest := LastOf(xs, n);
            && |latest| == (if |xs| <= n then |xs| else n)
            && latest == xs[|xs| - |latest|..]
  {}

  lemma LastOfAppend(n: nat, xs: seq<Incident>, x: Incident)
    requires 1 <= n
    ensures LastOf(LastOf(xs, n) + [x], n) == LastOf(xs + [x], n)
  {}

  lemma LastOfTwice(n: nat, xs: seq<Incident>)
    ensures LastOf(LastOf(xs, n), n) == LastOf(xs, n)
  {}

  // Downtime.

  datatype Summary = Summary(resolved: nat, ongoing: nat, downtime: int)

  /** The one-line report: open incidents add nothing to the downtime. */
  function Summarize(incidents: seq<Incident>): Summary {
    if incidents == [] then Summary(0, 0, 0)
    else
      var s, i := Summarize(incidents[..|incidents| - 1]), incidents[|incidents| - 1];
      if i.endedAt.Some?
      then Summary(s.resolved + 1, s.ongoing, s.downtime + (i.endedAt.value - i.startedAt))
      else s.(ongoing := s.ongoing + 1)
  }

  /** The time between each of the first `n` starts and its end. */
  function Downtime(events: seq<Event>, starts: seq<nat>, ends: seq<nat>, n: nat): int
    requires Alternating(starts, ends, |events|) && n <= |ends|
  {
    if n == 0 then 0
    else Downtime(events, starts, ends, n - 1) + (events[ends[n - 1]].timestamp - events[starts[n - 1]].timestamp)
  }

  lemma ClosedTimes(listing: seq<Incident>, events: seq<Event>, starts: seq<nat>, ends: seq<nat>, i: nat)
    requires Alternating(starts, ends, |events|) && ListsStretches(listing, events, starts, ends) && i < |ends|
    ensures i < |listing| && i < |starts| && starts[i] < |events| && ends[i] < |events|
    ensures listing[i].startedAt == events[starts[i]].timestamp && listing[i].endedAt == Some(events[ends[i]].timestamp)
  {}

  lemma {:induction false} SummaryOfClosed(listing: seq<Incident>, events: seq<Event>, starts: seq<nat>, ends: seq<nat>, n: nat)
    requires Alternating(starts, ends, |events|) && ListsStretches(listing, events, starts, ends) && n <= |ends|
    ensures n <= |listing|
    ensures Summarize(listing[..n]) == Summary(n, 0, Downtime(events, starts, ends, n))
  {
    hide Alternating, ListsStretches, Summarize;
    if n > 0 {
      ClosedTimes(listing, events, starts, ends, n - 1);
      SummaryOfClosed(listing, events, starts, ends, n - 1);
      assert listing[..n] == listing[..n - 1] + [listing[n - 1]];
      SummarizeOneMore(listing[..n - 1], listing[n - 1]);
    } else {
      NothingToSummarize();
      assert listing[..0] == [];
    }
  }

  lemma NothingToSummarize()
    ensures Summarize([]) == Summary(0, 0, 0)
  {}

  /** The report counts each end, the open incident if there is one, and exactly the time from starts to ends. */
  lemma SummaryIsExact(events: seq<Event>)
    ensures Alternating(StartIndices(events, |events|), EndIndices(events, |events|), |events|)
    ensures var starts, ends := StartIndices(events, |events|), EndIndices(events, |events|);
            Summarize(Build(events)) == Summary(|ends|, |starts| - |ends|, Downtime(events, starts, ends, |ends|))
  {
    hide Build, StartIndices, EndIndices, Downtime, Summarize;
    BuildListsStretches(events);
    var listing, starts, ends := Build(events), StartIndices(events, |events|), EndIndices(events, |events|);
    SummaryOfClosed(listing, events, starts, ends, |ends|);
    if |ends| < |starts| {
      assert listing == listing[..|ends|] + [listing[|ends|]];
      SummarizeOneMore(listing[..|ends|], listing[|ends|]);
    } else {
      assert listing == listing[..|ends|];
    }
  }

  predicate Ordered(events: seq<Event>) {
    forall i, j :: 0 <= i <= j < |events| ==> events[i].timestamp <= events[j].timestamp
  }

  lemma SummarizeOneMore(incidents: seq<Incident>, i: Incident)
    ensures var s, s' := Summarize(incidents), Summarize(incidents + [i]);
            s' == if i.endedAt.Some?
                  then Summary(s.resolved + 1, s.ongoing, s.downtime + (i.endedAt.value - i.startedAt))
                  else s.(ongoing := s.ongoing + 1)
  {
    assert (incidents + [i])[..|incidents|] == incidents;
  }

  /** Downtime so far, and what an open incident leaves room for. */
  lemma {:induction false} DowntimeSoFar(events: seq<Event>, n: nat)
    requires 0 < n <= |events| && Ordered(events)
    ensures var b := FeedAll(NOTHING, events, n);
            && 0 <= Summarize(b.closed).downtime
            && Summarize(b.closed).downtime <=
                 (if b.current.Some? then b.current.value.startedAt else events[n - 1].timestamp) - events[0].timestamp
            && (b.current.Some? ==> b.current.value.startedAt <= events[n - 1].timestamp)
  {
    var before, e := FeedAll(NOTHING, events, n - 1), events[n - 1];
    if n == 1 {
      assert before == NOTHING;
    } else {
      DowntimeSoFar(events, n - 1);
      assert events[n - 2].timestamp <= e.timestamp;
    }
    if Leaves(e) && before.current.Some? {
      SummarizeOneMore(before.closed, FeedAll(NOTHING, events, n).closed[|before.closed|]);
    }
  }

  /** For non-decreasing timestamps the reported downtime never exceeds the time the history spans. */
  lemma DowntimeWithinHistory(events: seq<Event>)
    requires events != [] && Ordered(events)
    ensures 0 <= Summarize(Build(events)).downtime <= events[|events| - 1].timestamp - events[0].timestamp
  {
    DowntimeSoFar(events, |events|);
    var b := FeedAll(NOTHING, events, |events|);
    if b.current.Some? {
      SummarizeOneMore(b.closed, Freeze(b.current.value));
    } else {
      assert Listing(b) == b.closed;
    }
  }
}
