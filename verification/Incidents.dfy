/** Grouping spans of unhealthy time into incidents, live and offline. */
module Incidents {
  import opened Options
  import opened RuntimeStates

  /** An event of the timeline. `current` is the state named by a state_change event, None when the
      metadata does not name one. */
  datatype Event = Event(kind: string, timestamp: int, current: Option<RuntimeState>)

  const STATE_CHANGE := "state_change"

  const INCIDENT_STATES: set<RuntimeState> := {Degraded, Offline, Recovering, FailedState}

  datatype Incident = Incident(startedAt: int, endedAt: Option<int>, states: seq<RuntimeState>, events: seq<Event>)

  datatype OpenIncident = OpenIncident(startedAt: int, states: seq<RuntimeState>, events: seq<Event>)

  function Freeze(o: OpenIncident): Incident { Incident(o.startedAt, None, o.states, o.events) }

  function Close(o: OpenIncident, endedAt: int): Incident { Incident(o.startedAt, Some(endedAt), o.states, o.events) }

  predicate Enters(e: Event) { e.kind == STATE_CHANGE && e.current.Some? && e.current.value in INCIDENT_STATES }

  predicate Leaves(e: Event) { e.kind == STATE_CHANGE && e.current.Some? && e.current.value !in INCIDENT_STATES }

  /** The incident states are those other than Healthy from which the runtime can be stopped; an event enters or
      leaves them if it is a change of state to one of them or to another. */
  lemma WhichStatesCount(e: Event)
    ensures forall s :: s in INCIDENT_STATES <==> Stopping in Transitions(s) && s != Healthy
    ensures Enters(e) <==> e.kind == "state_change" && e.current.Some? && e.current.value in {Degraded, Offline, Recovering, FailedState}
    ensures Leaves(e) <==>
            e.kind == "state_change" && e.current.Some? && e.current.value in {Booting, Initializing, Healthy, Stopping, Stopped}
  {}

  datatype Builder = Builder(closed: seq<Incident>, current: Option<OpenIncident>)

  const NOTHING := Builder([], None)

  /** One event, as a function of the builder. */
  function Feed(b: Builder, e: Event): Builder {
    if Enters(e) then
      match b.current
      case Some(o) => b.(current := Some(o.(states := o.states + [e.current.value], events := o.events + [e])))
      case None => b.(current := Some(OpenIncident(e.timestamp, [e.current.value], [e])))
    else
      match b.current
      case None => b
      case Some(o) =>
        var o' := o.(events := o.events + [e]);
        if Leaves(e) then Builder(b.closed + [Close(o', e.timestamp)], None) else b.(current := Some(o'))
  }

  /** The builder after the first `n` events. */
  function FeedAll(b: Builder, events: seq<Event>, n: nat): Builder
    requires n <= |events|
  {
    if n == 0 then b else Feed(FeedAll(b, events, n - 1), events[n - 1])
  }

  lemma ClosedInFrontStep(closed: seq<Incident>, r: Builder, e: Event)
    ensures Feed(Builder(closed + r.closed, r.current), e) == Builder(closed + Feed(r, e).closed, Feed(r, e).current)
  {
    if Leaves(e) && r.current.Some? {
      var i := Feed(r, e).closed[|r.closed|];
      assert closed + (r.closed + [i]) == (closed + r.closed) + [i];
    }
  }

  /** A step adds at most one incident, which depends on the open one alone. */
  lemma FeedAddsToClosed(b: Builder, e: Event)
    ensures var r := Feed(Builder([], b.current), e);
            Feed(b, e) == Builder(b.closed + r.closed, r.current) && |r.closed| <= 1
  {
    assert b.closed + [] == b.closed;
    ClosedInFrontStep(b.closed, Builder([], b.current), e);
  }

  function Listing(b: Builder): seq<Incident> {
    b.closed + if b.current.Some? then [Freeze(b.current.value)] else []
  }

  /** What build_incidents returns for a well-formed history. */
  function Build(events: seq<Event>): seq<Incident> {
    Listing(FeedAll(NOTHING, events, |events|))
  }

  class IncidentBuilder {
    var closed: seq<Incident>
    var current: Option<OpenIncident>

    function Value(): Builder
      reads this
    {
      Builder(closed, current)
    }

    constructor ()
      ensures Value() == NOTHING
    {
      closed := [];
      current := None;
    }

    method FeedEvent(event: Event) returns (raised: bool)
      modifies this
      ensures raised <==> event.kind == "state_change" && event.current.None?
      ensures Value() == Feed(old(Value()), event)
    {
      if current.Some? {
        current := Some(current.value.(events := current.value.events + [event]));
      }
      if event.kind != STATE_CHANGE {
        return false;
      }
      if event.current.None? {
        return true;
      }
      var target := event.current.value;
      if target in INCIDENT_STATES {
        if current.None? {
          current := Some(OpenIncident(event.timestamp, [], [event]));
        }
        current := Some(current.value.(states := current.value.states + [target]));
        assert [] + [target] == [target];
      } else if current.Some? {
        closed := closed + [Close(current.value, event.timestamp)];
        current := None;
      }
      return false;
    }
  }

  function LastOf(xs: seq<Incident>, n: nat): seq<Incident> {
    if |xs| <= n then xs else xs[|xs| - n..]
  }

  /** The live view: at most `maxHistory` closed incidents. */
  class IncidentTracker {
    const maxHistory: int
    const builder: IncidentBuilder

    constructor (maxHistory: int)
      requires 1 <= maxHistory
      ensures this.maxHistory == maxHistory && fresh(builder) && builder.Value() == NOTHING
    {
      this.maxHistory := maxHistory;
      builder := new IncidentBuilder();
    }

    method OnEvent(event: Event)
      requires 1 <= maxHistory && |builder.closed| <= maxHistory
      modifies builder
      ensures var b := Feed(old(builder.Value()), event);
              && builder.current == b.current && builder.closed == LastOf(b.closed, maxHistory)
              && |builder.closed| == (if |b.closed| <= maxHistory then |b.closed| else maxHistory)
              && builder.closed == b.closed[|b.closed| - |builder.closed|..]
      ensures |builder.closed| <= maxHistory
    {
      var raised := builder.FeedEvent(event);
      if raised {
        return;  // logged by the bus
      }
      var overflow := |builder.closed| - maxHistory;
      if overflow > 0 {
        builder.closed := builder.closed[overflow..];
      }
    }
  }

  /** Rebuilds the incidents of a recorded history; None when an event is malformed. */
  method BuildIncidents(events: seq<Event>) returns (r: Option<seq<Incident>>)
    ensures r.None? <==> exists i :: 0 <= i < |events| && events[i].kind == "state_change" && events[i].current.None?
    ensures r.Some? ==> r.value == Build(events)
  {
    var builder := new IncidentBuilder();
    for n := 0 to |events|
      invariant builder.Value() == FeedAll(NOTHING, events, n)
      invariant forall i :: 0 <= i < n ==> !(events[i].kind == "state_change" && events[i].current.None?)
    {
      var raised := builder.FeedEvent(events[n]);
      if raised {
        return None;
      }
    }
    var result := builder.closed;
    if builder.current.Some? {
      result := result + [Freeze(builder.current.value)];
    }
    return Some(result);
  }
}
