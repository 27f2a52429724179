/** Layered connectivity polling and what it does to the runtime's state. */
module NetworkMonitors {
  import opened Options
  import opened RuntimeStates
  import opened Lifecycle
  import opened Sequences

  datatype NetworkLayer = Link | Gateway | Dns | Internet

  const LAYER_ORDER: seq<NetworkLayer> := [Link, Gateway, Dns, Internet]

  datatype CheckOutcome = Returned(ok: bool) | Raised

  predicate Passes(outcome: CheckOutcome) {
    outcome == Returned(true)
  }

  datatype NetworkStatus = NetworkStatus(reachable: seq<NetworkLayer>) {
    function HighestLayer(): Option<NetworkLayer> {
      if reachable == [] then None else Some(reachable[|reachable| - 1])
    }
  }

  datatype NetworkEvent = NetworkStatusChanged(currentLayer: Option<NetworkLayer>, fullyConnected: bool)

  /** How far a layer is from the device: each depends on the nearer ones. */
  function Level(l: NetworkLayer): nat {
    match l
    case Link => 0
    case Gateway => 1
    case Dns => 2
    case Internet => 3
  }

  /** The configured layers, lowest first. */
  function Configured(layers: set<NetworkLayer>): seq<NetworkLayer> {
    Restrict(LAYER_ORDER, layers)
  }

  function StillToCheck(layers: set<NetworkLayer>, i: nat): seq<NetworkLayer>
    requires i <= |LAYER_ORDER|
  {
    Restrict(LAYER_ORDER[i..], layers)
  }

  lemma EveryLayerIsConfigured(layers: set<NetworkLayer>)
    ensures |Configured(layers)| == |layers|
    ensures forall l :: l in layers ==> l in Configured(layers)
  {
    forall l | l in layers ensures l in Configured(layers) {
      assert LAYER_ORDER[match l case Link => 0 case Gateway => 1 case Dns => 2 case Internet => 3] == l;
    }
    assert Distinct(LAYER_ORDER);
    RestrictDistinct(LAYER_ORDER, layers);
    DistinctCount(Configured(layers), layers);
  }

  lemma NextToCheck(layers: set<NetworkLayer>, i: nat)
    requires i < |LAYER_ORDER|
    ensures StillToCheck(layers, i) == (if LAYER_ORDER[i] in layers then [LAYER_ORDER[i]] else []) + StillToCheck(layers, i + 1)
    ensures StillToCheck(layers, |LAYER_ORDER|) == []
  {
    assert LAYER_ORDER[i..][1..] == LAYER_ORDER[i + 1..];
  }

  /** What a poll should find: the layers below the first one that does not pass. */
  predicate LongestPassingPrefix(reachable: seq<NetworkLayer>, layers: set<NetworkLayer>, outcome: NetworkLayer -> CheckOutcome) {
    var all := Configured(layers);
    && reachable <= all
    && (forall l :: l in reachable ==> Passes(outcome(l)))
    && (|reachable| < |all| ==> !Passes(outcome(all[|reachable|])))
  }

  lemma PassingPrefixIsUnique(r: seq<NetworkLayer>, s: seq<NetworkLayer>, layers: set<NetworkLayer>, outcome: NetworkLayer -> CheckOutcome)
    requires LongestPassingPrefix(r, layers, outcome) && LongestPassingPrefix(s, layers, outcome)
    ensures r == s
  {
    var all := Configured(layers);
    assert forall k :: 0 <= k < |r| ==> r[k] in r;
    assert forall k :: 0 <= k < |s| ==> s[k] in s;
  }

  /** A layer is reachable exactly if it and every configured layer nearer to the device pass. */
  predicate ByLevel(reachable: seq<NetworkLayer>, layers: set<NetworkLayer>, outcome: NetworkLayer -> CheckOutcome) {
    forall l :: l in reachable <==>
      l in layers && forall k :: k in layers && Level(k) <= Level(l) ==> outcome(k) == Returned(true)
  }

  /** An event that says whether everything passes, and which reachable layer is the furthest. */
  predicate Tells(told: NetworkEvent, reachable: seq<NetworkLayer>, layers: set<NetworkLayer>, outcome: NetworkLayer -> CheckOutcome) {
    && (told.fullyConnected <==> forall l :: l in layers ==> outcome(l) == Returned(true))
    && (told.currentLayer.None? <==> reachable == [])
    && (told.currentLayer.Some? ==>
          && told.currentLayer.value in reachable
          && forall l :: l in reachable ==> Level(l) <= Level(told.currentLayer.value))
  }

  lemma PrefixIsPossible(reachable: seq<NetworkLayer>, layers: set<NetworkLayer>, outcome: NetworkLayer -> CheckOutcome)
    requires LongestPassingPrefix(reachable, layers, outcome)
    ensures Possible(NetworkStatus(reachable), layers)
  {}

  lemma OrderedByLevel()
    ensures forall i, j :: 0 <= i < j < |LAYER_ORDER| ==> Level(LAYER_ORDER[i]) < Level(LAYER_ORDER[j])
  {}

  /** What a poll says of single layers: below a reachable one every configured layer is reachable, and the highest
      one reachable is followed by one that fails, if any is left. */
  lemma ReachableByLevel(reachable: seq<NetworkLayer>, layers: set<NetworkLayer>, outcome: NetworkLayer -> CheckOutcome)
    requires LongestPassingPrefix(reachable, layers, outcome)
    ensures ByLevel(reachable, layers, outcome)
    ensures var highest := NetworkStatus(reachable).HighestLayer();
            && (highest.None? <==> forall l :: l !in reachable)
            && (highest.Some? ==> highest.value in reachable && forall l :: l in reachable ==> Level(l) <= Level(highest.value))
  {
    var all := Configured(layers);
    EveryLayerIsConfigured(layers);
    ConfiguredByLevel(layers);
    forall l | l in reachable
      ensures l in layers && forall k :: k in layers && Level(k) <= Level(l) ==> outcome(k) == Returned(true)
    {
      var i :| 0 <= i < |reachable| && reachable[i] == l;
      assert all[i] == l && l in all;
      forall k | k in layers && Level(k) <= Level(l) ensures outcome(k) == Returned(true) {
        var j :| 0 <= j < |all| && all[j] == k;
        assert j <= i;
        assert reachable[j] == k && k in reachable;
      }
    }
    forall l | l in layers && (forall k :: k in layers && Level(k) <= Level(l) ==> outcome(k) == Returned(true))
      ensures l in reachable
    {
      var i :| 0 <= i < |all| && all[i] == l;
      FailureBelow(reachable, layers, outcome, i);
      assert reachable[i] == l;
    }
    if reachable != [] {
      forall l | l in reachable ensures Level(l) <= Level(reachable[|reachable| - 1]) {
        var i :| 0 <= i < |reachable| && reachable[i] == l;
        assert all[i] == l && all[|reachable| - 1] == reachable[|reachable| - 1];
      }
    } else {
      assert forall l :: l !in reachable;
    }
    assert reachable != [] ==> reachable[|reachable| - 1] in reachable;
  }

  lemma FailureBelow(reachable: seq<NetworkLayer>, layers: set<NetworkLayer>, outcome: NetworkLayer -> CheckOutcome, i: nat)
    requires LongestPassingPrefix(reachable, layers, outcome) && i < |Configured(layers)|
    ensures i < |reachable| || exists k :: k in layers && Level(k) <= Level(Configured(layers)[i]) && outcome(k) != Returned(true)
  {
    var all := Configured(layers);
    ConfiguredByLevel(layers);
    if |reachable| <= i {
      var k := all[|reachable|];
      assert k in all && Level(k) <= Level(all[i]);
    }
  }

  lemma ConfiguredByLevel(layers: set<NetworkLayer>)
    ensures var all := Configured(layers); forall i, j :: 0 <= i < j < |all| ==> Level(all[i]) < Level(all[j])
  {
    var all := Configured(layers);
    OrderedByLevel();
    forall i, j | 0 <= i < j < |all| ensures Level(all[i]) < Level(all[j]) {
      var a, b := RestrictKeepsOrder(LAYER_ORDER, layers, i, j);
    }
  }

  /** A status some poll of these layers can produce. */
  predicate Possible(status: NetworkStatus, layers: set<NetworkLayer>) {
    status.reachable <= Configured(layers)
  }

  /** The highest layer tells the whole status: comparing nothing else misses no change. */
  lemma HighestLayerDeterminesStatus(a: NetworkStatus, b: NetworkStatus, layers: set<NetworkLayer>)
    requires Possible(a, layers) && Possible(b, layers)
    ensures a.HighestLayer() == b.HighestLayer() <==> a == b
  {
    var all := Configured(layers);
    assert Distinct(LAYER_ORDER);
    RestrictDistinct(LAYER_ORDER, layers);
    if a.HighestLayer() == b.HighestLayer() && a.reachable != [] {
      var i, j := |a.reachable| - 1, |b.reachable| - 1;
      assert all[i] == a.reachable[i] && all[j] == b.reachable[j];
      assert a.reachable == all[..i + 1] && b.reachable == all[..j + 1];
    }
  }

  const MANAGED_STATES: set<RuntimeState> := {Healthy, Degraded, Offline}

  /** The state a connectivity status asks for. */
  function Dictated(status: NetworkStatus, layers: set<NetworkLayer>): RuntimeState {
    if |status.reachable| == |layers| then Healthy
    else if status.reachable == [] then Offline
    else Degraded
  }

  /** Full connectivity means Healthy, a failure at the lowest configured layer Offline, anything between Degraded. */
  lemma DictatedByLayers(layers: set<NetworkLayer>, status: NetworkStatus, outcome: NetworkLayer -> CheckOutcome)
    requires layers != {} && LongestPassingPrefix(status.reachable, layers, outcome)
    ensures Configured(layers) != []
    ensures Dictated(status, layers) == Healthy <==> forall l :: l in layers ==> Passes(outcome(l))
    ensures Dictated(status, layers) == Offline <==> !Passes(outcome(Configured(layers)[0]))
  {
    var all := Configured(layers);
    EveryLayerIsConfigured(layers);
    var some :| some in layers;
    assert some in all && all[0] in all;
    if status.reachable != all {
      assert all[|status.reachable|] in all;
    }
    if status.reachable != [] {
      assert status.reachable[0] == all[0] && status.reachable[0] in status.reachable;
    }
  }

  class NetworkMonitor {
    const layers: set<NetworkLayer>
    const runtime: LifecycleManager
    const drivesRuntime: bool
    var status: Option<NetworkStatus>
    var events: seq<NetworkEvent>

    /** An empty set of checks is refused with a ValueError. */
    constructor (layers: set<NetworkLayer>, runtime: LifecycleManager, drivesRuntime: bool)
      requires layers != {}
      ensures this.layers == layers && this.runtime == runtime && this.drivesRuntime == drivesRuntime
      ensures Valid() && status.None? && events == []
    {
      this.layers := layers;
      this.runtime := runtime;
      this.drivesRuntime := drivesRuntime;
      status := None;
      events := [];
    }

    /** Whoever keeps the last event knows the current status, and no event repeats the one before it. */
    ghost predicate Valid()
      reads this
    {
      layers != {} && Consistent(status, events)
    }

    predicate Consistent(status: Option<NetworkStatus>, events: seq<NetworkEvent>) {
      && (status.None? ==> events == [])
      && (forall i :: 0 < i < |events| ==> events[i] != events[i - 1])
      && (status.Some? ==>
            && Possible(status.value, layers)
            && events != []
            && events[|events| - 1] == EventFor(status.value))
    }

    lemma StaysConsistent(previous: Option<NetworkStatus>, events: seq<NetworkEvent>, current: NetworkStatus)
      requires Consistent(previous, events) && Possible(current, layers)
      ensures previous == Some(current) || Consistent(Some(current), events + [EventFor(current)])
      ensures previous == Some(current) ==> events != [] && events[|events| - 1] == EventFor(current)
      ensures previous.Some? ==> (previous.value.HighestLayer() == current.HighestLayer() <==> previous.value == current)
    {
      if previous.Some? {
        HighestLayerDeterminesStatus(previous.value, current, layers);
      }
    }

    function EventFor(s: NetworkStatus): NetworkEvent {
      NetworkStatusChanged(s.HighestLayer(), |s.reachable| == |layers|)
    }

    /** Checks the configured layers bottom-up and stops at the first one that fails or raises. */
    method Reach(outcome: NetworkLayer -> CheckOutcome) returns (reachable: seq<NetworkLayer>)
      ensures LongestPassingPrefix(reachable, layers, outcome)
    {
      hide Restrict;
      reachable := [];
      ghost var all := Configured(layers);
      var i := 0;
      assert LAYER_ORDER[0..] == LAYER_ORDER;
      while i < |LAYER_ORDER|
        invariant 0 <= i <= |LAYER_ORDER|
        invariant all == reachable + StillToCheck(layers, i)
        invariant forall l :: l in reachable ==> Passes(outcome(l))
      {
        var layer := LAYER_ORDER[i];
        NextToCheck(layers, i);
        if layer in layers {
          if !Passes(outcome(layer)) {
            return;
          }
          reachable := reachable + [layer];
        }
        i := i + 1;
      }
    }

    lemma PollSays(outcome: NetworkLayer -> CheckOutcome, reachable: seq<NetworkLayer>)
      requires Valid() && LongestPassingPrefix(reachable, layers, outcome)
      ensures ByLevel(reachable, layers, outcome)
      ensures Tells(EventFor(NetworkStatus(reachable)), reachable, layers, outcome)
    {
      ReachableByLevel(reachable, layers, outcome);
      DictatedByLayers(layers, NetworkStatus(reachable), outcome);
    }

    method CheckOnce(outcome: NetworkLayer -> CheckOutcome) returns (current: NetworkStatus)
      requires Valid() && runtime.Valid()
      modifies this, runtime, runtime.states
      ensures Valid() && runtime.Valid()
      ensures status == Some(current) && LongestPassingPrefix(current.reachable, layers, outcome)
      ensures events == old(events) + if old(status) == Some(current) then [] else [EventFor(current)]
      ensures ByLevel(current.reachable, layers, outcome)
      ensures Tells(events[|events| - 1], current.reachable, layers, outcome)
      ensures drivesRuntime && old(status) != Some(current) && old(runtime.states.state) in MANAGED_STATES ==>
                && runtime.states.state == Dictated(current, layers)
                && runtime.published == old(runtime.published) + Hops(old(runtime.states.state), Dictated(current, layers))
      ensures !drivesRuntime || old(status) == Some(current) || old(runtime.states.state) !in MANAGED_STATES ==>
                runtime.states.state == old(runtime.states.state) && runtime.published == old(runtime.published)
    {
      hide LongestPassingPrefix, Possible, Configured, Dictated, Hops, ByLevel, Tells, Path, Consistent, EventFor;
      var reachable := Reach(outcome);
      PollSays(outcome, reachable);
      PrefixIsPossible(reachable, layers, outcome);
      current := NetworkStatus(reachable);
      StaysConsistent(status, events, current);
      var previous := status;
      status := Some(current);
      if previous.None? || previous.value.HighestLayer() != current.HighestLayer() {
        OnChange(current);
      }
    }

    method OnChange(current: NetworkStatus)
      requires runtime.Valid()
      modifies this`events, runtime, runtime.states
      ensures runtime.Valid()
      ensures events == old(events) + [EventFor(current)]
      ensures drivesRuntime && old(runtime.states.state) in MANAGED_STATES ==>
                && runtime.states.state == Dictated(current, layers)
                && runtime.published == old(runtime.published) + Hops(old(runtime.states.state), Dictated(current, layers))
      ensures !drivesRuntime || old(runtime.states.state) !in MANAGED_STATES ==>
                runtime.states.state == old(runtime.states.state) && runtime.published == old(runtime.published)
    {
      events := events + [EventFor(current)];
      if drivesRuntime {
        ApplyToRuntime(current);
      }
    }

    method ApplyToRuntime(current: NetworkStatus)
      requires runtime.Valid()
      modifies runtime, runtime.states
      ensures runtime.Valid()
      ensures var s := old(runtime.states.state);
              if s in MANAGED_STATES
              then runtime.states.state == Dictated(current, layers) && runtime.published == old(runtime.published) + Hops(s, Dictated(current, layers))
              else runtime.states.state == s && runtime.published == old(runtime.published)
    {
      var state := runtime.states.state;
      if state !in MANAGED_STATES { return; }
      var target := Dictated(current, layers);
      if target == state { return; }
      var ok := true;
      if target == Healthy && state == Offline {
        ok := runtime.SetState(Degraded);
      }
      if ok {
        ok := runtime.SetState(target);
      }
    }
  }

  /** The changes published on the way from one managed state to another. */
  function Hops(s: RuntimeState, target: RuntimeState): seq<StateChange> {
    if s == target then []
    else if s == Offline && target == Healthy then [StateChange(Offline, Degraded), StateChange(Degraded, Healthy)]
    else [StateChange(s, target)]
  }

  /** Between managed states the hops are a legal path; one hop is enough except out of an outage, where the
      single hop to Healthy is not an edge. */
  lemma HopsAreLegal(s: RuntimeState, target: RuntimeState)
    requires s in MANAGED_STATES && target in MANAGED_STATES
    ensures Path(Hops(s, target), target)
    ensures Hops(s, target) != [] ==> Hops(s, target)[0].previous == s
    ensures |Hops(s, target)| <= 1 <==> Reachable(s, target)
  {}
}
