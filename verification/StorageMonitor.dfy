/** Free-space polling with scoped cleanup and what it does to the runtime's state. */
module StorageMonitors {
  import opened Options
  import opened RuntimeStates
  import opened Lifecycle

  datatype StorageStatus = StorageStatus(freeBytes: int, freeInodes: Option<int>)

  datatype StorageEvent = StorageLow | StorageCleanupExhausted | StorageRecovered

  /** A cleanup action, by name. */
  type Cleanup = string

  /** The readings one poll may take: number k follows cleanup action k - 1. None is a usage check that raises. */
  type Readings = nat -> Option<StorageStatus>

  datatype Episode = Calm | Low | GivenUp

  /** Where one more event leaves a listener; None when it makes no sense to one. */
  function Then(episode: Option<Episode>, e: StorageEvent): Option<Episode> {
    match (episode, e)
    case (Some(Calm), StorageLow) => Some(Low)
    case (Some(Low), StorageCleanupExhausted) => Some(GivenUp)
    case (Some(Low), StorageRecovered) => Some(Calm)
    case (Some(GivenUp), StorageRecovered) => Some(Calm)
    case _ => None
  }

  function Track(events: seq<StorageEvent>): Option<Episode> {
    if events == [] then Some(Calm) else Then(Track(events[..|events| - 1]), events[|events| - 1])
  }

  function Count(events: seq<StorageEvent>, e: StorageEvent): nat {
    if events == [] then 0
    else Count(events[..|events| - 1], e) + if events[|events| - 1] == e then 1 else 0
  }

  /** Lows minus recoveries is one inside an episode and zero outside, and exhaustions never outnumber lows. */
  lemma {:induction false} LowsMinusRecoveries(events: seq<StorageEvent>)
    requires Track(events).Some?
    ensures Count(events, StorageLow) - Count(events, StorageRecovered) == if Track(events).value == Calm then 0 else 1
    ensures Count(events, StorageCleanupExhausted) <= Count(events, StorageLow) - if Track(events).value == Low then 1 else 0
  {
    if events != [] {
      LowsMinusRecoveries(events[..|events| - 1]);
    }
  }

  lemma {:induction false} TrackedBefore(events: seq<StorageEvent>, n: nat)
    requires Track(events).Some? && n <= |events|
    ensures Track(events[..n]).Some?
  {
    if n < |events| {
      TrackedBefore(events[..|events| - 1], n);
      assert events[..|events| - 1][..n] == events[..n];
    } else {
      assert events[..n] == events;
    }
  }

  /** Exhaustion is reported at most once per episode: right after the low that opened it, so that between two
      reports there is a recovery and a new low. */
  lemma ExhaustedOncePerEpisode(events: seq<StorageEvent>, i: nat, j: nat)
    requires Track(events).Some?
    requires i < j < |events| && events[i] == events[j] == StorageCleanupExhausted
    ensures i > 0 && events[i - 1] == StorageLow
    ensures i + 2 < j && events[i + 1] == StorageRecovered && events[j - 1] == StorageLow
  {
    FollowsLow(events, i);
    FollowsLow(events, j);
    TrackedBefore(events, i + 2);
    TrackedBefore(events, i + 1);
    assert events[..i + 2][..i + 1] == events[..i + 1];
    assert events[..i + 1][..i] == events[..i];
  }

  lemma FollowsLow(events: seq<StorageEvent>, i: nat)
    requires Track(events).Some? && i < |events| && events[i] == StorageCleanupExhausted
    ensures i > 0 && events[i - 1] == StorageLow
  {
    TrackedBefore(events, i + 1);
    assert events[..i + 1][..i] == events[..i];
    if i > 0 {
      assert events[..i][..i - 1] == events[..i - 1];
    }
  }

  class StorageMonitor {
    const lowWaterBytes: int
    const lowWaterInodes: Option<int>
    const cleanup: seq<Cleanup>
    const runtime: LifecycleManager
    const drivesRuntime: bool
    var status: Option<StorageStatus>
    var low: bool
    var events: seq<StorageEvent>
    /** Cleanup actions run, in order; one that raises is logged and counts as run. */
    var performed: seq<Cleanup>

    constructor (lowWaterBytes: int, lowWaterInodes: Option<int>, cleanup: seq<Cleanup>, runtime: LifecycleManager, drivesRuntime: bool)
      requires lowWaterBytes > 0 && (lowWaterInodes.Some? ==> lowWaterInodes.value > 0)
      ensures this.lowWaterBytes == lowWaterBytes && this.lowWaterInodes == lowWaterInodes && this.cleanup == cleanup
      ensures this.runtime == runtime && this.drivesRuntime == drivesRuntime
      ensures Valid() && status.None? && events == [] && performed == []
    {
      this.lowWaterBytes := lowWaterBytes;
      this.lowWaterInodes := lowWaterInodes;
      this.cleanup := cleanup;
      this.runtime := runtime;
      this.drivesRuntime := drivesRuntime;
      status := None;
      low := false;
      events := [];
      performed := [];
    }

    predicate IsLow(s: StorageStatus) {
      || s.freeBytes < lowWaterBytes
      || (lowWaterInodes.Some? && s.freeInodes.Some? && s.freeInodes.value < lowWaterInodes.value)
    }

    /** The flag is about the last reading taken, and the events tell the same story as the flag, also after
        a poll that raised. */
    ghost predicate Valid()
      reads this
    {
      && (low <==> status.Some? && IsLow(status.value))
      && Track(events).Some?
      && (low <==> Track(events).value != Calm)
    }

    predicate ReadsLow(reading: Option<StorageStatus>) {
      reading.Some? && IsLow(reading.value)
    }

    /** The number of cleanup actions to run: up to the first reading that is not low, or raises. */
    predicate StopsAt(readings: Readings, ran: nat) {
      && ran <= |cleanup|
      && (forall k :: 0 <= k < ran ==> ReadsLow(readings(k)))
      && (ran < |cleanup| ==> !ReadsLow(readings(ran)))
    }

    /** One poll: `ran` cleanup actions are run, in order. None is a poll that raised. */
    method CheckOnce(readings: Readings) returns (r: Option<StorageStatus>, ran: nat)
      requires Valid() && runtime.Valid()
      modifies this, runtime, runtime.states
      ensures Valid() && runtime.Valid()
      ensures r.Some? ==> r == status
      ensures !old(low) && ReadsLow(readings(0)) ==> StopsAt(readings, ran)
      ensures old(low) || !ReadsLow(readings(0)) ==> ran == 0
      ensures r == readings(ran)
      ensures ran <= |cleanup| && performed == old(performed) + cleanup[..ran]
      ensures readings(0).None? ==> unchanged(this) && unchanged(runtime.states)
      ensures readings(0).Some? ==>
                events == old(events) + PollEvents(old(low), readings(0).value, readings(ran))
      ensures old(events) <= events
      ensures StorageLow in events[|old(events)|..] <==> !old(low) && ReadsLow(readings(0))
      ensures StorageRecovered in events[|old(events)|..] <==>
                && readings(0).Some? && (old(low) || ReadsLow(readings(0)))
                && readings(ran).Some? && !ReadsLow(readings(ran))
      ensures StorageCleanupExhausted in events[|old(events)|..] <==>
                && !old(low) && cleanup != [] && ran == |cleanup|
                && forall k :: 0 <= k <= |cleanup| ==> ReadsLow(readings(k))
      ensures readings(0).Some? ==>
                runtime.states.state == if drivesRuntime then FinalState(old(runtime.states.state), PollEvents(old(low), readings(0).value, readings(ran)))
                                        else old(runtime.states.state)
    {
      hide PollEvents, FinalState, Track, Path, StopsAt;
      ran := 0;
      var first := readings(0);
      if first.None? { return None, 0; }
      FinalStates(runtime.states.state, StorageRecovered, StorageRecovered);
      status := first;
      var wasLow := low;
      low := IsLow(first.value);
      if low && !wasLow {
        var ok;
        ok, ran := OnLow(readings);
        ExhaustedIff(readings, ran);
        r := if ok then status else None;
      } else {
        if !low && wasLow {
          OnRecovered();
        }
        r := status;
      }
      PollEventsTell(wasLow, first.value, readings(ran));
      assert events[|old(events)|..] == PollEvents(wasLow, first.value, readings(ran));
    }

    lemma PollEventsTell(wasLow: bool, first: StorageStatus, last: Option<StorageStatus>)
      ensures var told := PollEvents(wasLow, first, last);
              && (StorageLow in told <==> !wasLow && IsLow(first))
              && (StorageRecovered in told <==> if wasLow then !IsLow(first) else IsLow(first) && last.Some? && !IsLow(last.value))
              && (StorageCleanupExhausted in told <==> !wasLow && IsLow(first) && cleanup != [] && ReadsLow(last))
              && (IsLow(first) == wasLow ==> told == []) && (wasLow && !IsLow(first) ==> told == [StorageRecovered])
    {}

    lemma ExhaustedIff(readings: Readings, ran: nat)
      requires StopsAt(readings, ran)
      ensures ran <= |cleanup|
      ensures ReadsLow(readings(ran)) <==> ran == |cleanup| && forall k :: 0 <= k <= |cleanup| ==> ReadsLow(readings(k))
    {}

    /** What one poll publishes, from the flag before it, its first reading and its last one. */
    function PollEvents(wasLow: bool, first: StorageStatus, last: Option<StorageStatus>): seq<StorageEvent> {
      if IsLow(first) == wasLow then []
      else if wasLow then [StorageRecovered]
      else if last.None? then [StorageLow]
      else if !IsLow(last.value) then [StorageLow, StorageRecovered]
      else if cleanup != [] then [StorageLow, StorageCleanupExhausted]
      else [StorageLow]
    }

    method OnLow(readings: Readings) returns (ok: bool, ran: nat)
      requires low && readings(0).Some? && status == readings(0) && IsLow(readings(0).value)
      requires Track(events) == Some(Calm) && runtime.Valid()
      modifies this, runtime, runtime.states
      ensures Valid() && runtime.Valid()
      ensures StopsAt(readings, ran) && performed == old(performed) + cleanup[..ran]
      ensures ok <==> readings(ran).Some?
      ensures ok ==> status == readings(ran)
      ensures events == old(events) + PollEvents(false, readings(0).value, readings(ran))
      ensures runtime.states.state == if drivesRuntime then FinalState(old(runtime.states.state), PollEvents(false, readings(0).value, readings(ran)))
                                      else old(runtime.states.state)
    {
      hide Track, FinalState, Path;
      FinalStates(runtime.states.state, StorageLow, StorageRecovered);
      FinalStates(runtime.states.state, StorageLow, StorageCleanupExhausted);
      Publish(StorageLow);
      if drivesRuntime { ApplyToRuntime(Degraded); }
      ok, ran := RunCleanup(readings);
      if !ok { return; }
      if !low {
        OnRecovered();
      } else if cleanup != [] {
        Publish(StorageCleanupExhausted);
        if drivesRuntime { Escalate(); }
      }
    }

    method RunCleanup(readings: Readings) returns (ok: bool, ran: nat)
      requires low && readings(0).Some? && status == readings(0) && IsLow(readings(0).value)
      modifies this`status, this`low, this`performed
      ensures StopsAt(readings, ran) && performed == old(performed) + cleanup[..ran]
      ensures ok <==> readings(ran).Some?
      ensures ok ==> status == readings(ran)
      ensures status.Some? && (low <==> IsLow(status.value))
      ensures !ok ==> low
    {
      ran := 0;
      for i := 0 to |cleanup|
        invariant ran == i && low
        invariant performed == old(performed) + cleanup[..i]
        invariant forall k :: 0 <= k <= i ==> ReadsLow(readings(k))
        invariant status == readings(i)
      {
        performed := performed + [cleanup[i]];
        ran := i + 1;
        assert cleanup[..ran] == cleanup[..i] + [cleanup[i]];
        var reading := readings(i + 1);
        if reading.None? { return false, ran; }
        status := reading;
        low := IsLow(reading.value);
        if !low { return true, ran; }
      }
      ok := true;
    }

    method OnRecovered()
      requires status.Some? && !low && !IsLow(status.value)
      requires Track(events).Some? && Track(events).value != Calm && runtime.Valid()
      modifies this`events, runtime, runtime.states
      ensures Valid() && runtime.Valid()
      ensures events == old(events) + [StorageRecovered]
      ensures runtime.states.state == if drivesRuntime then AfterEvent(old(runtime.states.state), StorageRecovered) else old(runtime.states.state)
    {
      Publish(StorageRecovered);
      if drivesRuntime { ApplyToRuntime(Healthy); }
    }

    method Publish(e: StorageEvent)
      modifies this`events
      ensures events == old(events) + [e]
      ensures Track(events) == Then(Track(old(events)), e)
    {
      assert (events + [e])[..|events|] == events;
      events := events + [e];
    }

    method ApplyToRuntime(target: RuntimeState)
      requires target in {Healthy, Degraded} && runtime.Valid()
      modifies runtime, runtime.states
      ensures runtime.Valid()
      ensures runtime.states.state == if old(runtime.states.state) in {Healthy, Degraded} then target else old(runtime.states.state)
    {
      var state := runtime.states.state;
      if state !in {Healthy, Degraded} || target == state { return; }
      var _ := runtime.SetState(target);
    }

    method Escalate()
      requires runtime.Valid()
      modifies runtime, runtime.states
      ensures runtime.Valid()
      ensures runtime.states.state == AfterEvent(old(runtime.states.state), StorageCleanupExhausted)
    {
      if runtime.states.state in {Stopping, Stopped} { return; }
      var _ := runtime.SetState(FailedState);
    }
  }

  /** Room is judged by the bytes and, if configured and reported, the inodes; being exactly at a mark is enough. */
  lemma EnoughRoomIff(m: StorageMonitor, s: StorageStatus)
    ensures !m.IsLow(s) <==>
            && m.lowWaterBytes <= s.freeBytes
            && (m.lowWaterInodes == None || s.freeInodes == None || m.lowWaterInodes.value <= s.freeInodes.value)
  {}

  /** What each event asks of the runtime, left alone by other tasks. */
  function AfterEvent(s: RuntimeState, e: StorageEvent): RuntimeState {
    match e
    case StorageLow => if s in {Healthy, Degraded} then Degraded else s
    case StorageRecovered => if s in {Healthy, Degraded} then Healthy else s
    case StorageCleanupExhausted => if s in {Stopping, Stopped} then s else FailedState
  }

  function FinalState(s: RuntimeState, events: seq<StorageEvent>): RuntimeState {
    if events == [] then s else AfterEvent(FinalState(s, events[..|events| - 1]), events[|events| - 1])
  }

  lemma FinalStates(s: RuntimeState, e: StorageEvent, f: StorageEvent)
    ensures FinalState(s, []) == s
    ensures FinalState(s, [e]) == AfterEvent(s, e)
    ensures FinalState(s, [e, f]) == AfterEvent(AfterEvent(s, e), f)
  {
    assert [e][..0] == [];
    assert [e, f][..1] == [e];
  }

  /** Every step of it is an edge of the lifecycle graph, a monitor never undoes a failure or a shutdown, and a
      runtime that was Healthy when an episode began and is left alone is Degraded until it recovers, unless
      cleanup ran out, after which it is Failed for good. */
  lemma {:induction false} EventsDriveTheRuntime(s: RuntimeState, events: seq<StorageEvent>)
    requires Track(events).Some?
    ensures s in {FailedState, Stopping, Stopped} ==> FinalState(s, events) == s
    ensures s == Healthy ==>
              FinalState(s, events) == if StorageCleanupExhausted in events then FailedState
                                       else if Track(events).value == Calm then Healthy else Degraded
    ensures s !in {Healthy, Degraded, Stopping, Stopped} ==>
              FinalState(s, events) == if StorageCleanupExhausted in events then FailedState else s
    ensures events != [] ==> Reachable(FinalState(s, events[..|events| - 1]), FinalState(s, events))
  {
    if events != [] {
      var prefix, last := events[..|events| - 1], events[|events| - 1];
      EventsDriveTheRuntime(s, prefix);
      assert StorageCleanupExhausted in events <==> StorageCleanupExhausted in prefix || last == StorageCleanupExhausted by {
        assert events == prefix + [last];
      }
    }
  }
}
