/** Restarting a crashed task with backoff, and giving up on a crash loop. */
module Supervision {
  import opened Options
  import opened Backoff

  /** Failure `i` is the last of `maxCrashes` failures that fit in the window. */
  predicate Trips(history: seq<real>, i: nat, maxCrashes: int, window: real) {
    1 <= maxCrashes <= i + 1 <= |history| && history[i] - history[i + 1 - maxCrashes] <= window
  }

  predicate Nondecreasing(times: seq<real>) {
    forall i, j :: 0 <= i <= j < |times| ==> times[i] <= times[j]
  }

  /** From index `k` on, and only there, the failures are within the window of `now`. */
  predicate WindowStarts(history: seq<real>, now: real, window: real, k: nat) {
    k <= |history| && forall i :: 0 <= i < |history| ==> (now - history[i] <= window <==> k <= i)
  }

  /** The first `k` failures are older than the window. */
  predicate Outside(history: seq<real>, now: real, window: real, k: nat) {
    k <= |history| && forall i :: 0 <= i < k ==> window < now - history[i]
  }

  function From(history: seq<real>, k: nat): (r: seq<real>)
    requires k <= |history|
    ensures |r| == |history| - k
  {
    history[k..]
  }

  /** Eviction from the front stops at the first failure inside the window; order does the rest. */
  lemma EvictionIsExact(history: seq<real>, now: real, window: real, k: nat)
    requires Nondecreasing(history) && Outside(history, now, window, k)
    requires k < |history| ==> now - history[k] <= window
    ensures WindowStarts(history, now, window, k)
  {}

  /** What has left the window stays out of it, and one more failure keeps the history in order. */
  lemma OneMoreFailure(history: seq<real>, now: real, window: real, k: nat)
    requires Nondecreasing(history) && k <= |history|
    requires history != [] ==> history[|history| - 1] <= now && WindowStarts(history, history[|history| - 1], window, k)
    ensures Nondecreasing(history + [now])
    ensures Outside(history + [now], now, window, k)
    ensures From(history + [now], k) == From(history, k) + [now]
  {}

  lemma OutsideIsShort(history: seq<real>, now: real, window: real, k: nat)
    requires Outside(history, now, window, k)
    ensures k <= |history|
  {}

  lemma TripsIff(history: seq<real>, window: real, k: nat, maxCrashes: int)
    requires history != [] && 1 <= maxCrashes && WindowStarts(history, history[|history| - 1], window, k)
    ensures maxCrashes <= |history| - k <==> Trips(history, |history| - 1, maxCrashes, window)
  {}

  datatype Settings = Settings(
    maxCrashes: int,
    window: real,
    algorithm: Algorithm,
    initialDelay: real,
    maxDelay: real)

  predicate Acceptable(s: Settings) {
    1 <= s.maxCrashes && 0.0 < s.window
  }

  /** One life of the task: how long it ran, how it ended, the jitter drawn after it, and any time lost
      before it is started again. Returning counts as a failure like raising. */
  datatype Life = Life(duration: real, raised: bool, jitter: Option<real>, lag: real)

  predicate Possible(life: Life) {
    0.0 <= life.duration && 0.0 <= life.lag && Draw(life.jitter)
  }

  datatype TaskEvent =
    | TaskCrashed(attempt: nat)
    | TaskExited(attempt: nat)
    | TaskRestarting(attempt: nat, delay: real)
    | CrashLoopDetected(crashes: nat)

  function Delay(s: Settings, attempt: nat, life: Life): real
    requires 1 <= attempt
  {
    ComputeDelay(s.algorithm, attempt, s.initialDelay, s.maxDelay, life.jitter).value
  }

  function Ending(life: Life, attempt: nat): TaskEvent {
    if life.raised then TaskCrashed(attempt) else TaskExited(attempt)
  }

  /** What is published over the first `n` lives, each followed by a restart. */
  function RestartEvents(s: Settings, lives: seq<Life>, n: nat): seq<TaskEvent>
    requires n <= |lives|
  {
    if n == 0 then []
    else RestartEvents(s, lives, n - 1) + [Ending(lives[n - 1], n), TaskRestarting(n, Delay(s, n, lives[n - 1]))]
  }

  /** When life `i` starts; a negative delay is no wait at all. */
  function StartAt(s: Settings, t0: real, lives: seq<Life>, i: nat): real
    requires i <= |lives|
    decreases i, 0
  {
    if i == 0 then t0
    else FailAt(s, t0, lives, i - 1) + Max(0.0, Delay(s, i, lives[i - 1])) + lives[i - 1].lag
  }

  function FailAt(s: Settings, t0: real, lives: seq<Life>, i: nat): real
    requires i < |lives|
    decreases i, 1
  {
    StartAt(s, t0, lives, i) + lives[i].duration
  }

  function FailTimes(s: Settings, t0: real, lives: seq<Life>, n: nat): (times: seq<real>)
    requires n <= |lives|
    ensures |times| == n
    ensures forall i :: 0 <= i < n ==> times[i] == FailAt(s, t0, lives, i)
  {
    if n == 0 then [] else FailTimes(s, t0, lives, n - 1) + [FailAt(s, t0, lives, n - 1)]
  }

  lemma {:induction false} FailuresInOrder(s: Settings, t0: real, lives: seq<Life>, i: nat, j: nat)
    requires i <= j < |lives| && forall k :: 0 <= k < |lives| ==> Possible(lives[k])
    ensures FailAt(s, t0, lives, i) <= FailAt(s, t0, lives, j)
  {
    if i < j {
      FailuresInOrder(s, t0, lives, i, j - 1);
      assert Possible(lives[j - 1]) && Possible(lives[j]);
    }
  }

  lemma NextFailureComesLater(s: Settings, t0: real, lives: seq<Life>, n: nat)
    requires n < |lives| && forall k :: 0 <= k < |lives| ==> Possible(lives[k])
    ensures var times := FailTimes(s, t0, lives, n); times != [] ==> times[|times| - 1] <= FailAt(s, t0, lives, n)
  {
    if n > 0 {
      FailuresInOrder(s, t0, lives, n - 1, n);
    }
  }

  /** None of the first `n` failures trips the limit. */
  predicate NoneTrips(history: seq<real>, n: int, s: Settings) {
    forall i :: 0 <= i < n ==> !Trips(history, i, s.maxCrashes, s.window)
  }

  lemma NoneTripsInLonger(history: seq<real>, now: real, s: Settings)
    requires NoneTrips(history, |history|, s)
    ensures NoneTrips(history + [now], |history|, s)
    ensures !Trips(history + [now], |history|, s.maxCrashes, s.window) ==> NoneTrips(history + [now], |history| + 1, s)
  {
    forall i | 0 <= i < |history| ensures !Trips(history + [now], i, s.maxCrashes, s.window) {
      assert !Trips(history, i, s.maxCrashes, s.window);
    }
  }

  lemma NoLivesYet(s: Settings, t0: real, lives: seq<Life>)
    ensures StartAt(s, t0, lives, 0) == t0
    ensures FailTimes(s, t0, lives, 0) == [] && NoneTrips([], 0, s)
    ensures RestartEvents(s, lives, 0) == [] && Waits(s, lives, 0) == []
  {}

  lemma OneMoreLife(s: Settings, t0: real, lives: seq<Life>, n: nat)
    requires n < |lives|
    ensures FailAt(s, t0, lives, n) == StartAt(s, t0, lives, n) + lives[n].duration
    ensures StartAt(s, t0, lives, n + 1) == FailAt(s, t0, lives, n) + Max(0.0, Delay(s, n + 1, lives[n])) + lives[n].lag
    ensures FailTimes(s, t0, lives, n + 1) == FailTimes(s, t0, lives, n) + [FailAt(s, t0, lives, n)]
    ensures RestartEvents(s, lives, n + 1) ==
            RestartEvents(s, lives, n) + [Ending(lives[n], n + 1), TaskRestarting(n + 1, Delay(s, n + 1, lives[n]))]
    ensures Waits(s, lives, n + 1) == Waits(s, lives, n) + [Delay(s, n + 1, lives[n])]
  {}

  /** Within one start() any maxCrashes + 1 successive starts of the body span more than the window, so a
      closed interval of that length holds at most maxCrashes of them. `n` restarts happened because the
      first `n` failures did not trip the limit. */
  lemma RestartRate(s: Settings, t0: real, lives: seq<Life>, n: nat, x: real, first: nat, last: nat)
    requires Acceptable(s) && n <= |lives| && forall i :: 0 <= i < |lives| ==> Possible(lives[i])
    requires NoneTrips(FailTimes(s, t0, lives, n), n, s)
    requires first <= last <= n
    requires x <= StartAt(s, t0, lives, first) && StartAt(s, t0, lives, last) <= x + s.window
    ensures last - first + 1 <= s.maxCrashes
  {
    if s.maxCrashes <= last - first {
      var i := first + s.maxCrashes - 1;
      var times := FailTimes(s, t0, lives, n);
      assert !Trips(times, i, s.maxCrashes, s.window);
      assert times[i] - times[first] > s.window;
      assert Possible(lives[first]) && Possible(lives[last - 1]);
      FailuresInOrder(s, t0, lives, i, last - 1);
      assert FailAt(s, t0, lives, last - 1) <= StartAt(s, t0, lives, last);
      assert StartAt(s, t0, lives, first) <= FailAt(s, t0, lives, first);
      assert false;
    }
  }

  /** A life that runs for at most `longest` and is started at most `slack` after the wait before it. */
  predicate Prompt(life: Life, longest: real, slack: real) {
    Possible(life) && life.duration <= longest && life.lag <= slack
  }

  /** The longest that one life, the wait after it and the time lost before the next can take. */
  function LongestStep(s: Settings, longest: real, slack: real): real {
    longest + Max(0.0, s.maxDelay) + slack
  }

  lemma NextFailureIsClose(s: Settings, t0: real, lives: seq<Life>, longest: real, slack: real, i: nat)
    requires 0 < i < |lives| && Prompt(lives[i - 1], longest, slack) && Prompt(lives[i], longest, slack)
    ensures FailAt(s, t0, lives, i) <= FailAt(s, t0, lives, i - 1) + LongestStep(s, longest, slack)
  {
    DelayBounds(s.algorithm, i, s.initialDelay, s.maxDelay, lives[i - 1].jitter);
  }

  function Times(i: nat, most: real): real { i as real * most }

  lemma OneMoreTime(i: nat, most: real)
    requires 0 < i
    ensures Times(i, most) == Times(i - 1, most) + most
  {}

  lemma NoTimes(most: real)
    ensures Times(0, most) == 0.0
  {}

  /** `i` lives and waits after a failure, the next failure is at most `i` times a life and a wait away. */
  lemma {:induction false} FailuresCloseTogether(s: Settings, t0: real, lives: seq<Life>, longest: real, slack: real, i: nat)
    requires i < |lives| && forall k :: 0 <= k < |lives| ==> Prompt(lives[k], longest, slack)
    ensures FailAt(s, t0, lives, i) - FailAt(s, t0, lives, 0) <= Times(i, LongestStep(s, longest, slack))
  {
    hide FailAt, StartAt, LongestStep, Prompt, Times;
    if i > 0 {
      FailuresCloseTogether(s, t0, lives, longest, slack, i - 1);
      NextFailureIsClose(s, t0, lives, longest, slack, i);
      OneMoreTime(i, LongestStep(s, longest, slack));
    } else {
      NoTimes(LongestStep(s, longest, slack));
    }
  }

  lemma TooFewToTrip(history: seq<real>, s: Settings)
    ensures NoneTrips(history, s.maxCrashes - 1, s)
  {}

  /** If maxCrashes lives and the waits between them fit in the window, the time lost before restarts included,
      the supervisor gives up at exactly crash number maxCrashes. */
  lemma GivesUpAtTheLimit(s: Settings, t0: real, lives: seq<Life>, longest: real, slack: real)
    requires Acceptable(s) && s.maxCrashes <= |lives|
    requires forall k :: 0 <= k < |lives| ==> Prompt(lives[k], longest, slack)
    requires Times(s.maxCrashes - 1, LongestStep(s, longest, slack)) <= s.window
    ensures var times := FailTimes(s, t0, lives, s.maxCrashes);
            Trips(times, s.maxCrashes - 1, s.maxCrashes, s.window) && NoneTrips(times, s.maxCrashes - 1, s)
  {
    hide FailAt, StartAt, FailTimes, LongestStep, NoneTrips, Prompt, Times;
    FailuresCloseTogether(s, t0, lives, longest, slack, s.maxCrashes - 1);
    TooFewToTrip(FailTimes(s, t0, lives, s.maxCrashes), s);
  }

  // What a run sleeps and publishes, life by life.

  /** The waits after the first `n` lives. */
  function Waits(s: Settings, lives: seq<Life>, n: nat): (r: seq<real>)
    requires n <= |lives|
    ensures |r| == n
  {
    if n == 0 then [] else Waits(s, lives, n - 1) + [Delay(s, n, lives[n - 1])]
  }

  /** Each wait is the backoff delay after as many attempts as there have been lives. */
  ghost predicate RightWaits(s: Settings, lives: seq<Life>, waits: seq<real>) {
    && |waits| <= |lives|
    && forall i :: 0 <= i < |waits| ==> IsDelay(waits[i], s.algorithm, i + 1, s.initialDelay, s.maxDelay, lives[i].jitter)
  }

  /** From position `start` on, each life that was followed by a wait shows as its end and its restart. */
  predicate Shown(events: seq<TaskEvent>, start: nat, lives: seq<Life>, waits: seq<real>) {
    && |waits| <= |lives| && start + 2 * |waits| <= |events|
    && forall i :: 0 <= i < |waits| ==>
         && events[start + 2 * i] == (if lives[i].raised then TaskCrashed(i + 1) else TaskExited(i + 1))
         && events[start + 2 * i + 1] == TaskRestarting(i + 1, waits[i])
  }

  /** Each failure comes one wait, one delay and one life after the failure before; a negative wait is none. */
  predicate Follow(times: seq<real>, t0: real, lives: seq<Life>, waits: seq<real>) {
    && |times| <= |lives| && |times| <= |waits| + 1
    && forall i :: 0 <= i < |times| ==>
         times[i] == lives[i].duration +
                     if i == 0 then t0
                     else times[i - 1] + lives[i - 1].lag + if waits[i - 1] < 0.0 then 0.0 else waits[i - 1]
  }

  lemma {:induction false} WaitsAreRight(s: Settings, lives: seq<Life>, n: nat)
    requires n <= |lives|
    ensures RightWaits(s, lives, Waits(s, lives, n))
  {
    hide IsDelay, ComputeDelay;
    if n > 0 {
      WaitsAreRight(s, lives, n - 1);
      DelayIsExact(s.algorithm, n, s.initialDelay, s.maxDelay, lives[n - 1].jitter);
    }
  }

  lemma {:induction false} RestartsAreShown(s: Settings, lives: seq<Life>, n: nat, before: seq<TaskEvent>, rest: seq<TaskEvent>)
    requires n <= |lives|
    ensures |RestartEvents(s, lives, n)| == 2 * n
    ensures Shown(before + RestartEvents(s, lives, n) + rest, |before|, lives, Waits(s, lives, n))
  {
    hide Delay;
    if n > 0 {
      var last := [Ending(lives[n - 1], n), TaskRestarting(n, Delay(s, n, lives[n - 1]))];
      RestartsAreShown(s, lives, n - 1, before, last + rest);
      assert before + RestartEvents(s, lives, n) + rest == before + RestartEvents(s, lives, n - 1) + (last + rest);
    }
  }

  lemma WaitAt(s: Settings, lives: seq<Life>, n: nat, i: nat)
    requires i < n <= |lives|
    ensures Waits(s, lives, n)[i] == Delay(s, i + 1, lives[i])
  {
    hide Delay;
    if i < n - 1 {
      WaitAt(s, lives, n - 1, i);
    }
  }

  lemma TimesFollow(s: Settings, t0: real, lives: seq<Life>, n: nat, m: nat)
    requires n <= |lives| && m <= |lives| && m <= n + 1
    ensures Follow(FailTimes(s, t0, lives, m), t0, lives, Waits(s, lives, n))
  {
    hide Delay, Waits, FailTimes;
    var times, waits := FailTimes(s, t0, lives, m), Waits(s, lives, n);
    forall i | 0 <= i < m
      ensures times[i] == lives[i].duration +
                          if i == 0 then t0
                          else times[i - 1] + lives[i - 1].lag + if waits[i - 1] < 0.0 then 0.0 else waits[i - 1]
    {
      assert times[i] == StartAt(s, t0, lives, i) + lives[i].duration;
      if i > 0 {
        WaitAt(s, lives, n, i - 1);
        assert times[i - 1] == FailAt(s, t0, lives, i - 1);
      }
    }
  }

  lemma RunIsExact(s: Settings, t0: real, lives: seq<Life>, n: nat, m: nat, before: seq<TaskEvent>, rest: seq<TaskEvent>)
    requires n <= |lives| && m <= |lives| && m <= n + 1
    ensures RightWaits(s, lives, Waits(s, lives, n))
    ensures Follow(FailTimes(s, t0, lives, m), t0, lives, Waits(s, lives, n))
    ensures |RestartEvents(s, lives, n)| == 2 * n
    ensures Shown(before + RestartEvents(s, lives, n) + rest, |before|, lives, Waits(s, lives, n))
  {
    hide *;
    WaitsAreRight(s, lives, n);
    TimesFollow(s, t0, lives, n, m);
    RestartsAreShown(s, lives, n, before, rest);
  }

  class Supervisor {
    const settings: Settings
    var failureTimes: seq<real>
    var crashed: bool
    var running: bool
    var events: seq<TaskEvent>
    /** Every failure since start(), oldest first, of which the first `evicted` have left the deque. */
    ghost var history: seq<real>
    ghost var evicted: nat

    ghost predicate Valid()
      reads this
    {
      && Acceptable(settings)
      && Nondecreasing(history)
      && evicted <= |history|
      && failureTimes == From(history, evicted)
      && (history != [] ==> WindowStarts(history, history[|history| - 1], settings.window, evicted))
      && (running ==> !crashed && |failureTimes| < settings.maxCrashes)
    }

    constructor (settings: Settings)
      requires Acceptable(settings)
      ensures Valid() && this.settings == settings && !running && !crashed && history == []
    {
      this.settings := settings;
      failureTimes := [];
      crashed := false;
      running := false;
      events := [];
      history := [];
      evicted := 0;
    }

    /** A no-op while running; otherwise a clean slate. */
    method Start()
      requires Valid()
      modifies this
      ensures Valid() && running && !crashed
      ensures old(running) ==> history == old(history) && failureTimes == old(failureTimes)
      ensures !old(running) ==> history == [] && failureTimes == []
      ensures events == old(events)
    {
      if running {
        return;
      }
      crashed := false;
      failureTimes := [];
      history := [];
      evicted := 0;
      running := true;
    }

    /** Drops failures from the front of the deque while they are older than the window. */
    method Evict(now: real)
      requires Outside(history, now, settings.window, evicted) && failureTimes == From(history, evicted)
      modifies this`failureTimes, this`evicted
      ensures Outside(history, now, settings.window, evicted) && failureTimes == From(history, evicted)
      ensures evicted < |history| ==> now - history[evicted] <= settings.window
      ensures old(evicted) <= evicted
    {
      while failureTimes != [] && now - failureTimes[0] > settings.window
        invariant old(evicted) <= evicted
        invariant Outside(history, now, settings.window, evicted) && failureTimes == From(history, evicted)
        decreases |failureTimes|
      {
        failureTimes := failureTimes[1..];
        evicted := evicted + 1;
      }
    }

    /** The deque ends up holding exactly the failures within the window of `now`, and the supervisor gives
        up exactly when the last maxCrashes failures fit in it. */
    method RegisterFailure(now: real) returns (gaveUp: bool)
      requires Valid() && running
      requires history != [] ==> history[|history| - 1] <= now
      modifies this
      ensures Valid()
      ensures history == old(history) + [now]
      ensures failureTimes == From(history, evicted) && WindowStarts(history, now, settings.window, evicted)
      ensures gaveUp <==> Trips(history, |history| - 1, settings.maxCrashes, settings.window)
      ensures gaveUp ==> crashed && !running && |failureTimes| == settings.maxCrashes
      ensures !gaveUp ==> !crashed && running && events == old(events)
      ensures gaveUp ==> events == old(events) + [CrashLoopDetected(settings.maxCrashes)]
    {
      hide Trips, WindowStarts, Nondecreasing, Outside, From;
      OneMoreFailure(history, now, settings.window, evicted);
      failureTimes := failureTimes + [now];
      history := history + [now];
      OutsideIsShort(history, now, settings.window, evicted);
      Evict(now);
      OutsideIsShort(history, now, settings.window, evicted);
      EvictionIsExact(history, now, settings.window, evicted);
      TripsIff(history, settings.window, evicted, settings.maxCrashes);
      if |failureTimes| < settings.maxCrashes {
        return false;
      }
      events := events + [CrashLoopDetected(|failureTimes|)];
      crashed := true;
      running := false;
      return true;
    }

    /** The supervised loop over the given lives of the task: it stops at the first failure that trips the
        limit and not before. `failures` counts the lives that ended. */
    method Run(t0: real, lives: seq<Life>) returns (failures: nat, waits: seq<real>)
      requires Valid() && running && history == []
      requires forall i :: 0 <= i < |lives| ==> Possible(lives[i])
      modifies this
      ensures Valid() && failures <= |lives|
      ensures history == FailTimes(settings, t0, lives, failures)
      ensures NoneTrips(history, if crashed then failures - 1 else failures, settings)
      ensures crashed ==> 0 < failures && Trips(history, failures - 1, settings.maxCrashes, settings.window)
      ensures crashed ==> |failureTimes| == settings.maxCrashes && !running
      ensures !crashed ==> failures == |lives| && running
      ensures !crashed ==> events == old(events) + RestartEvents(settings, lives, failures)
      ensures crashed ==> events == old(events) + RestartEvents(settings, lives, failures - 1) +
                                    [Ending(lives[failures - 1], failures), CrashLoopDetected(settings.maxCrashes)]
      ensures |waits| == (if crashed then failures - 1 else failures)
      ensures RightWaits(settings, lives, waits)
      ensures Follow(history, t0, lives, waits)
      ensures Shown(events, |old(events)|, lives, waits)
      ensures crashed ==>
                && |events| == |old(events)| + 2 * failures
                && events[|events| - 2] == (if lives[failures - 1].raised then TaskCrashed(failures) else TaskExited(failures))
                && events[|events| - 1] == CrashLoopDetected(settings.maxCrashes)
      ensures !crashed ==> |events| == |old(events)| + 2 * failures
    {
      hide Trips, WindowStarts, Nondecreasing, From, ComputeDelay, Max, NoneTrips, FailAt, StartAt, FailTimes, RestartEvents, Waits, RightWaits, Follow, Shown;
      NoLivesYet(settings, t0, lives);
      var start := t0;
      failures := 0;
      waits := [];
      while failures < |lives| && !crashed
        invariant Valid() && failures <= |lives|
        invariant running == !crashed
        invariant history == FailTimes(settings, t0, lives, failures)
        invariant !crashed ==> start == StartAt(settings, t0, lives, failures)
        invariant NoneTrips(history, if crashed then failures - 1 else failures, settings)
        invariant crashed ==> 0 < failures && Trips(history, failures - 1, settings.maxCrashes, settings.window)
        invariant crashed ==> |failureTimes| == settings.maxCrashes
        invariant waits == Waits(settings, lives, if crashed then failures - 1 else failures)
        invariant !crashed ==> events == old(events) + RestartEvents(settings, lives, failures)
        invariant crashed ==> events == old(events) + RestartEvents(settings, lives, failures - 1) +
                                        [Ending(lives[failures - 1], failures), CrashLoopDetected(settings.maxCrashes)]
        decreases |lives| - failures
      {
        var life := lives[failures];
        var now := start + life.duration;
        var attempt := failures + 1;
        events := events + [if life.raised then TaskCrashed(attempt) else TaskExited(attempt)];
        NextFailureComesLater(settings, t0, lives, failures);
        OneMoreLife(settings, t0, lives, failures);
        ghost var earlier := history;
        var gaveUp := RegisterFailure(now);
        NoneTripsInLonger(earlier, now, settings);
        failures := failures + 1;
        if !gaveUp {
          var delay := ComputeDelay(settings.algorithm, attempt, settings.initialDelay, settings.maxDelay, life.jitter).value;
          events := events + [TaskRestarting(attempt, delay)];
          waits := waits + [delay];
          start := now + Max(0.0, delay) + life.lag;
        }
      }
      ghost var shown := old(events) + RestartEvents(settings, lives, |waits|);
      assert shown <= events;
      assert shown + events[|shown|..] == events;
      RunIsExact(settings, t0, lives, |waits|, failures, old(events), events[|shown|..]);
    }
  }
}
