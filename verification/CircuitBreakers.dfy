/** The circuit breaker: its transitions on values, and the object that performs them. */
module CircuitBreakers {
  import opened Options

  datatype CircuitState = Closed | Open | HalfOpen

  datatype Settings = Settings(failureThreshold: int, recoveryTimeout: real)

  predicate Acceptable(s: Settings) {
    1 <= s.failureThreshold && 0.0 <= s.recoveryTimeout
  }

  /** The fields of a breaker. The monotonic reading only matters while the state is Open. */
  datatype Circuit = Circuit(
    state: CircuitState,
    failureCount: nat,
    openedAtMonotonic: real,
    openedAtWallclock: Option<real>,
    halfOpenInFlight: bool)

  const FRESH := Circuit(Closed, 0, 0.0, None, false)

  /** The persisted record of one breaker. */
  datatype Saved = Saved(state: CircuitState, failureCount: nat, openedAt: Option<real>)

  function Snapshot(c: Circuit): Saved {
    Saved(c.state, c.failureCount, c.openedAtWallclock)
  }

  predicate Admits(s: Settings, c: Circuit, mono: real) {
    match c.state
    case Closed => true
    case Open => s.recoveryTimeout <= mono - c.openedAtMonotonic
    case HalfOpen => !c.halfOpenInFlight
  }

  /** An admission while not Closed is the trial of a half-open episode. */
  function Admitted(c: Circuit): Circuit {
    if c.state == Closed then c else c.(state := HalfOpen, halfOpenInFlight := true)
  }

  function Succeeded(c: Circuit): Circuit {
    FRESH
  }

  function Failed(s: Settings, c: Circuit, mono: real, wall: real): Circuit {
    var counted := c.(failureCount := c.failureCount + 1, halfOpenInFlight := false);
    if c.state == HalfOpen || counted.failureCount >= s.failureThreshold
    then counted.(state := Open, openedAtMonotonic := mono, openedAtWallclock := Some(wall))
    else counted
  }

  /** What restore() makes of a fresh breaker. */
  function Restored(s: Settings, saved: Option<Saved>, mono: real, wall: real): Circuit {
    match saved
    case None => FRESH
    case Some(record) =>
      var c := FRESH.(failureCount := record.failureCount);
      if record.state == Open && record.openedAt.Some? then
        var elapsed := wall - record.openedAt.value;
        if s.recoveryTimeout <= elapsed then c.(state := HalfOpen)
        else c.(state := Open, openedAtMonotonic := mono - elapsed, openedAtWallclock := record.openedAt)
      else c
  }

  /** A breaker rebuilt from what was last persisted shows the same count and, for one call at any later time,
      takes the same decision, when both clocks have advanced alike since the circuit opened. */
  lemma RestoreUndoesPersist(s: Settings, c: Circuit, mono: real, wall: real, later: real)
    requires Acceptable(s) && c.state != HalfOpen && !c.halfOpenInFlight && mono <= later
    requires if c.state == Open then c.openedAtWallclock == Some(c.openedAtMonotonic + (wall - mono)) else c.openedAtWallclock == None
    ensures var r := Restored(s, Some(Snapshot(c)), mono, wall);
            && r.failureCount == c.failureCount && !r.halfOpenInFlight
            && (Admits(s, r, later) <==> Admits(s, c, later))
            && (r.state == Closed <==> c.state == Closed)
            && (r.state == Open ==> r == c)
            && (r.state == HalfOpen ==> c.state == Open && Admits(s, c, mono))
  {}

  class CircuitBreakerStore {
    var saved: map<string, Saved>

    constructor ()
      ensures saved == map[]
    {
      saved := map[];
    }
  }

  datatype CallResult = Rejected | Returned | Raised

  class CircuitBreaker {
    const settings: Settings
    const name: string
    const store: CircuitBreakerStore?
    var state: CircuitState
    var failureCount: nat
    var openedAtMonotonic: real
    var openedAtWallclock: Option<real>
    var halfOpenInFlight: bool

    function Value(): Circuit
      reads this
    {
      Circuit(state, failureCount, openedAtMonotonic, openedAtWallclock, halfOpenInFlight)
    }

    function Record(): Option<Saved>
      reads this, store
    {
      if store != null && name in store.saved then Some(store.saved[name]) else None
    }

    constructor (settings: Settings, name: string, store: CircuitBreakerStore?)
      requires Acceptable(settings)
      ensures this.settings == settings && this.name == name && this.store == store
      ensures Value() == FRESH
    {
      this.settings := settings;
      this.name := name;
      this.store := store;
      state := Closed;
      failureCount := 0;
      openedAtMonotonic := 0.0;
      openedAtWallclock := None;
      halfOpenInFlight := false;
    }

    method Restore(mono: real, wall: real)
      requires Value() == FRESH
      modifies this
      ensures Value() == Restored(settings, Record(), mono, wall)
    {
      if store == null || name !in store.saved {
        return;
      }
      var record := store.saved[name];
      failureCount := record.failureCount;
      if record.state == Open && record.openedAt.Some? {
        var elapsed := wall - record.openedAt.value;
        if elapsed >= settings.recoveryTimeout {
          state := HalfOpen;
        } else {
          state := Open;
          openedAtMonotonic := mono - elapsed;
          openedAtWallclock := record.openedAt;
        }
      }
    }

    method BeforeCall(mono: real) returns (admitted: bool)
      modifies this
      ensures admitted <==> Admits(settings, old(Value()), mono)
      ensures Value() == if admitted then Admitted(old(Value())) else old(Value())
    {
      if state == Closed {
        return true;
      }
      if state == Open {
        if mono - openedAtMonotonic < settings.recoveryTimeout {
          return false;
        }
        state := HalfOpen;
        halfOpenInFlight := true;
        return true;
      }
      if halfOpenInFlight {
        return false;
      }
      halfOpenInFlight := true;
      return true;
    }

    method OnSuccess()
      modifies this, store
      ensures Value() == Succeeded(old(Value()))
      ensures state == Closed && failureCount == 0 && !halfOpenInFlight && openedAtWallclock == None
      ensures store != null ==> store.saved == old(store.saved)[name := Snapshot(Value())]
    {
      failureCount := 0;
      halfOpenInFlight := false;
      state := Closed;
      openedAtMonotonic := 0.0;
      openedAtWallclock := None;
      Persist();
    }

    method OnFailure(mono: real, wall: real)
      modifies this, store
      ensures Value() == Failed(settings, old(Value()), mono, wall)
      ensures failureCount == old(failureCount) + 1 && !halfOpenInFlight
      ensures if old(state) == HalfOpen || settings.failureThreshold <= failureCount
              then state == Open && openedAtMonotonic == mono && openedAtWallclock == Some(wall)
              else state == old(state) && openedAtMonotonic == old(openedAtMonotonic) && openedAtWallclock == old(openedAtWallclock)
      ensures store != null ==> store.saved == old(store.saved)[name := Snapshot(Value())]
    {
      failureCount := failureCount + 1;
      var wasHalfOpen := state == HalfOpen;
      halfOpenInFlight := false;
      if wasHalfOpen || failureCount >= settings.failureThreshold {
        state := Open;
        openedAtMonotonic := mono;
        openedAtWallclock := Some(wall);
      }
      Persist();
    }

    method Persist()
      modifies store
      ensures store != null ==> store.saved == old(store.saved)[name := Snapshot(Value())]
      ensures store != null ==> Record() == Some(Snapshot(Value()))
      ensures store != null ==> forall other :: other in old(store.saved) && other != name ==>
                                  other in store.saved && store.saved[other] == old(store.saved)[other]
    {
      if store != null {
        store.saved := store.saved[name := Snapshot(Value())];
      }
    }

    /** One call with no other in flight; `raises` is how the awaited function ends. */
    method Call(raises: bool, arrival: real, mono: real, wall: real) returns (r: CallResult)
      modifies this, store
      ensures r == Rejected <==> !Admits(settings, old(Value()), arrival)
      ensures r == Rejected ==> Value() == old(Value()) && Record() == old(Record())
      ensures r == Returned ==> !raises && Value() == Succeeded(Admitted(old(Value())))
      ensures r == Raised ==> raises && Value() == Failed(settings, Admitted(old(Value())), mono, wall)
      ensures r != Rejected && store != null ==> Record() == Some(Snapshot(Value()))
    {
      var admitted := BeforeCall(arrival);
      if !admitted {
        return Rejected;
      }
      if raises {
        OnFailure(mono, wall);
        return Raised;
      }
      OnSuccess();
      return Returned;
    }
  }
}
