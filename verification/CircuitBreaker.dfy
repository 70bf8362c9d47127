/**
 The circuit breaker in front of user-service's Redis.

 `execute` awaits the guarded operation, so each call is two atomic steps: the entry (prune, gate) and
 the exit (success or failure), with any other calls in between. Each step reads the clock once.
 */
module CircuitBreaker {
  import opened Wrappers

  datatype CircuitState = CLOSED | OPEN | HALF_OPEN

  datatype Options = Options(failureThreshold: int, failureWindowMs: int, resetTimeoutMs: int, halfOpenMaxRetries: int)

  /** The breaker's fields, as a value. */
  datatype Breaker = Breaker(
    state: CircuitState,
    failureCount: int,
    lastFailureTime: int,
    lastStateChange: int,
    halfOpenAttempts: int,
    consecutiveSuccesses: int,
    failureTimestamps: seq<int>)

  // ---------------------------------------------------------------- what each step does

  function Transition(b: Breaker, newState: CircuitState, now: int): Breaker {
    var moved := b.(state := newState, lastStateChange := now);
    if newState == CLOSED then
      moved.(failureTimestamps := [], failureCount := 0, halfOpenAttempts := 0, consecutiveSuccesses := 0)
    else moved
  }

  /** The queue without its leading entries older than `cutoff`. */
  function DropLeading(ts: seq<int>, cutoff: int): seq<int> {
    if ts != [] && ts[0] < cutoff then DropLeading(ts[1..], cutoff) else ts
  }

  function Prune(o: Options, b: Breaker, now: int): Breaker {
    var kept := DropLeading(b.failureTimestamps, now - o.failureWindowMs);
    b.(failureTimestamps := kept, failureCount := |kept|)
  }

  /** Entry of `execute`: the new state, and whether the operation is started. */
  function Begin(o: Options, b: Breaker, now: int): (Breaker, bool) {
    var pruned := Prune(o, b, now);
    if pruned.state == OPEN && now - pruned.lastStateChange < o.resetTimeoutMs then (pruned, false)
    else
      var probing := if pruned.state == OPEN then Transition(pruned, HALF_OPEN, now) else pruned;
      if probing.state != HALF_OPEN then (probing, true)
      else if probing.halfOpenAttempts >= o.halfOpenMaxRetries then
        (Transition(probing, OPEN, now).(halfOpenAttempts := 0), false)
      else (probing.(halfOpenAttempts := probing.halfOpenAttempts + 1), true)
  }

  /** Exit of `execute` after the operation resolved. */
  function Succeed(b: Breaker, now: int): Breaker {
    if b.state != HALF_OPEN then b.(failureCount := 0)
    else if b.consecutiveSuccesses + 1 >= 2 then Transition(b, CLOSED, now)
    else b.(consecutiveSuccesses := b.consecutiveSuccesses + 1)
  }

  function RecordFailure(o: Options, b: Breaker, now: int): Breaker {
    var queue := b.failureTimestamps + [now];
    var recorded := b.(failureTimestamps := queue, lastFailureTime := now, failureCount := |queue|);
    if b.state == CLOSED && |queue| >= o.failureThreshold then Transition(recorded, OPEN, now) else recorded
  }

  /** Exit of `execute` after the operation threw. */
  function Fail(o: Options, b: Breaker, now: int): Breaker {
    var recorded := RecordFailure(o, b, now);
    if recorded.state == HALF_OPEN then Transition(recorded, OPEN, now) else recorded
  }

  // ---------------------------------------------------------------- the class

  /** What the caller of `execute` gets: the operation's result or error, the fallback's, or the breaker's own error. */
  datatype Outcome = Operation(ok: bool) | Fallback(ok: bool) | FailedFast

  class Circuit {
    const options: Options
    var state: CircuitState
    var failureCount: int
    var lastFailureTime: int
    var lastStateChange: int
    var halfOpenAttempts: int
    var consecutiveSuccesses: int
    var failureTimestamps: seq<int>

    function View(): Breaker
      reads this
    {
      Breaker(state, failureCount, lastFailureTime, lastStateChange, halfOpenAttempts, consecutiveSuccesses,
        failureTimestamps)
    }

    constructor (options: Options, now: int)
      ensures this.options == options && View() == Breaker(CLOSED, 0, 0, now, 0, 0, [])
    {
      this.options := options;
      state, failureCount, lastFailureTime, lastStateChange := CLOSED, 0, 0, now;
      halfOpenAttempts, consecutiveSuccesses, failureTimestamps := 0, 0, [];
    }

    method TransitionTo(newState: CircuitState, now: int)
      modifies this
      ensures View() == Transition(old(View()), newState, now)
    {
      state := newState;
      lastStateChange := now;
      if newState == CLOSED {
        failureTimestamps := [];
        failureCount := 0;
        halfOpenAttempts := 0;
        consecutiveSuccesses := 0;
      }
    }

    method PruneFailureTimestamps(now: int)
      modifies this
      ensures View() == Prune(options, old(View()), now)
    {
      var cutoff := now - options.failureWindowMs;
      while |failureTimestamps| > 0 && failureTimestamps[0] < cutoff
        invariant View() == old(View()).(failureTimestamps := failureTimestamps)
        invariant DropLeading(failureTimestamps, cutoff) == DropLeading(old(failureTimestamps), cutoff)
        decreases |failureTimestamps|
      {
        failureTimestamps := failureTimestamps[1..];
      }
      failureCount := |failureTimestamps|;
    }

    method Enter(now: int) returns (started: bool)
      modifies this
      ensures (View(), started) == Begin(options, old(View()), now)
    {
      PruneFailureTimestamps(now);
      if state == OPEN {
        if now - lastStateChange >= options.resetTimeoutMs {
          TransitionTo(HALF_OPEN, now);
        } else {
          return false;
        }
      }
      if state == HALF_OPEN {
        if halfOpenAttempts >= options.halfOpenMaxRetries {
          TransitionTo(OPEN, now);
          halfOpenAttempts := 0;
          return false;
        }
        halfOpenAttempts := halfOpenAttempts + 1;
      }
      return true;
    }

    method ExitWithSuccess(now: int)
      modifies this
      ensures View() == Succeed(old(View()), now)
    {
      if state == HALF_OPEN {
        consecutiveSuccesses := consecutiveSuccesses + 1;
        if consecutiveSuccesses >= 2 {
          TransitionTo(CLOSED, now);
          halfOpenAttempts := 0;
          consecutiveSuccesses := 0;
        }
      } else {
        failureCount := 0;
      }
    }

    method RecordFailureAt(now: int)
      modifies this
      ensures View() == RecordFailure(options, old(View()), now)
    {
      failureTimestamps := failureTimestamps + [now];
      lastFailureTime := now;
      failureCount := |failureTimestamps|;
      if state == CLOSED && |failureTimestamps| >= options.failureThreshold {
        TransitionTo(OPEN, now);
      }
    }

    method ExitWithFailure(now: int)
      modifies this
      ensures View() == Fail(options, old(View()), now)
    {
      RecordFailureAt(now);
      if state == HALF_OPEN {
        TransitionTo(OPEN, now);
      }
    }

    method ForceState(newState: CircuitState, now: int)
      modifies this
      ensures View() == Transition(old(View()), newState, now)
    {
      TransitionTo(newState, now);
    }

    /**
     A whole call with nothing else in between. `fallback` is how the caller's fallback ends, if there is one; it
     stands in only for an operation that is not started, never for one that fails.
     */
    method Execute(start: int, operationSucceeds: bool, end: int, fallback: Option<bool>) returns (outcome: Outcome)
      modifies this
      ensures var (entered, started) := Begin(options, old(View()), start);
        if started then
          && outcome == Operation(operationSucceeds)
          && View() == if operationSucceeds then Succeed(entered, end) else Fail(options, entered, end)
        else
          && outcome == (if fallback.Some? then Fallback(fallback.value) else FailedFast)
          && View() == entered
    {
      var started := Enter(start);
      if !started {
        if fallback.Some? {
          return Fallback(fallback.value);
        }
        return FailedFast;
      }
      if operationSucceeds {
        ExitWithSuccess(end);
      } else {
        ExitWithFailure(end);
      }
      return Operation(operationSucceeds);
    }
  }

  // ---------------------------------------------------------------- runs with calls in flight

  datatype Event =
    | Entry(now: int)
    | Resolved(now: int)
    | Threw(now: int)
    | Forced(now: int, to: CircuitState)

  /**
   The breaker with what it does not remember: every failure since the last transition to CLOSED, the
   last entry, the calls in flight, the last transition to OPEN and the operations of this HALF_OPEN stay.
   */
  datatype Machine = Machine(
    b: Breaker,
    failures: seq<int>,
    lastEntry: int,
    clock: int,
    inFlight: nat,
    lastOpened: Option<int>,
    stayStarted: nat)

  function Initial(now: int): Machine {
    Machine(Breaker(CLOSED, 0, 0, now, 0, 0, []), [], now, now, 0, None, 0)
  }

  /** Ghost bookkeeping for a breaker that went from m.b to b' at `now`. */
  function Observe(m: Machine, b': Breaker, now: int, started: bool, reopened: bool): Machine {
    m.(b := b',
       clock := now,
       lastOpened := if b'.state == OPEN && (m.b.state != OPEN || reopened) then Some(now) else m.lastOpened,
       stayStarted := (if m.b.state == HALF_OPEN then m.stayStarted else 0)
                      + (if started && b'.state == HALF_OPEN then 1 else 0))
  }

  function Step(o: Options, m: Machine, e: Event): Machine {
    match e
    case Entry(now) =>
      var (b', started) := Begin(o, m.b, now);
      var reopened := m.b.state == OPEN && now - m.b.lastStateChange >= o.resetTimeoutMs && !started;
      Observe(m, b', now, started, reopened).(lastEntry := now, inFlight := m.inFlight + if started then 1 else 0)
    case Resolved(now) =>
      var b' := Succeed(m.b, now);
      Observe(m, b', now, false, false).(
        failures := if b'.state == CLOSED && m.b.state != CLOSED then [] else m.failures,
        inFlight := if m.inFlight > 0 then m.inFlight - 1 else 0)
    case Threw(now) =>
      Observe(m, Fail(o, m.b, now), now, false, false).(
        failures := m.failures + [now],
        inFlight := if m.inFlight > 0 then m.inFlight - 1 else 0)
    case Forced(now, to) =>
      Observe(m, Transition(m.b, to, now), now, false, true).(
        failures := if to == CLOSED then [] else m.failures)
  }

  function Run(o: Options, start: int, t: Trace<Event>): Machine {
    match t
    case Start => Initial(start)
    case Then(before, e) => Step(o, Run(o, start, before), e)
  }

  /** The clock does not go back, and only a call in flight can exit. */
  ghost predicate Allowed(m: Machine, e: Event) {
    e.now >= m.clock && (e.Resolved? || e.Threw? ==> m.inFlight > 0)
  }

  ghost predicate ValidRun(o: Options, start: int, t: Trace<Event>) {
    t.Then? ==> ValidRun(o, start, t.before) && Allowed(Run(o, start, t.before), t.event)
  }

  ghost predicate Unforced(t: Trace<Event>) {
    t.Then? ==> Unforced(t.before) && !t.event.Forced?
  }

  // ---------------------------------------------------------------- the failure window

  /** Reference: the failures of `ts` at or after `cutoff`, wherever they stand. */
  function Recent(ts: seq<int>, cutoff: int): seq<int> {
    if ts == [] then [] else (if ts[0] >= cutoff then [ts[0]] else []) + Recent(ts[1..], cutoff)
  }

  ghost predicate Sorted(ts: seq<int>) {
    forall i, j :: 0 <= i < j < |ts| ==> ts[i] <= ts[j]
  }

  ghost predicate WindowInv(o: Options, m: Machine) {
    && Sorted(m.failures)
    && (forall i :: 0 <= i < |m.failures| ==> m.failures[i] <= m.clock)
    && m.lastEntry <= m.clock
    && m.b.failureTimestamps == Recent(m.failures, m.lastEntry - o.failureWindowMs)
    && (m.b.state == CLOSED ==> |m.b.failureTimestamps| < o.failureThreshold)
  }

  lemma {:induction false} RecentAll(ts: seq<int>, cutoff: int)
    requires forall i :: 0 <= i < |ts| ==> ts[i] >= cutoff
    ensures Recent(ts, cutoff) == ts
  {
    if ts != [] {
      RecentAll(ts[1..], cutoff);
    }
  }

  /** On a sorted history, shifting old entries off the shorter queue is the same as filtering the whole history. */
  lemma {:induction false} ShiftingIsFiltering(ts: seq<int>, cutoff: int, cutoff': int)
    requires Sorted(ts) && cutoff <= cutoff'
    ensures DropLeading(Recent(ts, cutoff), cutoff') == Recent(ts, cutoff')
  {
    if ts != [] {
      ShiftingIsFiltering(ts[1..], cutoff, cutoff');
      var rest := Recent(ts[1..], cutoff);
      if ts[0] >= cutoff' {
        RecentAll(ts, cutoff);
        RecentAll(ts, cutoff');
      } else {
        assert [] + rest == rest && [] + Recent(ts[1..], cutoff') == Recent(ts[1..], cutoff');
        assert ([ts[0]] + rest)[1..] == rest;
      }
    }
  }

  lemma {:induction false} RecentSnoc(ts: seq<int>, t: int, cutoff: int)
    ensures Recent(ts + [t], cutoff) == Recent(ts, cutoff) + if t >= cutoff then [t] else []
  {
    if ts != [] {
      assert (ts + [t])[1..] == ts[1..] + [t];
      RecentSnoc(ts[1..], t, cutoff);
    }
  }

  lemma {:induction false} RecentLength(ts: seq<int>, cutoff: int, cutoff': int)
    requires Sorted(ts) && cutoff <= cutoff'
    ensures |Recent(ts, cutoff')| <= |Recent(ts, cutoff)|
  {
    if ts != [] {
      RecentLength(ts[1..], cutoff, cutoff');
    }
  }

  lemma EntryKeepsWindow(o: Options, m: Machine, now: int)
    requires o.failureThreshold >= 1 && o.failureWindowMs >= 0 && WindowInv(o, m) && Allowed(m, Entry(now))
    ensures WindowInv(o, Step(o, m, Entry(now)))
    ensures Step(o, m, Entry(now)).b.failureCount == |Step(o, m, Entry(now)).b.failureTimestamps|
  {
    ShiftingIsFiltering(m.failures, m.lastEntry - o.failureWindowMs, now - o.failureWindowMs);
    RecentLength(m.failures, m.lastEntry - o.failureWindowMs, now - o.failureWindowMs);
  }

  lemma SnocSorted(ts: seq<int>, t: int)
    requires Sorted(ts) && forall i :: 0 <= i < |ts| ==> ts[i] <= t
    ensures Sorted(ts + [t]) && forall i :: 0 <= i < |ts| + 1 ==> (ts + [t])[i] <= t
  {
  }

  lemma ThrewKeepsWindow(o: Options, m: Machine, now: int)
    requires o.failureThreshold >= 1 && o.failureWindowMs >= 0 && WindowInv(o, m) && Allowed(m, Threw(now))
    ensures WindowInv(o, Step(o, m, Threw(now)))
    ensures Step(o, m, Threw(now)).b.failureCount == |Step(o, m, Threw(now)).b.failureTimestamps|
  {
    SnocSorted(m.failures, now);
    RecentSnoc(m.failures, now, m.lastEntry - o.failureWindowMs);
  }

  lemma OtherKeepsWindow(o: Options, m: Machine, e: Event)
    requires o.failureThreshold >= 1 && WindowInv(o, m) && Allowed(m, e) && (e.Resolved? || e.Forced?)
    ensures WindowInv(o, Step(o, m, e))
  {
  }

  lemma StepKeepsWindow(o: Options, m: Machine, e: Event)
    requires o.failureThreshold >= 1 && o.failureWindowMs >= 0 && WindowInv(o, m) && Allowed(m, e)
    ensures WindowInv(o, Step(o, m, e))
    ensures e.Entry? || e.Threw? ==> Step(o, m, e).b.failureCount == |Step(o, m, e).b.failureTimestamps|
    ensures Step(o, m, e).b.lastFailureTime == if e.Threw? then e.now else m.b.lastFailureTime
  {
    match e {
      case Entry(now) => EntryKeepsWindow(o, m, now);
      case Threw(now) => ThrewKeepsWindow(o, m, now);
      case _ => OtherKeepsWindow(o, m, e);
    }
  }

  /**
   Window refinement, over every run with any number of calls in flight: the shifted queue is the filter
   of all failures since the last transition to CLOSED, and a CLOSED breaker is below its threshold.
   */
  lemma {:induction false} QueueIsTheFilteredHistory(o: Options, start: int, t: Trace<Event>)
    requires o.failureThreshold >= 1 && o.failureWindowMs >= 0 && ValidRun(o, start, t)
    ensures WindowInv(o, Run(o, start, t))
  {
    if t.Then? {
      QueueIsTheFilteredHistory(o, start, t.before);
      StepKeepsWindow(o, Run(o, start, t.before), t.event);
    }
  }

  /** A CLOSED breaker starts every operation and opens exactly on the failure that fills the reference window. */
  lemma TripsExactlyAtThreshold(o: Options, start: int, t: Trace<Event>, e: Event)
    requires o.failureThreshold >= 1 && o.failureWindowMs >= 0 && ValidRun(o, start, Then(t, e)) && !e.Forced?
    requires Run(o, start, t).b.state == CLOSED
    ensures var m, m' := Run(o, start, t), Run(o, start, Then(t, e));
      && m'.b.state in {CLOSED, OPEN}
      && (m'.b.state == OPEN <==>
          e.Threw? && |Recent(m.failures + [e.now], m.lastEntry - o.failureWindowMs)| >= o.failureThreshold)
      && (e.Entry? ==> m'.inFlight == m.inFlight + 1)
  {
    var m := Run(o, start, t);
    QueueIsTheFilteredHistory(o, start, t);
    RecentSnoc(m.failures, e.now, m.lastEntry - o.failureWindowMs);
  }

  // ---------------------------------------------------------------- gating and recovery

  ghost predicate GateInv(o: Options, m: Machine) {
    && 0 <= m.b.halfOpenAttempts <= o.halfOpenMaxRetries
    && 0 <= m.b.consecutiveSuccesses <= 1
    && m.b.lastStateChange <= m.clock
    && (m.b.state == CLOSED ==> m.b.halfOpenAttempts == 0 && m.b.consecutiveSuccesses == 0)
    && (m.b.state == HALF_OPEN ==> m.stayStarted <= m.b.halfOpenAttempts)
    && (m.b.state == OPEN ==> m.lastOpened == Some(m.b.lastStateChange))
    && (m.b.state != OPEN && m.lastOpened.Some? ==> m.clock >= m.lastOpened.value + o.resetTimeoutMs)
  }

  lemma StepKeepsGate(o: Options, m: Machine, e: Event)
    requires o.halfOpenMaxRetries >= 0 && o.resetTimeoutMs >= 0 && GateInv(o, m) && Allowed(m, e) && !e.Forced?
    ensures GateInv(o, Step(o, m, e))
  {
  }

  lemma {:induction false} RunKeepsGate(o: Options, start: int, t: Trace<Event>)
    requires o.halfOpenMaxRetries >= 0 && o.resetTimeoutMs >= 0 && ValidRun(o, start, t) && Unforced(t)
    ensures GateInv(o, Run(o, start, t))
  {
    if t.Then? {
      RunKeepsGate(o, start, t.before);
      StepKeepsGate(o, Run(o, start, t.before), t.event);
    }
  }

  /** No operation starts before the reset timeout has passed since the last transition to OPEN. */
  lemma NoOperationBeforeReset(o: Options, start: int, t: Trace<Event>, now: int)
    requires o.halfOpenMaxRetries >= 0 && o.resetTimeoutMs >= 0
    requires ValidRun(o, start, Then(t, Entry(now))) && Unforced(t)
    requires Run(o, start, Then(t, Entry(now))).inFlight > Run(o, start, t).inFlight
    ensures var last := Run(o, start, t).lastOpened; last.Some? ==> now >= last.value + o.resetTimeoutMs
  {
    RunKeepsGate(o, start, t);
  }

  /** A stay in HALF_OPEN starts at most `halfOpenMaxRetries` operations, with any calls still in flight. */
  lemma HalfOpenBudget(o: Options, start: int, t: Trace<Event>)
    requires o.halfOpenMaxRetries >= 0 && o.resetTimeoutMs >= 0 && ValidRun(o, start, t) && Unforced(t)
    ensures Run(o, start, t).b.state == HALF_OPEN ==> Run(o, start, t).stayStarted <= o.halfOpenMaxRetries
  {
    RunKeepsGate(o, start, t);
  }

  // ---------------------------------------------------------------- failed probes

  /**
   A failure counts at once towards the threshold of a CLOSED breaker, opens a HALF_OPEN one again, and moves an
   OPEN one not at all: its reset timeout goes on from where it was.
   */
  ghost predicate FailureMoves(o: Options, m: Machine, now: int, m': Machine) {
    && m'.b.lastFailureTime == now
    && m'.b.halfOpenAttempts == m.b.halfOpenAttempts && m'.b.consecutiveSuccesses == m.b.consecutiveSuccesses
    && match m.b.state
       case CLOSED =>
         if |m.b.failureTimestamps| + 1 >= o.failureThreshold then m'.b.state == OPEN && m'.b.lastStateChange == now
         else m'.b.state == CLOSED && m'.b.lastStateChange == m.b.lastStateChange
       case HALF_OPEN => m'.b.state == OPEN && m'.b.lastStateChange == now && m'.lastOpened == Some(now)
       case OPEN =>
         && m'.b.state == OPEN && m'.b.lastStateChange == m.b.lastStateChange
         && m'.lastOpened == m.lastOpened
  }

  lemma FailureMeaning(o: Options, start: int, t: Trace<Event>, now: int)
    ensures FailureMoves(o, Run(o, start, t), now, Run(o, start, Then(t, Threw(now))))
  {
  }

  /** t' continues t without `forceState`. */
  ghost predicate ContinuesUnforced(t: Trace<Event>, t': Trace<Event>) {
    t' == t || (t'.Then? && !t'.event.Forced? && ContinuesUnforced(t, t'.before))
  }

  /** The breaker went OPEN at shutAt, and again since or else its reset timeout has passed. */
  ghost predicate OpenedAt(o: Options, m: Machine, shutAt: int) {
    && shutAt <= m.clock
    && if m.b.state == OPEN then shutAt <= m.b.lastStateChange else shutAt + o.resetTimeoutMs <= m.clock
  }

  lemma StaysOpenedAt(o: Options, m: Machine, e: Event, shutAt: int)
    requires OpenedAt(o, m, shutAt) && Allowed(m, e) && !e.Forced?
    ensures OpenedAt(o, Step(o, m, e), shutAt)
  {
  }

  lemma {:induction false} ContinuationOpenedAt(o: Options, start: int, t: Trace<Event>, t': Trace<Event>, shutAt: int)
    requires ValidRun(o, start, t') && ContinuesUnforced(t, t') && OpenedAt(o, Run(o, start, t), shutAt)
    ensures OpenedAt(o, Run(o, start, t'), shutAt)
  {
    if t' != t {
      ContinuationOpenedAt(o, start, t, t'.before, shutAt);
      StaysOpenedAt(o, Run(o, start, t'.before), t'.event, shutAt);
    }
  }

  /** An entry starts an operation of an OPEN breaker only after the reset timeout. */
  lemma StartsAfterReset(o: Options, m: Machine, now: int, shutAt: int)
    requires OpenedAt(o, m, shutAt) && Allowed(m, Entry(now)) && Step(o, m, Entry(now)).inFlight > m.inFlight
    ensures now >= shutAt + o.resetTimeoutMs
  {
  }

  /**
   A failed probe shuts the breaker: whatever else is in flight, and whatever `forceState` did before, no operation
   starts within resetTimeoutMs of a failure met in HALF_OPEN, unless the state is forced.
   */
  lemma FailedProbeShuts(o: Options, start: int, t: Trace<Event>, now: int, t': Trace<Event>, later: int)
    requires Run(o, start, t).b.state == HALF_OPEN && ContinuesUnforced(Then(t, Threw(now)), t')
    requires ValidRun(o, start, Then(t', Entry(later)))
    requires Run(o, start, Then(t', Entry(later))).inFlight > Run(o, start, t').inFlight
    ensures later >= now + o.resetTimeoutMs
  {
    FailureMeaning(o, start, t, now);
    assert OpenedAt(o, Run(o, start, Then(t, Threw(now))), now);
    ContinuationOpenedAt(o, start, Then(t, Threw(now)), t', now);
    StartsAfterReset(o, Run(o, start, t'), later, now);
  }

  /** The breaker is HALF_OPEN from t to t'. */
  ghost predicate OneStay(o: Options, start: int, t: Trace<Event>, t': Trace<Event>) {
    && Run(o, start, t').b.state == HALF_OPEN
    && (t' == t || (t'.Then? && !t'.event.Forced? && OneStay(o, start, t, t'.before)))
  }

  /** Operations started from t to t'. */
  ghost function Started(o: Options, start: int, t: Trace<Event>, t': Trace<Event>): nat {
    if t' == t || t'.Start? then 0
    else
      Started(o, start, t, t'.before)
      + if Run(o, start, t').inFlight > Run(o, start, t'.before).inFlight then 1 else 0
  }

  /** Within a stay, `stayStarted` counts every operation that is started; a stay begins with none or its first. */
  lemma {:induction false} StaysCountStarts(o: Options, start: int, t: Trace<Event>, t': Trace<Event>)
    requires OneStay(o, start, t, t')
    ensures Run(o, start, t').stayStarted == Run(o, start, t).stayStarted + Started(o, start, t, t')
    ensures t.Then? && Run(o, start, t.before).b.state != HALF_OPEN ==>
        Run(o, start, t).stayStarted == Started(o, start, t.before, t)
  {
    if t' != t {
      StaysCountStarts(o, start, t, t'.before);
    }
  }

  ghost predicate NoFailure(t: Trace<Event>, t': Trace<Event>) {
    t' == t || (t'.Then? && !t'.event.Threw? && NoFailure(t, t'.before))
  }

  /** A stay in HALF_OPEN ends at its first failure. */
  lemma {:induction false} StaysEndAtTheFirstFailure(o: Options, start: int, t: Trace<Event>, t': Trace<Event>)
    requires OneStay(o, start, t, t')
    ensures NoFailure(t, t') && Run(o, start, t').b.lastStateChange == Run(o, start, t).b.lastStateChange
  {
    if t' != t {
      StaysEndAtTheFirstFailure(o, start, t, t'.before);
    }
  }

  /** Every transition an unforced step can make, and when. */
  ghost predicate Transitions(o: Options, m: Machine, e: Event, m': Machine) {
    var elapsed := e.now - m.b.lastStateChange >= o.resetTimeoutMs;
    var spent := m.b.halfOpenAttempts >= o.halfOpenMaxRetries;
    && (m.b.state == OPEN && e.Entry? && elapsed ==> m'.b.state == if spent then OPEN else HALF_OPEN)
    && (m.b.state == HALF_OPEN && e.Entry? ==> m'.b.state == if spent then OPEN else HALF_OPEN)
    && (m.b.state == HALF_OPEN && e.Resolved? ==>
          m'.b.state == if m.b.consecutiveSuccesses >= 1 then CLOSED else HALF_OPEN)
    && (m.b.state == OPEN && (!e.Entry? || !elapsed) ==> m'.b.state == OPEN)
    && (e.Resolved? ==>
          m'.b.failureCount == if m.b.state == m'.b.state == HALF_OPEN then m.b.failureCount else 0)
    && (m.b.state == CLOSED && !e.Threw? ==> m'.b.state == CLOSED)
    && (m'.b.lastStateChange == if m'.b.state != m.b.state || (m.b.state == OPEN && e.Entry? && elapsed) then e.now
                                else m.b.lastStateChange)
  }

  lemma TransitionsAreThese(o: Options, start: int, t: Trace<Event>, e: Event)
    requires !e.Forced?
    ensures Transitions(o, Run(o, start, t), e, Run(o, start, Then(t, e)))
  {
  }

  // ---------------------------------------------------------------- recovery of a healthy dependency

  /** A call made and finished before the next one starts. */
  datatype Call = Call(start: int, end: int)

  /** What a serial run spent while the breaker was not CLOSED. */
  datatype Tally = Tally(effective: nat, waits: nat, started: nat)

  /** A call that is not failed fast. */
  predicate Ready(o: Options, b: Breaker, now: int) {
    b.state != OPEN || now - b.lastStateChange >= o.resetTimeoutMs
  }

  function SerialSuccess(o: Options, b: Breaker, call: Call): Breaker {
    var (entered, started) := Begin(o, b, call.start);
    if started then Succeed(entered, call.end) else entered
  }

  function Spend(o: Options, b: Breaker, call: Call, tally: Tally): Tally {
    if b.state == CLOSED || !Ready(o, b, call.start) then tally
    else Tally(tally.effective + 1,
               tally.waits + (if b.state == OPEN then 1 else 0),
               tally.started + (if Begin(o, b, call.start).1 then 1 else 0))
  }

  function Recover(o: Options, b: Breaker, t: Trace<Call>): (Breaker, Tally) {
    match t
    case Start => (b, Tally(0, 0, 0))
    case Then(before, call) =>
      var (b', tally) := Recover(o, b, before);
      (SerialSuccess(o, b', call), Spend(o, b', call, tally))
  }

  ghost predicate Counters(o: Options, b: Breaker) {
    && o.halfOpenMaxRetries >= 1
    && 0 <= b.halfOpenAttempts <= o.halfOpenMaxRetries
    && 0 <= b.consecutiveSuccesses <= 1
  }

  /** What it still takes to reach CLOSED, given the counters carried over from earlier probes. */
  function Remaining(o: Options, b: Breaker): Tally
    requires Counters(o, b)
  {
    if b.state == CLOSED then Tally(0, 0, 0)
    else if b.halfOpenAttempts >= o.halfOpenMaxRetries then
      // the next effective call only opens the breaker again, with a fresh budget
      Tally(1 + (if b.consecutiveSuccesses == 0 && o.halfOpenMaxRetries == 1 then 3 else 2 - b.consecutiveSuccesses),
            (if b.state == OPEN then 2 else 1)
            + (if b.consecutiveSuccesses == 0 && o.halfOpenMaxRetries == 1 then 1 else 0),
            2 - b.consecutiveSuccesses)
    else
      var budgetEnds := b.consecutiveSuccesses == 0 && b.halfOpenAttempts + 1 == o.halfOpenMaxRetries;
      Tally(2 - b.consecutiveSuccesses + (if budgetEnds then 1 else 0),
            (if b.state == OPEN then 1 else 0) + (if budgetEnds then 1 else 0),
            2 - b.consecutiveSuccesses)
  }

  lemma AddTally(o: Options, b: Breaker, call: Call, tally: Tally)
    ensures var one, sum := Spend(o, b, call, Tally(0, 0, 0)), Spend(o, b, call, tally);
      && sum == Tally(tally.effective + one.effective, tally.waits + one.waits, tally.started + one.started)
  {
  }

  /** One serial successful call moves exactly what it spends. */
  lemma CallSpendsItsShare(o: Options, b: Breaker, call: Call)
    requires Counters(o, b)
    ensures var b', one := SerialSuccess(o, b, call), Spend(o, b, call, Tally(0, 0, 0));
      && Counters(o, b')
      && (b.state == CLOSED ==> b'.state == CLOSED)
      && one.effective + Remaining(o, b').effective == Remaining(o, b).effective
      && one.waits + Remaining(o, b').waits == Remaining(o, b).waits
      && one.started + Remaining(o, b').started == Remaining(o, b).started
  {
  }

  lemma {:induction false} RecoveryAccounting(o: Options, b: Breaker, t: Trace<Call>)
    requires Counters(o, b) && b.state != CLOSED
    ensures var (b', spent) := Recover(o, b, t);
      && Counters(o, b')
      && spent.effective + Remaining(o, b').effective == Remaining(o, b).effective
      && spent.waits + Remaining(o, b').waits == Remaining(o, b).waits
      && spent.started + Remaining(o, b').started == Remaining(o, b).started
  {
    if t.Then? {
      RecoveryAccounting(o, b, t.before);
      CallSpendsItsShare(o, Recover(o, b, t.before).0, t.event);
      AddTally(o, Recover(o, b, t.before).0, t.event, Recover(o, b, t.before).1);
    }
  }

  /**
   Recovery: from any counters, a run of serial successful calls, some perhaps failed fast, has closed the
   breaker exactly when it has made as many effective calls as remained. With at least two probes per
   stay that is at most three calls, two reset waits and two operations.
   */
  lemma Recovery(o: Options, b: Breaker, t: Trace<Call>)
    requires Counters(o, b) && b.state != CLOSED
    ensures var (b', spent) := Recover(o, b, t);
      && (b'.state == CLOSED <==> spent.effective == Remaining(o, b).effective)
      && spent.started <= 2
      && (o.halfOpenMaxRetries >= 2 ==> Remaining(o, b).effective <= 3 && spent.waits <= 2)
  {
    RecoveryAccounting(o, b, t);
  }

  /**
   Two waits are enough from every state except one: a single-probe budget that is already spent, with no success
   carried.
   */
  lemma TwoWaitsExactlyUnless(o: Options, b: Breaker)
    requires Counters(o, b) && b.state != CLOSED
    ensures Remaining(o, b).waits <= 2 <==>
      !(o.halfOpenMaxRetries == 1 && b.state == OPEN && b.halfOpenAttempts == 1 && b.consecutiveSuccesses == 0)
  {
  }
}
