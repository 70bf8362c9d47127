/**
 The notification pipeline: a Kafka delivery claims the event's log row, sends the email through rate limiter,
 circuit breaker and retry loop, and records SENT, FAILED or DLQ. Kafka may deliver an event any number of
 times; the process may crash at any await, and every database write may be refused, or take effect and
 yet be reported as failed.
 */
module Notification {
  import opened Wrappers

  const MAX_RETRIES: nat := 3

  datatype Status = Pending | Sent | Failed | Dlq

  /** A row of notification_logs. */
  datatype Row = Row(status: Status, attemptCount: nat, maxRetries: nat)

  predicate Terminal(status: Status) {
    status.Sent? || status.Dlq?
  }

  // ---------------------------------------------------------------- retry with backoff

  /** What one provider call comes to. */
  datatype Outcome = Delivered | Retryable | Permanent

  datatype BackoffOptions = BackoffOptions(baseDelayMs: real, maxDelayMs: real, maxAttempts: int)

  function Pow2(n: nat): nat {
    if n == 0 then 1 else 2 * Pow2(n - 1)
  }

  /** `base * 2 ** n`, by doubling. */
  function Doubled(base: real, n: nat): real {
    if n == 0 then base else 2.0 * Doubled(base, n - 1)
  }

  lemma {:induction false} DoubledIsPower(base: real, n: nat)
    ensures Doubled(base, n) == base * Pow2(n) as real
  {
    if n == 0 {
    } else {
      DoubledIsPower(base, n - 1);
      assert Pow2(n) as real == 2.0 * Pow2(n - 1) as real;
    }
  }

  function DelayCap(o: BackoffOptions, attempt: nat): real {
    var exponential := Doubled(o.baseDelayMs, attempt);
    if exponential < o.maxDelayMs then exponential else o.maxDelayMs
  }

  lemma {:induction false} CapIsBounded(o: BackoffOptions, attempt: nat)
    requires 0.0 <= o.baseDelayMs && 0.0 <= o.maxDelayMs
    ensures 0.0 <= Doubled(o.baseDelayMs, attempt)
    ensures 0.0 <= DelayCap(o, attempt) <= o.maxDelayMs && DelayCap(o, attempt) <= Doubled(o.baseDelayMs, attempt)
    ensures DelayCap(o, attempt) in {o.maxDelayMs, Doubled(o.baseDelayMs, attempt)}
  {
    if attempt != 0 {
      CapIsBounded(o, attempt - 1);
    }
  }

  lemma NoNegativeProduct(x: real, y: real)
    requires 0.0 <= x && 0.0 <= y
    ensures 0.0 <= x * y
  {
  }

  function ScaledDown(jitter: real, cap: real): (delay: real)
    requires 0.0 <= jitter < 1.0 && 0.0 <= cap
    ensures 0.0 <= delay <= cap
  {
    NoNegativeProduct(jitter, cap);
    NoNegativeProduct(1.0 - jitter, cap);
    jitter * cap
  }

  /** `calculateBackoff`; jitter is what Math.random() gave. */
  function CalculateBackoff(o: BackoffOptions, attempt: nat, jitter: real): (delay: real)
    requires 0.0 <= jitter < 1.0 && 0.0 <= o.baseDelayMs && 0.0 <= o.maxDelayMs
    ensures 0.0 <= delay <= DelayCap(o, attempt)
  {
    CapIsBounded(o, attempt);
    ScaledDown(jitter, DelayCap(o, attempt))
  }

  lemma Share(part: real, whole: real, share: real)
    requires 0.0 < whole
    ensures share * whole == part <==> share == part / whole
  {
    assert part / whole * whole == part;
    if share * whole == part {
      assert (share - part / whole) * whole == 0.0;
    }
  }

  /** Full jitter: every delay below the cap comes of exactly one jitter, its share of the cap. */
  lemma JitterIsFull(o: BackoffOptions, attempt: nat, delay: real, jitter: real)
    requires 0.0 <= o.baseDelayMs && 0.0 <= o.maxDelayMs && 0.0 <= delay < DelayCap(o, attempt)
    requires 0.0 <= jitter < 1.0
    ensures CalculateBackoff(o, attempt, jitter) == delay <==> jitter == delay / DelayCap(o, attempt)
  {
    Share(delay, DelayCap(o, attempt), jitter);
  }

  /** How long the first n sleeps take together. */
  function Slept(o: BackoffOptions, jitter: nat -> real, n: nat): real
    requires 0.0 <= o.baseDelayMs && 0.0 <= o.maxDelayMs && forall i :: 0.0 <= jitter(i) < 1.0
  {
    if n == 0 then 0.0 else Slept(o, jitter, n - 1) + CalculateBackoff(o, n - 1, jitter(n - 1))
  }

  /** The most that the first n sleeps can take together. */
  function SleepCap(o: BackoffOptions, n: nat): real {
    if n == 0 then 0.0 else SleepCap(o, n - 1) + DelayCap(o, n - 1)
  }

  /** All sleeps together stay below the geometric sum, and below maxDelayMs each. */
  lemma {:induction false} SleepIsBounded(o: BackoffOptions, n: nat)
    requires 0.0 <= o.baseDelayMs && 0.0 <= o.maxDelayMs
    ensures 0.0 <= SleepCap(o, n) <= Doubled(o.baseDelayMs, n) - o.baseDelayMs
    ensures SleepCap(o, n) <= o.maxDelayMs * n as real
  {
    if n == 0 {
    } else {
      SleepIsBounded(o, n - 1);
      CapIsBounded(o, n - 1);
      assert o.maxDelayMs * (n - 1) as real + o.maxDelayMs == o.maxDelayMs * n as real;
    }
  }

  lemma {:induction false} SleptWithin(o: BackoffOptions, jitter: nat -> real, n: nat)
    requires 0.0 <= o.baseDelayMs && 0.0 <= o.maxDelayMs && forall i :: 0.0 <= jitter(i) < 1.0
    ensures 0.0 <= Slept(o, jitter, n) <= SleepCap(o, n)
  {
    if n != 0 {
      SleptWithin(o, jitter, n - 1);
    }
  }

  /** The retry loop from `attempt` on: was it delivered, and how many calls were made. */
  function Retry(provider: nat -> Outcome, attempt: nat, maxAttempts: int): (result: (bool, nat))
    ensures result.1 <= if attempt < maxAttempts then maxAttempts - attempt else 0
    decreases maxAttempts - attempt
  {
    if maxAttempts <= attempt then (false, 0)
    else
      match provider(attempt)
      case Delivered => (true, 1)
      case Permanent => (false, 1)
      case Retryable =>
        if attempt == maxAttempts - 1 then (false, 1)
        else
          var (sent, calls) := Retry(provider, attempt + 1, maxAttempts);
          (sent, 1 + calls)
  }

  /** The loop goes on over retryable errors only, and stops at a delivery, a permanent error or the last attempt. */
  lemma {:induction false} RetryMeaning(provider: nat -> Outcome, attempt: nat, maxAttempts: int)
    requires attempt < maxAttempts
    ensures var (sent, calls) := Retry(provider, attempt, maxAttempts);
      && 1 <= calls <= maxAttempts - attempt
      && (forall i: nat :: attempt <= i < attempt + calls - 1 ==> provider(i) == Retryable)
      && (sent <==> provider(attempt + calls - 1) == Delivered)
      && (provider(attempt + calls - 1) == Retryable ==> attempt + calls == maxAttempts)
    decreases maxAttempts - attempt
  {
    if provider(attempt) == Retryable && attempt < maxAttempts - 1 {
      RetryMeaning(provider, attempt + 1, maxAttempts);
    }
  }

  /** `retryWithBackoff`: never more than maxAttempts calls, with one sleep of its backoff between each two. */
  method RetryWithBackoff(provider: nat -> Outcome, o: BackoffOptions, jitter: nat -> real)
      returns (sent: bool, calls: nat, slept: real)
    requires 0.0 <= o.baseDelayMs && 0.0 <= o.maxDelayMs && forall i :: 0.0 <= jitter(i) < 1.0
    ensures (sent, calls) == Retry(provider, 0, o.maxAttempts)
    ensures var sleeps := if calls == 0 then 0 else calls - 1;
      slept == Slept(o, jitter, sleeps) && 0.0 <= slept <= SleepCap(o, sleeps)
  {
    var attempt := 0;
    slept := 0.0;
    while attempt < o.maxAttempts
      invariant 0 <= attempt && (attempt == 0 || attempt < o.maxAttempts)
      invariant slept == Slept(o, jitter, attempt)
      invariant Retry(provider, 0, o.maxAttempts).0 == Retry(provider, attempt, o.maxAttempts).0
      invariant Retry(provider, 0, o.maxAttempts).1 == attempt + Retry(provider, attempt, o.maxAttempts).1
      decreases o.maxAttempts - attempt
    {
      var outcome := provider(attempt);
      SleptWithin(o, jitter, attempt);
      if outcome.Delivered? {
        return true, attempt + 1, slept;
      }
      var isLastAttempt := attempt == o.maxAttempts - 1;
      if !outcome.Retryable? || isLastAttempt {
        return false, attempt + 1, slept;
      }
      slept := slept + CalculateBackoff(o, attempt, jitter(attempt));
      attempt := attempt + 1;
    }
    return false, 0, 0.0;
  }

  // ---------------------------------------------------------------- one undisturbed delivery

  datatype Limiter = Allowed | Exceeded | Broken

  /** What the collaborators do during one delivery. */
  datatype World = World(limiter: Limiter, renders: bool, breakerOpen: bool, provider: nat -> Outcome)

  datatype Answer = AnswerSent | SkippedUnhandled | SkippedDuplicate | AnswerFailed(routedToDlq: bool)

  /** Was the email sent, and with how many provider calls. */
  function Send(w: World, maxAttempts: int): (bool, nat) {
    if !w.limiter.Allowed? || !w.renders || w.breakerOpen then (false, 0) else Retry(w.provider, 0, maxAttempts)
  }

  function Claimed(row: Option<Row>): Row {
    if row.Some? then row.value else Row(Pending, 0, MAX_RETRIES)
  }

  /** One more failure on the row: FAILED, or DLQ once the retries are used up. */
  function AfterFailure(row: Row): Row {
    var attemptCount := row.attemptCount + 1;
    row.(attemptCount := attemptCount, status := if attemptCount >= row.maxRetries then Dlq else Failed)
  }

  function Delivery(row: Option<Row>, w: World, maxAttempts: int): (Row, Answer, nat) {
    var claimed := Claimed(row);
    if Terminal(claimed.status) then (claimed, SkippedDuplicate, 0)
    else
      var (sent, calls) := Send(w, maxAttempts);
      if sent then (claimed.(status := Sent), AnswerSent, calls)
      else (AfterFailure(claimed), AnswerFailed(AfterFailure(claimed).status.Dlq?), calls)
  }

  predicate LetsThrough(w: World) {
    w.limiter.Allowed? && w.renders && !w.breakerOpen
  }

  /** Some attempt delivers, after errors that may be retried only. */
  ghost predicate Delivers(provider: nat -> Outcome, maxAttempts: int) {
    exists k: nat :: k < maxAttempts && provider(k) == Delivered && forall i: nat :: i < k ==> provider(i) == Retryable
  }

  /** Calls go on over retryable errors, and stop at the first other outcome or with the last attempt. */
  ghost predicate CallsMade(provider: nat -> Outcome, maxAttempts: int, calls: nat) {
    if maxAttempts <= 0 then calls == 0
    else
      && 1 <= calls <= maxAttempts
      && (forall i: nat :: i < calls - 1 ==> provider(i) == Retryable)
      && (provider(calls - 1) == Retryable ==> calls == maxAttempts)
  }

  /**
   What a delivery must answer and leave, given the row it finds and what its collaborators do: a SENT or DLQ row is
   skipped untouched; otherwise the email is sent exactly if all let it through and an attempt delivers, and failing
   costs one attempt and routes to the DLQ exactly if that was the last.
   */
  ghost predicate Answers(row: Option<Row>, w: World, maxAttempts: int, row': Row, answer: Answer, calls: nat) {
    var found := if row.Some? then row.value else Row(Pending, 0, MAX_RETRIES);
    if found.status in {Sent, Dlq} then answer == SkippedDuplicate && row' == found && calls == 0
    else
      && (if LetsThrough(w) then CallsMade(w.provider, maxAttempts, calls) else calls == 0)
      && if LetsThrough(w) && Delivers(w.provider, maxAttempts) then
           answer == AnswerSent && row' == Row(Sent, found.attemptCount, found.maxRetries)
         else
           var last := found.attemptCount + 1 >= found.maxRetries;
           && answer == AnswerFailed(last)
           && row' == Row(if last then Dlq else Failed, found.attemptCount + 1, found.maxRetries)
  }

  lemma RetryDelivers(provider: nat -> Outcome, maxAttempts: int)
    ensures Retry(provider, 0, maxAttempts).0 <==> Delivers(provider, maxAttempts)
    ensures CallsMade(provider, maxAttempts, Retry(provider, 0, maxAttempts).1)
  {
    if 0 < maxAttempts {
      RetryMeaning(provider, 0, maxAttempts);
      var last := Retry(provider, 0, maxAttempts).1 - 1;
      if Delivers(provider, maxAttempts) {
        var k: nat :|
          k < maxAttempts && provider(k) == Delivered && forall i: nat :: i < k ==> provider(i) == Retryable;
        assert k == last;
      }
    }
  }

  lemma DeliveryMeaning(row: Option<Row>, w: World, maxAttempts: int)
    ensures var (row', answer, calls) := Delivery(row, w, maxAttempts);
      Answers(row, w, maxAttempts, row', answer, calls)
  {
    RetryDelivers(w.provider, maxAttempts);
  }

  class NotificationService {
    const backoffOptions: BackoffOptions
    var log: map<nat, Row>

    constructor (backoffOptions: BackoffOptions)
      ensures this.backoffOptions == backoffOptions && log == map[]
    {
      this.backoffOptions := backoffOptions;
      log := map[];
    }

    function Find(event: nat): Option<Row>
      reads this
    {
      if event in log then Some(log[event]) else None
    }

    /** The insert-or-reclaim claim; false is a duplicate. */
    method ClaimNotification(event: nat) returns (claimed: bool)
      modifies this
      ensures log == old(log)[event := Claimed(old(Find(event)))]
      ensures claimed <==> !Terminal(log[event].status)
    {
      if event !in log {
        log := log[event := Row(Pending, 0, MAX_RETRIES)];
        return true;
      }
      assert log == log[event := log[event]];
      var existing := log[event].status;
      return existing != Sent && existing != Dlq;
    }

    method MarkAsSent(event: nat)
      requires event in log
      modifies this
      ensures log == old(log)[event := old(log)[event].(status := Sent)]
    {
      log := log[event := log[event].(status := Sent)];
    }

    method MarkAsFailed(event: nat) returns (attemptCount: nat, maxRetries: nat)
      requires event in log
      modifies this
      ensures log ==
          old(log)[event := old(log)[event].(status := Failed, attemptCount := old(log)[event].attemptCount + 1)]
      ensures attemptCount == log[event].attemptCount && maxRetries == log[event].maxRetries
    {
      log := log[event := log[event].(status := Failed, attemptCount := log[event].attemptCount + 1)];
      return log[event].attemptCount, log[event].maxRetries;
    }

    method RouteToDlq(event: nat)
      requires event in log
      modifies this
      ensures log == old(log)[event := old(log)[event].(status := Dlq)]
    {
      log := log[event := log[event].(status := Dlq)];
    }

    /** `processEvent` when nothing fails but the send; `calls` counts provider calls. */
    method ProcessEvent(event: nat, handled: bool, w: World, jitter: nat -> real) returns (answer: Answer, calls: nat)
      requires 0.0 <= backoffOptions.baseDelayMs && 0.0 <= backoffOptions.maxDelayMs
      requires forall i :: 0.0 <= jitter(i) < 1.0
      modifies this
      ensures !handled ==> answer == SkippedUnhandled && calls == 0 && log == old(log)
      ensures handled ==> event in log && log == old(log)[event := log[event]]
      ensures handled ==> (log[event], answer, calls) == Delivery(old(Find(event)), w, backoffOptions.maxAttempts)
      ensures handled ==>
          Answers(old(Find(event)), w, backoffOptions.maxAttempts, log[event], answer, calls)
    {
      DeliveryMeaning(Find(event), w, backoffOptions.maxAttempts);
      if !handled {
        return SkippedUnhandled, 0;
      }
      var claimed := ClaimNotification(event);
      if !claimed {
        return SkippedDuplicate, 0;
      }
      calls := 0;
      var sent := false;
      if w.limiter == Exceeded {
        var attemptCount, maxRetries := MarkAsFailed(event);
        var routedToDlq := attemptCount >= maxRetries;
        if routedToDlq {
          RouteToDlq(event);
        }
        return AnswerFailed(routedToDlq), 0;
      }
      if w.limiter == Allowed && w.renders && !w.breakerOpen {
        var slept;
        sent, calls, slept := RetryWithBackoff(w.provider, backoffOptions, jitter);
      }
      if sent {
        MarkAsSent(event);
        return AnswerSent, calls;
      }
      var attemptCount, maxRetries := MarkAsFailed(event);
      var routedToDlq := attemptCount >= maxRetries;
      if routedToDlq {
        RouteToDlq(event);
      }
      return AnswerFailed(routedToDlq), calls;
    }
  }

  // ---------------------------------------------------------------- deliveries step by step

  /**
   Which await the delivery in hand stands at; `limited` failures are those of the rate-limit branch, inside the try.
   */
  datatype Stage =
    | Idle
    | Claiming
    | Limiting
    | Rendering
    | Admitting
    | Sending(attempt: nat)
    | MarkingSent
    | MarkingFailed(limited: bool)
    | Routing(limited: bool)
    | Announcing

  /** What becomes of a database write: done, done but reported as failed, or refused. */
  datatype Write = Done | DoneButFailed | Refused

  /**
   What crashes and failed database writes have cost: delivered emails that no SENT row stands for, rounds of
   sending that no failure was counted for, routings to the DLQ cut short, failures counted but reported as
   not counted, dead letters never published, SENT or DLQ writes reported as failed to a delivery that then goes
   on; `total` counts every crash and failed write.
   */
  datatype Losses = Losses(sends: nat, rounds: nat, routes: nat, marks: nat, news: nat, terminals: nat, total: nat)

  /**
   One event's deliveries; `successes` counts provider calls that delivered, `announced` dead-letter publish attempts.
   `answer` is what the last delivery returned, None if it is not through, crashed or threw.
   */
  datatype Machine = Machine(row: Option<Row>, stage: Stage, answer: Option<Answer>, calls: nat, successes: nat,
    announced: nat, lost: Losses)

  datatype Event =
    | Deliver
    | Claim(write: Write)
    | Limit(limiter: Limiter)
    | Render(ok: bool)
    | Admit(breakerOpen: bool)
    | Call(outcome: Outcome)
    | RecordSent(write: Write)
    | RecordFailure(write: Write)
    | Route(write: Write)
    | Announce
    | Crash

  function One(b: bool): nat {
    if b then 1 else 0
  }

  predicate Is(m: Machine, status: Status) {
    m.row.Some? && m.row.value.status == status
  }

  /** One crash or failed write more, and what else it cost. */
  function Disturbed(m: Machine, stage: Stage, lost: Losses): Machine {
    m.(stage := stage, lost := lost.(total := lost.total + 1))
  }

  function OnClaim(m: Machine, write: Write): Machine {
    var claimed := Claimed(m.row);
    match write
    case Done =>
      if Terminal(claimed.status) then m.(row := Some(claimed), stage := Idle, answer := Some(SkippedDuplicate))
      else m.(row := Some(claimed), stage := Limiting)
    case DoneButFailed => Disturbed(m.(row := Some(claimed)), Idle, m.lost)
    case Refused => Disturbed(m, Idle, m.lost)
  }

  function OnCall(m: Machine, attempt: nat, maxAttempts: int, outcome: Outcome): Machine {
    var m' := m.(calls := m.calls + 1);
    match outcome
    case Delivered => m'.(stage := MarkingSent, successes := m.successes + 1)
    case Permanent => m'.(stage := MarkingFailed(false))
    case Retryable => m'.(stage := if attempt == maxAttempts - 1 then MarkingFailed(false) else Sending(attempt + 1))
  }

  /** A failed `markAsSent` goes to the catch, whether it took effect or not. */
  function OnRecordSent(m: Machine, row: Row, write: Write): Machine {
    var sent := m.(row := Some(row.(status := Sent)));
    match write
    case Done => sent.(stage := Idle, answer := Some(AnswerSent))
    case DoneButFailed => Disturbed(sent, MarkingFailed(false), m.lost.(terminals := m.lost.terminals + 1))
    case Refused => Disturbed(m, MarkingFailed(false), m.lost.(sends := m.lost.sends + 1))
  }

  /** The unguarded update of `markAsFailed`, over whatever status the row has. */
  function Failing(m: Machine, row: Row): Machine {
    m.(row := Some(row.(status := Failed, attemptCount := row.attemptCount + 1)),
       lost := m.lost.(sends := m.lost.sends + One(row.status.Sent?)))
  }

  /** A failure of `markAsFailed` in the rate-limit branch goes to the catch; in the catch it ends the delivery. */
  function OnRecordFailure(m: Machine, row: Row, limited: bool, write: Write): Machine {
    var failed := Failing(m, row);
    match write
    case Done =>
      if row.attemptCount + 1 >= row.maxRetries then failed.(stage := Routing(limited))
      else failed.(stage := Idle, answer := Some(AnswerFailed(false)))
    case DoneButFailed =>
      Disturbed(failed, if limited then MarkingFailed(false) else Idle, failed.lost.(marks := failed.lost.marks + 1))
    case Refused =>
      if limited then Disturbed(m, MarkingFailed(false), m.lost)
      else Disturbed(m, Idle, m.lost.(rounds := m.lost.rounds + 1, news := m.lost.news + One(row.status.Dlq?)))
  }

  function OnRoute(m: Machine, row: Row, limited: bool, write: Write): Machine {
    var routed := m.(row := Some(row.(status := Dlq)));
    var cut := m.lost.(routes := m.lost.routes + 1);
    match write
    case Done => routed.(stage := Announcing)
    case DoneButFailed =>
      if limited then Disturbed(routed, MarkingFailed(false), cut.(terminals := cut.terminals + 1))
      else Disturbed(routed, Idle, cut.(news := cut.news + 1))
    case Refused => Disturbed(m, if limited then MarkingFailed(false) else Idle, cut)
  }

  function OnCrash(m: Machine): Machine {
    match m.stage
    case Idle => m
    case Sending(_) => Disturbed(m, Idle, m.lost.(rounds := m.lost.rounds + 1))
    case MarkingSent => Disturbed(m, Idle, m.lost.(sends := m.lost.sends + 1, rounds := m.lost.rounds + 1))
    case MarkingFailed(_) => Disturbed(m, Idle,
        m.lost.(rounds := m.lost.rounds + 1, news := m.lost.news + One(Is(m, Dlq))))
    case Routing(_) => Disturbed(m, Idle, m.lost.(routes := m.lost.routes + 1))
    case Announcing => Disturbed(m, Idle, m.lost.(news := m.lost.news + 1))
    case _ => Disturbed(m, Idle, m.lost)
  }

  /** An event that the stage is not ready for changes nothing. */
  function Step(maxAttempts: int, m: Machine, e: Event): Machine {
    match (m.stage, e)
    case (Idle, Deliver) => m.(stage := Claiming, answer := None)
    case (Claiming, Claim(write)) => OnClaim(m, write)
    case (Limiting, Limit(limiter)) =>
      m.(stage := match limiter
           case Allowed => Rendering
           case Exceeded => MarkingFailed(true)
           case Broken => MarkingFailed(false))
    case (Rendering, Render(ok)) => m.(stage := if ok then Admitting else MarkingFailed(false))
    case (Admitting, Admit(breakerOpen)) =>
      m.(stage := if breakerOpen || maxAttempts <= 0 then MarkingFailed(false) else Sending(0))
    case (Sending(attempt), Call(outcome)) => OnCall(m, attempt, maxAttempts, outcome)
    case (MarkingSent, RecordSent(write)) => if m.row.Some? then OnRecordSent(m, m.row.value, write) else m
    case (MarkingFailed(limited), RecordFailure(write)) =>
      if m.row.Some? then OnRecordFailure(m, m.row.value, limited, write) else m
    case (Routing(limited), Route(write)) => if m.row.Some? then OnRoute(m, m.row.value, limited, write) else m
    case (Announcing, Announce) =>
      m.(announced := m.announced + 1, stage := Idle, answer := Some(AnswerFailed(true)))
    case (_, Crash) => OnCrash(m)
    case _ => m
  }

  function Run(maxAttempts: int, t: Trace<Event>): Machine {
    match t
    case Start => Machine(None, Idle, None, 0, 0, 0, Losses(0, 0, 0, 0, 0, 0, 0))
    case Then(before, e) => Step(maxAttempts, Run(maxAttempts, before), e)
  }

  // ---------------------------------------------------------------- the invariants

  /** A SENT or DLQ row is worked on no more, except by a delivery that was told its write had failed. */
  ghost predicate StageInv(maxAttempts: int, m: Machine) {
    && (m.row.Some? ==> m.row.value.maxRetries == MAX_RETRIES)
    && (m.row.None? ==> m.stage.Idle? || m.stage.Claiming?)
    && (Is(m, Sent) ==> m.stage.Idle? || m.stage.Claiming? || m.stage == MarkingFailed(false))
    && (Is(m, Dlq) ==> m.stage.Idle? || m.stage.Claiming? || m.stage.Announcing? || m.stage == MarkingFailed(false))
    && ((Is(m, Sent) || Is(m, Dlq)) && m.stage.MarkingFailed? ==> 0 < m.lost.terminals)
    && (m.stage.Announcing? ==> Is(m, Dlq))
    && (m.stage.Routing? ==> Is(m, Failed))
    && (m.stage.Sending? ==> m.stage.attempt < maxAttempts)
  }

  /**
   Every delivered email has its SENT row, is about to get it, or is lost; every DLQ row likewise has its dead letter.
   */
  ghost predicate LedgerInv(m: Machine) {
    && m.successes == One(Is(m, Sent)) + One(m.stage.MarkingSent?) + m.lost.sends
    && m.announced + One(m.stage.Announcing?) + One(Is(m, Dlq) && m.stage.MarkingFailed?) + m.lost.news ==
        One(Is(m, Dlq))
  }

  ghost predicate LossesInv(m: Machine) {
    && m.lost.sends + One(Is(m, Sent) && m.stage.MarkingFailed?) <= m.lost.total
    && m.lost.rounds + m.lost.routes + m.lost.marks <= m.lost.total
    && m.lost.news <= m.lost.total && m.lost.terminals <= m.lost.total
  }

  /** Attempts beyond maxRetries that lost routings and lost replies to `markAsFailed` allow. */
  function Stretch(m: Machine): nat {
    m.lost.routes + m.lost.marks
  }

  ghost predicate RetriesInv(m: Machine) {
    m.row.Some? ==>
      var a := m.row.value.attemptCount;
      && a <= MAX_RETRIES + Stretch(m)
      && (Is(m, Dlq) || m.stage.Routing? ==> MAX_RETRIES <= a)
      && ((!Is(m, Dlq) && !m.stage.Routing?) || m.stage.MarkingFailed? ==> a < MAX_RETRIES + Stretch(m))
  }

  /** Provider calls of the delivery in hand that are not yet paid for by a failure, a success or a loss. */
  function Debt(m: Machine, maxAttempts: int): int {
    match m.stage
    case Sending(attempt) => attempt
    case MarkingSent => maxAttempts
    case MarkingFailed(limited) => if limited || maxAttempts <= 0 || Is(m, Sent) || Is(m, Dlq) then 0 else maxAttempts
    case _ => 0
  }

  /** Rounds of sending that are over. */
  function Rounds(m: Machine): nat {
    (if m.row.Some? then m.row.value.attemptCount else 0) + One(Is(m, Sent)) + m.lost.rounds
  }

  /** n * r, by repeated addition. */
  function Times(n: nat, r: nat): nat {
    if r == 0 then 0 else Times(n, r - 1) + n
  }

  lemma {:induction false} TimesIsProduct(n: nat, r: nat)
    ensures Times(n, r) == n * r
  {
    if r == 0 {
    } else {
      TimesIsProduct(n, r - 1);
      assert n * (r - 1) + n == n * r;
    }
  }

  ghost predicate CallsInv(maxAttempts: int, m: Machine) {
    && (maxAttempts <= 0 ==> m.calls == 0 && !m.stage.MarkingSent?)
    && (0 <= maxAttempts ==> m.calls <= Times(maxAttempts, Rounds(m)) + Debt(m, maxAttempts))
  }

  ghost predicate Inv(maxAttempts: int, m: Machine) {
    StageInv(maxAttempts, m) && LedgerInv(m) && LossesInv(m) && RetriesInv(m) && CallsInv(maxAttempts, m)
  }

  lemma {:induction false} MoreRounds(n: nat, r: nat, r': nat)
    requires r <= r'
    ensures Times(n, r) <= Times(n, r') && (r < r' ==> Times(n, r) + n <= Times(n, r'))
  {
    if r < r' {
      MoreRounds(n, r, r' - 1);
    }
  }

  lemma StepKeepsStage(maxAttempts: int, m: Machine, e: Event)
    requires StageInv(maxAttempts, m)
    ensures StageInv(maxAttempts, Step(maxAttempts, m, e))
  {
  }

  lemma StepKeepsLedger(maxAttempts: int, m: Machine, e: Event)
    requires StageInv(maxAttempts, m) && LedgerInv(m)
    ensures LedgerInv(Step(maxAttempts, m, e))
  {
  }

  lemma StepKeepsLosses(maxAttempts: int, m: Machine, e: Event)
    requires StageInv(maxAttempts, m) && LossesInv(m)
    ensures LossesInv(Step(maxAttempts, m, e))
  {
  }

  lemma StepKeepsRetries(maxAttempts: int, m: Machine, e: Event)
    requires StageInv(maxAttempts, m) && RetriesInv(m)
    ensures RetriesInv(Step(maxAttempts, m, e))
  {
  }

  lemma StepKeepsCalls(maxAttempts: int, m: Machine, e: Event)
    requires StageInv(maxAttempts, m) && CallsInv(maxAttempts, m)
    ensures CallsInv(maxAttempts, Step(maxAttempts, m, e))
  {
    if 0 <= maxAttempts {
      MoreRounds(maxAttempts, Rounds(m), Rounds(Step(maxAttempts, m, e)));
    }
  }

  lemma {:induction false} RunKeepsInv(maxAttempts: int, t: Trace<Event>)
    ensures Inv(maxAttempts, Run(maxAttempts, t))
  {
    if t.Then? {
      RunKeepsInv(maxAttempts, t.before);
      StepKeepsStage(maxAttempts, Run(maxAttempts, t.before), t.event);
      StepKeepsLedger(maxAttempts, Run(maxAttempts, t.before), t.event);
      StepKeepsLosses(maxAttempts, Run(maxAttempts, t.before), t.event);
      StepKeepsRetries(maxAttempts, Run(maxAttempts, t.before), t.event);
      StepKeepsCalls(maxAttempts, Run(maxAttempts, t.before), t.event);
    }
  }

  // ---------------------------------------------------------------- what holds in every run

  /** The row never changes again, nor is the provider called. */
  ghost predicate Final(maxAttempts: int, t: Trace<Event>) {
    forall t' :: Continues(t, t') ==>
      && Run(maxAttempts, t').row == Run(maxAttempts, t).row
      && Run(maxAttempts, t').calls == Run(maxAttempts, t).calls
  }

  lemma OverwritesTerminal(maxAttempts: int, m: Machine)
    requires (Is(m, Sent) || Is(m, Dlq)) && m.stage.MarkingFailed?
    ensures Step(maxAttempts, m, RecordFailure(Done)).row != m.row
  {
  }

  ghost predicate TerminalAtRest(m: Machine) {
    (Is(m, Sent) || Is(m, Dlq)) && !m.stage.MarkingFailed?
  }

  lemma TerminalStays(maxAttempts: int, m: Machine, e: Event)
    requires StageInv(maxAttempts, m) && TerminalAtRest(m)
    ensures var m' := Step(maxAttempts, m, e); TerminalAtRest(m') && m'.row == m.row && m'.calls == m.calls
  {
  }

  lemma {:induction false} RestingTerminalIsFinal(maxAttempts: int, t: Trace<Event>, t': Trace<Event>)
    requires Continues(t, t') && TerminalAtRest(Run(maxAttempts, t))
    ensures TerminalAtRest(Run(maxAttempts, t'))
    ensures Run(maxAttempts, t').row == Run(maxAttempts, t).row
        && Run(maxAttempts, t').calls == Run(maxAttempts, t).calls
  {
    if t' != t {
      RestingTerminalIsFinal(maxAttempts, t, t'.before);
      RunKeepsInv(maxAttempts, t'.before);
      TerminalStays(maxAttempts, Run(maxAttempts, t'.before), t'.event);
    }
  }

  /**
   SENT and DLQ are absorbing exactly when no delivery is about to write FAILED over them. Such a delivery is one
   whose `markAsSent`, or whose DLQ update after a rate-limit failure, took effect and was reported as failed:
   with none of those in the run, both are absorbing whatever crashes or fails.
   */
  lemma TerminalIsFinalExactly(maxAttempts: int, t: Trace<Event>)
    requires Is(Run(maxAttempts, t), Sent) || Is(Run(maxAttempts, t), Dlq)
    ensures Final(maxAttempts, t) <==> !Run(maxAttempts, t).stage.MarkingFailed?
    ensures Run(maxAttempts, t).stage.MarkingFailed? ==> 0 < Run(maxAttempts, t).lost.terminals
  {
    RunKeepsInv(maxAttempts, t);
    var m := Run(maxAttempts, t);
    if m.stage.MarkingFailed? {
      var t' := Then(t, RecordFailure(Done));
      assert Continues(t, t') && Run(maxAttempts, t') == Step(maxAttempts, m, RecordFailure(Done));
      OverwritesTerminal(maxAttempts, m);
    } else {
      forall t' | Continues(t, t')
        ensures Run(maxAttempts, t').row == m.row && Run(maxAttempts, t').calls == m.calls
      {
        RestingTerminalIsFinal(maxAttempts, t, t');
      }
    }
  }

  /**
   Send accounting. With no crash and no failed write, SENT means exactly one delivered email and anything else
   none; with them, one more for each success whose SENT was refused, cut off or written over, and no other.
   */
  ghost predicate SendsAccounted(m: Machine) {
    && m.successes == One(Is(m, Sent)) + One(m.stage.MarkingSent?) + m.lost.sends
    && (m.lost.total == 0 ==> m.successes <= 1 && (Is(m, Sent) <==> m.successes == 1 && !m.stage.MarkingSent?))
  }

  /** A row in DLQ had its dead letter published once, or is about to, or a failure swallowed it; no other row had. */
  ghost predicate DeadLettersAccounted(m: Machine) {
    && (!m.stage.MarkingFailed? ==> m.announced + One(m.stage.Announcing?) + m.lost.news == One(Is(m, Dlq)))
    && m.announced <= One(Is(m, Dlq))
    && (m.lost.total == 0 && m.stage.Idle? ==> m.announced == One(Is(m, Dlq)))
  }

  lemma LedgerMeaning(maxAttempts: int, m: Machine)
    requires StageInv(maxAttempts, m) && LedgerInv(m) && LossesInv(m)
    ensures SendsAccounted(m) && DeadLettersAccounted(m)
  {
  }

  lemma SendAccounting(maxAttempts: int, t: Trace<Event>)
    ensures SendsAccounted(Run(maxAttempts, t))
  {
    RunKeepsInv(maxAttempts, t);
    LedgerMeaning(maxAttempts, Run(maxAttempts, t));
  }

  lemma DeadLetterOnce(maxAttempts: int, t: Trace<Event>)
    ensures DeadLettersAccounted(Run(maxAttempts, t))
  {
    RunKeepsInv(maxAttempts, t);
    LedgerMeaning(maxAttempts, Run(maxAttempts, t));
  }

  /**
   Retry budget. FAILED holds fewer than maxRetries attempts except while it is being routed to the DLQ;
   DLQ holds exactly maxRetries. A routing cut short, or a failure counted but reported as not counted, stretches
   either by one each; nothing else does. A claimed row that nothing disturbed never rests at PENDING.
   */
  ghost predicate WithinBudget(m: Machine) {
    m.row.Some? ==>
      var a := m.row.value.attemptCount;
      && a <= MAX_RETRIES + Stretch(m)
      && (Is(m, Dlq) ==> MAX_RETRIES <= a)
      && (Is(m, Failed) && Stretch(m) == 0 ==> (a < MAX_RETRIES <==> !m.stage.Routing?))
      && (Is(m, Dlq) && Stretch(m) == 0 ==> a == MAX_RETRIES)
      && (m.lost.total == 0 && m.stage.Idle? ==>
            !Is(m, Pending) && (Is(m, Failed) ==> a < MAX_RETRIES) && (Is(m, Dlq) ==> a == MAX_RETRIES))
  }

  ghost predicate NoRest(m: Machine) {
    m.lost.total == 0 && (m.stage.Idle? || m.stage.Claiming? || m.stage.Routing? || m.stage.Announcing?) ==>
      !Is(m, Pending)
  }

  lemma {:induction false} NothingPending(maxAttempts: int, t: Trace<Event>)
    ensures NoRest(Run(maxAttempts, t))
  {
    if t.Then? {
      NothingPending(maxAttempts, t.before);
    }
  }

  lemma BudgetMeaning(maxAttempts: int, m: Machine)
    requires StageInv(maxAttempts, m) && LossesInv(m) && RetriesInv(m) && NoRest(m)
    ensures WithinBudget(m)
  {
  }

  lemma RetryBudget(maxAttempts: int, t: Trace<Event>)
    ensures WithinBudget(Run(maxAttempts, t))
  {
    RunKeepsInv(maxAttempts, t);
    NothingPending(maxAttempts, t);
    BudgetMeaning(maxAttempts, Run(maxAttempts, t));
  }

  /**
   The provider is never called more than maxAttempts times for each of maxRetries rounds, plus one round for each
   disturbance.
   */
  ghost predicate CallsWithin(maxAttempts: int, m: Machine) {
    && (maxAttempts <= 0 ==> m.calls == 0)
    && (0 < maxAttempts ==> m.calls <= maxAttempts * (MAX_RETRIES + m.lost.total))
    && (0 < maxAttempts && m.lost.total == 0 ==> m.calls <= MAX_RETRIES * maxAttempts)
  }

  lemma CallsMeaning(maxAttempts: int, m: Machine)
    requires Inv(maxAttempts, m)
    ensures CallsWithin(maxAttempts, m)
  {
    if 0 < maxAttempts {
      var rounds := MAX_RETRIES + m.lost.total;
      assert m.calls <= Times(maxAttempts, rounds) by {
        MoreRounds(maxAttempts, Rounds(m), rounds);
      }
      TimesIsProduct(maxAttempts, rounds);
    }
  }

  lemma CallsBounded(maxAttempts: int, t: Trace<Event>)
    ensures CallsWithin(maxAttempts, Run(maxAttempts, t))
  {
    RunKeepsInv(maxAttempts, t);
    CallsMeaning(maxAttempts, Run(maxAttempts, t));
  }

  /**
   What a delivery has answered is what the row says, and stays so until the next delivery; a delivery that nothing
   disturbed has answered when it ends.
   */
  ghost predicate AnswersTrue(m: Machine) {
    && (m.answer.Some? ==> m.stage.Idle? && m.row.Some?)
    && (m.answer == Some(AnswerSent) ==> Is(m, Sent))
    && (m.answer == Some(SkippedDuplicate) ==> Is(m, Sent) || Is(m, Dlq))
    && (m.answer == Some(AnswerFailed(true)) ==> Is(m, Dlq))
    && (m.answer == Some(AnswerFailed(false)) ==> Is(m, Failed) && m.row.value.attemptCount < m.row.value.maxRetries)
    && (m.lost.total == 0 && m.stage.Idle? && m.row.Some? ==> m.answer.Some?)
  }

  lemma StepAnswersTrue(maxAttempts: int, m: Machine, e: Event)
    requires StageInv(maxAttempts, m) && AnswersTrue(m)
    ensures AnswersTrue(Step(maxAttempts, m, e))
  {
  }

  lemma {:induction false} AnswersAreTrue(maxAttempts: int, t: Trace<Event>)
    ensures AnswersTrue(Run(maxAttempts, t))
  {
    if t.Then? {
      AnswersAreTrue(maxAttempts, t.before);
      RunKeepsInv(maxAttempts, t.before);
      StepAnswersTrue(maxAttempts, Run(maxAttempts, t.before), t.event);
    }
  }

  // ---------------------------------------------------------------- the undisturbed delivery

  /** The first n calls of a provider. */
  function Calling(t: Trace<Event>, provider: nat -> Outcome, n: nat): Trace<Event> {
    if n == 0 then t else Then(Calling(t, provider, n - 1), Call(provider(n - 1)))
  }

  function UpToSend(t: Trace<Event>, w: World): Trace<Event> {
    Then(Then(Then(Then(Then(t, Deliver), Claim(Done)), Limit(w.limiter)), Render(w.renders)), Admit(w.breakerOpen))
  }

  function Recording(t: Trace<Event>): Trace<Event> {
    Then(Then(Then(Then(t, RecordSent(Done)), RecordFailure(Done)), Route(Done)), Announce)
  }

  /** All awaits of one delivery in order; those its path does not reach change nothing. */
  function DeliveryAlone(t: Trace<Event>, w: World, maxAttempts: int): Trace<Event> {
    Recording(Calling(UpToSend(t, w), w.provider, if 0 < maxAttempts then maxAttempts else 0))
  }

  lemma ReachesSend(maxAttempts: int, t: Trace<Event>, w: World)
    requires Run(maxAttempts, t).stage.Idle?
    ensures var m, claimed := Run(maxAttempts, t), Claimed(Run(maxAttempts, t).row);
      Run(maxAttempts, UpToSend(t, w)) == m.(row := Some(claimed),
        answer := if Terminal(claimed.status) then Some(SkippedDuplicate) else None,
        stage := if Terminal(claimed.status) then Idle
        else if w.limiter.Exceeded? then MarkingFailed(true)
        else if !w.limiter.Allowed? || !w.renders || w.breakerOpen || maxAttempts <= 0 then MarkingFailed(false)
        else Sending(0))
  {
    var m := Run(maxAttempts, t);
    var claimed := Claimed(m.row);
    var t1 := Then(Then(t, Deliver), Claim(Done));
    var answer := if Terminal(claimed.status) then Some(SkippedDuplicate) else None;
    assert Run(maxAttempts, t1) ==
        m.(row := Some(claimed), answer := answer, stage := if Terminal(claimed.status) then Idle else Limiting);
    var t2 := Then(Then(t1, Limit(w.limiter)), Render(w.renders));
    assert Run(maxAttempts, t2) == m.(row := Some(claimed), answer := answer, stage :=
      if Terminal(claimed.status) then Idle
      else if w.limiter.Exceeded? then MarkingFailed(true)
      else if !w.limiter.Allowed? || !w.renders then MarkingFailed(false)
      else Admitting);
  }

  /** Before the last call the loop is at its n-th attempt. */
  lemma {:induction false} EarlyCallsAlone(maxAttempts: int, t: Trace<Event>, provider: nat -> Outcome, n: nat)
    requires Run(maxAttempts, t).stage == Sending(0) && 0 < maxAttempts && n < Retry(provider, 0, maxAttempts).1
    ensures Run(maxAttempts, Calling(t, provider, n)) ==
      Run(maxAttempts, t).(calls := Run(maxAttempts, t).calls + n, stage := Sending(n))
  {
    if n != 0 {
      EarlyCallsAlone(maxAttempts, t, provider, n - 1);
      RetryMeaning(provider, 0, maxAttempts);
      assert provider(n - 1) == Retryable;
    }
  }

  lemma CallEnds(m: Machine, maxAttempts: int, attempt: nat, outcome: Outcome)
    requires m.stage == Sending(attempt) && (outcome.Retryable? ==> attempt == maxAttempts - 1)
    ensures Step(maxAttempts, m, Call(outcome)) ==
      m.(calls := m.calls + 1, successes := m.successes + One(outcome.Delivered?),
         stage := if outcome.Delivered? then MarkingSent else MarkingFailed(false))
  {
  }

  /** The last call ends it as `Retry` says. */
  lemma LastCallAlone(maxAttempts: int, t: Trace<Event>, provider: nat -> Outcome)
    requires Run(maxAttempts, t).stage == Sending(0) && 0 < maxAttempts
    ensures var m := Run(maxAttempts, t);
      var (sent, calls) := Retry(provider, 0, maxAttempts);
      Run(maxAttempts, Calling(t, provider, calls)) ==
        m.(calls := m.calls + calls,
           successes := m.successes + One(sent),
           stage := if sent then MarkingSent else MarkingFailed(false))
  {
    var last := Retry(provider, 0, maxAttempts).1 - 1;
    RetryMeaning(provider, 0, maxAttempts);
    EarlyCallsAlone(maxAttempts, t, provider, last);
    CallEnds(Run(maxAttempts, Calling(t, provider, last)), maxAttempts, last, provider(last));
  }

  /** Once the loop has ended, further outcomes of the provider change nothing. */
  lemma {:induction false} CallsAlone(maxAttempts: int, t: Trace<Event>, provider: nat -> Outcome, k: nat, n: nat)
    requires k <= n && !Run(maxAttempts, Calling(t, provider, k)).stage.Sending?
    ensures Run(maxAttempts, Calling(t, provider, n)) == Run(maxAttempts, Calling(t, provider, k))
  {
    if k < n {
      CallsAlone(maxAttempts, t, provider, k, n - 1);
    }
  }

  lemma RecordsAlone(maxAttempts: int, t: Trace<Event>)
    requires var m := Run(maxAttempts, t);
      m.row.Some? && (m.stage.Idle? || m.stage.MarkingSent?
        || (m.stage.MarkingFailed? && !Terminal(m.row.value.status)))
    ensures var m, m' := Run(maxAttempts, t), Run(maxAttempts, Recording(t));
      && (m.stage.Idle? ==> m' == m)
      && (m.stage.MarkingSent? ==>
            m' == m.(row := Some(m.row.value.(status := Sent)), stage := Idle, answer := Some(AnswerSent)))
      && (m.stage.MarkingFailed? ==>
            var failed := AfterFailure(m.row.value);
            m' == m.(row := Some(failed), stage := Idle, answer := Some(AnswerFailed(failed.status.Dlq?)),
                     announced := m.announced + One(failed.status.Dlq?)))
  {
    var m := Run(maxAttempts, t);
    var t2 := Then(Then(t, RecordSent(Done)), RecordFailure(Done));
    var failed := m.row.value.(status := Failed, attemptCount := m.row.value.attemptCount + 1);
    assert Run(maxAttempts, t2) ==
      if m.stage.MarkingFailed? then
        if failed.attemptCount >= failed.maxRetries then m.(row := Some(failed), stage := Routing(m.stage.limited))
        else m.(row := Some(failed), stage := Idle, answer := Some(AnswerFailed(false)))
      else if m.stage.MarkingSent? then
        m.(row := Some(m.row.value.(status := Sent)), stage := Idle, answer := Some(AnswerSent))
      else m;
  }

  /** Run without interference, a delivery is the method's: same row, same answer, same number of provider calls. */
  lemma UndisturbedDelivery(maxAttempts: int, t: Trace<Event>, w: World)
    requires Run(maxAttempts, t).stage.Idle?
    ensures var m, m' := Run(maxAttempts, t), Run(maxAttempts, DeliveryAlone(t, w, maxAttempts));
      var (row, answer, calls) := Delivery(m.row, w, maxAttempts);
      && m' == m.(row := Some(row), answer := Some(answer), calls := m.calls + calls,
                  successes := m.successes + One(answer.AnswerSent?),
                  announced := m.announced + One(answer == AnswerFailed(true)))
  {
    var m := Run(maxAttempts, t);
    var claimed := Claimed(m.row);
    var n: nat := if 0 < maxAttempts then maxAttempts else 0;
    var t1 := UpToSend(t, w);
    var t2 := Calling(t1, w.provider, n);
    var (sent, calls) := Send(w, maxAttempts);
    ReachesSend(maxAttempts, t, w);
    if Run(maxAttempts, t1).stage.Sending? {
      LastCallAlone(maxAttempts, t1, w.provider);
      CallsAlone(maxAttempts, t1, w.provider, Retry(w.provider, 0, maxAttempts).1, n);
    } else {
      CallsAlone(maxAttempts, t1, w.provider, 0, n);
    }
    RecordsAlone(maxAttempts, t2);
  }

  /**
   Why the premise of no crash is needed: whenever an email has been delivered and not yet recorded, a crash
   and one good redelivery send it again.
   */
  lemma CrashSendsAgain(maxAttempts: int, t: Trace<Event>, w: World)
    requires Run(maxAttempts, t).stage.MarkingSent? && Send(w, maxAttempts).0
    ensures var m, m' := Run(maxAttempts, t), Run(maxAttempts, DeliveryAlone(Then(t, Crash), w, maxAttempts));
      Is(m', Sent) && m.successes >= 1 && m'.successes == m.successes + 1
  {
    RunKeepsInv(maxAttempts, t);
    assert Run(maxAttempts, Then(t, Crash)) == OnCrash(Run(maxAttempts, t));
    UndisturbedDelivery(maxAttempts, Then(t, Crash), w);
  }

  /** A claim that took effect and was reported as failed costs nothing: a redelivery does what this one would have. */
  lemma LostClaimIsReclaimed(maxAttempts: int, t: Trace<Event>, w: World)
    requires Run(maxAttempts, t).stage.Claiming?
    ensures var m, m1 := Run(maxAttempts, t), Run(maxAttempts, Then(t, Claim(DoneButFailed)));
      m1.row == Some(Claimed(m.row)) && m1.stage.Idle? && m1.answer == m.answer
    ensures var m, m' := Run(maxAttempts, t),
          Run(maxAttempts, DeliveryAlone(Then(t, Claim(DoneButFailed)), w, maxAttempts));
      var (row, answer, calls) := Delivery(m.row, w, maxAttempts);
      m'.row == Some(row) && m'.answer == Some(answer) && m'.calls == m.calls + calls
  {
    var m := Run(maxAttempts, t);
    assert Run(maxAttempts, Then(t, Claim(DoneButFailed))) == OnClaim(m, DoneButFailed);
    UndisturbedDelivery(maxAttempts, Then(t, Claim(DoneButFailed)), w);
  }

  /** A crash forgets everything but the row: the redelivery does what a delivery that finds that row does. */
  lemma CrashLeavesTheRow(maxAttempts: int, t: Trace<Event>, w: World)
    ensures var m, m1 := Run(maxAttempts, t), Run(maxAttempts, Then(t, Crash));
      && m1 == m.(stage := Idle, lost := m1.lost)
      && (m.stage.Idle? <==> m1.lost == m.lost)
    ensures var m, m' := Run(maxAttempts, t), Run(maxAttempts, DeliveryAlone(Then(t, Crash), w, maxAttempts));
      var (row, answer, calls) := Delivery(m.row, w, maxAttempts);
      m'.row == Some(row) && m'.answer == Some(answer) && m'.calls == m.calls + calls
  {
    assert Run(maxAttempts, Then(t, Crash)) == OnCrash(Run(maxAttempts, t));
    UndisturbedDelivery(maxAttempts, Then(t, Crash), w);
  }

  ghost predicate AttemptsAre(m: Machine, attemptCount: nat, status: Status) {
    m.row.Some? && m.row.value.attemptCount == attemptCount && m.row.value.status == status
  }

  /** A failing write ends the delivery without an answer, but in the rate-limit branch the catch takes over. */
  ghost predicate Throws(m: Machine, limited: bool, m': Machine) {
    m'.stage == (if limited then MarkingFailed(false) else Idle) && m'.answer == m.answer
  }

  /**
   A `markAsFailed` that throws in the rate-limit branch is caught, and the catch counts the failure, for the second
   time if the first count took effect; one that throws in the catch ends the delivery.
   */
  lemma LimitedFailureCountsTwice(maxAttempts: int, t: Trace<Event>, write: Write)
    requires Run(maxAttempts, t).stage.MarkingFailed? && Run(maxAttempts, t).row.Some? && write != Done
    ensures var m, m1 := Run(maxAttempts, t), Run(maxAttempts, Then(t, RecordFailure(write)));
      var m2 := Run(maxAttempts, Then(Then(t, RecordFailure(write)), RecordFailure(Done)));
      var row, counted := m.row.value, One(write == DoneButFailed);
      && Throws(m, m.stage.limited, m1)
      && AttemptsAre(m1, row.attemptCount + counted, if write == DoneButFailed then Failed else row.status)
      && (m.stage.limited ==> AttemptsAre(m2, row.attemptCount + counted + 1, Failed))
      && (!m.stage.limited ==> m2 == m1)
  {
    var m := Run(maxAttempts, t);
    assert Run(maxAttempts, Then(t, RecordFailure(write))) ==
        OnRecordFailure(m, m.row.value, m.stage.limited, write);
  }

  /**
   A DLQ update that throws in the rate-limit branch is caught too: the catch writes FAILED, over DLQ if the update
   took effect, counts one attempt more and routes again; one that throws in the catch ends the delivery.
   */
  lemma LimitedRoutingRunsTwice(maxAttempts: int, t: Trace<Event>, write: Write)
    requires Run(maxAttempts, t).stage.Routing? && write != Done
    ensures var m, m1 := Run(maxAttempts, t), Run(maxAttempts, Then(t, Route(write)));
      var m2 := Run(maxAttempts, Then(Then(t, Route(write)), RecordFailure(Done)));
      && m.row.Some?
      && Throws(m, m.stage.limited, m1)
      && AttemptsAre(m1, m.row.value.attemptCount, if write == DoneButFailed then Dlq else Failed)
      && (m.stage.limited ==> AttemptsAre(m2, m.row.value.attemptCount + 1, Failed) && m2.stage == Routing(false))
      && (!m.stage.limited ==> m2 == m1)
  {
    RunKeepsInv(maxAttempts, t);
    var m := Run(maxAttempts, t);
    assert Run(maxAttempts, Then(t, Route(write))) == OnRoute(m, m.row.value, m.stage.limited, write);
  }

  /** The delivery whose `markAsSent` took effect and was reported as failed. */
  function Misreported(t: Trace<Event>): Trace<Event> {
    Then(Then(t, RecordSent(DoneButFailed)), RecordFailure(Done))
  }

  /**
   And why a reply must not be lost: then the catch writes FAILED over SENT and, with retries left, one good
   redelivery sends the email again.
   */
  lemma LostReplySendsAgain(maxAttempts: int, t: Trace<Event>, w: World)
    requires Run(maxAttempts, t).stage.MarkingSent? && Send(w, maxAttempts).0
    requires Run(maxAttempts, t).row.Some? && Run(maxAttempts, t).row.value.attemptCount + 1 < MAX_RETRIES
    ensures Is(Run(maxAttempts, Then(t, RecordSent(DoneButFailed))), Sent)
    ensures Is(Run(maxAttempts, Misreported(t)), Failed)
    ensures var m, m' := Run(maxAttempts, t), Run(maxAttempts, DeliveryAlone(Misreported(t), w, maxAttempts));
      Is(m', Sent) && m.successes >= 1 && m'.successes == m.successes + 1
  {
    RunKeepsInv(maxAttempts, t);
    var m := Run(maxAttempts, t);
    var t1 := Then(t, RecordSent(DoneButFailed));
    assert Run(maxAttempts, t1) == OnRecordSent(m, m.row.value, DoneButFailed);
    assert Run(maxAttempts, Misreported(t)) == Step(maxAttempts, Run(maxAttempts, t1), RecordFailure(Done));
    UndisturbedDelivery(maxAttempts, Misreported(t), w);
  }

  /** The bound is met: three deliveries whose sends all fail for good reason to retry use every call and end in DLQ. */
  lemma CallsBoundIsMet(maxAttempts: int, w: World)
    requires 0 < maxAttempts && w.limiter.Allowed? && w.renders && !w.breakerOpen
    requires forall i: nat :: w.provider(i) == Retryable
    ensures var t := DeliveryAlone(DeliveryAlone(DeliveryAlone(Start, w, maxAttempts), w, maxAttempts), w, maxAttempts);
      var m := Run(maxAttempts, t);
      m.lost.total == 0 && Is(m, Dlq) && m.calls == MAX_RETRIES * maxAttempts && m.announced == 1
  {
    RetryMeaning(w.provider, 0, maxAttempts);
    UndisturbedDelivery(maxAttempts, Start, w);
    var t := DeliveryAlone(Start, w, maxAttempts);
    UndisturbedDelivery(maxAttempts, t, w);
    UndisturbedDelivery(maxAttempts, DeliveryAlone(t, w, maxAttempts), w);
  }
}
