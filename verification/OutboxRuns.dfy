/**
 The outbox poller under interleaving: timer ticks, start, stop and inserts at every await of a running batch.

 A batch loop is at one of its awaits; the machine holds every loop that is active, so that there is
 never more than one is proved rather than assumed. The database is up.
 */
module OutboxRuns {
  import opened Wrappers
  import opened Outbox

  /** The await a batch loop is at; `batch` starts with the event being handled. */
  datatype Phase =
    | Finding(now: int)
    | Claiming(now: int, batch: seq<Snapshot>)
    | Publishing(batch: seq<Snapshot>)
    | Completing(batch: seq<Snapshot>)
    | Retrying(batch: seq<Snapshot>)
    | Burying(batch: seq<Snapshot>)
    | DeadLettering(batch: seq<Snapshot>)

  /** A row's history: times handled, publish attempts issued, successes, failures, dead-letter attempts issued. */
  datatype Tally = Tally(handled: nat, published: nat, delivered: nat, failed: nat, deadLettered: nat)

  /**
   The poller and its table. `timer` says that the field holds an interval; `intervals` counts those still ticking,
   `starting` the calls of start that wait for the pending batch, `finished` the batches that have ended.
   */
  datatype Machine = Machine(
    rows: Rows,
    loops: seq<Phase>,
    isBatchProcessing: bool,
    pendingBatch: bool,
    isRunning: bool,
    timer: bool,
    intervals: nat,
    starting: nat,
    finished: nat,
    tally: map<Id, Tally>,
    firsts: seq<Id>)

  datatype Event =
    | StartCalled(now: int)
    | StopCalled
    | TimerFires(now: int)
    | Insert(id: Id, createdAt: int, resolvable: bool)
    | Found(loop: nat, ids: seq<Id>)
    | ClaimWritten(loop: nat)
    | PublishSettled(loop: nat, ok: bool)
    | RowWritten(loop: nat)
    | DeadLetterSettled(loop: nat)

  // ---------------------------------------------------------------- the code between two awaits

  /**
   The pending batch's promise resolves; each `start` that waited for it sets an interval, the field keeps the last.
   */
  function Settle(m: Machine): Machine {
    m.(pendingBatch := false, timer := m.timer || m.starting > 0, intervals := m.intervals + m.starting, starting := 0)
  }

  function Trigger(m: Machine, now: int): Machine {
    if m.pendingBatch then m
    else if m.isBatchProcessing then Settle(m)
    else m.(pendingBatch := true, isBatchProcessing := true, loops := m.loops + [Finding(now)])
  }

  /** A loop ends: its `finally` clauses run. */
  function Finish(m: Machine, i: nat): Machine
    requires i < |m.loops|
  {
    Settle(m.(isBatchProcessing := false, finished := m.finished + 1, loops := m.loops[..i] + m.loops[i + 1..]))
  }

  /** `handleFailure` up to its first await. */
  function FailEvent(o: Options, m: Machine, i: nat, batch: seq<Snapshot>): Machine
    requires i < |m.loops| && batch != [] && batch[0].id in m.tally
  {
    var e := batch[0];
    m.(loops := m.loops[i := if e.retryCount + 1 >= o.maxRetries then Burying(batch) else Retrying(batch)],
       tally := m.tally[e.id := m.tally[e.id].(failed := m.tally[e.id].failed + 1)])
  }

  /** The loop turns to the next event of the batch, or ends. */
  function NextEvent(o: Options, m: Machine, i: nat, batch: seq<Snapshot>): Machine
    requires i < |m.loops| && (batch != [] ==> batch[0].id in m.tally)
  {
    if batch == [] then Finish(m, i)
    else
      var e, t := batch[0], m.tally[batch[0].id];
      var m' := m.(firsts := if t.handled == 0 then m.firsts + [e.id] else m.firsts);
      if e.resolvable then
        m'.(loops := m.loops[i := Publishing(batch)],
            tally := m.tally[e.id := t.(handled := t.handled + 1, published := t.published + 1)])
      else FailEvent(o, m'.(tally := m.tally[e.id := t.(handled := t.handled + 1)]), i, batch)
  }

  predicate CanTick(m: Machine) {
    m.intervals > 0
  }

  /** What can happen next, and what the outside may answer. */
  ghost predicate Allowed(o: Options, m: Machine, e: Event) {
    match e
    case StartCalled(_) => true
    case StopCalled => true
    case TimerFires(_) => CanTick(m)
    case Insert(id, _, _) => id !in m.rows
    case Found(i, ids) => i < |m.loops| && m.loops[i].Finding? && QueryResult(o, m.rows, m.loops[i].now, ids)
    case ClaimWritten(i) => i < |m.loops| && m.loops[i].Claiming?
    case PublishSettled(i, _) => i < |m.loops| && m.loops[i].Publishing?
    case RowWritten(i) => i < |m.loops| && (m.loops[i].Completing? || m.loops[i].Retrying? || m.loops[i].Burying?)
    case DeadLetterSettled(i) => i < |m.loops| && m.loops[i].DeadLettering?
  }

  /** Every event a loop still holds is a row of the table. */
  ghost predicate Known(m: Machine) {
    && m.tally.Keys == m.rows.Keys
    && forall i :: 0 <= i < |m.loops| && !m.loops[i].Finding? ==>
         m.loops[i].batch != [] && forall e :: e in m.loops[i].batch ==> e.id in m.rows
  }

  /** A writer's transaction commits a new event. */
  function OnInsert(m: Machine, id: Id, createdAt: int, resolvable: bool): Machine {
    m.(rows := m.rows[id := Row(createdAt, resolvable, PENDING, 0, None)], tally := m.tally[id := Tally(0, 0, 0, 0, 0)])
  }

  /** The query returns. */
  function OnFound(m: Machine, i: nat, ids: seq<Id>): Machine
    requires i < |m.loops| && m.loops[i].Finding? && forall id :: id in ids ==> id in m.rows
  {
    if ids == [] then Finish(m, i)
    else m.(loops := m.loops[i := Claiming(m.loops[i].now, Snapshots(m.rows, ids))])
  }

  /** The claim is written. */
  function OnClaimed(o: Options, m: Machine, i: nat): Machine
    requires i < |m.loops| && m.loops[i].Claiming? && (m.loops[i].batch != [] ==> m.loops[i].batch[0].id in m.tally)
  {
    var batch := m.loops[i].batch;
    NextEvent(o, m.(rows := Claim(m.rows, IdsOf(batch), m.loops[i].now)), i, batch)
  }

  /** The broker acknowledges or rejects. */
  function OnPublished(o: Options, m: Machine, i: nat, ok: bool): Machine
    requires i < |m.loops| && m.loops[i].Publishing? && m.loops[i].batch != [] && m.loops[i].batch[0].id in m.tally
  {
    var batch := m.loops[i].batch;
    var id := batch[0].id;
    if ok then m.(loops := m.loops[i := Completing(batch)],
                  tally := m.tally[id := m.tally[id].(delivered := m.tally[id].delivered + 1)])
    else FailEvent(o, m, i, batch)
  }

  /** The DEAD row is written: the dead-letter publish is issued. */
  function OnBuried(m: Machine, i: nat): Machine
    requires i < |m.loops| && m.loops[i].Burying? && m.loops[i].batch != []
    requires m.loops[i].batch[0].id in m.tally && m.loops[i].batch[0].id in m.rows
  {
    var batch, e := m.loops[i].batch, m.loops[i].batch[0];
    m.(rows := Bury(m.rows, e.id, e.retryCount + 1),
       loops := m.loops[i := DeadLettering(batch)],
       tally := m.tally[e.id := m.tally[e.id].(deadLettered := m.tally[e.id].deadLettered + 1)])
  }

  /** The row with which the handling of a loop's event ends. */
  function Ended(m: Machine, i: nat): Row
    requires i < |m.loops| && !m.loops[i].Finding? && m.loops[i].batch != [] && m.loops[i].batch[0].id in m.rows
  {
    var e := m.loops[i].batch[0];
    match m.loops[i]
    case Completing(_) => Complete(m.rows, e.id)[e.id]
    case Retrying(_) => Retry(m.rows, e.id, e.retryCount + 1)[e.id]
    case _ => m.rows[e.id]
  }

  /** That row is written, or the dead-letter publish has settled either way: on to the next event. */
  function OnEnded(o: Options, m: Machine, i: nat): Machine
    requires i < |m.loops| && !m.loops[i].Finding? && m.loops[i].batch != [] && m.loops[i].batch[0].id in m.rows
    requires |m.loops[i].batch| > 1 ==> m.loops[i].batch[1].id in m.tally
  {
    NextEvent(o, m.(rows := m.rows[m.loops[i].batch[0].id := Ended(m, i)]), i, m.loops[i].batch[1..])
  }

  function Step(o: Options, m: Machine, e: Event): Machine
    requires Known(m) && Allowed(o, m, e)
  {
    match e
    case StartCalled(now) => if m.isRunning then m else Trigger(m.(isRunning := true, starting := m.starting + 1), now)
    case StopCalled =>
      m.(isRunning := false,
         timer := false,
         intervals := if m.timer && m.intervals > 0 then m.intervals - 1 else m.intervals)
    case TimerFires(now) => Trigger(m, now)
    case Insert(id, createdAt, resolvable) => OnInsert(m, id, createdAt, resolvable)
    case Found(i, ids) => OnFound(m, i, ids)
    case ClaimWritten(i) => OnClaimed(o, m, i)
    case PublishSettled(i, ok) => OnPublished(o, m, i, ok)
    case RowWritten(i) => if m.loops[i].Burying? then OnBuried(m, i) else OnEnded(o, m, i)
    case DeadLetterSettled(i) => OnEnded(o, m, i)
  }

  ghost function Run(o: Options, t: Trace<Event>): Machine {
    match t
    case Start => Machine(map[], [], false, false, false, false, 0, 0, 0, map[], [])
    case Then(before, e) =>
      var m := Run(o, before);
      if Known(m) && Allowed(o, m, e) then Step(o, m, e) else m
  }

  ghost predicate ValidRun(o: Options, t: Trace<Event>) {
    t.Then? ==> ValidRun(o, t.before) && Known(Run(o, t.before)) && Allowed(o, Run(o, t.before), t.event)
  }

  /** A run from the empty table. */
  ghost predicate Reaches(o: Options, t: Trace<Event>, m: Machine) {
    ValidRun(o, t) && m == Run(o, t)
  }

  /** The state before the last step, which is allowed there. */
  lemma LastStep(o: Options, t: Trace<Event>, m: Machine) returns (m0: Machine)
    requires Reaches(o, t, m) && t.Then?
    ensures Reaches(o, t.before, m0) && Known(m0) && Allowed(o, m0, t.event) && m == Step(o, m0, t.event)
  {
    m0 := Run(o, t.before);
  }

  // ---------------------------------------------------------------- the invariant

  /** The history a row at rest must have, given its columns. */
  function HistoryOf(o: Options, r: Row): Tally {
    var handled := r.retryCount + if r.status == COMPLETED then 1 else 0;
    Tally(handled,
          if r.resolvable then handled else 0,
          if r.status == COMPLETED then 1 else 0,
          r.retryCount,
          if r.status == DEAD then 1 else 0)
  }

  /** A row nobody is handling. */
  ghost predicate AtRest(o: Options, r: Row, t: Tally) {
    && t == HistoryOf(o, r)
    && (if r.status == DEAD then r.retryCount == o.maxRetries else r.retryCount < o.maxRetries)
    && (r.status == COMPLETED ==> r.resolvable)
    && (r.status == PENDING ==> r.lockedAt == None)
  }

  /** The row at the head of the batch, while its event is being handled. */
  ghost predicate BeingHandled(o: Options, r: Row, t: Tally, p: Phase) {
    var h := HistoryOf(o, r);
    var issued := h.(handled := h.handled + 1, published := h.published + if r.resolvable then 1 else 0);
    match p
    case Publishing(_) => r.status == PROCESSING && r.resolvable && r.retryCount < o.maxRetries && t == issued
    case Completing(_) => r.status == PROCESSING && r.resolvable && r.retryCount < o.maxRetries
        && t == issued.(delivered := 1)
    case Retrying(_) => r.status == PROCESSING && r.retryCount + 1 < o.maxRetries
        && t == issued.(failed := r.retryCount + 1)
    case Burying(_) => r.status == PROCESSING && r.retryCount + 1 == o.maxRetries
        && t == issued.(failed := r.retryCount + 1)
    case _ => r.status == DEAD && AtRest(o, r, t)
  }

  /** The events of the batch whose handling has not begun. */
  function Waiting(p: Phase): seq<Snapshot> {
    match p
    case Finding(_) => []
    case Claiming(_, batch) => batch
    case _ => if p.batch == [] then [] else p.batch[1..]
  }

  ghost predicate SnapshotsTrue(o: Options, rows: Rows, batch: seq<Snapshot>) {
    && (forall i, j :: 0 <= i < j < |batch| ==> batch[i].id != batch[j].id)
    && forall i :: 0 <= i < |batch| ==> batch[i].id in rows && batch[i].resolvable == rows[batch[i].id].resolvable
  }

  ghost predicate HasId(batch: seq<Snapshot>, id: Id) {
    exists i :: 0 <= i < |batch| && batch[i].id == id
  }

  /** Rows waiting in the batch: claimed once the claim is written, and as their snapshots say. */
  ghost predicate WaitingInv(rows: Rows, waiting: seq<Snapshot>, status: Status) {
    forall i :: 0 <= i < |waiting| ==>
      waiting[i].id in rows && rows[waiting[i].id].status == status
        && rows[waiting[i].id].retryCount == waiting[i].retryCount
  }

  ghost predicate LoopInv(o: Options, rows: Rows, tally: map<Id, Tally>, p: Phase)
    requires tally.Keys == rows.Keys
  {
    if p.Finding? then
      forall id :: id in rows ==> AtRest(o, rows[id], tally[id]) && rows[id].status != PROCESSING
    else if p.Claiming? then
      && p.batch != [] && SnapshotsTrue(o, rows, p.batch)
      && WaitingInv(rows, p.batch, PENDING)
      && forall id :: id in rows ==> AtRest(o, rows[id], tally[id]) && rows[id].status != PROCESSING
    else
      && p.batch != [] && SnapshotsTrue(o, rows, p.batch)
      && WaitingInv(rows, p.batch[1..], PROCESSING)
      && BeingHandled(o, rows[p.batch[0].id], tally[p.batch[0].id], p)
      && (!p.DeadLettering? ==> rows[p.batch[0].id].retryCount == p.batch[0].retryCount)
      && forall id :: id in rows && id != p.batch[0].id ==>
           AtRest(o, rows[id], tally[id]) && (rows[id].status == PROCESSING ==> HasId(p.batch[1..], id))
  }

  ghost predicate Inv(o: Options, m: Machine) {
    && m.tally.Keys == m.rows.Keys
    && |m.loops| <= 1
    && m.isBatchProcessing == m.pendingBatch == (|m.loops| == 1)
    && (m.starting > 0 ==> m.pendingBatch)
    && (m.timer ==> m.intervals > 0)
    && LoopInv(o, m.rows, m.tally, if m.loops == [] then Finding(0) else m.loops[0])
  }

  lemma InvKnows(o: Options, m: Machine)
    requires Inv(o, m)
    ensures Known(m)
  {
    forall i | 0 <= i < |m.loops| && !m.loops[i].Finding?
      ensures m.loops[i].batch != [] && forall e :: e in m.loops[i].batch ==> e.id in m.rows
    {
      assert m.loops[i] == m.loops[0];
    }
  }

  /** No event is being handled: the rest of the batch waits, claimed, and every row is at rest. */
  ghost predicate BetweenEvents(o: Options, rows: Rows, tally: map<Id, Tally>, rest: seq<Snapshot>)
    requires tally.Keys == rows.Keys
  {
    && SnapshotsTrue(o, rows, rest)
    && WaitingInv(rows, rest, PROCESSING)
    && forall id :: id in rows ==> AtRest(o, rows[id], tally[id]) && (rows[id].status == PROCESSING ==> HasId(rest, id))
  }

  /** One loop is active and both gates are shut. */
  ghost predicate OneLoop(m: Machine) {
    |m.loops| == 1 && m.isBatchProcessing && m.pendingBatch && m.tally.Keys == m.rows.Keys
      && (m.timer ==> m.intervals > 0)
  }

  /** Taking the head off the waiting batch leaves the others as they were. */
  lemma TailWaits(o: Options, rows: Rows, tally: map<Id, Tally>, rest: seq<Snapshot>)
    requires tally.Keys == rows.Keys && BetweenEvents(o, rows, tally, rest) && rest != []
    ensures WaitingInv(rows, rest[1..], PROCESSING)
    ensures forall id :: id in rows && id != rest[0].id && rows[id].status == PROCESSING ==> HasId(rest[1..], id)
  {
    forall id | id in rows && id != rest[0].id && rows[id].status == PROCESSING ensures HasId(rest[1..], id) {
      var i :| 0 <= i < |rest| && rest[i].id == id;
      assert rest[1..][i - 1] == rest[i];
    }
  }

  /** Whether its event resolves to a topic or not, the next row is being handled. */
  lemma NextRowIsHandled(o: Options, m: Machine, rest: seq<Snapshot>)
    requires OneLoop(m) && BetweenEvents(o, m.rows, m.tally, rest) && rest != []
    ensures var m', id := NextEvent(o, m, 0, rest), rest[0].id;
      && m'.rows == m.rows && m'.tally == m.tally[id := m'.tally[id]]
      && m' == m.(loops := m'.loops, tally := m'.tally, firsts := m'.firsts)
      && |m'.loops| == 1 && !m'.loops[0].Finding? && !m'.loops[0].Claiming? && !m'.loops[0].DeadLettering?
      && m'.loops[0].batch == rest
      && BeingHandled(o, m.rows[id], m'.tally[id], m'.loops[0])
  {
  }

  lemma EnteredKeepsInv(o: Options, m: Machine, rest: seq<Snapshot>, m': Machine)
    requires OneLoop(m) && BetweenEvents(o, m.rows, m.tally, rest) && rest != []
    requires WaitingInv(m.rows, rest[1..], PROCESSING)
    requires forall id :: id in m.rows && id != rest[0].id && m.rows[id].status == PROCESSING ==> HasId(rest[1..], id)
    requires rest[0].id in m'.tally
        && m' == m.(loops := m'.loops, tally := m.tally[rest[0].id := m'.tally[rest[0].id]], firsts := m'.firsts)
    requires |m'.loops| == 1 && !m'.loops[0].Finding? && !m'.loops[0].Claiming? && !m'.loops[0].DeadLettering?
    requires m'.loops[0].batch == rest && BeingHandled(o, m.rows[rest[0].id], m'.tally[rest[0].id], m'.loops[0])
    ensures Inv(o, m')
  {
  }

  lemma NextEventKeepsInv(o: Options, m: Machine, rest: seq<Snapshot>)
    requires OneLoop(m) && BetweenEvents(o, m.rows, m.tally, rest)
    ensures Inv(o, NextEvent(o, m, 0, rest))
  {
    if rest != [] {
      TailWaits(o, m.rows, m.tally, rest);
      NextRowIsHandled(o, m, rest);
      EnteredKeepsInv(o, m, rest, NextEvent(o, m, 0, rest));
    }
  }

  lemma QueriedSnapshots(o: Options, rows: Rows, now: int, ids: seq<Id>)
    requires QueryResult(o, rows, now, ids) && forall id :: id in rows ==> rows[id].status != PROCESSING
    ensures SnapshotsTrue(o, rows, Snapshots(rows, ids)) && WaitingInv(rows, Snapshots(rows, ids), PENDING)
  {
  }

  lemma FoundKeepsInv(o: Options, m: Machine, ids: seq<Id>)
    requires Inv(o, m) && Allowed(o, m, Found(0, ids))
    ensures Inv(o, OnFound(m, 0, ids))
  {
    QueriedSnapshots(o, m.rows, m.loops[0].now, ids);
  }

  lemma ClaimKeepsInv(o: Options, m: Machine)
    requires Inv(o, m) && OneLoop(m) && m.loops[0].Claiming?
    ensures Inv(o, OnClaimed(o, m, 0))
  {
    var batch := m.loops[0].batch;
    var rows := Claim(m.rows, IdsOf(batch), m.loops[0].now);
    forall i | 0 <= i < |batch| ensures batch[i].id in rows && rows[batch[i].id].status == PROCESSING {
      assert IdsOf(batch)[i] == batch[i].id;
    }
    forall id | id in rows && rows[id].status == PROCESSING ensures HasId(batch, id) {
      assert id in IdsOf(batch);
    }
    NextEventKeepsInv(o, m.(rows := rows), batch);
  }

  lemma PublishKeepsInv(o: Options, m: Machine, ok: bool)
    requires Inv(o, m) && OneLoop(m) && m.loops[0].Publishing?
    ensures Inv(o, OnPublished(o, m, 0, ok))
  {
  }

  /** Writing the head's row puts it to rest and leaves the rest of the batch waiting. */
  lemma HeadComesToRest(o: Options, m: Machine, r: Row)
    requires Inv(o, m) && OneLoop(m) && !m.loops[0].Finding? && !m.loops[0].Claiming?
    requires var e := m.loops[0].batch[0];
      AtRest(o, r, m.tally[e.id]) && r.status != PROCESSING && r.resolvable == m.rows[e.id].resolvable
    ensures BetweenEvents(o, m.rows[m.loops[0].batch[0].id := r], m.tally, m.loops[0].batch[1..])
  {
    var batch := m.loops[0].batch;
    assert forall i :: 0 <= i < |batch[1..]| ==> batch[1..][i] == batch[i + 1] && batch[1..][i].id != batch[0].id;
  }

  /** Once the head's row is written and at rest, the loop goes on to the next event. */
  lemma HeadWrittenKeepsInv(o: Options, m: Machine, r: Row)
    requires Inv(o, m) && OneLoop(m) && !m.loops[0].Finding? && !m.loops[0].Claiming?
    requires var e := m.loops[0].batch[0];
      AtRest(o, r, m.tally[e.id]) && r.status != PROCESSING && r.resolvable == m.rows[e.id].resolvable
    ensures Inv(o, NextEvent(o, m.(rows := m.rows[m.loops[0].batch[0].id := r]), 0, m.loops[0].batch[1..]))
  {
    HeadComesToRest(o, m, r);
    NextEventKeepsInv(o, m.(rows := m.rows[m.loops[0].batch[0].id := r]), m.loops[0].batch[1..]);
  }

  /** However an event's handling ends, its row is at rest. */
  lemma EndsAtRest(o: Options, m: Machine)
    requires Inv(o, m) && OneLoop(m) && (m.loops[0].Completing? || m.loops[0].Retrying? || m.loops[0].DeadLettering?)
    ensures var e, r := m.loops[0].batch[0], Ended(m, 0);
      AtRest(o, r, m.tally[e.id]) && r.status != PROCESSING && r.resolvable == m.rows[e.id].resolvable
  {
  }

  lemma EndKeepsInv(o: Options, m: Machine)
    requires Inv(o, m) && OneLoop(m) && (m.loops[0].Completing? || m.loops[0].Retrying? || m.loops[0].DeadLettering?)
    ensures Inv(o, OnEnded(o, m, 0))
  {
    EndsAtRest(o, m);
    HeadWrittenKeepsInv(o, m, Ended(m, 0));
  }

  lemma BuryKeepsInv(o: Options, m: Machine)
    requires Inv(o, m) && OneLoop(m) && m.loops[0].Burying?
    ensures Inv(o, OnBuried(m, 0))
  {
    var batch := m.loops[0].batch;
    assert forall i :: 0 <= i < |batch[1..]| ==> batch[1..][i] == batch[i + 1] && batch[1..][i].id != batch[0].id;
  }

  lemma InsertKeepsLoop(o: Options, rows: Rows, tally: map<Id, Tally>, p: Phase, id: Id, createdAt: int,
      resolvable: bool)
    requires o.maxRetries >= 1 && tally.Keys == rows.Keys && LoopInv(o, rows, tally, p) && id !in rows
    ensures LoopInv(o, rows[id := Row(createdAt, resolvable, PENDING, 0, None)], tally[id := Tally(0, 0, 0, 0, 0)], p)
  {
  }

  lemma InsertKeepsInv(o: Options, m: Machine, id: Id, createdAt: int, resolvable: bool)
    requires o.maxRetries >= 1 && Inv(o, m) && id !in m.rows
    ensures Inv(o, OnInsert(m, id, createdAt, resolvable))
  {
    InsertKeepsLoop(o, m.rows, m.tally, if m.loops == [] then Finding(0) else m.loops[0], id, createdAt, resolvable);
  }

  lemma ControlKeepsInv(o: Options, m: Machine, e: Event)
    requires Inv(o, m) && Allowed(o, m, e) && Known(m) && (e.StartCalled? || e.StopCalled? || e.TimerFires?)
    ensures Inv(o, Step(o, m, e))
  {
  }

  lemma StepKeepsInv(o: Options, m: Machine, e: Event)
    requires o.maxRetries >= 1 && Inv(o, m) && Known(m) && Allowed(o, m, e)
    ensures Inv(o, Step(o, m, e))
  {
    match e {
      case Found(_, ids) => FoundKeepsInv(o, m, ids);
      case ClaimWritten(_) => ClaimKeepsInv(o, m);
      case PublishSettled(_, ok) => PublishKeepsInv(o, m, ok);
      case RowWritten(_) =>
        if m.loops[0].Burying? {
          BuryKeepsInv(o, m);
        } else {
          EndKeepsInv(o, m);
        }
      case DeadLetterSettled(_) => EndKeepsInv(o, m);
      case Insert(id, createdAt, resolvable) => InsertKeepsInv(o, m, id, createdAt, resolvable);
      case _ => ControlKeepsInv(o, m, e);
    }
  }

  lemma {:induction false} ReachableInv(o: Options, t: Trace<Event>, m: Machine)
    requires o.maxRetries >= 1 && Reaches(o, t, m)
    ensures Inv(o, m) && Known(m)
  {
    match t
    case Start =>
    case Then(before, e) =>
      var m0 := LastStep(o, t, m);
      ReachableInv(o, before, m0);
      StepKeepsInv(o, m0, e);
      InvKnows(o, m);
  }

  /** A run goes on. */
  lemma OneMore(o: Options, t: Trace<Event>, m: Machine, e: Event) returns (t': Trace<Event>, m': Machine)
    requires o.maxRetries >= 1 && Reaches(o, t, m) && Known(m) && Allowed(o, m, e)
    ensures t' == Then(t, e) && m' == Step(o, m, e) && Reaches(o, t', m') && Inv(o, m') && Known(m')
  {
    t', m' := Then(t, e), Step(o, m, e);
    ReachableInv(o, t', m');
  }

  // ---------------------------------------------------------------- single active batch

  /** The claimed events of a loop that are not yet written. */
  function Unwritten(p: Phase): seq<Snapshot> {
    if p.Finding? || p.Claiming? then [] else if p.DeadLettering? && p.batch != [] then p.batch[1..] else p.batch
  }

  lemma BatchSplits(batch: seq<Snapshot>, id: Id)
    requires batch != []
    ensures HasId(batch, id) <==> batch[0].id == id || HasId(batch[1..], id)
  {
    if HasId(batch, id) && batch[0].id != id {
      var i :| 0 <= i < |batch| && batch[i].id == id;
      assert batch[1..][i - 1].id == id;
    }
    if HasId(batch[1..], id) {
      var i :| 0 <= i < |batch[1..]| && batch[1..][i].id == id;
      assert batch[i + 1].id == id;
    }
  }

  /**
   Whenever the timer fires, one loop at most is active, and the PROCESSING rows are exactly what it still has to
   write.
   */
  lemma SingleActiveBatch(o: Options, t: Trace<Event>, m: Machine)
    requires o.maxRetries >= 1 && Reaches(o, t, m)
    ensures |m.loops| <= 1
    ensures (m.isBatchProcessing <==> m.loops != []) && (m.pendingBatch <==> m.loops != [])
    ensures forall id :: id in m.rows ==>
      (m.rows[id].status == PROCESSING <==> m.loops != [] && HasId(Unwritten(m.loops[0]), id))
  {
    ReachableInv(o, t, m);
    if m.loops != [] {
      var p := m.loops[0];
      forall id | id in m.rows ensures m.rows[id].status == PROCESSING <==> HasId(Unwritten(p), id) {
        if !p.Finding? && !p.Claiming? {
          BatchSplits(p.batch, id);
        }
      }
    }
  }

  // ---------------------------------------------------------------- stop

  function One(b: bool): nat {
    if b then 1 else 0
  }

  /** No stop is called while a start waits for the pending batch. */
  ghost predicate PatientStops(o: Options, t: Trace<Event>) {
    t.Then? ==>
      && PatientStops(o, t.before)
      && (t.event.StopCalled? ==> forall m :: Reaches(o, t.before, m) ==> m.starting == 0)
  }

  /** The field knows every interval, and at most one start is under way. */
  ghost predicate NothingLeaked(m: Machine) {
    && m.intervals == One(m.timer) && m.starting <= 1
    && (m.starting == 1 ==> !m.timer && m.isRunning)
    && (m.timer ==> m.isRunning)
  }

  /** The timer and start are as they were, or the batch has ended and every waiting start set its interval. */
  ghost predicate Settles(timer: bool, intervals: nat, starting: nat, m': Machine) {
    || (m'.timer == timer && m'.intervals == intervals && m'.starting == starting)
    || (m'.timer == (timer || starting > 0) && m'.intervals == intervals + starting && m'.starting == 0)
  }

  lemma NextEventControl(o: Options, m: Machine, i: nat, rest: seq<Snapshot>)
    requires i < |m.loops| && (rest != [] ==> rest[0].id in m.tally)
    ensures var m' := NextEvent(o, m, i, rest);
      m'.isRunning == m.isRunning && |m'.loops| <= |m.loops| && Settles(m.timer, m.intervals, m.starting, m')
  {
  }

  lemma LoopStepControl(o: Options, m: Machine, e: Event)
    requires Known(m) && Allowed(o, m, e) && (e.ClaimWritten? || e.RowWritten? || e.DeadLetterSettled?)
    ensures var m' := Step(o, m, e);
      m'.isRunning == m.isRunning && |m'.loops| <= |m.loops| && Settles(m.timer, m.intervals, m.starting, m')
  {
    match e {
      case ClaimWritten(i) =>
        NextEventControl(o, m.(rows := Claim(m.rows, IdsOf(m.loops[i].batch), m.loops[i].now)), i, m.loops[i].batch);
      case RowWritten(i) =>
        NextEventControl(o, m.(rows := m.rows[m.loops[i].batch[0].id := Ended(m, i)]), i, m.loops[i].batch[1..]);
      case DeadLetterSettled(i) =>
        NextEventControl(o, m.(rows := m.rows[m.loops[i].batch[0].id := Ended(m, i)]), i, m.loops[i].batch[1..]);
    }
  }

  /** Only the end of a batch settles; start and stop do more. */
  lemma OtherStepControl(o: Options, m: Machine, e: Event)
    requires Known(m) && Allowed(o, m, e) && !e.StopCalled? && !e.StartCalled?
    ensures var m' := Step(o, m, e);
      && m'.isRunning == m.isRunning && (e.TimerFires? || |m'.loops| <= |m.loops|)
      && Settles(m.timer, m.intervals, m.starting, m')
  {
    if e.ClaimWritten? || e.RowWritten? || e.DeadLetterSettled? {
      LoopStepControl(o, m, e);
    }
  }

  lemma StartControl(o: Options, m: Machine, now: int)
    requires Known(m)
    ensures var m' := Step(o, m, StartCalled(now));
      m'.isRunning && Settles(m.timer, m.intervals, m.starting + One(!m.isRunning), m')
  {
  }

  lemma StepLeaksNothing(o: Options, m: Machine, e: Event)
    requires Known(m) && Allowed(o, m, e) && NothingLeaked(m) && (e.StopCalled? ==> m.starting == 0)
    ensures NothingLeaked(Step(o, m, e))
  {
    if e.StartCalled? {
      StartControl(o, m, e.now);
    } else if !e.StopCalled? {
      OtherStepControl(o, m, e);
    }
  }

  lemma {:induction false} PatientStopsLeakNothing(o: Options, t: Trace<Event>, m: Machine)
    requires Reaches(o, t, m) && PatientStops(o, t)
    ensures NothingLeaked(m)
  {
    if t.Then? {
      var m0 := LastStep(o, t, m);
      PatientStopsLeakNothing(o, t.before, m0);
      StepLeaksNothing(o, m0, t.event);
    }
  }

  /** `t` continues `stop` without another call of start. */
  ghost predicate WithoutStart(stop: Trace<Event>, t: Trace<Event>) {
    t == stop || (t.Then? && !t.event.StartCalled? && WithoutStart(stop, t.before))
  }

  lemma StoppedStays(o: Options, m: Machine, e: Event)
    requires Known(m) && Allowed(o, m, e) && !e.StartCalled?
    requires !m.timer && m.intervals == 0 && m.starting == 0 && !m.isRunning
    ensures var m' := Step(o, m, e);
      !m'.timer && m'.intervals == 0 && m'.starting == 0 && !m'.isRunning && |m'.loops| <= |m.loops|
  {
    if !e.StopCalled? {
      OtherStepControl(o, m, e);
    }
  }

  /**
   When no stop was called during a start, this one included, no new batch begins after it; as soon as the pending
   one has ended (which is what stop awaits) no row is PROCESSING, and none becomes so until the next start.
   */
  lemma {:induction false} StopLeavesNothingProcessing(o: Options, t: Trace<Event>, m: Machine, t': Trace<Event>,
      m': Machine)
    requires o.maxRetries >= 1 && Reaches(o, t, m) && PatientStops(o, Then(t, StopCalled))
    requires WithoutStart(Then(t, StopCalled), t') && Reaches(o, t', m')
    ensures !m'.timer && m'.intervals == 0 && m'.starting == 0 && !m'.isRunning && |m'.loops| <= |m.loops|
    ensures !m'.pendingBatch ==> forall id :: id in m'.rows ==> m'.rows[id].status != PROCESSING
  {
    SingleActiveBatch(o, t', m');
    if t' == Then(t, StopCalled) {
      var m0 := LastStep(o, t', m');
      PatientStopsLeakNothing(o, t, m);
    } else {
      var m0 := LastStep(o, t', m');
      StopLeavesNothingProcessing(o, t, m, t'.before, m0);
      StoppedStays(o, m0, t'.event);
    }
  }

  ghost predicate WithoutStartOrStop(stop: Trace<Event>, t: Trace<Event>) {
    t == stop || (t.Then? && !t.event.StartCalled? && !t.event.StopCalled? && WithoutStartOrStop(stop, t.before))
  }

  /** Intervals left after a stop: those leaked before it, and one for each start it came too early for. */
  function Leaking(m: Machine): int {
    m.intervals - One(m.timer) + m.starting
  }

  lemma StopLeaves(o: Options, m: Machine)
    requires Inv(o, m) && Known(m)
    ensures Step(o, m, StopCalled).intervals + Step(o, m, StopCalled).starting == Leaking(m)
  {
  }

  lemma IntervalsStay(o: Options, m: Machine, e: Event)
    requires Known(m) && Allowed(o, m, e) && !e.StopCalled? && !e.StartCalled?
    ensures Step(o, m, e).intervals + Step(o, m, e).starting == m.intervals + m.starting
  {
    OtherStepControl(o, m, e);
  }

  /** Intervals ticking or about to stay as many until the next start or stop. */
  lemma {:induction false} IntervalsOutliveStop(o: Options, stop: Trace<Event>, t: Trace<Event>)
    requires WithoutStartOrStop(stop, t) && ValidRun(o, t)
    ensures Run(o, t).intervals + Run(o, t).starting == Run(o, stop).intervals + Run(o, stop).starting
  {
    if t != stop {
      IntervalsOutliveStop(o, stop, t.before);
      IntervalsStay(o, Run(o, t.before), t.event);
    }
  }

  lemma IntervalsAtStop(o: Options, stop: Trace<Event>)
    requires o.maxRetries >= 1 && ValidRun(o, stop) && stop.Then? && stop.event.StopCalled?
    ensures Run(o, stop).intervals + Run(o, stop).starting == Leaking(Run(o, stop.before))
  {
    ReachableInv(o, stop.before, Run(o, stop.before));
    StopLeaves(o, Run(o, stop.before));
  }

  lemma IdleHasNoStart(o: Options, t: Trace<Event>)
    requires o.maxRetries >= 1 && ValidRun(o, t) && !Run(o, t).pendingBatch
    ensures Run(o, t).starting == 0
  {
    ReachableInv(o, t, Run(o, t));
  }

  /** Once the pending batch has ended, the timer can fire after a stop if and only if an interval was left by it. */
  lemma StopSilencesExactly(o: Options, stop: Trace<Event>, t: Trace<Event>)
    requires o.maxRetries >= 1 && ValidRun(o, stop) && stop.Then? && stop.event.StopCalled?
    requires ValidRun(o, t) && WithoutStartOrStop(stop, t) && !Run(o, t).pendingBatch
    ensures CanTick(Run(o, t)) <==> Leaking(Run(o, stop.before)) > 0
  {
    IntervalsAtStop(o, stop);
    IntervalsOutliveStop(o, stop, t);
    IdleHasNoStart(o, t);
  }

  // ---------------------------------------------------------------- attempt accounting

  /** What a row's status says about everything that ever happened to it. */
  ghost predicate Accounted(o: Options, r: Row, t: Tally) {
    match r.status
    case PENDING =>
      r.retryCount < o.maxRetries
      && t == Tally(r.retryCount, if r.resolvable then r.retryCount else 0, 0, r.retryCount, 0)
    case PROCESSING =>
      r.retryCount < o.maxRetries && r.retryCount <= t.handled <= r.retryCount + 1 && t.delivered <= 1
        && t.deadLettered == 0
    case COMPLETED => r.resolvable && t == Tally(r.retryCount + 1, r.retryCount + 1, 1, r.retryCount, 0)
    case DEAD =>
      r.retryCount == o.maxRetries
      && t == Tally(o.maxRetries, if r.resolvable then o.maxRetries else 0, 0, o.maxRetries, 1)
  }

  /**
   Accounting, in every reachable state, for every row: COMPLETED is one success, DEAD is maxRetries failures and one
   dead letter.
   */
  lemma AttemptAccounting(o: Options, t: Trace<Event>, m: Machine, id: Id)
    requires o.maxRetries >= 1 && Reaches(o, t, m) && id in m.rows
    ensures id in m.tally && Accounted(o, m.rows[id], m.tally[id])
  {
    ReachableInv(o, t, m);
    if m.loops != [] && !m.loops[0].Finding? && !m.loops[0].Claiming? {
      var head := m.loops[0].batch[0].id;
      assert id != head ==> AtRest(o, m.rows[id], m.tally[id]);
    }
  }

  /** A row the loops have yet to write or handle. */
  ghost predicate Involved(m: Machine, id: Id) {
    m.loops != [] && HasId(if m.loops[0].Claiming? then m.loops[0].batch else Unwritten(m.loops[0]), id)
  }

  lemma OnlyOpenRowsAreInvolved(o: Options, m: Machine, id: Id)
    requires Inv(o, m) && Involved(m, id)
    ensures id in m.rows && m.rows[id].status in {PENDING, PROCESSING}
  {
    var p := m.loops[0];
    if !p.Finding? && !p.Claiming? {
      BatchSplits(p.batch, id);
    }
  }

  lemma NextEventTouchesItsHead(o: Options, m: Machine, i: nat, rest: seq<Snapshot>, id: Id)
    requires i < |m.loops| && id in m.tally && (rest != [] ==> rest[0].id in m.tally && rest[0].id != id)
    ensures NextEvent(o, m, i, rest).rows == m.rows
    ensures id in NextEvent(o, m, i, rest).tally && NextEvent(o, m, i, rest).tally[id] == m.tally[id]
  {
  }

  ghost predicate Untouched(m: Machine, m': Machine, id: Id) {
    id in m.rows && id in m.tally && id in m'.rows && id in m'.tally && m'.rows[id] == m.rows[id]
      && m'.tally[id] == m.tally[id]
  }

  lemma ClaimTouchesInvolvedRows(o: Options, m: Machine, id: Id)
    requires Inv(o, m) && OneLoop(m) && m.loops[0].Claiming? && id in m.rows && !Involved(m, id)
    ensures Untouched(m, OnClaimed(o, m, 0), id)
  {
    var batch := m.loops[0].batch;
    forall i | 0 <= i < |batch| ensures IdsOf(batch)[i] != id {
      assert batch[i].id != id;
    }
    assert batch[0].id != id;
    NextEventTouchesItsHead(o, m.(rows := Claim(m.rows, IdsOf(batch), m.loops[0].now)), 0, batch, id);
  }

  lemma EndTouchesInvolvedRows(o: Options, m: Machine, id: Id)
    requires Inv(o, m) && OneLoop(m) && (m.loops[0].Completing? || m.loops[0].Retrying? || m.loops[0].DeadLettering?)
    requires id in m.rows && !Involved(m, id)
    ensures Untouched(m, OnEnded(o, m, 0), id)
  {
    var batch := m.loops[0].batch;
    BatchSplits(batch, id);
    assert batch[1..] != [] ==> batch[1..][0].id != id;
    NextEventTouchesItsHead(o, m.(rows := m.rows[batch[0].id := Ended(m, 0)]), 0, batch[1..], id);
  }

  /** A step changes no row and no history but those of the rows the loop works on. */
  lemma WriteTouchesInvolvedRows(o: Options, m: Machine, e: Event, id: Id)
    requires Inv(o, m) && Known(m) && Allowed(o, m, e) && id in m.rows && !Involved(m, id)
        && (e.RowWritten? || e.DeadLetterSettled?)
    ensures Untouched(m, Step(o, m, e), id)
  {
    assert e.RowWritten? ==> m.loops[0].batch[0].id != id;
    if e.DeadLetterSettled? || !m.loops[0].Burying? {
      EndTouchesInvolvedRows(o, m, id);
    }
  }

  lemma StepTouchesInvolvedRows(o: Options, m: Machine, e: Event, id: Id)
    requires Inv(o, m) && Known(m) && Allowed(o, m, e) && id in m.rows && !Involved(m, id)
    ensures Untouched(m, Step(o, m, e), id)
  {
    match e {
      case ClaimWritten(_) => ClaimTouchesInvolvedRows(o, m, id);
      case RowWritten(_) => WriteTouchesInvolvedRows(o, m, e, id);
      case DeadLetterSettled(_) => WriteTouchesInvolvedRows(o, m, e, id);
      case PublishSettled(_, _) => assert m.loops[0].batch[0].id != id;
      case _ =>
    }
  }

  /** COMPLETED and DEAD are final, and so is the history: a row's success was its last attempt. */
  lemma TerminalRowsAreFinal(o: Options, t: Trace<Event>, m: Machine, e: Event, id: Id)
    requires o.maxRetries >= 1 && Reaches(o, t, m) && Known(m) && Allowed(o, m, e)
    requires id in m.rows && m.rows[id].status in {COMPLETED, DEAD}
    ensures Untouched(m, Step(o, m, e), id)
  {
    ReachableInv(o, t, m);
    if Involved(m, id) {
      OnlyOpenRowsAreInvolved(o, m, id);
      assert false;
    }
    StepTouchesInvolvedRows(o, m, e, id);
  }

  /** The row's event is being handled, and its outcome not yet written. */
  predicate InHand(m: Machine, id: Id) {
    && m.loops != [] && !m.loops[0].Finding? && !m.loops[0].Claiming? && !m.loops[0].DeadLettering?
    && m.loops[0].batch != [] && m.loops[0].batch[0].id == id
  }

  /**
   Publish attempts equal retries, plus the completing one, plus the one in hand, exactly for rows whose event type
   resolves to a topic (or that were never handled): an unresolvable event spends its retries without one publish.
   */
  lemma PublishAttemptsExactly(o: Options, t: Trace<Event>, m: Machine, id: Id)
    requires o.maxRetries >= 1 && Reaches(o, t, m) && id in m.rows
    ensures id in m.tally
    ensures m.tally[id].handled == m.rows[id].retryCount + One(m.rows[id].status == COMPLETED) + One(InHand(m, id))
    ensures m.tally[id].published == m.tally[id].handled <==> m.rows[id].resolvable || m.tally[id].handled == 0
    ensures m.tally[id].published == if m.rows[id].resolvable then m.tally[id].handled else 0
  {
    ReachableInv(o, t, m);
  }

  /** One event, which does not resolve, and nothing handled yet. */
  ghost predicate OneUnresolvable(m: Machine, status: Status, retryCount: nat) {
    && m.rows.Keys == {0} && m.tally.Keys == {0}
    && !m.rows[0].resolvable && m.rows[0].status == status && m.rows[0].retryCount == retryCount
    && m.tally[0].published == 0
  }

  lemma UnresolvableIsClaimed(o: Options, createdAt: int) returns (t: Trace<Event>, m: Machine)
    requires o.maxRetries >= 1 && o.batchSize >= 1
    ensures Reaches(o, t, m) && Known(m) && OneUnresolvable(m, PENDING, 0)
        && m.loops == [Claiming(0, [Snapshot(0, 0, false)])]
  {
    t, m := Start, Machine(map[], [], false, false, false, false, 0, 0, 0, map[], []);
    t, m := OneMore(o, t, m, Insert(0, createdAt, false));
    assert m.rows == map[0 := Row(createdAt, false, PENDING, 0, None)];
    t, m := OneMore(o, t, m, StartCalled(0));
    assert m.loops == [Finding(0)];
    assert Snapshots(m.rows, [0]) == [Snapshot(0, 0, false)];
    t, m := OneMore(o, t, m, Found(0, [0]));
  }

  lemma UnresolvableFails(o: Options, m: Machine)
    requires o.maxRetries >= 1 && Known(m) && OneUnresolvable(m, PENDING, 0)
        && m.loops == [Claiming(0, [Snapshot(0, 0, false)])]
    ensures var m' := Step(o, m, ClaimWritten(0));
      && OneUnresolvable(m', PROCESSING, 0)
      && m'.loops == [if 1 >= o.maxRetries then Burying([Snapshot(0, 0, false)]) else Retrying([Snapshot(0, 0, false)])]
  {
    assert IdsOf(m.loops[0].batch) == [0];
  }

  lemma UnresolvableIsWritten(o: Options, m: Machine)
    requires Known(m) && OneUnresolvable(m, PROCESSING, 0)
    requires m.loops == [Retrying([Snapshot(0, 0, false)])] || m.loops == [Burying([Snapshot(0, 0, false)])]
    ensures Allowed(o, m, RowWritten(0))
    ensures var m' := Step(o, m, RowWritten(0)); OneUnresolvable(m', if m.loops[0].Burying? then DEAD else PENDING, 1)
  {
  }

  /** That case is reached: a run in which an event that does not resolve is retried, or buried, without a publish. */
  lemma UnresolvableIsNeverPublished(o: Options, createdAt: int) returns (t: Trace<Event>, m: Machine)
    requires o.maxRetries >= 1 && o.batchSize >= 1
    ensures Reaches(o, t, m) && OneUnresolvable(m, if 1 >= o.maxRetries then DEAD else PENDING, 1)
  {
    t, m := UnresolvableIsClaimed(o, createdAt);
    UnresolvableFails(o, m);
    t, m := OneMore(o, t, m, ClaimWritten(0));
    UnresolvableIsWritten(o, m);
    t, m := OneMore(o, t, m, RowWritten(0));
  }

  // ---------------------------------------------------------------- first-attempt order

  /** No row is inserted that is not younger than every row of the table. */
  ghost predicate InsertsInOrder(o: Options, t: Trace<Event>) {
    t.Then? ==>
      && InsertsInOrder(o, t.before)
      && forall m :: t.event.Insert? && Reaches(o, t.before, m) ==>
           forall id :: id in m.rows ==> m.rows[id].createdAt < t.event.createdAt
  }

  /** Rows first handled, in order; untouched rows are younger, and those outside the batch younger than the batch. */
  ghost predicate OrderInv(rows: Rows, touched: set<Id>, firsts: seq<Id>, waiting: seq<Snapshot>) {
    && (forall a, b :: a in rows && b in rows && a != b ==> rows[a].createdAt != rows[b].createdAt)
    && (forall i :: 0 <= i < |firsts| ==> firsts[i] in rows && firsts[i] in touched)
    && (forall i, j :: 0 <= i < j < |firsts| ==> rows[firsts[i]].createdAt < rows[firsts[j]].createdAt)
    && (forall q, r :: q in rows && r in rows && q in touched && r !in touched ==>
        rows[q].createdAt < rows[r].createdAt)
    && (forall i :: 0 <= i < |waiting| ==> waiting[i].id in rows)
    && (forall i, j :: 0 <= i < j < |waiting| ==> rows[waiting[i].id].createdAt < rows[waiting[j].id].createdAt)
    && (forall i, r :: 0 <= i < |waiting| && r in rows && r !in touched && !HasId(waiting, r) ==>
          rows[waiting[i].id].createdAt < rows[r].createdAt)
  }

  function TouchedRows(m: Machine): set<Id> {
    set id | id in m.tally && m.tally[id].handled > 0
  }

  /** The batch that waits in the one active loop. */
  function WaitingBatch(m: Machine): seq<Snapshot> {
    if m.loops == [] then [] else Waiting(m.loops[0])
  }

  ghost predicate Orderly(m: Machine) {
    OrderInv(m.rows, TouchedRows(m), m.firsts, WaitingBatch(m))
  }

  /** The head of an orderly batch is older than every other row never handled. */
  lemma HeadIsOldestNew(rows: Rows, touched: set<Id>, firsts: seq<Id>, waiting: seq<Snapshot>, r: Id)
    requires OrderInv(rows, touched, firsts, waiting) && waiting != [] && r in rows && r !in touched
        && r != waiting[0].id
    ensures rows[waiting[0].id].createdAt < rows[r].createdAt
  {
    if HasId(waiting, r) {
      var i :| 0 <= i < |waiting| && waiting[i].id == r;
    }
  }

  /** The rest of an orderly batch is older than every other row never handled, the head aside. */
  lemma RestIsOlder(rows: Rows, touched: set<Id>, firsts: seq<Id>, waiting: seq<Snapshot>, i: nat, r: Id)
    requires OrderInv(rows, touched, firsts, waiting) && i + 1 < |waiting|
    requires r in rows && r !in touched && r != waiting[0].id && !HasId(waiting[1..], r)
    ensures rows[waiting[i + 1].id].createdAt < rows[r].createdAt
  {
    BatchSplits(waiting, r);
  }

  /** A row handled for the first time is younger than every one before it. */
  lemma FirstsStayOrdered(rows: Rows, touched: set<Id>, firsts: seq<Id>, id: Id)
    requires id in rows && id !in touched
    requires forall q, r :: q in rows && r in rows && q in touched && r !in touched ==>
        rows[q].createdAt < rows[r].createdAt
    requires forall i :: 0 <= i < |firsts| ==> firsts[i] in rows && firsts[i] in touched
    requires forall i, j :: 0 <= i < j < |firsts| ==> rows[firsts[i]].createdAt < rows[firsts[j]].createdAt
    ensures forall i :: 0 <= i < |firsts| + 1 ==> (firsts + [id])[i] in rows && (firsts + [id])[i] in touched + {id}
    ensures forall i, j :: 0 <= i < j < |firsts| + 1 ==>
        rows[(firsts + [id])[i]].createdAt < rows[(firsts + [id])[j]].createdAt
  {
  }

  lemma HandledIsOlder(rows: Rows, touched: set<Id>, firsts: seq<Id>, waiting: seq<Snapshot>)
    requires OrderInv(rows, touched, firsts, waiting) && waiting != []
    ensures var handled := touched + {waiting[0].id};
      forall q, r :: q in rows && r in rows && q in handled && r !in handled ==> rows[q].createdAt < rows[r].createdAt
  {
    var handled := touched + {waiting[0].id};
    forall q, r | q in rows && r in rows && q in handled && r !in handled
      ensures rows[q].createdAt < rows[r].createdAt
    {
      if q == waiting[0].id {
        HeadIsOldestNew(rows, touched, firsts, waiting, r);
      }
    }
  }

  lemma RestIsOrdered(rows: Rows, touched: set<Id>, firsts: seq<Id>, waiting: seq<Snapshot>)
    requires OrderInv(rows, touched, firsts, waiting) && waiting != []
    ensures var rest := waiting[1..];
      && (forall i :: 0 <= i < |rest| ==> rest[i].id in rows)
      && (forall i, j :: 0 <= i < j < |rest| ==> rows[rest[i].id].createdAt < rows[rest[j].id].createdAt)
  {
  }

  /** Handling the head of an orderly batch first, if it is new, keeps the order. */
  lemma OrderOnEntry(rows: Rows, touched: set<Id>, firsts: seq<Id>, waiting: seq<Snapshot>)
    requires OrderInv(rows, touched, firsts, waiting) && waiting != []
    ensures var id := waiting[0].id;
      OrderInv(rows, touched + {id}, if id in touched then firsts else firsts + [id], waiting[1..])
  {
    var id, rest := waiting[0].id, waiting[1..];
    if id !in touched {
      FirstsStayOrdered(rows, touched, firsts, id);
    }
    HandledIsOlder(rows, touched, firsts, waiting);
    RestIsOrdered(rows, touched, firsts, waiting);
    forall i, r | 0 <= i < |rest| && r in rows && r !in touched + {id} && !HasId(rest, r)
      ensures rows[rest[i].id].createdAt < rows[r].createdAt
    {
      RestIsOlder(rows, touched, firsts, waiting, i, r);
    }
  }

  lemma OrderSameAges(rows: Rows, rows': Rows, touched: set<Id>, firsts: seq<Id>, waiting: seq<Snapshot>)
    requires OrderInv(rows, touched, firsts, waiting) && rows'.Keys == rows.Keys
    requires forall id :: id in rows ==> rows'[id].createdAt == rows[id].createdAt
    ensures OrderInv(rows', touched, firsts, waiting)
  {
  }

  /** A step that shows neither in ages, nor in what was touched, nor in what waits, keeps the order. */
  lemma OrderUnchanged(m: Machine, m': Machine)
    requires Orderly(m) && m'.rows.Keys == m.rows.Keys
    requires forall id :: id in m.rows ==> m'.rows[id].createdAt == m.rows[id].createdAt
    requires TouchedRows(m') == TouchedRows(m) && m'.firsts == m.firsts && WaitingBatch(m') == WaitingBatch(m)
    ensures Orderly(m')
  {
    OrderSameAges(m.rows, m'.rows, TouchedRows(m), m.firsts, WaitingBatch(m));
  }

  lemma NextEventTouchesTheHead(o: Options, m: Machine, rest: seq<Snapshot>)
    requires |m.loops| == 1 && rest != [] && rest[0].id in m.tally
    ensures var m', id := NextEvent(o, m, 0, rest), rest[0].id;
      && m'.rows == m.rows
      && TouchedRows(m') == TouchedRows(m) + {id}
      && m'.firsts == (if id in TouchedRows(m) then m.firsts else m.firsts + [id])
      && WaitingBatch(m') == rest[1..]
  {
  }

  lemma NextEventKeepsOrder(o: Options, m: Machine, rest: seq<Snapshot>)
    requires |m.loops| == 1 && m.tally.Keys == m.rows.Keys && OrderInv(m.rows, TouchedRows(m), m.firsts, rest)
    ensures rest != [] ==> rest[0].id in m.tally
    ensures Orderly(NextEvent(o, m, 0, rest))
  {
    if rest != [] {
      NextEventTouchesTheHead(o, m, rest);
      OrderOnEntry(m.rows, TouchedRows(m), m.firsts, rest);
    } else {
      assert WaitingBatch(NextEvent(o, m, 0, rest)) == [];
      assert TouchedRows(NextEvent(o, m, 0, rest)) == TouchedRows(m);
    }
  }

  lemma OrderWithYoungest(rows: Rows, touched: set<Id>, firsts: seq<Id>, waiting: seq<Snapshot>, id: Id, row: Row)
    requires OrderInv(rows, touched, firsts, waiting) && id !in rows && touched <= rows.Keys
    requires forall r :: r in rows ==> rows[r].createdAt < row.createdAt
    ensures OrderInv(rows[id := row], touched, firsts, waiting)
  {
  }

  lemma InsertKeepsOrder(m: Machine, id: Id, createdAt: int, resolvable: bool)
    requires m.tally.Keys == m.rows.Keys && Orderly(m) && id !in m.rows
    requires forall r :: r in m.rows ==> m.rows[r].createdAt < createdAt
    ensures Orderly(OnInsert(m, id, createdAt, resolvable))
  {
    assert TouchedRows(OnInsert(m, id, createdAt, resolvable)) == TouchedRows(m);
    OrderWithYoungest(m.rows, TouchedRows(m), m.firsts, WaitingBatch(m), id,
      Row(createdAt, resolvable, PENDING, 0, None));
  }

  lemma QueriedIds(rows: Rows, ids: seq<Id>, id: Id)
    requires (forall id :: id in ids ==> id in rows) && id in ids
    ensures HasId(Snapshots(rows, ids), id)
  {
    var k :| 0 <= k < |ids| && ids[k] == id;
    assert Snapshots(rows, ids)[k].id == id;
  }

  lemma UnhandledIsPending(o: Options, r: Row, t: Tally)
    requires o.maxRetries >= 1 && AtRest(o, r, t) && t.handled == 0 && r.status != PROCESSING
    ensures r.status == PENDING && r.lockedAt == None
  {
  }

  /** The query takes the oldest rows, so whatever is new and left out is younger than all it takes. */
  lemma NewRowsLeftOutAreYounger(o: Options, m: Machine, ids: seq<Id>, r: Id, i: nat)
    requires Inv(o, m) && Allowed(o, m, Found(0, ids))
    requires i < |ids| && r in m.rows && r !in TouchedRows(m) && !HasId(Snapshots(m.rows, ids), r)
    ensures ids[i] in m.rows && m.rows[ids[i]].createdAt <= m.rows[r].createdAt && ids[i] != r
  {
    assert AtRest(o, m.rows[ids[i]], m.tally[ids[i]]) && m.rows[ids[i]].status == PENDING;
    assert AtRest(o, m.rows[r], m.tally[r]) && m.tally[r].handled == 0;
    UnhandledIsPending(o, m.rows[r], m.tally[r]);
    if r in ids {
      QueriedIds(m.rows, ids, r);
      assert false;
    }
  }

  lemma OrderQueried(m: Machine, batch: seq<Snapshot>)
    requires |m.loops| == 1 && Orderly(m) && (forall i :: 0 <= i < |batch| ==> batch[i].id in m.rows)
    requires forall i, j :: 0 <= i < j < |batch| ==>
      batch[i].id != batch[j].id && m.rows[batch[i].id].createdAt <= m.rows[batch[j].id].createdAt
    requires forall i, r :: 0 <= i < |batch| && r in m.rows && r !in TouchedRows(m) && !HasId(batch, r) ==>
      m.rows[batch[i].id].createdAt <= m.rows[r].createdAt && batch[i].id != r
    ensures OrderInv(m.rows, TouchedRows(m), m.firsts, batch)
  {
  }

  lemma FoundKeepsOrder(o: Options, m: Machine, ids: seq<Id>)
    requires Inv(o, m) && Orderly(m) && Allowed(o, m, Found(0, ids))
    ensures Orderly(OnFound(m, 0, ids))
  {
    var m' := OnFound(m, 0, ids);
    assert TouchedRows(m') == TouchedRows(m);
    if ids == [] {
      assert WaitingBatch(m') == WaitingBatch(m) == [];
    } else {
      var batch := Snapshots(m.rows, ids);
      assert WaitingBatch(m') == batch;
      forall i, r | 0 <= i < |batch| && r in m.rows && r !in TouchedRows(m) && !HasId(batch, r)
        ensures m.rows[batch[i].id].createdAt <= m.rows[r].createdAt && batch[i].id != r
      {
        NewRowsLeftOutAreYounger(o, m, ids, r, i);
      }
      OrderQueried(m, batch);
    }
  }

  lemma ClaimKeepsOrder(o: Options, m: Machine)
    requires Inv(o, m) && Orderly(m) && OneLoop(m) && m.loops[0].Claiming?
    ensures Orderly(OnClaimed(o, m, 0))
  {
    var rows := Claim(m.rows, IdsOf(m.loops[0].batch), m.loops[0].now);
    OrderSameAges(m.rows, rows, TouchedRows(m), m.firsts, m.loops[0].batch);
    NextEventKeepsOrder(o, m.(rows := rows), m.loops[0].batch);
  }

  lemma QuietBurial(m: Machine)
    requires |m.loops| == 1 && m.loops[0].Burying? && m.loops[0].batch != []
    requires m.loops[0].batch[0].id in m.tally && m.loops[0].batch[0].id in m.rows
    ensures OnBuried(m, 0).firsts == m.firsts && TouchedRows(OnBuried(m, 0)) == TouchedRows(m)
  {
  }

  lemma BuryKeepsOrder(o: Options, m: Machine)
    requires Inv(o, m) && Orderly(m) && OneLoop(m) && m.loops[0].Burying?
    ensures Orderly(OnBuried(m, 0))
  {
    QuietBurial(m);
    OrderUnchanged(m, OnBuried(m, 0));
  }

  lemma QuietPublish(o: Options, m: Machine, ok: bool)
    requires |m.loops| == 1 && m.loops[0].Publishing? && m.loops[0].batch != [] && m.loops[0].batch[0].id in m.tally
    ensures OnPublished(o, m, 0, ok).firsts == m.firsts && TouchedRows(OnPublished(o, m, 0, ok)) == TouchedRows(m)
  {
  }

  lemma PublishKeepsOrder(o: Options, m: Machine, ok: bool)
    requires Inv(o, m) && Orderly(m) && OneLoop(m) && m.loops[0].Publishing?
    ensures Orderly(OnPublished(o, m, 0, ok))
  {
    QuietPublish(o, m, ok);
    OrderUnchanged(m, OnPublished(o, m, 0, ok));
  }

  /** Ticks, start and stop touch neither rows nor histories; a new loop waits for nothing yet. */
  lemma ControlKeepsOrder(o: Options, m: Machine, e: Event)
    requires Inv(o, m) && Known(m) && Allowed(o, m, e) && Orderly(m)
        && (e.StartCalled? || e.StopCalled? || e.TimerFires?)
    ensures Orderly(Step(o, m, e))
  {
    OrderUnchanged(m, Step(o, m, e));
  }

  lemma EndKeepsOrder(o: Options, m: Machine)
    requires Inv(o, m) && Orderly(m) && OneLoop(m)
        && (m.loops[0].Completing? || m.loops[0].Retrying? || m.loops[0].DeadLettering?)
    ensures Orderly(OnEnded(o, m, 0))
  {
    var batch := m.loops[0].batch;
    var rows := m.rows[batch[0].id := Ended(m, 0)];
    OrderSameAges(m.rows, rows, TouchedRows(m), m.firsts, batch[1..]);
    NextEventKeepsOrder(o, m.(rows := rows), batch[1..]);
  }

  lemma StepKeepsOrder(o: Options, m: Machine, e: Event)
    requires Inv(o, m) && Known(m) && Allowed(o, m, e) && Orderly(m)
    requires e.Insert? ==> forall r :: r in m.rows ==> m.rows[r].createdAt < e.createdAt
    ensures Orderly(Step(o, m, e))
  {
    match e {
      case Found(_, ids) => FoundKeepsOrder(o, m, ids);
      case ClaimWritten(_) => ClaimKeepsOrder(o, m);
      case PublishSettled(_, ok) => PublishKeepsOrder(o, m, ok);
      case RowWritten(_) =>
        if m.loops[0].Burying? {
          BuryKeepsOrder(o, m);
        } else {
          EndKeepsOrder(o, m);
        }
      case DeadLetterSettled(_) => EndKeepsOrder(o, m);
      case Insert(id, createdAt, resolvable) => InsertKeepsOrder(m, id, createdAt, resolvable);
      case _ => ControlKeepsOrder(o, m, e);
    }
  }

  lemma {:induction false} ReachableOrderly(o: Options, t: Trace<Event>, m: Machine)
    requires o.maxRetries >= 1 && Reaches(o, t, m) && InsertsInOrder(o, t)
    ensures Orderly(m)
  {
    if t.Then? {
      var m0 := LastStep(o, t, m);
      ReachableInv(o, t.before, m0);
      ReachableOrderly(o, t.before, m0);
      StepKeepsOrder(o, m0, t.event);
    }
  }

  lemma NextEventListsFirsts(o: Options, m: Machine, rest: seq<Snapshot>)
    requires |m.loops| == 1 && (rest != [] ==> rest[0].id in m.tally)
    requires forall id :: id in m.firsts <==> id in TouchedRows(m)
    ensures forall id :: id in NextEvent(o, m, 0, rest).firsts <==> id in TouchedRows(NextEvent(o, m, 0, rest))
  {
    if rest == [] {
      assert TouchedRows(NextEvent(o, m, 0, rest)) == TouchedRows(m);
    } else {
      NextEventTouchesTheHead(o, m, rest);
    }
  }

  lemma SameFirsts(m: Machine, m': Machine)
    requires (forall id :: id in m.firsts <==> id in TouchedRows(m)) && m'.firsts == m.firsts
        && TouchedRows(m') == TouchedRows(m)
    ensures forall id :: id in m'.firsts <==> id in TouchedRows(m')
  {
  }

  /** Ticks, start, stop and the query touch no history. */
  lemma QuietControl(o: Options, m: Machine, e: Event)
    requires Known(m) && Allowed(o, m, e) && (e.StartCalled? || e.StopCalled? || e.TimerFires? || e.Found?)
    ensures Step(o, m, e).firsts == m.firsts && Step(o, m, e).tally == m.tally
  {
  }

  lemma QuietInsert(m: Machine, id: Id, createdAt: int, resolvable: bool)
    requires id !in m.rows && m.tally.Keys == m.rows.Keys
    ensures TouchedRows(OnInsert(m, id, createdAt, resolvable)) == TouchedRows(m)
  {
  }

  /** Only turning to a next event begins a row's handling. */
  lemma QuietSteps(o: Options, m: Machine, e: Event)
    requires Known(m) && Allowed(o, m, e) && |m.loops| <= 1
    requires !e.ClaimWritten? && !e.DeadLetterSettled? && (e.RowWritten? ==> m.loops[0].Burying?)
    ensures Step(o, m, e).firsts == m.firsts && TouchedRows(Step(o, m, e)) == TouchedRows(m)
  {
    if e.PublishSettled? {
      QuietPublish(o, m, e.ok);
    } else if e.RowWritten? {
      QuietBurial(m);
    } else if e.Insert? {
      QuietInsert(m, e.id, e.createdAt, e.resolvable);
    } else {
      QuietControl(o, m, e);
    }
  }

  lemma StepListsFirsts(o: Options, m: Machine, e: Event)
    requires Known(m) && Allowed(o, m, e) && |m.loops| <= 1
    requires forall id :: id in m.firsts <==> id in TouchedRows(m)
    ensures forall id :: id in Step(o, m, e).firsts <==> id in TouchedRows(Step(o, m, e))
  {
    if e.ClaimWritten? {
      NextEventListsFirsts(o, m.(rows := Claim(m.rows, IdsOf(m.loops[0].batch), m.loops[0].now)), m.loops[0].batch);
    } else if e.DeadLetterSettled? || (e.RowWritten? && !m.loops[0].Burying?) {
      NextEventListsFirsts(o, m.(rows := m.rows[m.loops[0].batch[0].id := Ended(m, 0)]), m.loops[0].batch[1..]);
    } else {
      QuietSteps(o, m, e);
      SameFirsts(m, Step(o, m, e));
    }
  }

  /** Every handled row is listed. */
  lemma {:induction false} FirstsAreTouched(o: Options, t: Trace<Event>, m: Machine)
    requires o.maxRetries >= 1 && Reaches(o, t, m)
    ensures forall id :: id in m.firsts <==> id in TouchedRows(m)
  {
    if t.Then? {
      var m0 := LastStep(o, t, m);
      ReachableInv(o, t.before, m0);
      FirstsAreTouched(o, t.before, m0);
      StepListsFirsts(o, m0, t.event);
    }
  }

  /**
   First attempts come in createdAt order, whatever fails and is retried in between: `firsts` lists exactly
   the rows ever handled, each younger than the one before, and every row not yet handled is younger still.
   */
  lemma FirstAttemptOrder(o: Options, t: Trace<Event>, m: Machine)
    requires o.maxRetries >= 1 && Reaches(o, t, m) && InsertsInOrder(o, t)
    ensures forall i :: 0 <= i < |m.firsts| ==> m.firsts[i] in m.rows
    ensures forall i, j :: 0 <= i < j < |m.firsts| ==> m.rows[m.firsts[i]].createdAt < m.rows[m.firsts[j]].createdAt
    ensures forall i, r :: 0 <= i < |m.firsts| && r in m.rows && r !in TouchedRows(m) ==>
      m.rows[m.firsts[i]].createdAt < m.rows[r].createdAt
    ensures forall id :: id in m.firsts <==> id in TouchedRows(m)
  {
    ReachableInv(o, t, m);
    ReachableOrderly(o, t, m);
    FirstsAreTouched(o, t, m);
  }

  // ---------------------------------------------------------------- undisturbed batches are those of module Outbox

  /** The loop has just turned to the head of its batch. */
  ghost predicate AtNextEvent(m: Machine) {
    && |m.loops| == 1 && !m.loops[0].Finding? && !m.loops[0].Claiming? && !m.loops[0].Completing?
        && !m.loops[0].DeadLettering?
    && m.loops[0].batch != []
    && (m.loops[0].Publishing? <==> m.loops[0].batch[0].resolvable)
  }

  lemma NextEventEnters(o: Options, m: Machine, rest: seq<Snapshot>)
    requires |m.loops| == 1 && (rest != [] ==> rest[0].id in m.tally)
    ensures var m' := NextEvent(o, m, 0, rest);
      && m'.rows == m.rows
      && (rest == [] ==> m'.loops == [])
      && (rest != [] ==> AtNextEvent(m') && m'.loops[0].batch == rest)
  {
  }

  /** The publish has settled, or was never issued: the loop knows what to write. */
  ghost predicate Decided(o: Options, m: Machine, rows: Rows, batch: seq<Snapshot>, ok: bool) {
    && |m.loops| == 1 && batch != [] && m.rows == rows
    && m.loops[0] ==
         if batch[0].resolvable && ok then Completing(batch)
         else if batch[0].retryCount + 1 >= o.maxRetries then Burying(batch) else Retrying(batch)
  }

  /** The publish attempt of an event that has not settled yet; module Outbox logs it when it settles. */
  function InFlight(m: Machine, id: Id): nat {
    One(|m.loops| == 1 && m.loops[0].Publishing? && m.loops[0].batch != [] && m.loops[0].batch[0].id == id)
  }

  /** By how much a row's settled publish attempts, to its topic and to the dead-letter topic, exceed two logs. */
  ghost function Ahead(m: Machine, published: seq<Id>, deadLettered: seq<Id>, id: Id): (int, int)
    requires id in m.tally
  {
    (m.tally[id].published - InFlight(m, id) - multiset(published)[id],
     m.tally[id].deadLettered - multiset(deadLettered)[id])
  }

  /** The histories and the logs have grown by the same attempts. */
  ghost predicate GrowAlike(m: Machine, w: World, m': Machine, w': World) {
    && m'.tally.Keys == m.tally.Keys
    && forall id :: id in m.tally ==>
         Ahead(m', w'.published, w'.deadLettered, id) == Ahead(m, w.published, w.deadLettered, id)
  }

  lemma PublishSettles(o: Options, m: Machine, w: World, ok: bool)
    requires |m.loops| == 1 && m.loops[0].Publishing? && m.loops[0].batch != [] && m.loops[0].batch[0].id in m.tally
    ensures GrowAlike(m, w, OnPublished(o, m, 0, ok), w.(published := w.published + [m.loops[0].batch[0].id]))
  {
  }

  lemma BurialLogs(m: Machine, w: World)
    requires |m.loops| == 1 && m.loops[0].Burying? && m.loops[0].batch != []
    requires m.loops[0].batch[0].id in m.tally && m.loops[0].batch[0].id in m.rows
    ensures GrowAlike(m, w, OnBuried(m, 0), w.(deadLettered := w.deadLettered + [m.loops[0].batch[0].id]))
  {
  }

  lemma GrowthAddsUp(m: Machine, w: World, m1: Machine, w1: World, m': Machine, w': World)
    requires GrowAlike(m, w, m1, w1) && GrowAlike(m1, w1, m', w')
    ensures GrowAlike(m, w, m', w')
  {
    forall id | id in m.tally
      ensures Ahead(m', w'.published, w'.deadLettered, id) == Ahead(m, w.published, w.deadLettered, id)
    {
      assert Ahead(m1, w1.published, w1.deadLettered, id) == Ahead(m, w.published, w.deadLettered, id);
    }
  }

  lemma TurningTallies(o: Options, m: Machine, rest: seq<Snapshot>)
    requires |m.loops| == 1 && rest != [] && rest[0].id in m.tally
    ensures var m', e := NextEvent(o, m, 0, rest), rest[0];
      && |m'.loops| == 1 && !m'.loops[0].Finding? && m'.loops[0].batch == rest
      && (m'.loops[0].Publishing? <==> e.resolvable)
      && e.id in m'.tally && m'.tally == m.tally[e.id := m'.tally[e.id]]
      && m'.tally[e.id].published == m.tally[e.id].published + One(e.resolvable)
      && m'.tally[e.id].deadLettered == m.tally[e.id].deadLettered
  {
  }

  lemma IssuedIsNotLogged(m: Machine, w: World, m': Machine, e: Snapshot)
    requires |m.loops| == 1 && !m.loops[0].Publishing? && e.id in m.tally && e.id in m'.tally
    requires |m'.loops| == 1 && !m'.loops[0].Finding? && m'.loops[0].batch != [] && m'.loops[0].batch[0] == e
    requires m'.loops[0].Publishing? <==> e.resolvable
    requires m'.tally == m.tally[e.id := m'.tally[e.id]]
    requires m'.tally[e.id].published == m.tally[e.id].published + One(e.resolvable)
        && m'.tally[e.id].deadLettered == m.tally[e.id].deadLettered
    ensures GrowAlike(m, w, m', w)
  {
  }

  /** Turning to an event logs nothing: its publish is in flight. */
  lemma TurningLogsNothing(o: Options, m: Machine, w: World, rest: seq<Snapshot>)
    requires |m.loops| == 1 && !m.loops[0].Publishing? && (rest != [] ==> rest[0].id in m.tally)
    ensures GrowAlike(m, w, NextEvent(o, m, 0, rest), w)
  {
    if rest != [] {
      TurningTallies(o, m, rest);
      IssuedIsNotLogged(m, w, NextEvent(o, m, 0, rest), rest[0]);
    }
  }

  lemma EndLogsNothing(o: Options, m: Machine, w: World)
    requires |m.loops| == 1 && !m.loops[0].Finding? && !m.loops[0].Publishing? && m.loops[0].batch != []
    requires m.loops[0].batch[0].id in m.rows && (|m.loops[0].batch| > 1 ==> m.loops[0].batch[1].id in m.tally)
    ensures GrowAlike(m, w, OnEnded(o, m, 0), w)
  {
    var written := m.(rows := m.rows[m.loops[0].batch[0].id := Ended(m, 0)]);
    TurningLogsNothing(o, written, w, m.loops[0].batch[1..]);
    GrowthAddsUp(m, w, written, w, OnEnded(o, m, 0), w);
  }

  lemma ClaimLogsNothing(o: Options, m: Machine, w: World)
    requires |m.loops| == 1 && m.loops[0].Claiming?
    requires m.loops[0].batch != [] ==> m.loops[0].batch[0].id in m.tally
    ensures GrowAlike(m, w, OnClaimed(o, m, 0), w)
  {
    var claimed := m.(rows := Claim(m.rows, IdsOf(m.loops[0].batch), m.loops[0].now));
    TurningLogsNothing(o, claimed, w, m.loops[0].batch);
    GrowthAddsUp(m, w, claimed, w, OnClaimed(o, m, 0), w);
  }

  /** The log of publish attempts once the publish of the head of the batch has settled. */
  function WithPublish(m: Machine, w: World): World {
    if |m.loops| == 1 && m.loops[0].Publishing? && m.loops[0].batch != [] then
      w.(published := w.published + [m.loops[0].batch[0].id])
    else w
  }

  lemma PublishUndisturbed(o: Options, t: Trace<Event>, m: Machine, w: World, ok: bool)
      returns (t': Trace<Event>, m': Machine)
    requires o.maxRetries >= 1 && Reaches(o, t, m) && AtNextEvent(m)
    ensures Reaches(o, t', m') && Decided(o, m', m.rows, m.loops[0].batch, ok)
    ensures GrowAlike(m, w, m', WithPublish(m, w))
  {
    ReachableInv(o, t, m);
    t', m' := t, m;
    if m.loops[0].Publishing? {
      t', m' := OneMore(o, t, m, PublishSettled(0, ok));
      PublishSettles(o, m, w, ok);
    }
  }

  /** The loop is through with the head of the batch. */
  ghost predicate WentOn(m: Machine, rows: Rows, rest: seq<Snapshot>) {
    m.rows == rows && if rest == [] then m.loops == [] else AtNextEvent(m) && m.loops[0].batch == rest
  }

  lemma EndUndisturbed(o: Options, t: Trace<Event>, m: Machine, w: World, e: Event)
      returns (t': Trace<Event>, m': Machine)
    requires o.maxRetries >= 1 && Reaches(o, t, m) && |m.loops| == 1
    requires (e == RowWritten(0) && (m.loops[0].Completing? || m.loops[0].Retrying?))
        || (e == DeadLetterSettled(0) && m.loops[0].DeadLettering?)
    ensures m.loops[0].batch != [] && m.loops[0].batch[0].id in m.rows
    ensures Reaches(o, t', m')
    ensures WentOn(m', m.rows[m.loops[0].batch[0].id := Ended(m, 0)], m.loops[0].batch[1..])
    ensures GrowAlike(m, w, m', w)
  {
    ReachableInv(o, t, m);
    var batch := m.loops[0].batch;
    assert forall i :: 0 <= i < |batch[1..]| ==> batch[1..][i] in batch;
    t', m' := OneMore(o, t, m, e);
    NextEventEnters(o, m.(rows := m.rows[batch[0].id := Ended(m, 0)]), batch[1..]);
    assert m' == OnEnded(o, m, 0);
    EndLogsNothing(o, m, w);
  }

  lemma BuryWritten(o: Options, t: Trace<Event>, m: Machine) returns (t': Trace<Event>, m': Machine)
    requires o.maxRetries >= 1 && Reaches(o, t, m) && |m.loops| == 1 && m.loops[0].Burying?
    ensures m.loops[0].batch != [] && m.loops[0].batch[0].id in m.rows && m.loops[0].batch[0].id in m.tally
    ensures Reaches(o, t', m') && m' == OnBuried(m, 0) && |m'.loops| == 1 && m'.loops[0].DeadLettering?
  {
    ReachableInv(o, t, m);
    t', m' := OneMore(o, t, m, RowWritten(0));
  }

  /** What is left to write of a decided event, and how the logs stand once it is written. */
  ghost predicate ToWrite(m: Machine, batch: seq<Snapshot>, w: World, w': World) {
    && |m.loops| == 1 && (m.loops[0].Completing? || m.loops[0].Retrying? || m.loops[0].Burying?)
    && m.loops[0].batch == batch && batch != [] && batch[0].id in m.rows
    && w'.rows == (if m.loops[0].Burying? then Bury(m.rows, batch[0].id, batch[0].retryCount + 1)
        else m.rows[batch[0].id := Ended(m, 0)])
    && w'.published == w.published
    && w'.deadLettered == w.deadLettered + if m.loops[0].Burying? then [batch[0].id] else []
  }

  lemma DecidedRows(o: Options, m: Machine, m0: Machine, w: World, batch: seq<Snapshot>, ok: bool)
    requires Decided(o, m, w.rows, batch, ok) && batch[0].id in w.rows
    requires AtNextEvent(m0) && m0.loops[0].batch == batch
    ensures ToWrite(m, batch, WithPublish(m0, w), HandleEvent(o, w, batch[0], ok))
  {
  }

  lemma EndedThenWentOn(m: Machine, m': Machine, batch: seq<Snapshot>, w: World, w': World)
    requires ToWrite(m, batch, w, w') && !m.loops[0].Burying?
    requires WentOn(m', m.rows[m.loops[0].batch[0].id := Ended(m, 0)], m.loops[0].batch[1..])
    ensures WentOn(m', w'.rows, batch[1..])
  {
  }

  lemma BuriedThenWentOn(m: Machine, m1: Machine, m': Machine, batch: seq<Snapshot>, w: World, w': World)
    requires ToWrite(m, batch, w, w') && m.loops[0].Burying? && m.loops[0].batch[0].id in m.tally
        && m1 == OnBuried(m, 0)
    requires WentOn(m', m1.rows[m1.loops[0].batch[0].id := Ended(m1, 0)], m1.loops[0].batch[1..])
    ensures WentOn(m', w'.rows, batch[1..])
  {
    assert m1.rows[m.loops[0].batch[0].id := Ended(m1, 0)] == m1.rows;
  }

  /** The growth of the histories does not depend on the table of the world compared with. */
  lemma OnlyLogsGrow(m: Machine, w: World, m': Machine, w1: World, w': World)
    requires GrowAlike(m, w, m', w1) && w'.published == w1.published && w'.deadLettered == w1.deadLettered
    ensures GrowAlike(m, w, m', w')
  {
  }

  lemma WriteUndisturbed(o: Options, t: Trace<Event>, m: Machine, batch: seq<Snapshot>, w: World, w': World)
      returns (t': Trace<Event>, m': Machine)
    requires o.maxRetries >= 1 && Reaches(o, t, m) && ToWrite(m, batch, w, w') && !m.loops[0].Burying?
    ensures Reaches(o, t', m') && WentOn(m', w'.rows, batch[1..]) && GrowAlike(m, w, m', w')
  {
    t', m' := EndUndisturbed(o, t, m, w, RowWritten(0));
    EndedThenWentOn(m, m', batch, w, w');
    OnlyLogsGrow(m, w, m', w, w');
  }

  lemma WriteDeadUndisturbed(o: Options, t: Trace<Event>, m: Machine, batch: seq<Snapshot>, w: World, w': World)
      returns (t': Trace<Event>, m': Machine)
    requires o.maxRetries >= 1 && Reaches(o, t, m) && ToWrite(m, batch, w, w') && m.loops[0].Burying?
    ensures Reaches(o, t', m') && WentOn(m', w'.rows, batch[1..]) && GrowAlike(m, w, m', w')
  {
    var w1 := w.(deadLettered := w.deadLettered + [m.loops[0].batch[0].id]);
    var t1, m1 := BuryWritten(o, t, m);
    BurialLogs(m, w);
    t', m' := EndUndisturbed(o, t1, m1, w1, DeadLetterSettled(0));
    BuriedThenWentOn(m, m1, m', batch, w, w');
    GrowthAddsUp(m, w, m1, w1, m', w1);
    OnlyLogsGrow(m, w, m', w1, w');
  }

  /**
   The steps of one event, with nothing in between, do to the table, to the publish attempts and to the dead
   letters what `HandleEvent` does.
   */
  lemma OneEventUndisturbed(o: Options, t: Trace<Event>, m: Machine, w: World, ok: bool)
      returns (t': Trace<Event>, m': Machine)
    requires o.maxRetries >= 1 && Reaches(o, t, m) && AtNextEvent(m) && w.rows == m.rows
        && m.loops[0].batch[0].id in w.rows
    ensures Reaches(o, t', m')
    ensures WentOn(m', HandleEvent(o, w, m.loops[0].batch[0], ok).rows, m.loops[0].batch[1..])
    ensures GrowAlike(m, w, m', HandleEvent(o, w, m.loops[0].batch[0], ok))
  {
    var t1, m1 := PublishUndisturbed(o, t, m, w, ok);
    DecidedRows(o, m1, m, w, m.loops[0].batch, ok);
    var w1, w' := WithPublish(m, w), HandleEvent(o, w, m.loops[0].batch[0], ok);
    if m1.loops[0].Burying? {
      t', m' := WriteDeadUndisturbed(o, t1, m1, m.loops[0].batch, w1, w');
    } else {
      t', m' := WriteUndisturbed(o, t1, m1, m.loops[0].batch, w1, w');
    }
    GrowthAddsUp(m, w, m1, w1, m', w');
  }

  lemma {:induction false} RestOfBatchUndisturbed(o: Options, t: Trace<Event>, m: Machine, w: World,
      publishOk: Id -> bool)
    returns (t': Trace<Event>, m': Machine)
    requires o.maxRetries >= 1 && Reaches(o, t, m) && AtNextEvent(m) && w.rows == m.rows
    requires forall e :: e in m.loops[0].batch ==> e.id in w.rows
    ensures Reaches(o, t', m') && m'.loops == [] && m'.rows == HandleAll(o, w, m.loops[0].batch, publishOk).rows
    ensures GrowAlike(m, w, m', HandleAll(o, w, m.loops[0].batch, publishOk))
    decreases |m.loops[0].batch|
  {
    var batch := m.loops[0].batch;
    var w1 := HandleEvent(o, w, batch[0], publishOk(batch[0].id));
    var t1, m1 := OneEventUndisturbed(o, t, m, w, publishOk(batch[0].id));
    t', m' := t1, m1;
    if |batch| > 1 {
      t', m' := RestOfBatchUndisturbed(o, t1, m1, w1, publishOk);
      GrowthAddsUp(m, w, m1, w1, m', HandleAll(o, w1, batch[1..], publishOk));
    }
  }

  lemma QueryUndisturbed(o: Options, t: Trace<Event>, m: Machine, now: int, ids: seq<Id>)
      returns (t': Trace<Event>, m': Machine)
    requires o.maxRetries >= 1 && Reaches(o, t, m) && m.intervals > 0 && m.loops == []
        && QueryResult(o, m.rows, now, ids)
    ensures Reaches(o, t', m') && Inv(o, m') && Known(m') && m'.rows == m.rows && m'.tally == m.tally
    ensures m'.loops == if ids == [] then [] else [Claiming(now, Snapshots(m.rows, ids))]
  {
    ReachableInv(o, t, m);
    t', m' := OneMore(o, t, m, TimerFires(now));
    assert m' == Trigger(m, now);
    t', m' := OneMore(o, t', m', Found(0, ids));
  }

  lemma QueriedThenWentOn(o: Options, m: Machine, w: World, m1: Machine, now: int, ids: seq<Id>)
    requires Known(m1) && ids != [] && (forall id :: id in ids ==> id in m.rows)
    requires m.loops == [] && m1.rows == m.rows && m1.tally == m.tally
        && m1.loops == [Claiming(now, Snapshots(m.rows, ids))]
    ensures WentOn(OnClaimed(o, m1, 0), Claim(m.rows, ids, now), Snapshots(m.rows, ids))
    ensures GrowAlike(m, w, OnClaimed(o, m1, 0), w)
  {
    var batch := Snapshots(m.rows, ids);
    assert IdsOf(batch) == ids;
    NextEventEnters(o, m1.(rows := Claim(m.rows, ids, now)), batch);
    ClaimLogsNothing(o, m1, w);
    GrowthAddsUp(m, w, m1, w, OnClaimed(o, m1, 0), w);
  }

  /** From tick to claim. */
  lemma ClaimUndisturbed(o: Options, t: Trace<Event>, m: Machine, w: World, now: int, ids: seq<Id>)
      returns (t': Trace<Event>, m': Machine)
    requires o.maxRetries >= 1 && Reaches(o, t, m) && m.intervals > 0 && m.loops == []
        && QueryResult(o, m.rows, now, ids) && ids != []
    ensures Reaches(o, t', m') && WentOn(m', Claim(m.rows, ids, now), Snapshots(m.rows, ids))
    ensures GrowAlike(m, w, m', w)
  {
    var t1, m1 := QueryUndisturbed(o, t, m, now, ids);
    t', m' := OneMore(o, t1, m1, ClaimWritten(0));
    QueriedThenWentOn(o, m, w, m1, now, ids);
  }

  /** Between two idle states: every row was published, and dead-lettered, as often as the logs say. */
  ghost predicate LogsTell(m: Machine, w: World, m': Machine, w': World) {
    && m'.tally.Keys == m.tally.Keys
    && forall id :: id in m.tally ==>
         && m'.tally[id].published + multiset(w.published)[id] == m.tally[id].published + multiset(w'.published)[id]
         && m'.tally[id].deadLettered + multiset(w.deadLettered)[id] ==
              m.tally[id].deadLettered + multiset(w'.deadLettered)[id]
  }

  lemma GrowthAtRest(m: Machine, w: World, m': Machine, w': World)
    requires GrowAlike(m, w, m', w') && m.loops == [] && m'.loops == []
    ensures LogsTell(m, w, m', w')
  {
    forall id | id in m.tally
      ensures m'.tally[id].published + multiset(w.published)[id] == m.tally[id].published + multiset(w'.published)[id]
      ensures m'.tally[id].deadLettered + multiset(w.deadLettered)[id] ==
          m.tally[id].deadLettered + multiset(w'.deadLettered)[id]
    {
      assert Ahead(m', w'.published, w'.deadLettered, id) == Ahead(m, w.published, w.deadLettered, id);
    }
  }

  /**
   A tick that finds the poller idle can run, undisturbed, to exactly the table `RunBatch` gives, having published
   and dead-lettered each row as often as `RunBatch` logs it.
   */
  lemma UndisturbedTick(o: Options, t: Trace<Event>, m: Machine, w: World, now: int, ids: seq<Id>,
      publishOk: Id -> bool)
    returns (t': Trace<Event>, m': Machine)
    requires o.maxRetries >= 1 && Reaches(o, t, m) && m.intervals > 0 && m.loops == [] && w.rows == m.rows
    requires QueryResult(o, m.rows, now, ids)
    ensures Reaches(o, t', m') && m'.loops == [] && m'.rows == RunBatch(o, w, now, ids, publishOk).rows
    ensures LogsTell(m, w, m', RunBatch(o, w, now, ids, publishOk))
  {
    if ids == [] {
      t', m' := QueryUndisturbed(o, t, m, now, ids);
      assert Claim(m.rows, [], now) == m.rows;
    } else {
      var t1, m1 := ClaimUndisturbed(o, t, m, w, now, ids);
      var w1 := w.(rows := m1.rows);
      t', m' := RestOfBatchUndisturbed(o, t1, m1, w1, publishOk);
      assert GrowAlike(m, w, m1, w1);
      GrowthAddsUp(m, w, m1, w1, m', RunBatch(o, w, now, ids, publishOk));
      GrowthAtRest(m, w, m', RunBatch(o, w, now, ids, publishOk));
    }
  }
}
