/**
 The drain bound over interleaved runs: however ticks, start and stop fall, a table into which nothing is inserted is
 drained once floor(S / batchSize) + maxRetries batches have ended.
 */
module OutboxDrain {
  import opened Wrappers
  import opened Outbox
  import opened OutboxRuns

  /** The batch under way: the table and the time of its query, and what it returned. */
  datatype Batch = Batch(base: Rows, now: int, ids: seq<Id>)

  /** Events of the batch whose outcome is not yet written. */
  function Open(p: Phase): seq<Snapshot> {
    if p.Finding? then [] else if p.DeadLettering? && p.batch != [] then p.batch[1..] else p.batch
  }

  /**
   What a batch has done to a row so far: nothing if it did not take it, and cost it an attempt once it was written.
   */
  ghost predicate Progressed(o: Options, before: Row, r: Row, taken: bool, open: bool) {
    if !taken then r == before
    else if open then Credit(o, r) == Credit(o, before)
    else Credit(o, r) < Credit(o, before)
  }

  ghost predicate Underway(o: Options, b: Batch, rows: Rows, open: seq<Snapshot>) {
    && b.ids != [] && QueryResult(o, b.base, b.now, b.ids) && rows.Keys == b.base.Keys
    && (forall i :: 0 <= i < |open| ==> open[i].id in b.ids)
    && (forall id :: id in rows ==> Progressed(o, b.base[id], rows[id], id in b.ids, HasId(open, id)))
  }

  /** n more batches are enough, counting the one under way. */
  ghost predicate Towards(o: Options, m: Machine, n: nat, b: Batch)
    requires o.batchSize >= 1
  {
    if m.loops == [] || m.loops[0].Finding? then Suffices(o, m.rows, n)
    else Underway(o, b, m.rows, Open(m.loops[0])) && Suffices(o, b.base, n)
  }

  // ---------------------------------------------------------------- a batch that has ended

  lemma {:induction false} OwedFalls(o: Options, rows: Rows, rows': Rows, ids: set<Id>, spent: set<Id>)
    requires ids <= rows.Keys && ids <= rows'.Keys && spent <= ids
    requires forall id :: id in ids ==> Credit(o, rows'[id]) + One(id in spent) <= Credit(o, rows[id])
    ensures Owed(o, rows', ids) + |spent| <= Owed(o, rows, ids)
    decreases ids
  {
    if ids == {} {
      assert spent == {};
    } else {
      var id :| id in ids;
      OwedPick(o, rows, ids, id);
      OwedPick(o, rows', ids, id);
      OwedFalls(o, rows, rows', ids - {id}, spent - {id});
      assert |spent| == |spent - {id}| + One(id in spent) by {
        assert id in spent ==> spent == (spent - {id}) + {id};
        assert id !in spent ==> spent == spent - {id};
      }
    }
  }

  lemma BatchEnds(o: Options, b: Batch, rows: Rows)
    requires Underway(o, b, rows, []) && Settled(o, rows)
    ensures Spends(o, b.base, b.ids, rows)
  {
    DistinctSize(b.ids);
    assert forall id :: id in rows ==> !HasId([], id);
    OwedFalls(o, b.base, rows, rows.Keys, IdSet(b.ids));
  }

  // ---------------------------------------------------------------- every step

  lemma IdsAreSettled(o: Options, m: Machine)
    requires Inv(o, m) && (m.loops == [] || m.loops[0].Finding?)
    ensures Settled(o, m.rows)
  {
    assert forall id :: id in m.rows ==> AtRest(o, m.rows[id], m.tally[id]);
  }

  lemma QueryStarts(o: Options, rows: Rows, now: int, ids: seq<Id>)
    requires QueryResult(o, rows, now, ids) && ids != []
    ensures Underway(o, Batch(rows, now, ids), rows, Snapshots(rows, ids))
  {
    forall id | id in rows ensures HasId(Snapshots(rows, ids), id) <==> id in ids {
      if id in ids {
        QueriedIds(rows, ids, id);
      }
    }
  }

  lemma ClaimCostsNothing(o: Options, b: Batch, rows: Rows, batch: seq<Snapshot>, now: int)
    requires Underway(o, b, rows, batch) && WaitingInv(rows, batch, PENDING)
    ensures Underway(o, b, Claim(rows, IdsOf(batch), now), batch)
  {
    var claimed := Claim(rows, IdsOf(batch), now);
    assert claimed.Keys == rows.Keys;
    forall id | id in claimed ensures Progressed(o, b.base[id], claimed[id], id in b.ids, HasId(batch, id)) {
      assert Progressed(o, b.base[id], rows[id], id in b.ids, HasId(batch, id));
      if id in IdsOf(batch) {
        var i :| 0 <= i < |batch| && IdsOf(batch)[i] == id;
        assert batch[i].id == id;
      }
    }
  }

  /** Writing the outcome of the head costs its row an attempt. */
  lemma HeadIsSpent(o: Options, b: Batch, rows: Rows, batch: seq<Snapshot>, r: Row)
    requires batch != [] && Underway(o, b, rows, batch)
        && (forall i, j :: 0 <= i < j < |batch| ==> batch[i].id != batch[j].id)
    requires batch[0].id in rows && Credit(o, r) < Credit(o, rows[batch[0].id])
    ensures Underway(o, b, rows[batch[0].id := r], batch[1..])
  {
    var id, rows' := batch[0].id, rows[batch[0].id := r];
    assert HasId(batch, id) && !HasId(batch[1..], id);
    forall k | k in rows' ensures Progressed(o, b.base[k], rows'[k], k in b.ids, HasId(batch[1..], k)) {
      assert Progressed(o, b.base[k], rows[k], k in b.ids, HasId(batch, k));
      BatchSplits(batch, k);
    }
  }

  /** The loop turns to the rest of its batch, or ends with it. */
  lemma GoesOn(o: Options, m: Machine, rest: seq<Snapshot>, n: nat, b: Batch)
    requires o.batchSize >= 1 && |m.loops| == 1 && (rest != [] ==> rest[0].id in m.tally)
    requires Underway(o, b, m.rows, rest) && Suffices(o, b.base, n) && Inv(o, NextEvent(o, m, 0, rest))
    ensures var m' := NextEvent(o, m, 0, rest);
      m'.finished == m.finished + One(rest == []) && Towards(o, m', if rest == [] && n > 0 then n - 1 else n, b)
  {
    var m' := NextEvent(o, m, 0, rest);
    NextEventEnters(o, m, rest);
    if rest == [] {
      IdsAreSettled(o, m');
      BatchEnds(o, b, m.rows);
      OneBatchFewer(o, b.base, b.now, b.ids, m.rows, n);
    }
  }

  /** Batches still needed after a step: one less if a batch ended in it. */
  function Left(m: Machine, m': Machine, n: nat): nat {
    if m'.finished > m.finished && n > 0 then n - 1 else n
  }

  lemma FoundTowards(o: Options, m: Machine, ids: seq<Id>, n: nat, b: Batch) returns (b': Batch)
    requires o.batchSize >= 1 && Inv(o, m) && Known(m) && Allowed(o, m, Found(0, ids)) && Towards(o, m, n, b)
    ensures Towards(o, OnFound(m, 0, ids), Left(m, OnFound(m, 0, ids), n), b')
  {
    b' := Batch(m.rows, m.loops[0].now, ids);
    IdsAreSettled(o, m);
    if ids == [] {
      assert Spends(o, m.rows, ids, m.rows);
      OneBatchFewer(o, m.rows, m.loops[0].now, ids, m.rows, n);
    } else {
      QueryStarts(o, m.rows, m.loops[0].now, ids);
    }
  }

  lemma ClaimTowards(o: Options, m: Machine, n: nat, b: Batch)
    requires o.batchSize >= 1 && Inv(o, m) && OneLoop(m) && m.loops[0].Claiming? && Towards(o, m, n, b)
    ensures Towards(o, OnClaimed(o, m, 0), Left(m, OnClaimed(o, m, 0), n), b)
  {
    var batch := m.loops[0].batch;
    ClaimCostsNothing(o, b, m.rows, batch, m.loops[0].now);
    ClaimKeepsInv(o, m);
    GoesOn(o, m.(rows := Claim(m.rows, IdsOf(batch), m.loops[0].now)), batch, n, b);
  }

  /** The row written for a completed or retried event has less credit than before. */
  lemma WritingCosts(o: Options, m: Machine)
    requires o.maxRetries >= 1 && Inv(o, m) && |m.loops| == 1 && (m.loops[0].Completing? || m.loops[0].Retrying?)
    ensures m.loops[0].batch != [] && m.loops[0].batch[0].id in m.rows
    ensures Credit(o, Ended(m, 0)) < Credit(o, m.rows[m.loops[0].batch[0].id])
  {
  }

  lemma HeadWrittenTowards(o: Options, m: Machine, r: Row, n: nat, b: Batch)
    requires o.batchSize >= 1 && |m.loops| == 1 && !m.loops[0].Finding? && m.loops[0].batch != []
    requires var batch := m.loops[0].batch;
      && Underway(o, b, m.rows, batch) && Suffices(o, b.base, n)
      && (forall i, j :: 0 <= i < j < |batch| ==> batch[i].id != batch[j].id)
      && batch[0].id in m.rows && Credit(o, r) < Credit(o, m.rows[batch[0].id])
      && (|batch| > 1 ==> batch[1].id in m.tally)
      && Inv(o, NextEvent(o, m.(rows := m.rows[batch[0].id := r]), 0, batch[1..]))
    ensures var m' := NextEvent(o, m.(rows := m.rows[m.loops[0].batch[0].id := r]), 0, m.loops[0].batch[1..]);
      Towards(o, m', Left(m, m', n), b)
  {
    var batch := m.loops[0].batch;
    assert Underway(o, b, m.rows[batch[0].id := r], batch[1..]) by {
      HeadIsSpent(o, b, m.rows, batch, r);
    }
    GoesOn(o, m.(rows := m.rows[batch[0].id := r]), batch[1..], n, b);
  }

  lemma WrittenTowards(o: Options, m: Machine, n: nat, b: Batch)
    requires o.maxRetries >= 1 && o.batchSize >= 1 && Inv(o, m) && OneLoop(m) && Towards(o, m, n, b)
    requires m.loops[0].Completing? || m.loops[0].Retrying?
    ensures Towards(o, OnEnded(o, m, 0), Left(m, OnEnded(o, m, 0), n), b)
  {
    WritingCosts(o, m);
    EndKeepsInv(o, m);
    HeadWrittenTowards(o, m, Ended(m, 0), n, b);
  }

  lemma DeadLetteredTowards(o: Options, m: Machine, n: nat, b: Batch)
    requires o.maxRetries >= 1 && o.batchSize >= 1 && Inv(o, m) && OneLoop(m) && m.loops[0].DeadLettering?
        && Towards(o, m, n, b)
    ensures Towards(o, OnEnded(o, m, 0), Left(m, OnEnded(o, m, 0), n), b)
  {
    var batch := m.loops[0].batch;
    assert m.rows[batch[0].id := Ended(m, 0)] == m.rows;
    EndKeepsInv(o, m);
    GoesOn(o, m, batch[1..], n, b);
  }

  lemma BuryingCosts(o: Options, m: Machine)
    requires Inv(o, m) && |m.loops| == 1 && m.loops[0].Burying?
    ensures m.loops[0].batch != [] && m.loops[0].batch[0].id in m.rows
    ensures Credit(o, m.rows[m.loops[0].batch[0].id]) > 0
    ensures forall i, j :: 0 <= i < j < |m.loops[0].batch| ==> m.loops[0].batch[i].id != m.loops[0].batch[j].id
  {
  }

  lemma BuriedLeaves(m: Machine, r: Row)
    requires |m.loops| == 1 && m.loops[0].Burying? && m.loops[0].batch != []
    requires m.loops[0].batch[0].id in m.tally && m.loops[0].batch[0].id in m.rows
    requires r == Bury(m.rows, m.loops[0].batch[0].id, m.loops[0].batch[0].retryCount + 1)[m.loops[0].batch[0].id]
    ensures var m' := OnBuried(m, 0);
      && m'.rows == m.rows[m.loops[0].batch[0].id := r] && m'.finished == m.finished
      && m'.loops == [DeadLettering(m.loops[0].batch)] && Open(m'.loops[0]) == m.loops[0].batch[1..]
  {
  }

  lemma BuryTowards(o: Options, m: Machine, n: nat, b: Batch)
    requires o.batchSize >= 1 && Inv(o, m) && OneLoop(m) && m.loops[0].Burying? && Towards(o, m, n, b)
    ensures Towards(o, OnBuried(m, 0), Left(m, OnBuried(m, 0), n), b)
  {
    var batch := m.loops[0].batch;
    BuryingCosts(o, m);
    var r := Bury(m.rows, batch[0].id, batch[0].retryCount + 1)[batch[0].id];
    assert Underway(o, b, m.rows[batch[0].id := r], batch[1..]) by {
      HeadIsSpent(o, b, m.rows, batch, r);
    }
    BuriedLeaves(m, r);
  }

  lemma PublishTowards(o: Options, m: Machine, ok: bool, n: nat, b: Batch)
    requires o.batchSize >= 1 && Inv(o, m) && OneLoop(m) && m.loops[0].Publishing? && Towards(o, m, n, b)
    ensures Towards(o, OnPublished(o, m, 0, ok), Left(m, OnPublished(o, m, 0, ok), n), b)
  {
  }

  lemma ControlTowards(o: Options, m: Machine, e: Event, n: nat, b: Batch)
    requires o.batchSize >= 1 && Inv(o, m) && Known(m) && Allowed(o, m, e) && Towards(o, m, n, b)
    requires e.StartCalled? || e.StopCalled? || e.TimerFires?
    ensures Towards(o, Step(o, m, e), Left(m, Step(o, m, e), n), b)
  {
  }

  lemma StepTowards(o: Options, m: Machine, e: Event, n: nat, b: Batch) returns (b': Batch)
    requires o.maxRetries >= 1 && o.batchSize >= 1 && Inv(o, m) && Known(m) && Allowed(o, m, e) && !e.Insert?
        && Towards(o, m, n, b)
    ensures Towards(o, Step(o, m, e), Left(m, Step(o, m, e), n), b')
  {
    b' := b;
    match e {
      case Found(_, ids) => b' := FoundTowards(o, m, ids, n, b);
      case ClaimWritten(_) => ClaimTowards(o, m, n, b);
      case PublishSettled(_, ok) => PublishTowards(o, m, ok, n, b);
      case RowWritten(_) =>
        if m.loops[0].Burying? {
          BuryTowards(o, m, n, b);
        } else {
          WrittenTowards(o, m, n, b);
        }
      case DeadLetterSettled(_) => DeadLetteredTowards(o, m, n, b);
      case _ => ControlTowards(o, m, e, n, b);
    }
  }

  // ---------------------------------------------------------------- whole runs

  /** `t` continues `start`, and nothing is inserted. */
  ghost predicate WithoutInsert(start: Trace<Event>, t: Trace<Event>) {
    t == start || (t.Then? && !t.event.Insert? && WithoutInsert(start, t.before))
  }

  function LessOrNone(n: nat, k: int): nat {
    if n < k then 0 else if k < 0 then n else n - k
  }

  /** A step ends one batch at most, and without an insert keeps the ids of the table. */
  ghost predicate OneAtMost(m: Machine, m': Machine) {
    m.finished <= m'.finished <= m.finished + 1 && m'.rows.Keys == m.rows.Keys
  }

  lemma NextEventFinishes(o: Options, m: Machine, i: nat, rest: seq<Snapshot>)
    requires i < |m.loops| && (rest != [] ==> rest[0].id in m.tally)
    ensures OneAtMost(m, NextEvent(o, m, i, rest))
  {
  }

  lemma LoopStepFinishes(o: Options, m: Machine, e: Event)
    requires Known(m) && Allowed(o, m, e) && (e.ClaimWritten? || e.RowWritten? || e.DeadLetterSettled?)
    ensures OneAtMost(m, Step(o, m, e))
  {
    match e {
      case ClaimWritten(i) =>
        var rows := Claim(m.rows, IdsOf(m.loops[i].batch), m.loops[i].now);
        assert rows.Keys == m.rows.Keys;
        NextEventFinishes(o, m.(rows := rows), i, m.loops[i].batch);
      case RowWritten(i) =>
        if !m.loops[i].Burying? {
          NextEventFinishes(o, m.(rows := m.rows[m.loops[i].batch[0].id := Ended(m, i)]), i, m.loops[i].batch[1..]);
        }
      case DeadLetterSettled(i) =>
        NextEventFinishes(o, m.(rows := m.rows[m.loops[i].batch[0].id := Ended(m, i)]), i, m.loops[i].batch[1..]);
    }
  }

  lemma StepFinishes(o: Options, m: Machine, e: Event)
    requires Known(m) && Allowed(o, m, e) && !e.Insert?
    ensures OneAtMost(m, Step(o, m, e))
  {
    if e.ClaimWritten? || e.RowWritten? || e.DeadLetterSettled? {
      LoopStepFinishes(o, m, e);
    }
  }

  lemma {:induction false} RunFinishes(o: Options, start: Trace<Event>, t: Trace<Event>)
    requires ValidRun(o, t) && WithoutInsert(start, t)
    ensures Run(o, start).finished <= Run(o, t).finished && Run(o, t).rows.Keys == Run(o, start).rows.Keys
  {
    if t != start {
      RunFinishes(o, start, t.before);
      StepFinishes(o, Run(o, t.before), t.event);
    }
  }

  /** Of n batches needed at `start`, those still needed now. */
  function LeftSince(start: Machine, m: Machine, n: nat): nat {
    var ended := m.finished - start.finished;
    if n < ended then 0 else if ended < 0 then n else n - ended
  }

  lemma OneMoreTowards(o: Options, start: Machine, t: Trace<Event>, n: nat, b: Batch) returns (b': Batch)
    requires o.maxRetries >= 1 && o.batchSize >= 1 && ValidRun(o, t) && t.Then? && !t.event.Insert?
    requires start.finished <= Run(o, t.before).finished
    requires Towards(o, Run(o, t.before), LeftSince(start, Run(o, t.before), n), b)
    ensures Towards(o, Run(o, t), LeftSince(start, Run(o, t), n), b')
  {
    var m, m' := Run(o, t.before), Run(o, t);
    ReachableInv(o, t.before, m);
    StepFinishes(o, m, t.event);
    assert Left(m, m', LeftSince(start, m, n)) == LeftSince(start, m', n);
    b' := StepTowards(o, m, t.event, LeftSince(start, m, n), b);
  }

  lemma {:induction false} RunTowards(o: Options, start: Trace<Event>, t: Trace<Event>, n: nat) returns (b: Batch)
    requires o.maxRetries >= 1 && o.batchSize >= 1 && ValidRun(o, t) && WithoutInsert(start, t)
    requires Run(o, start).loops == [] && Suffices(o, Run(o, start).rows, n)
    ensures Towards(o, Run(o, t), LeftSince(Run(o, start), Run(o, t), n), b)
  {
    if t == start {
      b := Batch(map[], 0, []);
    } else {
      b := RunTowards(o, start, t.before, n);
      RunFinishes(o, start, t.before);
      b := OneMoreTowards(o, Run(o, start), t, n, b);
    }
  }

  lemma NoneToGo(o: Options, m: Machine, b: Batch)
    requires o.batchSize >= 1 && Towards(o, m, 0, b)
    ensures Drained(m.rows)
  {
    if m.loops == [] || m.loops[0].Finding? {
      NoneToGoIsDrained(o, m.rows);
    } else {
      assert Eligible(o, b.base[b.ids[0]], b.now);
      NoneToGoIsDrained(o, b.base);
      assert false;
    }
  }

  lemma DrainedAfter(o: Options, start: Trace<Event>, t: Trace<Event>, n: nat)
    requires o.maxRetries >= 1 && o.batchSize >= 1 && ValidRun(o, t) && WithoutInsert(start, t)
    requires Run(o, start).loops == [] && Suffices(o, Run(o, start).rows, n)
    requires Run(o, t).finished - Run(o, start).finished >= n
    ensures Drained(Run(o, t).rows) && Run(o, t).rows.Keys == Run(o, start).rows.Keys
  {
    RunFinishes(o, start, t);
    var b := RunTowards(o, start, t, n);
    NoneToGo(o, Run(o, t), b);
  }

  /**
   Drain bound, interleaved: from any state in which no batch is under way, once floor(S / batchSize) + maxRetries
   batches have ended and nothing was inserted, every row is COMPLETED or DEAD, S being the attempts the pending
   rows had left.
   */
  lemma InterleavedDrainBound(o: Options, start: Trace<Event>, t: Trace<Event>)
    requires o.maxRetries >= 1 && o.batchSize >= 1 && ValidRun(o, start) && ValidRun(o, t) && WithoutInsert(start, t)
    requires Run(o, start).loops == []
    requires Run(o, t).finished - Run(o, start).finished >= Payable(o, Run(o, start).rows) + o.maxRetries
    ensures Drained(Run(o, t).rows) && Run(o, t).rows.Keys == Run(o, start).rows.Keys
  {
    ReachableInv(o, start, Run(o, start));
    IdsAreSettled(o, Run(o, start));
    DrainedAfter(o, start, t, Payable(o, Run(o, start).rows) + o.maxRetries);
  }
}
