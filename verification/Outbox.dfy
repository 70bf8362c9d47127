/**
 The outbox table and what one batch of the poller does to it.

 The database is the `rows` map; Kafka is two logs of publish attempts. One poller works on the table.
 Rows that do not resolve to a topic fail before any publish attempt.
 */
module Outbox {
  import opened Wrappers

  type Id = nat

  datatype Status = PENDING | PROCESSING | COMPLETED | DEAD

  datatype Row = Row(createdAt: int, resolvable: bool, status: Status, retryCount: nat, lockedAt: Option<int>)

  type Rows = map<Id, Row>

  datatype Options = Options(batchSize: nat, maxRetries: nat, lockTimeoutMs: int)

  /** The columns of a queried row the poller works from. */
  datatype Snapshot = Snapshot(id: Id, retryCount: nat, resolvable: bool)

  // ---------------------------------------------------------------- queries and updates

  predicate Eligible(o: Options, r: Row, now: int) {
    r.status == PENDING && (r.lockedAt == None || r.lockedAt.value < now - o.lockTimeoutMs)
  }

  ghost predicate Distinct(ids: seq<Id>) {
    forall i, j :: 0 <= i < j < |ids| ==> ids[i] != ids[j]
  }

  /** findMany: the `batchSize` oldest eligible rows, oldest first; rows of equal age come in any order. */
  ghost predicate QueryResult(o: Options, rows: Rows, now: int, ids: seq<Id>) {
    && Distinct(ids)
    && |ids| <= o.batchSize
    && (forall i :: 0 <= i < |ids| ==> ids[i] in rows && Eligible(o, rows[ids[i]], now))
    && (forall i, j :: 0 <= i < j < |ids| ==> rows[ids[i]].createdAt <= rows[ids[j]].createdAt)
    && (forall id, i :: id in rows && id !in ids && Eligible(o, rows[id], now) && 0 <= i < |ids| ==>
          rows[ids[i]].createdAt <= rows[id].createdAt)
    && (|ids| < o.batchSize ==> forall id :: id in rows && Eligible(o, rows[id], now) ==> id in ids)
  }

  function Snapshots(rows: Rows, ids: seq<Id>): seq<Snapshot>
    requires forall id :: id in ids ==> id in rows
  {
    seq(|ids|, i requires 0 <= i < |ids| => Snapshot(ids[i], rows[ids[i]].retryCount, rows[ids[i]].resolvable))
  }

  function Claim(rows: Rows, ids: seq<Id>, now: int): Rows {
    map id | id in rows :: if id in ids then rows[id].(status := PROCESSING, lockedAt := Some(now)) else rows[id]
  }

  function Complete(rows: Rows, id: Id): Rows
    requires id in rows
  {
    rows[id := rows[id].(status := COMPLETED, lockedAt := None)]
  }

  function Retry(rows: Rows, id: Id, retryCount: nat): Rows
    requires id in rows
  {
    rows[id := rows[id].(status := PENDING, retryCount := retryCount, lockedAt := None)]
  }

  function Bury(rows: Rows, id: Id, retryCount: nat): Rows
    requires id in rows
  {
    rows[id := rows[id].(status := DEAD, retryCount := retryCount, lockedAt := None)]
  }

  // ---------------------------------------------------------------- one batch, start to end

  /** The table and the publish attempts, to the event's topic and to the dead-letter topic. */
  datatype World = World(rows: Rows, published: seq<Id>, deadLettered: seq<Id>)

  function HandleEvent(o: Options, w: World, e: Snapshot, publishOk: bool): World
    requires e.id in w.rows
  {
    var published := if e.resolvable then w.published + [e.id] else w.published;
    if e.resolvable && publishOk then World(Complete(w.rows, e.id), published, w.deadLettered)
    else if e.retryCount + 1 >= o.maxRetries then
      World(Bury(w.rows, e.id, e.retryCount + 1), published, w.deadLettered + [e.id])
    else World(Retry(w.rows, e.id, e.retryCount + 1), published, w.deadLettered)
  }

  function HandleAll(o: Options, w: World, batch: seq<Snapshot>, publishOk: Id -> bool): (w': World)
    requires forall e :: e in batch ==> e.id in w.rows
    ensures w'.rows.Keys == w.rows.Keys
    decreases |batch|
  {
    if batch == [] then w
    else HandleAll(o, HandleEvent(o, w, batch[0], publishOk(batch[0].id)), batch[1..], publishOk)
  }

  function RunBatch(o: Options, w: World, now: int, ids: seq<Id>, publishOk: Id -> bool): World
    requires forall id :: id in ids ==> id in w.rows
  {
    HandleAll(o, w.(rows := Claim(w.rows, ids, now)), Snapshots(w.rows, ids), publishOk)
  }

  /** The poller with its database and broker, each method one uninterrupted piece of its code. */
  class OutboxPoller {
    const options: Options
    var rows: Rows
    var published: seq<Id>
    var deadLettered: seq<Id>
    var isBatchProcessing: bool

    function View(): World
      reads this
    {
      World(rows, published, deadLettered)
    }

    constructor (options: Options, rows: Rows)
      ensures this.options == options && View() == World(rows, [], []) && !isBatchProcessing
    {
      this.options := options;
      this.rows := rows;
      published, deadLettered, isBatchProcessing := [], [], false;
    }

    method HandleFailure(e: Snapshot)
      requires e.id in rows
      modifies this`rows, this`deadLettered
      ensures View() == HandleEvent(options, old(View()).(published := published), e.(resolvable := false), false)
      ensures rows[e.id].status == if options.maxRetries <= e.retryCount + 1 then DEAD else PENDING
      ensures deadLettered == old(deadLettered) + (if rows[e.id].status == DEAD then [e.id] else [])
    {
      var newRetryCount := e.retryCount + 1;
      if newRetryCount >= options.maxRetries {
        rows := Bury(rows, e.id, newRetryCount);
        deadLettered := deadLettered + [e.id];
        return;
      }
      rows := Retry(rows, e.id, newRetryCount);
    }

    method ProcessEvent(e: Snapshot, publishOk: bool)
      requires e.id in rows
      modifies this`rows, this`published, this`deadLettered
      ensures View() == HandleEvent(options, old(View()), e, publishOk)
      ensures published == old(published) + (if e.resolvable then [e.id] else [])
      ensures rows[e.id].status == COMPLETED <==> e.resolvable && publishOk
      ensures deadLettered == old(deadLettered) + (if rows[e.id].status == DEAD then [e.id] else [])
    {
      if e.resolvable {
        published := published + [e.id];
        if publishOk {
          rows := Complete(rows, e.id);
          return;
        }
      }
      HandleFailure(e);
    }

    /** `ids` is what the query returned and `publishOk` how the broker treats each event. */
    method ProcessNextBatch(now: int, ids: seq<Id>, publishOk: Id -> bool)
      requires QueryResult(options, rows, now, ids)
      modifies this
      ensures old(isBatchProcessing) ==> View() == old(View()) && isBatchProcessing
      ensures !old(isBatchProcessing) ==>
          View() == RunBatch(options, old(View()), now, ids, publishOk) && !isBatchProcessing
    {
      if isBatchProcessing {
        return;
      }
      isBatchProcessing := true;
      if |ids| == 0 {
        isBatchProcessing := false;
        assert rows == Claim(rows, ids, now);
        return;
      }
      var events := Snapshots(rows, ids);
      rows := Claim(rows, ids, now);
      var i := 0;
      while i < |events|
        invariant 0 <= i <= |events| && isBatchProcessing
        invariant forall e :: e in events ==> e.id in rows
        invariant HandleAll(options, View(), events[i..], publishOk) ==
            RunBatch(options, old(View()), now, ids, publishOk)
      {
        assert events[i..][1..] == events[i + 1..];
        ProcessEvent(events[i], publishOk(events[i].id));
        i := i + 1;
      }
      isBatchProcessing := false;
    }
  }

  // ---------------------------------------------------------------- the drain bound

  /** Between batches: nothing is claimed, and pending rows are unlocked and below the retry limit. */
  ghost predicate Settled(o: Options, rows: Rows) {
    forall id :: id in rows ==>
      && rows[id].status != PROCESSING
      && (rows[id].status == PENDING ==> rows[id].lockedAt == None && rows[id].retryCount < o.maxRetries)
  }

  ghost predicate Drained(rows: Rows) {
    forall id :: id in rows ==> rows[id].status in {COMPLETED, DEAD}
  }

  /** Attempts a row still has. */
  function Credit(o: Options, r: Row): nat {
    if r.status in {PENDING, PROCESSING} && r.retryCount < o.maxRetries then o.maxRetries - r.retryCount else 0
  }

  /** S: the attempts left over all rows of `ids`. */
  ghost function Owed(o: Options, rows: Rows, ids: set<Id>): nat
    requires ids <= rows.Keys
  {
    if ids == {} then 0
    else
      var id :| id in ids;
      Credit(o, rows[id]) + Owed(o, rows, ids - {id})
  }

  lemma {:induction false} OwedPick(o: Options, rows: Rows, ids: set<Id>, id: Id)
    requires ids <= rows.Keys && id in ids
    ensures Owed(o, rows, ids) == Credit(o, rows[id]) + Owed(o, rows, ids - {id})
    decreases ids
  {
    var first :| first in ids && Owed(o, rows, ids) == Credit(o, rows[first]) + Owed(o, rows, ids - {first});
    if first != id {
      OwedPick(o, rows, ids - {first}, id);
      OwedPick(o, rows, ids - {id}, first);
      assert ids - {first} - {id} == ids - {id} - {first};
    }
  }

  lemma {:induction false} OwedSame(o: Options, rows: Rows, rows': Rows, ids: set<Id>)
    requires ids <= rows.Keys && ids <= rows'.Keys
    requires forall id :: id in ids ==> Credit(o, rows'[id]) == Credit(o, rows[id])
    ensures Owed(o, rows', ids) == Owed(o, rows, ids)
    decreases ids
  {
    if ids != {} {
      var id :| id in ids;
      OwedPick(o, rows, ids, id);
      OwedPick(o, rows', ids, id);
      OwedSame(o, rows, rows', ids - {id});
    }
  }

  /** Changing one row changes the sum by that row's share. */
  lemma OwedUpdate(o: Options, rows: Rows, id: Id, r: Row)
    requires id in rows
    ensures Owed(o, rows[id := r], rows.Keys) == Owed(o, rows, rows.Keys) - Credit(o, rows[id]) + Credit(o, r)
  {
    OwedPick(o, rows, rows.Keys, id);
    OwedPick(o, rows[id := r], rows.Keys, id);
    OwedSame(o, rows, rows[id := r], rows.Keys - {id});
  }

  /** The rows of a claimed batch: distinct, claimed, and as the snapshots say. */
  ghost predicate Claimed(o: Options, rows: Rows, batch: seq<Snapshot>) {
    && (forall i, j :: 0 <= i < j < |batch| ==> batch[i].id != batch[j].id)
    && forall e :: e in batch ==>
         e.id in rows && rows[e.id].status == PROCESSING && rows[e.id].retryCount == e.retryCount < o.maxRetries
  }

  function IdsOf(batch: seq<Snapshot>): seq<Id> {
    seq(|batch|, i requires 0 <= i < |batch| => batch[i].id)
  }

  ghost predicate InBatch(id: Id, batch: seq<Snapshot>) {
    exists e :: e in batch && e.id == id
  }

  /** What handling does to one row, depending on whether it is in the batch. */
  ghost predicate Handled(o: Options, r: Row, r': Row, inBatch: bool) {
    if !inBatch then r' == r
    else
      && r'.createdAt == r.createdAt && r'.resolvable == r.resolvable && r'.lockedAt == None
      && (r' == r.(status := COMPLETED, lockedAt := None)
          || (r'.retryCount == r.retryCount + 1
              && r'.status == if r.retryCount + 1 >= o.maxRetries then DEAD else PENDING))
  }

  /** Handling the head of a claimed batch costs its row an attempt and leaves the rest claimed. */
  lemma EventCosts(o: Options, w: World, batch: seq<Snapshot>, publishOk: bool)
    requires Claimed(o, w.rows, batch) && batch != []
    ensures batch[0].id in w.rows && batch == [batch[0]] + batch[1..] && !InBatch(batch[0].id, batch[1..])
    ensures var rows' := HandleEvent(o, w, batch[0], publishOk).rows;
      && rows' == w.rows[batch[0].id := rows'[batch[0].id]]
      && Handled(o, w.rows[batch[0].id], rows'[batch[0].id], true)
      && Claimed(o, rows', batch[1..])
      && Owed(o, rows', rows'.Keys) + 1 <= Owed(o, w.rows, w.rows.Keys)
  {
    var e := batch[0];
    assert batch == [e] + batch[1..];
    var rows' := HandleEvent(o, w, e, publishOk).rows;
    assert rows'.Keys == w.rows.Keys;
    OwedUpdate(o, w.rows, e.id, rows'[e.id]);
  }

  /**
   A claimed batch: every row of it is handled once, no other changes, and each costs the table at least one attempt.
   */
  lemma {:induction false} HandleAllMeaning(o: Options, w: World, batch: seq<Snapshot>, publishOk: Id -> bool)
    requires Claimed(o, w.rows, batch)
    ensures var w' := HandleAll(o, w, batch, publishOk);
      && (forall id :: id in w.rows ==> Handled(o, w.rows[id], w'.rows[id], InBatch(id, batch)))
      && Owed(o, w'.rows, w'.rows.Keys) + |batch| <= Owed(o, w.rows, w.rows.Keys)
    decreases |batch|
  {
    if batch != [] {
      var e, rest := batch[0], batch[1..];
      var w1 := HandleEvent(o, w, e, publishOk(e.id));
      EventCosts(o, w, batch, publishOk(e.id));
      HandleAllMeaning(o, w1, rest, publishOk);
      forall id | id in w.rows
        ensures Handled(o, w.rows[id], HandleAll(o, w, batch, publishOk).rows[id], InBatch(id, batch))
      {
        assert InBatch(id, batch) <==> id == e.id || InBatch(id, rest);
      }
    }
  }

  // ---------------------------------------------------------------- what a batch publishes

  /** The ids of `ids` that are in `chosen`, in order. */
  function Among(ids: seq<Id>, chosen: set<Id>): seq<Id> {
    if ids == [] then [] else (if ids[0] in chosen then [ids[0]] else []) + Among(ids[1..], chosen)
  }

  lemma {:induction false} AmongMembers(ids: seq<Id>, chosen: set<Id>)
    ensures forall id :: id in Among(ids, chosen) <==> id in ids && id in chosen
  {
    if ids != [] {
      AmongMembers(ids[1..], chosen);
      assert ids == [ids[0]] + ids[1..];
    }
  }

  function Resolvable(rows: Rows): set<Id> {
    set id | id in rows && rows[id].resolvable
  }

  function Dead(rows: Rows): set<Id> {
    set id | id in rows && rows[id].status == DEAD
  }

  /** How the handling of a row ends: COMPLETED if the broker accepted its event, else one attempt dearer. */
  ghost predicate EndsAs(o: Options, r: Row, r': Row, accepted: bool) {
    && r'.createdAt == r.createdAt && r'.resolvable == r.resolvable && r'.lockedAt == None
    && r'.retryCount == r.retryCount + (if accepted then 0 else 1)
    && (r'.status == COMPLETED <==> accepted)
    && (r'.status == DEAD <==> !accepted && o.maxRetries <= r'.retryCount)
    && r'.status != PROCESSING
  }

  /**
   A batch of `ids` publishes each resolvable event once, in order, and dead-letters those whose rows are DEAD
   afterwards, in order; a row is COMPLETED exactly if it was published and accepted.
   */
  ghost predicate Published(o: Options, w: World, ids: seq<Id>, publishOk: Id -> bool, w': World) {
    && w'.rows.Keys == w.rows.Keys
    && w'.published == w.published + Among(ids, Resolvable(w.rows))
    && w'.deadLettered == w.deadLettered + Among(ids, Dead(w'.rows))
    && forall id :: id in ids ==>
         && id in w.rows
         && EndsAs(o, w.rows[id], w'.rows[id], id in Among(ids, Resolvable(w.rows)) && publishOk(id))
  }

  ghost predicate Truthful(rows: Rows, batch: seq<Snapshot>) {
    forall e :: e in batch ==> e.id in rows && e.resolvable == rows[e.id].resolvable
  }

  /** The head of a claimed batch: what is published, and how its row ends. */
  lemma EventPublishes(o: Options, w: World, batch: seq<Snapshot>, publishOk: bool)
    requires Claimed(o, w.rows, batch) && Truthful(w.rows, batch) && batch != []
    ensures batch[0].id in w.rows && Resolvable(HandleEvent(o, w, batch[0], publishOk).rows) == Resolvable(w.rows)
    ensures var e, w' := batch[0], HandleEvent(o, w, batch[0], publishOk);
      && w'.published == w.published + (if e.id in Resolvable(w.rows) then [e.id] else [])
      && w'.deadLettered == w.deadLettered + (if e.id in Dead(w'.rows) then [e.id] else [])
      && EndsAs(o, w.rows[e.id], w'.rows[e.id], e.id in Resolvable(w.rows) && publishOk)
      && Truthful(w'.rows, batch[1..])
  {
    assert w.published + [] == w.published && w.deadLettered + [] == w.deadLettered;
  }

  lemma SameSelection(ids: seq<Id>, chosen: set<Id>, chosen': set<Id>)
    requires forall id :: id in ids ==> (id in chosen <==> id in chosen')
    ensures Among(ids, chosen) == Among(ids, chosen')
  {
  }

  /** Publishing the head, then the rest, is publishing the whole. */
  lemma HeadThenRest(o: Options, w: World, w1: World, w': World, ids: seq<Id>, publishOk: Id -> bool)
    requires ids != [] && ids[0] !in ids[1..] && ids[0] in w.rows && w1.rows.Keys == w.rows.Keys
    requires forall id :: id in w.rows && id != ids[0] ==> w1.rows[id] == w.rows[id]
    requires Published(o, w1, ids[1..], publishOk, w') && w'.rows[ids[0]] == w1.rows[ids[0]]
    requires Resolvable(w1.rows) == Resolvable(w.rows)
    requires w1.published == w.published + (if ids[0] in Resolvable(w.rows) then [ids[0]] else [])
    requires w1.deadLettered == w.deadLettered + (if ids[0] in Dead(w1.rows) then [ids[0]] else [])
    requires EndsAs(o, w.rows[ids[0]], w1.rows[ids[0]], ids[0] in Resolvable(w.rows) && publishOk(ids[0]))
    ensures Published(o, w, ids, publishOk, w')
  {
    var id0, rest := ids[0], ids[1..];
    AmongMembers(ids, Resolvable(w.rows));
    AmongMembers(rest, Resolvable(w.rows));
    forall id | id in ids
      ensures id in w.rows
        && EndsAs(o, w.rows[id], w'.rows[id], id in Among(ids, Resolvable(w.rows)) && publishOk(id))
    {
      assert id != id0 ==> id in rest;
    }
    assert id0 in Dead(w1.rows) <==> id0 in Dead(w'.rows);
  }

  /** Once handled, the head of a batch is left alone. */
  lemma HeadStaysHandled(o: Options, w: World, batch: seq<Snapshot>, publishOk: Id -> bool)
    requires Claimed(o, w.rows, batch) && batch != []
    ensures var e := batch[0];
      var w1 := HandleEvent(o, w, e, publishOk(e.id));
      && Claimed(o, w1.rows, batch[1..])
      && e.id !in IdsOf(batch[1..]) && w1.rows.Keys == w.rows.Keys
      && (forall id :: id in w.rows && id != e.id ==> w1.rows[id] == w.rows[id])
      && HandleAll(o, w1, batch[1..], publishOk).rows[e.id] == w1.rows[e.id]
  {
    var w1 := HandleEvent(o, w, batch[0], publishOk(batch[0].id));
    EventCosts(o, w, batch, publishOk(batch[0].id));
    HandleAllMeaning(o, w1, batch[1..], publishOk);
  }

  lemma {:induction false} HandleAllPublishes(o: Options, w: World, batch: seq<Snapshot>, publishOk: Id -> bool)
    requires Claimed(o, w.rows, batch) && Truthful(w.rows, batch)
    ensures Published(o, w, IdsOf(batch), publishOk, HandleAll(o, w, batch, publishOk))
    decreases |batch|
  {
    if batch == [] {
      assert Published(o, w, [], publishOk, w);
    } else {
      var w1 := HandleEvent(o, w, batch[0], publishOk(batch[0].id));
      HeadStaysHandled(o, w, batch, publishOk);
      EventPublishes(o, w, batch, publishOk(batch[0].id));
      HandleAllPublishes(o, w1, batch[1..], publishOk);
      assert IdsOf(batch)[0] == batch[0].id && IdsOf(batch)[1..] == IdsOf(batch[1..]);
      HeadThenRest(o, w, w1, HandleAll(o, w1, batch[1..], publishOk), IdsOf(batch), publishOk);
    }
  }

  function PendingIds(rows: Rows): set<Id> {
    set id | id in rows && rows[id].status == PENDING
  }

  /** A tick that finds no batch running: what its query returns and how the broker treats each event. */
  datatype Tick = Tick(now: int, ids: seq<Id>, publishOk: Id -> bool)

  /** The ticks, one complete batch each, lead from one world to the other; no row is inserted meanwhile. */
  ghost predicate TicksLead(o: Options, w: World, ticks: seq<Tick>, w': World)
    decreases |ticks|
  {
    if ticks == [] then w' == w
    else
      && QueryResult(o, w.rows, ticks[0].now, ticks[0].ids)
      && TicksLead(o, RunBatch(o, w, ticks[0].now, ticks[0].ids, ticks[0].publishOk), ticks[1..], w')
  }

  function IdSet(ids: seq<Id>): set<Id> {
    set id | id in ids
  }

  lemma SnapshotIds(rows: Rows, ids: seq<Id>, id: Id)
    requires forall id :: id in ids ==> id in rows
    ensures InBatch(id, Snapshots(rows, ids)) <==> id in ids
  {
    if id in ids {
      var i :| 0 <= i < |ids| && ids[i] == id;
      assert Snapshots(rows, ids)[i] in Snapshots(rows, ids);
    }
  }

  /** What one batch leaves of the table. */
  ghost predicate BatchStep(o: Options, rows: Rows, rows': Rows, ids: seq<Id>) {
    && Settled(o, rows')
    && rows'.Keys == rows.Keys
    && (forall id :: id in rows && id !in ids ==> rows'[id] == rows[id])
    && (forall id :: id in ids ==> id in rows && Credit(o, rows'[id]) < Credit(o, rows[id]))
  }

  lemma ClaimMeaning(o: Options, rows: Rows, now: int, ids: seq<Id>)
    requires Settled(o, rows) && QueryResult(o, rows, now, ids)
    ensures Claimed(o, Claim(rows, ids, now), Snapshots(rows, ids))
    ensures Owed(o, Claim(rows, ids, now), rows.Keys) == Owed(o, rows, rows.Keys)
  {
    assert Claim(rows, ids, now).Keys == rows.Keys;
    OwedSame(o, rows, Claim(rows, ids, now), rows.Keys);
  }

  lemma HandledBatch(o: Options, rows: Rows, now: int, ids: seq<Id>, rows': Rows)
    requires Settled(o, rows) && QueryResult(o, rows, now, ids) && rows'.Keys == rows.Keys
    requires forall id :: id in rows ==> Handled(o, Claim(rows, ids, now)[id], rows'[id], id in ids)
    ensures BatchStep(o, rows, rows', ids)
  {
  }

  /** A whole batch between settled tables: each queried row spends an attempt, no other row changes. */
  lemma BatchMeaning(o: Options, w: World, now: int, ids: seq<Id>, publishOk: Id -> bool)
    requires Settled(o, w.rows) && QueryResult(o, w.rows, now, ids)
    ensures var rows' := RunBatch(o, w, now, ids, publishOk).rows;
      BatchStep(o, w.rows, rows', ids) && Owed(o, rows', rows'.Keys) + |ids| <= Owed(o, w.rows, w.rows.Keys)
  {
    var claimed := Claim(w.rows, ids, now);
    assert claimed.Keys == w.rows.Keys;
    ClaimMeaning(o, w.rows, now, ids);
    HandleAllMeaning(o, w.(rows := claimed), Snapshots(w.rows, ids), publishOk);
    var rows' := RunBatch(o, w, now, ids, publishOk).rows;
    forall id | id in w.rows ensures Handled(o, claimed[id], rows'[id], id in ids) {
      SnapshotIds(w.rows, ids, id);
    }
    HandledBatch(o, w.rows, now, ids, rows');
  }

  /**
   A whole batch: it publishes exactly the resolvable events of its query and dead-letters exactly the rows it
   buries, each in order; a queried row is COMPLETED exactly if it was published and the broker accepted it.
   */
  lemma BatchPublishes(o: Options, w: World, now: int, ids: seq<Id>, publishOk: Id -> bool)
    requires Settled(o, w.rows) && QueryResult(o, w.rows, now, ids)
    ensures Published(o, w, ids, publishOk, RunBatch(o, w, now, ids, publishOk))
  {
    var claimed := Claim(w.rows, ids, now);
    assert claimed.Keys == w.rows.Keys && Resolvable(claimed) == Resolvable(w.rows);
    ClaimMeaning(o, w.rows, now, ids);
    assert IdsOf(Snapshots(w.rows, ids)) == ids;
    HandleAllPublishes(o, w.(rows := claimed), Snapshots(w.rows, ids), publishOk);
  }

  lemma {:induction false} DistinctSize(ids: seq<Id>)
    requires Distinct(ids)
    ensures |IdSet(ids)| == |ids|
    decreases |ids|
  {
    if ids != [] {
      DistinctSize(ids[1..]);
      assert ids[0] !in ids[1..];
      assert IdSet(ids) == {ids[0]} + IdSet(ids[1..]);
    }
  }

  lemma SubsetSize(a: set<Id>, b: set<Id>)
    requires a <= b
    ensures |a| <= |b|
  {
    assert b == a + (b - a);
  }

  /** A query that is not cut off by `batchSize` returns exactly the pending rows. */
  lemma ShortQueryIsComplete(o: Options, rows: Rows, now: int, ids: seq<Id>)
    requires Settled(o, rows) && QueryResult(o, rows, now, ids)
    ensures |ids| == |IdSet(ids)| <= |PendingIds(rows)|
    ensures |ids| < o.batchSize ==> IdSet(ids) == PendingIds(rows)
  {
    DistinctSize(ids);
    SubsetSize(IdSet(ids), PendingIds(rows));
  }

  lemma PendingShrinks(o: Options, rows: Rows, rows': Rows, ids: seq<Id>)
    requires Settled(o, rows) && BatchStep(o, rows, rows', ids)
    ensures PendingIds(rows') <= PendingIds(rows)
    ensures |PendingIds(rows')| <= |PendingIds(rows)|
  {
    forall id | id in PendingIds(rows') ensures id in PendingIds(rows) {
      assert id in ids ==> Credit(o, rows'[id]) < Credit(o, rows[id]);
    }
    SubsetSize(PendingIds(rows'), PendingIds(rows));
  }

  ghost predicate CreditAtMost(o: Options, rows: Rows, most: nat) {
    forall id :: id in rows ==> Credit(o, rows[id]) <= most
  }

  /** If every pending row was in the batch, the largest credit went down. */
  lemma CreditsFall(o: Options, rows: Rows, rows': Rows, ids: seq<Id>, most: nat)
    requires Settled(o, rows) && BatchStep(o, rows, rows', ids) && IdSet(ids) == PendingIds(rows)
        && CreditAtMost(o, rows, most)
    ensures CreditAtMost(o, rows', if most == 0 then 0 else most - 1)
  {
    forall id | id in rows' ensures Credit(o, rows'[id]) <= if most == 0 then 0 else most - 1 {
      if id in ids {
        assert id in PendingIds(rows);
      } else {
        assert id !in IdSet(ids);
      }
    }
  }

  lemma NoCreditIsDrained(o: Options, rows: Rows)
    requires Settled(o, rows) && CreditAtMost(o, rows, 0)
    ensures Drained(rows)
  {
    forall id | id in rows ensures rows[id].status in {COMPLETED, DEAD} {
      assert Credit(o, rows[id]) == 0;
    }
  }

  /** How often `size` can be taken from s. */
  function Quotient(s: nat, size: nat): nat
    requires size >= 1
  {
    if s < size then 0 else 1 + Quotient(s - size, size)
  }

  lemma {:induction false} QuotientMeaning(s: nat, size: nat)
    requires size >= 1
    ensures Quotient(s, size) * size <= s < Quotient(s, size) * size + size
  {
    if s >= size {
      var q := Quotient(s - size, size);
      QuotientMeaning(s - size, size);
      assert (1 + q) * size == q * size + size;
    }
  }

  lemma MulOrder(a: nat, b: nat, size: nat)
    requires a <= b
    ensures a * size <= b * size
  {
    assert (b - a) * size >= 0;
  }

  lemma OneQuotient(s: nat, q: nat, r: nat, size: nat)
    requires q * size <= s < q * size + size && r * size <= s < r * size + size
    ensures q == r
  {
    if q < r {
      MulOrder(q + 1, r, size);
    } else if r < q {
      MulOrder(r + 1, q, size);
    }
  }

  lemma QuotientIsDivision(s: nat, size: nat)
    requires size >= 1
    ensures Quotient(s, size) == s / size
  {
    QuotientMeaning(s, size);
    OneQuotient(s, Quotient(s, size), s / size, size);
  }

  lemma {:induction false} FullBatchLeavesLess(s: nat, s': nat, size: nat)
    requires size >= 1 && s' + size <= s
    ensures Quotient(s', size) + 1 <= Quotient(s, size)
  {
    if s' >= size {
      FullBatchLeavesLess(s - size, s' - size, size);
    }
  }

  /** A batch on a settled table: what it leaves, and the attempts it costs. */
  ghost predicate Spends(o: Options, rows: Rows, ids: seq<Id>, rows': Rows) {
    BatchStep(o, rows, rows', ids) && Owed(o, rows', rows'.Keys) + |ids| <= Owed(o, rows, rows.Keys)
  }

  /** Full batches the table can pay for: floor(S / batchSize). */
  ghost function Payable(o: Options, rows: Rows): nat
    requires o.batchSize >= 1
  {
    Quotient(Owed(o, rows, rows.Keys), o.batchSize)
  }

  lemma PayableIsQuotient(o: Options, rows: Rows)
    requires o.batchSize >= 1
    ensures Payable(o, rows) == Owed(o, rows, rows.Keys) / o.batchSize
  {
    QuotientIsDivision(Owed(o, rows, rows.Keys), o.batchSize);
  }

  /** A full batch uses up one of the floor(S / batchSize) full batches the table can pay for. */
  lemma FullBatch(o: Options, rows: Rows, ids: seq<Id>, rows': Rows)
    requires o.batchSize >= 1 && Spends(o, rows, ids, rows') && |ids| == o.batchSize
    ensures Payable(o, rows') + 1 <= Payable(o, rows)
  {
    FullBatchLeavesLess(Owed(o, rows, rows.Keys), Owed(o, rows', rows'.Keys), o.batchSize);
  }

  /**
   n batches are enough: as many as the full ones the table can pay for and maxRetries more or, once no batch is
   full, as many as the largest credit.
   */
  ghost predicate Suffices(o: Options, rows: Rows, n: nat)
    requires o.batchSize >= 1
  {
    && Settled(o, rows)
    && (n >= Payable(o, rows) + o.maxRetries || (|PendingIds(rows)| < o.batchSize && CreditAtMost(o, rows, n)))
  }

  /** Each batch leaves one less to go. */
  lemma OneBatchFewer(o: Options, rows: Rows, now: int, ids: seq<Id>, rows': Rows, n: nat)
    requires o.batchSize >= 1 && Suffices(o, rows, n) && QueryResult(o, rows, now, ids) && Spends(o, rows, ids, rows')
    ensures Suffices(o, rows', if n == 0 then 0 else n - 1)
  {
    ShortQueryIsComplete(o, rows, now, ids);
    if |ids| == o.batchSize {
      FullBatch(o, rows, ids, rows');
    } else {
      PendingShrinks(o, rows, rows', ids);
      CreditsFall(o, rows, rows', ids, n);
    }
  }

  lemma NoneToGoIsDrained(o: Options, rows: Rows)
    requires o.batchSize >= 1 && Suffices(o, rows, 0)
    ensures Drained(rows)
  {
    NoCreditIsDrained(o, rows);
  }

  lemma {:induction false} TicksDrain(o: Options, w: World, ticks: seq<Tick>, w': World, n: nat)
    requires o.batchSize >= 1 && Suffices(o, w.rows, n) && TicksLead(o, w, ticks, w') && |ticks| >= n
    ensures Drained(w'.rows) && w'.rows.Keys == w.rows.Keys
    decreases |ticks|
  {
    if ticks == [] {
      NoneToGoIsDrained(o, w.rows);
    } else {
      var tick := ticks[0];
      var w1 := RunBatch(o, w, tick.now, tick.ids, tick.publishOk);
      BatchMeaning(o, w, tick.now, tick.ids, tick.publishOk);
      OneBatchFewer(o, w.rows, tick.now, tick.ids, w1.rows, n);
      TicksDrain(o, w1, ticks[1..], w', if n == 0 then 0 else n - 1);
    }
  }

  /** With fewer pending rows than a batch takes, as many ticks as the largest credit drain the table. */
  lemma FewPendingDrain(o: Options, w: World, ticks: seq<Tick>, w': World, most: nat)
    requires o.batchSize >= 1 && Settled(o, w.rows) && TicksLead(o, w, ticks, w') && |PendingIds(w.rows)| < o.batchSize
    requires CreditAtMost(o, w.rows, most) && |ticks| >= most
    ensures Drained(w'.rows) && w'.rows.Keys == w.rows.Keys
  {
    TicksDrain(o, w, ticks, w', most);
  }

  /**
   Drain bound: whatever the broker does, after floor(S / batchSize) + maxRetries ticks every row is
   COMPLETED or DEAD, where S is the number of attempts the pending rows still have.
   */
  lemma DrainBound(o: Options, w: World, ticks: seq<Tick>, w': World)
    requires o.batchSize >= 1 && Settled(o, w.rows) && TicksLead(o, w, ticks, w')
    requires |ticks| >= Owed(o, w.rows, w.rows.Keys) / o.batchSize + o.maxRetries
    ensures Drained(w'.rows) && w'.rows.Keys == w.rows.Keys
  {
    PayableIsQuotient(o, w.rows);
    TicksDrain(o, w, ticks, w', |ticks|);
  }
}
