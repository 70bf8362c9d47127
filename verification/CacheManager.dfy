/**
 The two-level cache of user-service: an in-process map with expiry and eviction (L1) over Redis with
 expiry (L2) over the database. Absence is cached too, under the key followed by ":notfound".

 A call is one instant. Every Redis command runs inside a circuit breaker and may fail, with or
 without having taken effect on the server. Times are in ms.
 */
module CacheManager {
  import opened Wrappers

  type Key = string

  /**
   A cached or fetched JSON value. L1 marks absence with `true`, Redis with the text "1", which parses as a number.
   */
  datatype Json = Record(id: int) | True | NumberOne

  datatype Entry = Entry(value: Json, expiresAt: int)

  /** The JavaScript Map behind L1: its entries, and its keys in insertion order. */
  datatype L1 = L1(store: map<Key, Entry>, order: seq<Key>)

  /** What became of a Redis write: done, failed without effect, or failed after taking effect. */
  datatype Outcome = Done | Refused | DoneButFailed

  /** Fate of the Redis commands of one read; `setex` is the fate of the write-back. */
  datatype ReadIo = ReadIo(getOk: bool, getNegativeOk: bool, setex: Outcome)

  datatype InvalidateIo = InvalidateIo(del: Outcome, delNegative: Outcome)

  datatype CacheOptions = CacheOptions(l2Ttl: int, l1TtlMs: int, useNegativeCache: bool)

  datatype Caches = Caches(l1: L1, l2: map<Key, Entry>)

  datatype Answer = Answered(value: Option<Json>) | FetchThrew

  const NEGATIVE_TTL_MS: int := 60 * 1000

  const NOT_FOUND: string := ":notfound"

  function NegativeKey(key: Key): Key {
    key + NOT_FOUND
  }

  // ---------------------------------------------------------------- L1

  function WithoutKey(order: seq<Key>, key: Key): seq<Key> {
    if order == [] then []
    else (if order[0] == key then [] else [order[0]]) + WithoutKey(order[1..], key)
  }

  function L1Del(l1: L1, key: Key): L1 {
    if key in l1.store then L1(l1.store - {key}, WithoutKey(l1.order, key)) else l1
  }

  function L1Get(l1: L1, key: Key, now: int): (L1, Option<Json>) {
    if key !in l1.store then (l1, None)
    else if now > l1.store[key].expiresAt then (L1Del(l1, key), None)
    else (l1, Some(l1.store[key].value))
  }

  /** Room for one more entry. The empty string is falsy, so an oldest key "" is never evicted. */
  function Evict(l1: L1, maxSize: nat): L1 {
    if |l1.store| >= maxSize && l1.order != [] && l1.order[0] != "" then L1Del(l1, l1.order[0]) else l1
  }

  function L1Set(l1: L1, maxSize: nat, key: Key, value: Json, ttlMs: int, now: int): L1 {
    var roomy := Evict(l1, maxSize);
    L1(roomy.store[key := Entry(value, now + ttlMs)], if key in roomy.store then roomy.order else roomy.order + [key])
  }

  class L1Cache {
    var store: map<Key, Entry>
    var order: seq<Key>
    const maxSize: nat

    function View(): L1
      reads this
    {
      L1(store, order)
    }

    constructor (maxSize: nat)
      ensures View() == L1(map[], []) && this.maxSize == maxSize
    {
      this.maxSize := maxSize;
      store, order := map[], [];
    }

    method Del(key: Key)
      modifies this
      ensures View() == L1Del(old(View()), key)
    {
      if key in store {
        store := store - {key};
        order := WithoutKey(order, key);
      }
    }

    method Get(key: Key, now: int) returns (value: Option<Json>)
      modifies this
      ensures (View(), value) == L1Get(old(View()), key, now)
    {
      if key !in store {
        return None;
      }
      if now > store[key].expiresAt {
        Del(key);
        return None;
      }
      return Some(store[key].value);
    }

    method Set(key: Key, value: Json, ttlMs: int, now: int)
      modifies this
      ensures View() == L1Set(old(View()), maxSize, key, value, ttlMs, now)
    {
      if |store| >= maxSize && order != [] {
        var oldestKey := order[0];
        if oldestKey != "" {
          Del(oldestKey);
        }
      }
      if key !in store {
        order := order + [key];
      }
      store := store[key := Entry(value, now + ttlMs)];
    }
  }

  // ---------------------------------------------------------------- Redis

  function L2Get(l2: map<Key, Entry>, key: Key, now: int): Option<Json> {
    if key in l2 && now < l2[key].expiresAt then Some(l2[key].value) else None
  }

  function L2SetEx(l2: map<Key, Entry>, key: Key, ttlSeconds: int, value: Json, now: int, fate: Outcome)
    : map<Key, Entry>
  {
    if fate == Refused then l2 else l2[key := Entry(value, now + ttlSeconds * 1000)]
  }

  function L2Del(l2: map<Key, Entry>, key: Key, fate: Outcome): map<Key, Entry> {
    if fate == Refused then l2 else l2 - {key}
  }

  // ---------------------------------------------------------------- the public operations

  /** The write-back after a database fetch. */
  function FetchAndFill(c: Caches, maxSize: nat, now: int, key: Key, o: CacheOptions, fetched: Option<Option<Json>>,
      fate: Outcome)
    : (Caches, Answer)
  {
    match fetched
    case None => (c, FetchThrew)
    case Some(Some(value)) =>
      (Caches(L1Set(c.l1, maxSize, key, value, o.l1TtlMs, now), L2SetEx(c.l2, key, o.l2Ttl, value, now, fate)),
       Answered(Some(value)))
    case Some(None) =>
      var negative := NegativeKey(key);
      (if !o.useNegativeCache then c
       else Caches(L1Set(c.l1, maxSize, negative, True, o.l1TtlMs, now),
                   L2SetEx(c.l2, negative, NEGATIVE_TTL_MS / 1000, NumberOne, now, fate)),
       Answered(None))
  }

  /** `cacheGet`. `fetched` is what the database gives if asked (None: the fetch throws). */
  function CacheGet(c: Caches, maxSize: nat, now: int, key: Key, o: CacheOptions, fetched: Option<Option<Json>>,
      io: ReadIo)
    : (Caches, Answer)
  {
    var (l1, hit) := L1Get(c.l1, key, now);
    if hit.Some? then (c.(l1 := l1), Answered(hit))
    else
      var negative := NegativeKey(key);
      var (l1', negativeHit) := L1Get(l1, negative, now);
      var c' := c.(l1 := l1');
      if negativeHit.Some? then (c', Answered(None))
      else if io.getOk && L2Get(c.l2, key, now).Some? then
        var value := L2Get(c.l2, key, now).value;
        (c'.(l1 := L1Set(l1', maxSize, key, value, o.l1TtlMs, now)), Answered(Some(value)))
      else if io.getOk && io.getNegativeOk && L2Get(c.l2, negative, now).Some? then
        (c'.(l1 := L1Set(l1', maxSize, negative, True, o.l1TtlMs, now)), Answered(None))
      else FetchAndFill(c', maxSize, now, key, o, fetched, io.setex)
  }

  /** `cacheInvalidate`: a failed first delete skips the second. */
  function CacheInvalidate(c: Caches, key: Key, io: InvalidateIo): Caches {
    var l2 := L2Del(c.l2, key, io.del);
    Caches(L1Del(L1Del(c.l1, key), NegativeKey(key)),
           if io.del == Done then L2Del(l2, NegativeKey(key), io.delNegative) else l2)
  }

  class TwoLevelCache {
    const l1: L1Cache
    var redis: map<Key, Entry>

    function View(): Caches
      reads this, l1
    {
      Caches(l1.View(), redis)
    }

    constructor (maxSize: nat)
      ensures fresh(l1) && l1.maxSize == maxSize && View() == Caches(L1(map[], []), map[])
    {
      l1 := new L1Cache(maxSize);
      redis := map[];
    }

    method Get(now: int, key: Key, o: CacheOptions, fetched: Option<Option<Json>>, io: ReadIo) returns (answer: Answer)
      modifies this, l1
      ensures (View(), answer) == CacheGet(old(View()), l1.maxSize, now, key, o, fetched, io)
    {
      var l1Result := l1.Get(key, now);
      if l1Result.Some? {
        return Answered(l1Result);
      }
      var negativeKey := NegativeKey(key);
      var l1Negative := l1.Get(negativeKey, now);
      if l1Negative.Some? {
        return Answered(None);
      }
      if io.getOk {
        var l2Result := L2Get(redis, key, now);
        if l2Result.Some? {
          l1.Set(key, l2Result.value, o.l1TtlMs, now);
          return Answered(l2Result);
        }
        if io.getNegativeOk {
          var l2Negative := L2Get(redis, negativeKey, now);
          if l2Negative.Some? {
            l1.Set(negativeKey, True, o.l1TtlMs, now);
            return Answered(None);
          }
        }
      }
      if fetched == None {
        return FetchThrew;
      }
      var result := fetched.value;
      if result.Some? {
        redis := L2SetEx(redis, key, o.l2Ttl, result.value, now, io.setex);
        l1.Set(key, result.value, o.l1TtlMs, now);
      } else if o.useNegativeCache {
        redis := L2SetEx(redis, negativeKey, NEGATIVE_TTL_MS / 1000, NumberOne, now, io.setex);
        l1.Set(negativeKey, True, o.l1TtlMs, now);
      }
      return Answered(result);
    }

    method Invalidate(key: Key, io: InvalidateIo)
      modifies this, l1
      ensures View() == CacheInvalidate(old(View()), key, io)
      ensures l1.store == old(l1.store) - {key, NegativeKey(key)}
    {
      l1.Del(key);
      l1.Del(NegativeKey(key));
      redis := L2Del(redis, key, io.del);
      if io.del == Done {
        redis := L2Del(redis, NegativeKey(key), io.delNegative);
      }
    }
  }

  // ---------------------------------------------------------------- runs

  datatype Event =
    | Read(now: int, key: Key, o: CacheOptions, fetchOk: bool, io: ReadIo)
    | Invalidate(now: int, key: Key, iio: InvalidateIo)
    | Write(now: int, key: Key, value: Option<Json>)
    | L2Loses(now: int, key: Key)
    | L1Restarts(now: int)

  /** The database at one moment. */
  datatype Moment = Moment(time: int, db: map<Key, Json>)

  /** Caches, database, every moment seen so far, and the keys written since they were last invalidated on Redis. */
  datatype Machine = Machine(caches: Caches, db: map<Key, Json>, clock: int, past: seq<Moment>, dirty: set<Key>)

  /** Sizes and bounds: L1 capacity, the keys in use, the largest lifetimes any read asks for. */
  datatype Config = Config(maxSize: nat, keys: set<Key>, l2Ttl: int, l1TtlMs: int)

  function Fetch(db: map<Key, Json>, key: Key): Option<Json> {
    if key in db then Some(db[key]) else None
  }

  function Store(db: map<Key, Json>, key: Key, value: Option<Json>): map<Key, Json> {
    if value.Some? then db[key := value.value] else db - {key}
  }

  function ReadAt(c: Config, m: Machine, e: Event): (Caches, Answer)
    requires e.Read?
  {
    CacheGet(m.caches, c.maxSize, e.now, e.key, e.o, if e.fetchOk then Some(Fetch(m.db, e.key)) else None, e.io)
  }

  function Step(c: Config, m: Machine, e: Event): Machine {
    var seen := m.(clock := e.now, past := m.past + [Moment(e.now, m.db)]);
    match e
    case Read(_, _, _, _, _) => seen.(caches := ReadAt(c, m, e).0)
    case Invalidate(_, key, io) =>
      seen.(caches := CacheInvalidate(m.caches, key, io),
            dirty := if io.del == Done && io.delNegative != Refused then m.dirty - {key} else m.dirty)
    case Write(now, key, value) =>
      var db := Store(m.db, key, value);
      seen.(db := db, past := seen.past + [Moment(now, db)], dirty := m.dirty + {key})
    case L2Loses(_, key) => seen.(caches := m.caches.(l2 := m.caches.l2 - {key}))
    case L1Restarts(_) => seen.(caches := m.caches.(l1 := L1(map[], [])))
  }

  function Run(c: Config, db: map<Key, Json>, t: Trace<Event>): Machine {
    match t
    case Start => Machine(Caches(L1(map[], []), map[]), db, 0, [Moment(0, db)], {})
    case Then(before, e) => Step(c, Run(c, db, before), e)
  }

  ghost predicate Allowed(c: Config, m: Machine, e: Event) {
    && e.now >= m.clock
    && (e.Read? || e.Invalidate? ==> e.key in c.keys)
    && (e.Read? ==> e.o.l2Ttl <= c.l2Ttl && e.o.l1TtlMs <= c.l1TtlMs)
  }

  ghost predicate ValidRun(c: Config, db: map<Key, Json>, t: Trace<Event>) {
    t.Then? ==> ValidRun(c, db, t.before) && Allowed(c, Run(c, db, t.before), t.event)
  }

  /** No key in use is the not-found key of another. */
  ghost predicate Disjoint(keys: set<Key>) {
    forall k, k' :: k in keys && k' in keys ==> k != NegativeKey(k')
  }

  /** At some moment in [lo, hi] the database gave `value` for `key`. */
  ghost predicate GaveWithin(past: seq<Moment>, key: Key, value: Option<Json>, lo: int, hi: int) {
    exists i :: 0 <= i < |past| && lo <= past[i].time <= hi && Fetch(past[i].db, key) == value
  }

  // ---------------------------------------------------------------- bounded staleness

  /** An entry expiring at `expiresAt` and living at most `life` was true when it was taken from the database. */
  ghost predicate Fresh(m: Machine, key: Key, value: Option<Json>, expiresAt: int, life: int) {
    GaveWithin(m.past, key, value, expiresAt - life, m.clock)
  }

  ghost predicate StoreFresh(c: Config, m: Machine, store: map<Key, Entry>, extra: int) {
    forall k :: k in c.keys ==>
      && (k in store ==> Fresh(m, k, Some(store[k].value), store[k].expiresAt, c.l2Ttl * 1000 + extra))
      && (NegativeKey(k) in store ==> Fresh(m, k, None, store[NegativeKey(k)].expiresAt, NEGATIVE_TTL_MS + extra))
  }

  ghost predicate StaleInv(c: Config, m: Machine) {
    && StoreFresh(c, m, m.caches.l1.store, c.l1TtlMs)
    && StoreFresh(c, m, m.caches.l2, 0)
  }

  ghost predicate Bounds(c: Config) {
    c.l2Ttl >= 0 && c.l1TtlMs >= 0 && Disjoint(c.keys)
  }

  /** The answer is at most as old as the longest way it can have travelled. */
  ghost predicate AnswerFresh(c: Config, m: Machine, key: Key, answer: Answer) {
    answer.Answered? ==>
      GaveWithin(m.past, key, answer.value,
                 m.clock - ((if answer.value.Some? then c.l2Ttl * 1000 else NEGATIVE_TTL_MS) + c.l1TtlMs), m.clock)
  }

  lemma StillGiven(past: seq<Moment>, more: seq<Moment>, key: Key, value: Option<Json>, lo: int, hi: int, lo': int,
      hi': int)
    requires GaveWithin(past, key, value, lo, hi) && lo' <= lo && hi <= hi'
    ensures GaveWithin(past + more, key, value, lo', hi')
  {
    var i :| 0 <= i < |past| && lo <= past[i].time <= hi && Fetch(past[i].db, key) == value;
    assert (past + more)[i] == past[i];
  }

  lemma NegativeKeyInjective(k: Key, k': Key)
    requires NegativeKey(k) == NegativeKey(k')
    ensures k == k'
  {
    assert NegativeKey(k)[..|NegativeKey(k)| - 9] == k;
    assert NegativeKey(k')[..|NegativeKey(k')| - 9] == k';
  }

  /** Time passing and history growing keep every entry's origin in range. */
  lemma FreshLater(c: Config, m: Machine, m': Machine, more: seq<Moment>, store: map<Key, Entry>, extra: int)
    requires StoreFresh(c, m, store, extra) && m'.past == m.past + more && m'.clock >= m.clock
    ensures StoreFresh(c, m', store, extra)
  {
    forall k | k in c.keys && k in store
      ensures Fresh(m', k, Some(store[k].value), store[k].expiresAt, c.l2Ttl * 1000 + extra)
    {
      var lo := store[k].expiresAt - (c.l2Ttl * 1000 + extra);
      StillGiven(m.past, more, k, Some(store[k].value), lo, m.clock, lo, m'.clock);
    }
    forall k | k in c.keys && NegativeKey(k) in store
      ensures Fresh(m', k, None, store[NegativeKey(k)].expiresAt, NEGATIVE_TTL_MS + extra)
    {
      var lo := store[NegativeKey(k)].expiresAt - (NEGATIVE_TTL_MS + extra);
      StillGiven(m.past, more, k, None, lo, m.clock, lo, m'.clock);
    }
  }

  /** Entries can be lost without harm. */
  ghost predicate Within(smaller: map<Key, Entry>, larger: map<Key, Entry>) {
    forall k :: k in smaller ==> k in larger && larger[k] == smaller[k]
  }

  lemma FreshFewer(c: Config, m: Machine, smaller: map<Key, Entry>, larger: map<Key, Entry>, extra: int)
    requires StoreFresh(c, m, larger, extra) && Within(smaller, larger)
    ensures StoreFresh(c, m, smaller, extra)
  {
  }

  lemma FreshWithPositive(c: Config, m: Machine, store: map<Key, Entry>, store': map<Key, Entry>, extra: int, key: Key)
    requires Disjoint(c.keys) && key in c.keys && StoreFresh(c, m, store, extra) && Within(store' - {key}, store)
    requires key in store' ==> Fresh(m, key, Some(store'[key].value), store'[key].expiresAt, c.l2Ttl * 1000 + extra)
    ensures StoreFresh(c, m, store', extra)
  {
    forall k | k in c.keys
      ensures k in store' ==> Fresh(m, k, Some(store'[k].value), store'[k].expiresAt, c.l2Ttl * 1000 + extra)
      ensures NegativeKey(k) in store' ==> Fresh(m, k, None, store'[NegativeKey(k)].expiresAt, NEGATIVE_TTL_MS + extra)
    {
      assert k in store' && k != key ==> k in store' - {key};
      assert NegativeKey(k) in store' ==> NegativeKey(k) in store' - {key};
    }
  }

  lemma FreshWithNegative(c: Config, m: Machine, store: map<Key, Entry>, store': map<Key, Entry>, extra: int, key: Key)
    requires Disjoint(c.keys) && key in c.keys && StoreFresh(c, m, store, extra)
        && Within(store' - {NegativeKey(key)}, store)
    requires NegativeKey(key) in store' ==>
        Fresh(m, key, None, store'[NegativeKey(key)].expiresAt, NEGATIVE_TTL_MS + extra)
    ensures StoreFresh(c, m, store', extra)
  {
    forall k | k in c.keys
      ensures k in store' ==> Fresh(m, k, Some(store'[k].value), store'[k].expiresAt, c.l2Ttl * 1000 + extra)
      ensures NegativeKey(k) in store' ==> Fresh(m, k, None, store'[NegativeKey(k)].expiresAt, NEGATIVE_TTL_MS + extra)
    {
      assert k in store' ==> k in store' - {NegativeKey(key)};
      if NegativeKey(k) == NegativeKey(key) {
        NegativeKeyInjective(k, key);
      } else {
        assert NegativeKey(k) in store' ==> NegativeKey(k) in store' - {NegativeKey(key)};
      }
    }
  }

  /** Setting a key touches no other entry but those it evicts. */
  lemma SetOnlyAdds(l1: L1, maxSize: nat, key: Key, value: Json, ttlMs: int, now: int)
    ensures Within(L1Set(l1, maxSize, key, value, ttlMs, now).store - {key}, l1.store)
    ensures key in L1Set(l1, maxSize, key, value, ttlMs, now).store
    ensures L1Set(l1, maxSize, key, value, ttlMs, now).store[key] == Entry(value, now + ttlMs)
  {
  }

  /** A moment is evidence for itself. */
  lemma GivenNow(m: Machine, key: Key, lo: int)
    requires m.past != [] && m.past[|m.past| - 1] == Moment(m.clock, m.db) && lo <= m.clock
    ensures GaveWithin(m.past, key, Fetch(m.db, key), lo, m.clock)
  {
    assert m.past[|m.past| - 1].time == m.clock;
  }

  /** What evidence shows for a shorter life it shows for a longer one. */
  lemma FreshWeaker(m: Machine, key: Key, value: Option<Json>, expiresAt: int, life: int, lo: int)
    requires Fresh(m, key, value, expiresAt, life) && lo <= expiresAt - life
    ensures GaveWithin(m.past, key, value, lo, m.clock)
  {
    assert m.past + [] == m.past;
    StillGiven(m.past, [], key, value, expiresAt - life, m.clock, lo, m.clock);
  }

  /** The read, at its own moment, on caches whose entries are all still justified. */
  ghost predicate AtMoment(c: Config, m: Machine, key: Key, o: CacheOptions) {
    && Bounds(c) && StaleInv(c, m) && key in c.keys && o.l2Ttl <= c.l2Ttl && o.l1TtlMs <= c.l1TtlMs
    && m.past != [] && m.past[|m.past| - 1] == Moment(m.clock, m.db)
  }

  ghost predicate ReadOutcome(c: Config, m: Machine, key: Key, r: (Caches, Answer)) {
    StaleInv(c, m.(caches := r.0)) && AnswerFresh(c, m, key, r.1)
  }

  lemma FillKeepsFresh(c: Config, m: Machine, key: Key, o: CacheOptions, fetched: Option<Option<Json>>, fate: Outcome)
    requires AtMoment(c, m, key, o) && (fetched.Some? ==> fetched.value == Fetch(m.db, key))
    ensures ReadOutcome(c, m, key, FetchAndFill(m.caches, c.maxSize, m.clock, key, o, fetched, fate))
  {
    var c' := FetchAndFill(m.caches, c.maxSize, m.clock, key, o, fetched, fate).0;
    var m' := m.(caches := c');
    if fetched.Some? {
      GivenNow(m, key, m.clock + o.l1TtlMs - (c.l2Ttl * 1000 + c.l1TtlMs));
      GivenNow(m, key, m.clock + o.l2Ttl * 1000 - c.l2Ttl * 1000);
      GivenNow(m, key, m.clock + o.l1TtlMs - (NEGATIVE_TTL_MS + c.l1TtlMs));
      GivenNow(m, key, m.clock - (c.l2Ttl * 1000 + c.l1TtlMs));
      GivenNow(m, key, m.clock - (NEGATIVE_TTL_MS + c.l1TtlMs));
      GivenNow(m, key, m.clock);
      if fetched.value.Some? {
        SetOnlyAdds(m.caches.l1, c.maxSize, key, fetched.value.value, o.l1TtlMs, m.clock);
        FreshWithPositive(c, m', m.caches.l1.store, c'.l1.store, c.l1TtlMs, key);
        if fate != Refused {
          FreshWithPositive(c, m', m.caches.l2, c'.l2, 0, key);
        }
      } else if o.useNegativeCache {
        SetOnlyAdds(m.caches.l1, c.maxSize, NegativeKey(key), True, o.l1TtlMs, m.clock);
        FreshWithNegative(c, m', m.caches.l1.store, c'.l1.store, c.l1TtlMs, key);
        if fate != Refused {
          FreshWithNegative(c, m', m.caches.l2, c'.l2, 0, key);
        }
      }
    }
  }

  lemma LookupsOnlyDrop(c: Config, m: Machine, key: Key)
    requires StaleInv(c, m)
    ensures StaleInv(c, m.(caches := m.caches.(l1 := L1Get(m.caches.l1, key, m.clock).0)))
  {
    FreshFewer(c, m, L1Get(m.caches.l1, key, m.clock).0.store, m.caches.l1.store, c.l1TtlMs);
  }

  /** A hit is young enough, at either level and of either kind. */
  lemma HitsAreFresh(c: Config, m: Machine, key: Key, o: CacheOptions)
    requires AtMoment(c, m, key, o)
    ensures L1Get(m.caches.l1, key, m.clock).1.Some? ==>
        AnswerFresh(c, m, key, Answered(L1Get(m.caches.l1, key, m.clock).1))
    ensures L1Get(m.caches.l1, NegativeKey(key), m.clock).1.Some? ==> AnswerFresh(c, m, key, Answered(None))
    ensures L2Get(m.caches.l2, key, m.clock).Some? ==>
        AnswerFresh(c, m, key, Answered(L2Get(m.caches.l2, key, m.clock)))
    ensures L2Get(m.caches.l2, NegativeKey(key), m.clock).Some? ==> AnswerFresh(c, m, key, Answered(None))
  {
    var positive, negative := m.clock - (c.l2Ttl * 1000 + c.l1TtlMs), m.clock - (NEGATIVE_TTL_MS + c.l1TtlMs);
    var l1, l2 := m.caches.l1.store, m.caches.l2;
    if L1Get(m.caches.l1, key, m.clock).1.Some? {
      FreshWeaker(m, key, Some(l1[key].value), l1[key].expiresAt, c.l2Ttl * 1000 + c.l1TtlMs, positive);
    }
    if L1Get(m.caches.l1, NegativeKey(key), m.clock).1.Some? {
      FreshWeaker(m, key, None, l1[NegativeKey(key)].expiresAt, NEGATIVE_TTL_MS + c.l1TtlMs, negative);
    }
    if L2Get(l2, key, m.clock).Some? {
      FreshWeaker(m, key, Some(l2[key].value), l2[key].expiresAt, c.l2Ttl * 1000, positive);
    }
    if L2Get(l2, NegativeKey(key), m.clock).Some? {
      FreshWeaker(m, key, None, l2[NegativeKey(key)].expiresAt, NEGATIVE_TTL_MS, negative);
    }
  }

  /** Copying a Redis hit to L1 extends its life by the L1 lifetime only. */
  lemma PromotionKeepsFresh(c: Config, m: Machine, key: Key, o: CacheOptions)
    requires AtMoment(c, m, key, o)
    ensures L2Get(m.caches.l2, key, m.clock).Some? ==> StaleInv(c, m.(caches := m.caches.(
      l1 := L1Set(m.caches.l1, c.maxSize, key, L2Get(m.caches.l2, key, m.clock).value, o.l1TtlMs, m.clock))))
    ensures L2Get(m.caches.l2, NegativeKey(key), m.clock).Some? ==> StaleInv(c, m.(caches := m.caches.(
      l1 := L1Set(m.caches.l1, c.maxSize, NegativeKey(key), True, o.l1TtlMs, m.clock))))
  {
    var l2 := m.caches.l2;
    if L2Get(l2, key, m.clock).Some? {
      var l1 := L1Set(m.caches.l1, c.maxSize, key, l2[key].value, o.l1TtlMs, m.clock);
      SetOnlyAdds(m.caches.l1, c.maxSize, key, l2[key].value, o.l1TtlMs, m.clock);
      FreshWeaker(m, key, Some(l2[key].value), l2[key].expiresAt, c.l2Ttl * 1000,
        m.clock + o.l1TtlMs - (c.l2Ttl * 1000 + c.l1TtlMs));
      FreshWithPositive(c, m, m.caches.l1.store, l1.store, c.l1TtlMs, key);
    }
    if L2Get(l2, NegativeKey(key), m.clock).Some? {
      var l1 := L1Set(m.caches.l1, c.maxSize, NegativeKey(key), True, o.l1TtlMs, m.clock);
      SetOnlyAdds(m.caches.l1, c.maxSize, NegativeKey(key), True, o.l1TtlMs, m.clock);
      FreshWeaker(m, key, None, l2[NegativeKey(key)].expiresAt, NEGATIVE_TTL_MS,
        m.clock + o.l1TtlMs - (NEGATIVE_TTL_MS + c.l1TtlMs));
      FreshWithNegative(c, m, m.caches.l1.store, l1.store, c.l1TtlMs, key);
    }
  }

  lemma ReadKeepsFresh(c: Config, m: Machine, key: Key, o: CacheOptions, fetched: Option<Option<Json>>, io: ReadIo)
    requires AtMoment(c, m, key, o) && (fetched.Some? ==> fetched.value == Fetch(m.db, key))
    ensures ReadOutcome(c, m, key, CacheGet(m.caches, c.maxSize, m.clock, key, o, fetched, io))
  {
    var m1 := m.(caches := m.caches.(l1 := L1Get(m.caches.l1, key, m.clock).0));
    var m2 := m1.(caches := m1.caches.(l1 := L1Get(m1.caches.l1, NegativeKey(key), m.clock).0));
    LookupsOnlyDrop(c, m, key);
    LookupsOnlyDrop(c, m1, NegativeKey(key));
    HitsAreFresh(c, m, key, o);
    HitsAreFresh(c, m1, key, o);
    PromotionKeepsFresh(c, m2, key, o);
    FillKeepsFresh(c, m2, key, o, fetched, io.setex);
  }

  lemma StepKeepsStaleInv(c: Config, m: Machine, e: Event)
    requires Bounds(c) && StaleInv(c, m) && Allowed(c, m, e)
    ensures StaleInv(c, Step(c, m, e))
    ensures e.Read? ==> AnswerFresh(c, Step(c, m, e), e.key, ReadAt(c, m, e).1)
  {
    var seen := m.(clock := e.now, past := m.past + [Moment(e.now, m.db)]);
    FreshLater(c, m, seen, [Moment(e.now, m.db)], m.caches.l1.store, c.l1TtlMs);
    FreshLater(c, m, seen, [Moment(e.now, m.db)], m.caches.l2, 0);
    var m' := Step(c, m, e);
    match e {
      case Read(now, key, o, fetchOk, io) =>
        ReadKeepsFresh(c, seen, key, o, if fetchOk then Some(Fetch(m.db, key)) else None, io);
      case Invalidate(_, key, io) =>
        FreshFewer(c, seen, m'.caches.l1.store, m.caches.l1.store, c.l1TtlMs);
        FreshFewer(c, seen, m'.caches.l2, m.caches.l2, 0);
      case Write(now, key, value) =>
        FreshLater(c, seen, m', [Moment(now, m'.db)], m.caches.l1.store, c.l1TtlMs);
        FreshLater(c, seen, m', [Moment(now, m'.db)], m.caches.l2, 0);
      case L2Loses(_, _) =>
        FreshFewer(c, seen, m'.caches.l2, m.caches.l2, 0);
      case L1Restarts(_) =>
    }
  }

  lemma {:induction false} RunKeepsStaleInv(c: Config, db: map<Key, Json>, t: Trace<Event>)
    requires Bounds(c) && ValidRun(c, db, t)
    ensures StaleInv(c, Run(c, db, t))
  {
    if t.Then? {
      RunKeepsStaleInv(c, db, t.before);
      StepKeepsStaleInv(c, Run(c, db, t.before), t.event);
    }
  }

  /**
   Bounded staleness, over every run of reads, invalidations, writes, evictions and Redis failures: a
   value read at time t is what the database gave for that key at some moment of the last
   l2Ttl * 1000 + l1TtlMs ms, and an absence read at t likewise of the last 60000 + l1TtlMs ms.
   */
  lemma BoundedStaleness(c: Config, db: map<Key, Json>, t: Trace<Event>, e: Event)
    requires Bounds(c) && ValidRun(c, db, Then(t, e)) && e.Read?
    ensures var answer := ReadAt(c, Run(c, db, t), e).1;
      && (answer == FetchThrew ==> !e.fetchOk)
      && (answer.Answered? && answer.value.Some? ==>
            GaveWithin(Run(c, db, Then(t, e)).past, e.key, answer.value, e.now - (c.l2Ttl * 1000 + c.l1TtlMs), e.now))
      && (answer.Answered? && answer.value.None? ==>
            GaveWithin(Run(c, db, Then(t, e)).past, e.key, None, e.now - (NEGATIVE_TTL_MS + c.l1TtlMs), e.now))
  {
    RunKeepsStaleInv(c, db, t);
    StepKeepsStaleInv(c, Run(c, db, t), e);
  }

  /**
   The keys must be disjoint: whenever a key in use is the not-found key of another, a run of two reads of
   an empty database returns a value the database never gave for that key.
   */
  lemma CollidingKeysBreakStaleness(c: Config, key: Key, o: CacheOptions)
    requires key in c.keys && NegativeKey(key) in c.keys
    requires 0 <= o.l1TtlMs <= c.l1TtlMs && o.l2Ttl <= c.l2Ttl && o.useNegativeCache
    ensures exists t: Trace<Event>, e: Event ::
      && ValidRun(c, map[], Then(t, e)) && e.Read?
      && var answer := ReadAt(c, Run(c, map[], t), e).1;
         answer.Answered? && forall lo, hi :: !GaveWithin(Run(c, map[], Then(t, e)).past, e.key, answer.value, lo, hi)
  {
    var io := ReadIo(false, false, Refused);
    var first, second := Read(0, key, o, true, io), Read(0, NegativeKey(key), o, true, io);
    var t := Then(Start, first);
    assert Run(c, map[], t).caches.l1.store == map[NegativeKey(key) := Entry(True, o.l1TtlMs)];
    assert ReadAt(c, Run(c, map[], t), second).1 == Answered(Some(True));
    assert ValidRun(c, map[], Then(t, second));
  }

  // ---------------------------------------------------------------- the service's own keys

  const USER_PREFIX: Key := "user-service:user:"

  function UserProfileKey(userId: string): Key {
    USER_PREFIX + userId + ":profile"
  }

  /** The key of an email already lower-cased and trimmed. */
  function UserEmailKey(email: string): Key {
    USER_PREFIX + "email:" + email
  }

  ghost predicate Built(key: Key) {
    (exists userId :: key == UserProfileKey(userId)) || (exists email :: key == UserEmailKey(email))
  }

  predicate EndsInNotFound(email: string) {
    |email| >= 9 && email[|email| - 9..] == NOT_FOUND
  }

  /** No profile key is the not-found key of any key. */
  lemma ProfileKeysNeverCollide(userId: string, other: Key)
    ensures UserProfileKey(userId) != NegativeKey(other)
  {
    var key, negative := UserProfileKey(userId), NegativeKey(other);
    assert key[|key| - 1] == 'e';
    assert negative[|negative| - 1] == 'd';
  }

  /** The key of an email is the not-found key of another built key exactly if the email ends in the suffix. */
  lemma EmailKeysCollideExactly(email: string, other: Key)
    requires Built(other)
    ensures UserEmailKey(email) == NegativeKey(other) <==>
      EndsInNotFound(email) && other == UserEmailKey(email[..|email| - 9])
  {
    assert |other| >= |USER_PREFIX + "email:"|;
    if |email| >= 9 {
      var key := UserEmailKey(email);
      assert key == UserEmailKey(email[..|email| - 9]) + email[|email| - 9..];
      assert key[..|key| - 9] == UserEmailKey(email[..|email| - 9]) && key[|key| - 9..] == email[|email| - 9..];
      assert NegativeKey(other)[..|other|] == other && NegativeKey(other)[|other|..] == NOT_FOUND;
    }
  }

  /** The keys this service builds are disjoint unless a cached email ends in the not-found suffix. */
  lemma ServiceKeysAreDisjoint(keys: set<Key>)
    requires forall k :: k in keys ==> Built(k)
    requires forall email :: UserEmailKey(email) in keys ==> !EndsInNotFound(email)
    ensures Disjoint(keys)
  {
    forall k, k' | k in keys && k' in keys ensures k != NegativeKey(k') {
      if userId :| k == UserProfileKey(userId) {
        ProfileKeysNeverCollide(userId, k');
      } else {
        var email :| k == UserEmailKey(email);
        EmailKeysCollideExactly(email, k');
      }
    }
  }

  // ---------------------------------------------------------------- transparency

  /** Every cached entry of a clean key says what the database says. */
  ghost predicate StoreExact(c: Config, m: Machine, store: map<Key, Entry>) {
    forall k :: k in c.keys && k !in m.dirty ==>
      && (k in store ==> Fetch(m.db, k) == Some(store[k].value))
      && (NegativeKey(k) in store ==> Fetch(m.db, k) == None)
  }

  ghost predicate ExactInv(c: Config, m: Machine) {
    StoreExact(c, m, m.caches.l1.store) && StoreExact(c, m, m.caches.l2)
  }

  /** No read of a key between a write to it and an invalidation that reached Redis. */
  ghost predicate Disciplined(c: Config, db: map<Key, Json>, t: Trace<Event>) {
    t.Then? ==> Disciplined(c, db, t.before) && (t.event.Read? ==> t.event.key !in Run(c, db, t.before).dirty)
  }

  lemma ExactWith(c: Config, m: Machine, store: map<Key, Entry>, store': map<Key, Entry>, key: Key)
    requires Disjoint(c.keys) && key in c.keys && key !in m.dirty && StoreExact(c, m, store)
    requires
      || (Within(store' - {key}, store) && (key in store' ==> Fetch(m.db, key) == Some(store'[key].value)))
      || (Within(store' - {NegativeKey(key)}, store) && (NegativeKey(key) in store' ==> Fetch(m.db, key) == None))
    ensures StoreExact(c, m, store')
  {
    forall k | k in c.keys && k !in m.dirty
      ensures k in store' ==> Fetch(m.db, k) == Some(store'[k].value)
      ensures NegativeKey(k) in store' ==> Fetch(m.db, k) == None
    {
      assert k in store' && k != key ==> k in store' - {key};
      assert k in store' ==> k in store' - {NegativeKey(key)};
      assert NegativeKey(k) in store' ==> NegativeKey(k) in store' - {key};
      if NegativeKey(k) == NegativeKey(key) {
        NegativeKeyInjective(k, key);
      } else {
        assert NegativeKey(k) in store' ==> NegativeKey(k) in store' - {NegativeKey(key)};
      }
    }
  }

  lemma FoundKeepsExact(c: Config, m: Machine, now: int, key: Key, o: CacheOptions, value: Json, fate: Outcome)
    requires Disjoint(c.keys) && ExactInv(c, m) && key in c.keys && key !in m.dirty && Some(value) == Fetch(m.db, key)
    ensures StoreExact(c, m, L1Set(m.caches.l1, c.maxSize, key, value, o.l1TtlMs, now).store)
    ensures StoreExact(c, m, L2SetEx(m.caches.l2, key, o.l2Ttl, value, now, fate))
  {
    SetOnlyAdds(m.caches.l1, c.maxSize, key, value, o.l1TtlMs, now);
    ExactWith(c, m, m.caches.l1.store, L1Set(m.caches.l1, c.maxSize, key, value, o.l1TtlMs, now).store, key);
    ExactWith(c, m, m.caches.l2, L2SetEx(m.caches.l2, key, o.l2Ttl, value, now, fate), key);
  }

  lemma MissingKeepsExact(c: Config, m: Machine, now: int, key: Key, o: CacheOptions, fate: Outcome)
    requires Disjoint(c.keys) && ExactInv(c, m) && key in c.keys && key !in m.dirty && Fetch(m.db, key) == None
    ensures StoreExact(c, m, L1Set(m.caches.l1, c.maxSize, NegativeKey(key), True, o.l1TtlMs, now).store)
    ensures StoreExact(c, m, L2SetEx(m.caches.l2, NegativeKey(key), NEGATIVE_TTL_MS / 1000, NumberOne, now, fate))
  {
    var negative := NegativeKey(key);
    SetOnlyAdds(m.caches.l1, c.maxSize, negative, True, o.l1TtlMs, now);
    ExactWith(c, m, m.caches.l1.store, L1Set(m.caches.l1, c.maxSize, negative, True, o.l1TtlMs, now).store, key);
    ExactWith(c, m, m.caches.l2, L2SetEx(m.caches.l2, negative, NEGATIVE_TTL_MS / 1000, NumberOne, now, fate), key);
  }

  lemma FillKeepsExact(c: Config, m: Machine, now: int, key: Key, o: CacheOptions, fetched: Option<Option<Json>>,
      fate: Outcome)
    requires Disjoint(c.keys) && ExactInv(c, m) && key in c.keys && key !in m.dirty
    requires fetched.Some? ==> fetched.value == Fetch(m.db, key)
    ensures ExactInv(c, m.(caches := FetchAndFill(m.caches, c.maxSize, now, key, o, fetched, fate).0))
  {
    match fetched
    case None =>
    case Some(Some(value)) => FoundKeepsExact(c, m, now, key, o, value, fate);
    case Some(None) => MissingKeepsExact(c, m, now, key, o, fate);
  }

  lemma ReadKeepsExact(c: Config, m: Machine, now: int, key: Key, o: CacheOptions, fetched: Option<Option<Json>>,
      io: ReadIo)
    requires Disjoint(c.keys) && ExactInv(c, m) && key in c.keys && key !in m.dirty
    requires fetched.Some? ==> fetched.value == Fetch(m.db, key)
    ensures var (c', answer) := CacheGet(m.caches, c.maxSize, now, key, o, fetched, io);
      && ExactInv(c, m.(caches := c'))
      && (answer.Answered? ==> answer.value == Fetch(m.db, key))
      && (answer == FetchThrew ==> fetched == None)
  {
    var l1 := L1Get(L1Get(m.caches.l1, key, now).0, NegativeKey(key), now).0;
    var m1 := m.(caches := m.caches.(l1 := l1));
    FillKeepsExact(c, m1, now, key, o, fetched, io.setex);
    if L2Get(m.caches.l2, key, now).Some? {
      SetOnlyAdds(l1, c.maxSize, key, m.caches.l2[key].value, o.l1TtlMs, now);
      ExactWith(c, m1, l1.store, L1Set(l1, c.maxSize, key, m.caches.l2[key].value, o.l1TtlMs, now).store, key);
    }
    if L2Get(m.caches.l2, NegativeKey(key), now).Some? {
      SetOnlyAdds(l1, c.maxSize, NegativeKey(key), True, o.l1TtlMs, now);
      ExactWith(c, m1, l1.store, L1Set(l1, c.maxSize, NegativeKey(key), True, o.l1TtlMs, now).store, key);
    }
  }

  lemma StepKeepsExact(c: Config, m: Machine, e: Event)
    requires Disjoint(c.keys) && ExactInv(c, m) && Allowed(c, m, e) && (e.Read? ==> e.key !in m.dirty)
    ensures ExactInv(c, Step(c, m, e))
  {
    match e {
      case Read(now, key, o, fetchOk, io) =>
        ReadKeepsExact(c, m, now, key, o, if fetchOk then Some(Fetch(m.db, key)) else None, io);
      case Invalidate(_, _, _) =>
      case Write(_, _, _) =>
      case L2Loses(_, _) =>
      case L1Restarts(_) =>
    }
  }

  lemma {:induction false} RunKeepsExact(c: Config, db: map<Key, Json>, t: Trace<Event>)
    requires Disjoint(c.keys) && ValidRun(c, db, t) && Disciplined(c, db, t)
    ensures ExactInv(c, Run(c, db, t))
  {
    if t.Then? {
      RunKeepsExact(c, db, t.before);
      StepKeepsExact(c, Run(c, db, t.before), t.event);
    }
  }

  /**
   Transparency: in every disciplined run a read answers what the plain fetch would, or throws because the fetch does.
   */
  lemma CacheTransparency(c: Config, db: map<Key, Json>, t: Trace<Event>, e: Event)
    requires Disjoint(c.keys) && ValidRun(c, db, Then(t, e)) && Disciplined(c, db, Then(t, e)) && e.Read?
    ensures var m := Run(c, db, t);
      && (ReadAt(c, m, e).1.Answered? ==> ReadAt(c, m, e).1 == Answered(Fetch(m.db, e.key)))
      && (e.fetchOk ==> ReadAt(c, m, e).1.Answered?)
  {
    RunKeepsExact(c, db, t);
    var m := Run(c, db, t);
    ReadKeepsExact(c, m, e.now, e.key, e.o, if e.fetchOk then Some(Fetch(m.db, e.key)) else None, e.io);
  }

  // ---------------------------------------------------------------- L1 stays within its capacity

  ghost predicate NoDuplicates(order: seq<Key>) {
    forall i, j :: 0 <= i < j < |order| ==> order[i] != order[j]
  }

  /** The insertion order lists each stored key once. */
  ghost predicate Ordered(l1: L1) {
    NoDuplicates(l1.order) && forall k :: k in l1.store <==> k in l1.order
  }

  lemma {:induction false} WithoutKeyMembers(order: seq<Key>, key: Key)
    ensures forall k :: k in WithoutKey(order, key) <==> k in order && k != key
  {
    if order != [] {
      WithoutKeyMembers(order[1..], key);
      assert order == [order[0]] + order[1..];
    }
  }

  lemma OneInFront(key: Key, rest: seq<Key>)
    requires NoDuplicates(rest) && key !in rest
    ensures NoDuplicates([key] + rest)
  {
  }

  lemma TailNoDuplicates(order: seq<Key>)
    requires NoDuplicates(order) && order != []
    ensures NoDuplicates(order[1..]) && order[0] !in order[1..]
  {
  }

  lemma {:induction false} WithoutKeyNoDuplicates(order: seq<Key>, key: Key)
    requires NoDuplicates(order)
    ensures NoDuplicates(WithoutKey(order, key))
  {
    if order != [] {
      TailNoDuplicates(order);
      WithoutKeyNoDuplicates(order[1..], key);
      WithoutKeyMembers(order[1..], key);
      var rest := WithoutKey(order[1..], key);
      if order[0] == key {
        assert [] + rest == rest;
      } else {
        OneInFront(order[0], rest);
      }
    }
  }

  lemma DelKeepsOrdered(l1: L1, key: Key)
    requires Ordered(l1)
    ensures Ordered(L1Del(l1, key))
  {
    WithoutKeyMembers(l1.order, key);
    WithoutKeyNoDuplicates(l1.order, key);
  }

  lemma SetKeepsOrdered(l1: L1, maxSize: nat, key: Key, value: Json, ttlMs: int, now: int)
    requires Ordered(l1)
    ensures Ordered(L1Set(l1, maxSize, key, value, ttlMs, now))
  {
    var roomy := Evict(l1, maxSize);
    assert Ordered(roomy) by {
      if roomy != l1 {
        DelKeepsOrdered(l1, l1.order[0]);
      }
    }
    var l1' := L1Set(l1, maxSize, key, value, ttlMs, now);
    forall k ensures k in l1'.store <==> k in l1'.order {
      assert k in l1'.order <==> k in roomy.order || k == key;
    }
  }

  /**
   One set keeps a full store within capacity exactly when it replaces a key or the oldest key is not the empty
   string.
   */
  lemma CapacityKeptExactly(l1: L1, maxSize: nat, key: Key, value: Json, ttlMs: int, now: int)
    requires Ordered(l1) && |l1.store| <= maxSize
    ensures |L1Set(l1, maxSize, key, value, ttlMs, now).store| <= maxSize <==>
      |l1.store| < maxSize || key in l1.store || (l1.order != [] && l1.order[0] != "")
  {
    var roomy := Evict(l1, maxSize);
    assert roomy.store.Keys == if roomy == l1 then l1.store.Keys else l1.store.Keys - {l1.order[0]};
    var after := L1Set(l1, maxSize, key, value, ttlMs, now).store;
    assert after.Keys == roomy.store.Keys + {key};
    assert |after| == |after.Keys| && |l1.store| == |l1.store.Keys| && |roomy.store| == |roomy.store.Keys|;
  }

  ghost predicate CapacityInv(c: Config, l1: L1) {
    Ordered(l1) && "" !in l1.store && |l1.store| <= c.maxSize
  }

  lemma DelKeepsCapacity(c: Config, l1: L1, key: Key)
    requires CapacityInv(c, l1)
    ensures CapacityInv(c, L1Del(l1, key))
  {
    DelKeepsOrdered(l1, key);
    assert (l1.store - {key}).Keys == l1.store.Keys - {key};
    assert |l1.store - {key}| == |(l1.store - {key}).Keys| && |l1.store| == |l1.store.Keys|;
  }

  lemma SetKeepsCapacity(c: Config, l1: L1, key: Key, value: Json, ttlMs: int, now: int)
    requires c.maxSize >= 1 && key != "" && CapacityInv(c, l1)
    ensures CapacityInv(c, L1Set(l1, c.maxSize, key, value, ttlMs, now))
  {
    SetKeepsOrdered(l1, c.maxSize, key, value, ttlMs, now);
    CapacityKeptExactly(l1, c.maxSize, key, value, ttlMs, now);
    if l1.order == [] {
      assert l1.store.Keys == {};
    } else {
      assert l1.order[0] in l1.store;
    }
  }

  /** All a read can do to L1: two lookups, then at most one set. */
  lemma ReadTouchesL1(c: Caches, maxSize: nat, now: int, key: Key, o: CacheOptions, fetched: Option<Option<Json>>,
      io: ReadIo)
    ensures var l1 := L1Get(c.l1, key, now).0;
      var l1' := L1Get(l1, NegativeKey(key), now).0;
      var after := CacheGet(c, maxSize, now, key, o, fetched, io).0.l1;
      || after == l1 || after == l1'
      || (exists value :: after == L1Set(l1', maxSize, key, value, o.l1TtlMs, now))
      || after == L1Set(l1', maxSize, NegativeKey(key), True, o.l1TtlMs, now)
  {
  }

  lemma ReadKeepsCapacity(c: Config, m: Caches, now: int, key: Key, o: CacheOptions, fetched: Option<Option<Json>>,
      io: ReadIo)
    requires c.maxSize >= 1 && key != "" && CapacityInv(c, m.l1)
    ensures CapacityInv(c, CacheGet(m, c.maxSize, now, key, o, fetched, io).0.l1)
  {
    var l1 := L1Get(m.l1, key, now).0;
    DelKeepsCapacity(c, m.l1, key);
    DelKeepsCapacity(c, l1, NegativeKey(key));
    var l1' := L1Get(l1, NegativeKey(key), now).0;
    ReadTouchesL1(m, c.maxSize, now, key, o, fetched, io);
    forall k, v: Json | k == key || k == NegativeKey(key)
      ensures CapacityInv(c, L1Set(l1', c.maxSize, k, v, o.l1TtlMs, now))
    {
      SetKeepsCapacity(c, l1', k, v, o.l1TtlMs, now);
    }
  }

  lemma StepKeepsCapacity(c: Config, m: Machine, e: Event)
    requires c.maxSize >= 1 && "" !in c.keys && CapacityInv(c, m.caches.l1) && Allowed(c, m, e)
    ensures CapacityInv(c, Step(c, m, e).caches.l1)
  {
    match e {
      case Read(now, key, o, fetchOk, io) =>
        ReadKeepsCapacity(c, m.caches, now, key, o, if fetchOk then Some(Fetch(m.db, key)) else None, io);
      case Invalidate(now, key, _) =>
        DelKeepsCapacity(c, m.caches.l1, key);
        DelKeepsCapacity(c, L1Del(m.caches.l1, key), NegativeKey(key));
      case Write(_, _, _) =>
      case L2Loses(_, _) =>
      case L1Restarts(_) =>
    }
  }

  /** L1 of a machine never outgrows its capacity, if that is positive and no key in use is empty. */
  lemma {:induction false} L1WithinCapacity(c: Config, db: map<Key, Json>, t: Trace<Event>)
    requires c.maxSize >= 1 && "" !in c.keys && ValidRun(c, db, t)
    ensures CapacityInv(c, Run(c, db, t).caches.l1)
  {
    if t.Then? {
      L1WithinCapacity(c, db, t.before);
      StepKeepsCapacity(c, Run(c, db, t.before), t.event);
    }
  }

  lemma ReadKeepsOrdered(c: Caches, maxSize: nat, now: int, key: Key, o: CacheOptions,
      fetched: Option<Option<Json>>, io: ReadIo)
    requires Ordered(c.l1)
    ensures Ordered(CacheGet(c, maxSize, now, key, o, fetched, io).0.l1)
  {
    var l1 := L1Get(c.l1, key, now).0;
    var l1' := L1Get(l1, NegativeKey(key), now).0;
    DelKeepsOrdered(c.l1, key);
    DelKeepsOrdered(l1, NegativeKey(key));
    ReadTouchesL1(c, maxSize, now, key, o, fetched, io);
    forall k, v: Json | k == key || k == NegativeKey(key)
      ensures Ordered(L1Set(l1', maxSize, k, v, o.l1TtlMs, now))
    {
      SetKeepsOrdered(l1', maxSize, k, v, o.l1TtlMs, now);
    }
  }

  lemma StepKeepsOrdered(c: Config, m: Machine, e: Event)
    requires Ordered(m.caches.l1)
    ensures Ordered(Step(c, m, e).caches.l1)
  {
    match e {
      case Read(now, key, o, fetchOk, io) =>
        ReadKeepsOrdered(m.caches, c.maxSize, now, key, o, if fetchOk then Some(Fetch(m.db, key)) else None, io);
      case Invalidate(_, key, _) =>
        DelKeepsOrdered(m.caches.l1, key);
        DelKeepsOrdered(L1Del(m.caches.l1, key), NegativeKey(key));
      case Write(_, _, _) =>
      case L2Loses(_, _) =>
      case L1Restarts(_) =>
    }
  }

  /** In every run the insertion order lists exactly the stored keys, each once. */
  lemma {:induction false} L1Ordered(c: Config, db: map<Key, Json>, t: Trace<Event>)
    ensures Ordered(Run(c, db, t).caches.l1)
  {
    if t.Then? {
      L1Ordered(c, db, t.before);
      StepKeepsOrdered(c, Run(c, db, t.before), t.event);
    }
  }

  // ---------------------------------------------------------------- the caches do cache

  /** Neither level knows the key at `now`. */
  predicate Misses(c: Caches, key: Key, now: int) {
    && L1Get(c.l1, key, now).1 == None && L1Get(c.l1, NegativeKey(key), now).1 == None
    && L2Get(c.l2, key, now) == None && L2Get(c.l2, NegativeKey(key), now) == None
  }

  /** A miss goes on to the database, with the expired entries of both keys dropped from L1. */
  lemma MissFetches(c: Caches, maxSize: nat, now: int, key: Key, o: CacheOptions, fetched: Option<Option<Json>>,
      io: ReadIo)
    requires Misses(c, key, now)
    ensures var l1 := L1Get(L1Get(c.l1, key, now).0, NegativeKey(key), now).0;
      && key !in l1.store && NegativeKey(key) !in l1.store
      && CacheGet(c, maxSize, now, key, o, fetched, io) ==
           FetchAndFill(c.(l1 := l1), maxSize, now, key, o, fetched, io.setex)
  {
    assert |key| != |NegativeKey(key)|;
  }

  /** A miss fills both levels with the fetched result, under the key or under its not-found key. */
  lemma MissFillsBothLevels(c: Caches, maxSize: nat, now: int, key: Key, o: CacheOptions, result: Option<Json>,
      io: ReadIo)
    requires Misses(c, key, now) && (result.Some? || o.useNegativeCache)
    ensures var c' := CacheGet(c, maxSize, now, key, o, Some(result), io).0;
      var slot := if result.Some? then key else NegativeKey(key);
      && slot in c'.l1.store && c'.l1.store[slot].expiresAt == now + o.l1TtlMs
      && (result.Some? ==> c'.l1.store[slot].value == result.value)
      && (result.None? ==> key !in c'.l1.store && L2Get(c'.l2, key, now) == None)
      && (io.setex != Refused ==>
            && slot in c'.l2
            && c'.l2[slot].expiresAt == now + (if result.Some? then o.l2Ttl * 1000 else NEGATIVE_TTL_MS)
            && (result.Some? ==> c'.l2[slot].value == result.value))
  {
    MissFetches(c, maxSize, now, key, o, Some(result), io);
    assert |key| != |NegativeKey(key)|;
  }

  /** A result just fetched is answered from L1 until its lifetime there is over, and then no more. */
  lemma FetchedResultStaysInL1(c: Caches, maxSize: nat, now: int, key: Key, o: CacheOptions,
                               result: Option<Json>, io: ReadIo,
                               later: int, o': CacheOptions, io': ReadIo)
    requires Misses(c, key, now) && (result.Some? || o.useNegativeCache) && now <= later
    requires later <= now + o.l1TtlMs || !io'.getOk
    ensures CacheGet(CacheGet(c, maxSize, now, key, o, Some(result), io).0, maxSize, later, key, o', None, io').1 ==
        if later <= now + o.l1TtlMs then Answered(result) else FetchThrew
  {
    MissFillsBothLevels(c, maxSize, now, key, o, result, io);
    MissFetches(c, maxSize, now, key, o, Some(result), io);
  }

  /** And by any process that reaches Redis, exactly while the entry written there lives. */
  lemma FetchedResultStaysInL2(c: Caches, maxSize: nat, now: int, key: Key, o: CacheOptions,
                               result: Option<Json>, io: ReadIo,
                               later: int, o': CacheOptions, io': ReadIo)
    requires Misses(c, key, now) && (result.Some? || o.useNegativeCache) && io.setex != Refused && io'.getOk
        && io'.getNegativeOk
    requires now <= later
    ensures var redis := CacheGet(c, maxSize, now, key, o, Some(result), io).0.l2;
      CacheGet(Caches(L1(map[], []), redis), maxSize, later, key, o', None, io').1 ==
        if later < now + (if result.Some? then o.l2Ttl * 1000 else NEGATIVE_TTL_MS) then Answered(result)
        else FetchThrew
  {
    MissFillsBothLevels(c, maxSize, now, key, o, result, io);
  }

  /** Neither key nor its not-found key is in L1. */
  predicate OutOfL1(l1: L1, key: Key) {
    key !in l1.store && NegativeKey(key) !in l1.store
  }

  /** What Redis knows is answered, and put into L1 under the same key; Redis itself stays as it is. */
  lemma RedisHitFillsL1(c: Caches, maxSize: nat, now: int, key: Key, o: CacheOptions, fetched: Option<Option<Json>>,
      io: ReadIo)
    requires OutOfL1(c.l1, key) && io.getOk && io.getNegativeOk
    requires L2Get(c.l2, key, now).Some? || L2Get(c.l2, NegativeKey(key), now).Some?
    ensures var (c', answer) := CacheGet(c, maxSize, now, key, o, fetched, io);
      var slot := if L2Get(c.l2, key, now).Some? then key else NegativeKey(key);
      && answer == Answered(L2Get(c.l2, key, now))
      && c'.l2 == c.l2
      && slot in c'.l1.store && c'.l1.store[slot].expiresAt == now + o.l1TtlMs
      && (slot == key ==> answer == Answered(Some(c'.l1.store[key].value)))
      && (slot != key ==> key !in c'.l1.store)
  {
    assert |key| != |NegativeKey(key)|;
  }

  /** So until it expires there the same process answers it with Redis and the database both down. */
  lemma RedisHitStaysInL1(c: Caches, maxSize: nat, now: int, key: Key, o: CacheOptions, fetched: Option<Option<Json>>,
                          io: ReadIo, later: int, o': CacheOptions, io': ReadIo)
    requires OutOfL1(c.l1, key) && io.getOk && io.getNegativeOk && now <= later <= now + o.l1TtlMs
    requires L2Get(c.l2, key, now).Some? || L2Get(c.l2, NegativeKey(key), now).Some?
    ensures CacheGet(CacheGet(c, maxSize, now, key, o, fetched, io).0, maxSize, later, key, o', None, io').1 ==
        Answered(L2Get(c.l2, key, now))
  {
    RedisHitFillsL1(c, maxSize, now, key, o, fetched, io);
  }

  // ---------------------------------------------------------------- what is evicted

  function Last(keys: seq<Key>): Key
    requires keys != []
  {
    keys[|keys| - 1]
  }

  /** Setting the keys one after the other. */
  function SetAll(l1: L1, maxSize: nat, keys: seq<Key>, value: Json, ttlMs: int, now: int): L1 {
    if keys == [] then l1
    else L1Set(SetAll(l1, maxSize, keys[..|keys| - 1], value, ttlMs, now), maxSize, Last(keys), value, ttlMs, now)
  }

  /** The last `n` keys, or all of them. */
  function Newest(keys: seq<Key>, n: nat): seq<Key> {
    if |keys| <= n then keys else keys[|keys| - n..]
  }

  lemma {:induction false} WithoutAbsent(order: seq<Key>, key: Key)
    requires key !in order
    ensures WithoutKey(order, key) == order
  {
    if order != [] {
      assert order == [order[0]] + order[1..];
      WithoutAbsent(order[1..], key);
    }
  }

  lemma {:induction false} SizeOfOrder(order: seq<Key>)
    requires NoDuplicates(order)
    ensures |set k | k in order| == |order|
  {
    if order != [] {
      var rest := set k | k in order[1..];
      SizeOfOrder(order[1..]);
      assert order == [order[0]] + order[1..];
      assert (set k | k in order) == {order[0]} + rest && order[0] !in rest;
    }
  }

  lemma OrderedSize(l1: L1)
    requires Ordered(l1)
    ensures |l1.store| == |l1.order|
  {
    SizeOfOrder(l1.order);
    assert l1.store.Keys == set k | k in l1.order;
    assert |l1.store| == |l1.store.Keys|;
  }

  lemma WithoutOldest(order: seq<Key>)
    requires NoDuplicates(order) && order != []
    ensures WithoutKey(order, order[0]) == order[1..]
    ensures forall k :: k in order[1..] <==> k in order && k != order[0]
  {
    WithoutAbsent(order[1..], order[0]);
    assert order == [order[0]] + order[1..];
    assert [] + order[1..] == order[1..];
  }

  /**
   In a full store the oldest key goes and no other, even for a key that is there already; a key that is still
   there is overwritten in place, any other is added at the end.
   */
  lemma OldestGoes(l1: L1, maxSize: nat, key: Key, value: Json, ttlMs: int, now: int)
    requires Ordered(l1) && |l1.store| >= maxSize && l1.order != [] && l1.order[0] != ""
    ensures var l1' := L1Set(l1, maxSize, key, value, ttlMs, now);
      && l1'.order == (if key in l1.order[1..] then l1.order[1..] else l1.order[1..] + [key])
      && l1'.store == (l1.store - {l1.order[0]})[key := Entry(value, now + ttlMs)]
  {
    WithoutOldest(l1.order);
    assert l1.order[0] in l1.store;
    assert Evict(l1, maxSize) == L1(l1.store - {l1.order[0]}, l1.order[1..]);
  }

  /** Nothing goes while there is room, or when the oldest key is the empty string. */
  lemma NothingGoes(l1: L1, maxSize: nat, key: Key, value: Json, ttlMs: int, now: int)
    requires |l1.store| < maxSize || l1.order == [] || l1.order[0] == ""
    ensures var l1' := L1Set(l1, maxSize, key, value, ttlMs, now);
      && l1'.order == (if key in l1.store then l1.order else l1.order + [key])
      && l1'.store == l1.store[key := Entry(value, now + ttlMs)]
  {
  }

  /** After another key, the newest `n` are those before with it at the end, less the first if they were `n`. */
  lemma NewestGrow(keys: seq<Key>, n: nat)
    requires keys != [] && 1 <= n
    ensures var newest := Newest(keys[..|keys| - 1], n);
      && |newest| == (if |keys| - 1 <= n then |keys| - 1 else n)
      && Newest(keys, n) == (if |newest| < n then newest else newest[1..]) + [Last(keys)]
  {
  }

  lemma NewestAmong(keys: seq<Key>, n: nat)
    ensures forall k :: k in Newest(keys, n) ==> k in keys
  {
  }

  lemma SetNewKey(l1: L1, maxSize: nat, key: Key, value: Json, ttlMs: int, now: int)
    requires 1 <= maxSize && Ordered(l1) && key !in l1.order && "" !in l1.order && |l1.order| <= maxSize
    ensures var l1' := L1Set(l1, maxSize, key, value, ttlMs, now);
      Ordered(l1') && l1'.order == (if |l1.order| < maxSize then l1.order else l1.order[1..]) + [key]
  {
    SetKeepsOrdered(l1, maxSize, key, value, ttlMs, now);
    OrderedSize(l1);
    if |l1.order| < maxSize {
      NothingGoes(l1, maxSize, key, value, ttlMs, now);
    } else {
      OldestGoes(l1, maxSize, key, value, ttlMs, now);
    }
  }

  /** First in, first out: of distinct keys set one after the other, L1 holds the last maxSize, in that order. */
  lemma {:induction false} FirstInFirstOut(maxSize: nat, keys: seq<Key>, value: Json, ttlMs: int, now: int)
    requires 1 <= maxSize && NoDuplicates(keys) && "" !in keys
    ensures Ordered(SetAll(L1(map[], []), maxSize, keys, value, ttlMs, now))
    ensures SetAll(L1(map[], []), maxSize, keys, value, ttlMs, now).order == Newest(keys, maxSize)
  {
    if keys != [] {
      var before := keys[..|keys| - 1];
      FirstInFirstOut(maxSize, before, value, ttlMs, now);
      NewestGrow(keys, maxSize);
      NewestAmong(before, maxSize);
      SetNewKey(SetAll(L1(map[], []), maxSize, before, value, ttlMs, now), maxSize, Last(keys), value, ttlMs, now);
    }
  }

  // ---------------------------------------------------------------- what is invalidated

  /** The keys of `order` that are not in `gone`, in order. */
  function Remaining(order: seq<Key>, gone: set<Key>): seq<Key> {
    if order == [] then [] else (if order[0] in gone then [] else [order[0]]) + Remaining(order[1..], gone)
  }

  lemma {:induction false} TakenOutTwice(order: seq<Key>, a: Key, b: Key)
    ensures WithoutKey(WithoutKey(order, a), b) == Remaining(order, {a, b})
    ensures WithoutKey(order, a) == Remaining(order, {a})
  {
    if order != [] {
      var rest := WithoutKey(order[1..], a);
      TakenOutTwice(order[1..], a, b);
      if order[0] == a {
        assert WithoutKey(order, a) == rest;
      } else {
        assert ([order[0]] + rest)[1..] == rest;
      }
    }
  }

  lemma DelIsRemaining(l1: L1, key: Key)
    requires key in l1.order ==> key in l1.store
    ensures L1Del(l1, key).order == WithoutKey(l1.order, key) && L1Del(l1, key).store == l1.store - {key}
  {
    if key !in l1.store {
      WithoutAbsent(l1.order, key);
    }
  }

  /**
   Whatever becomes of its Redis commands, an invalidation takes the key and its not-found key out of L1 and leaves
   every other entry and its place; Redis loses exactly the keys whose delete was carried out, and the second delete
   is only tried after the first is acknowledged.
   */
  ghost predicate Invalidated(c: Caches, key: Key, io: InvalidateIo, c': Caches) {
    var negative := NegativeKey(key);
    && c'.l1 == L1(c.l1.store - {key, negative}, Remaining(c.l1.order, {key, negative}))
    && c'.l2 == c.l2 - (if io.del == Refused then {} else {key})
         - (if io.del == Done && io.delNegative != Refused then {negative} else {})
  }

  lemma L1Invalidated(l1: L1, key: Key, negative: Key)
    requires key != negative
    requires (key in l1.order ==> key in l1.store) && (negative in l1.order ==> negative in l1.store)
    ensures L1Del(L1Del(l1, key), negative) == L1(l1.store - {key, negative}, Remaining(l1.order, {key, negative}))
  {
    var once := L1Del(l1, key);
    DelIsRemaining(l1, key);
    assert negative in once.order ==> negative in once.store by {
      WithoutKeyMembers(l1.order, key);
    }
    DelIsRemaining(once, negative);
    TakenOutTwice(l1.order, key, negative);
    assert l1.store - {key} - {negative} == l1.store - {key, negative};
  }

  lemma L2Deleted(l2: map<Key, Entry>, key: Key, fate: Outcome)
    ensures L2Del(l2, key, fate) == l2 - if fate == Refused then {} else {key}
  {
    assert l2 - {} == l2;
  }

  lemma InvalidateMeaning(c: Caches, key: Key, io: InvalidateIo)
    requires Ordered(c.l1)
    ensures Invalidated(c, key, io, CacheInvalidate(c, key, io))
  {
    var l2 := L2Del(c.l2, key, io.del);
    assert |key| != |NegativeKey(key)|;
    L1Invalidated(c.l1, key, NegativeKey(key));
    L2Deleted(c.l2, key, io.del);
    L2Deleted(l2, NegativeKey(key), io.delNegative);
    assert l2 - {} == l2;
  }

  /** A read of a key that L1 does not hold answers, with Redis unreachable, what the plain fetch gives. */
  lemma UnreachableRedisFetches(c: Caches, maxSize: nat, now: int, key: Key, o: CacheOptions,
      fetched: Option<Option<Json>>, io: ReadIo)
    requires OutOfL1(c.l1, key) && !io.getOk
    ensures CacheGet(c, maxSize, now, key, o, fetched, io).1 ==
        if fetched.Some? then Answered(fetched.value) else FetchThrew
  {
  }

  /** t' continues t without a read of the key. */
  ghost predicate NotRead(key: Key, t: Trace<Event>, t': Trace<Event>) {
    t' == t || (t'.Then? && !(t'.event.Read? && t'.event.key == key) && NotRead(key, t, t'.before))
  }

  lemma SetKeepsOut(l1: L1, maxSize: nat, key: Key, slot: Key, value: Json, ttlMs: int, now: int)
    requires OutOfL1(l1, key) && slot != key && slot != NegativeKey(key)
    ensures OutOfL1(L1Set(l1, maxSize, slot, value, ttlMs, now), key)
  {
  }

  lemma GetKeepsOut(l1: L1, key: Key, slot: Key, now: int)
    requires OutOfL1(l1, key)
    ensures OutOfL1(L1Get(l1, slot, now).0, key)
  {
  }

  lemma OtherReadsKeepOut(c: Caches, maxSize: nat, now: int, key: Key, other: Key, o: CacheOptions,
      fetched: Option<Option<Json>>, io: ReadIo)
    requires OutOfL1(c.l1, key) && key != other && key != NegativeKey(other) && other != NegativeKey(key)
    ensures OutOfL1(CacheGet(c, maxSize, now, other, o, fetched, io).0.l1, key)
  {
    if NegativeKey(key) == NegativeKey(other) {
      NegativeKeyInjective(key, other);
    }
    var l1 := L1Get(c.l1, other, now).0;
    var l1' := L1Get(l1, NegativeKey(other), now).0;
    GetKeepsOut(c.l1, key, other, now);
    GetKeepsOut(l1, key, NegativeKey(other), now);
    ReadTouchesL1(c, maxSize, now, other, o, fetched, io);
    forall slot, v: Json | slot == other || slot == NegativeKey(other)
      ensures OutOfL1(L1Set(l1', maxSize, slot, v, o.l1TtlMs, now), key)
    {
      SetKeepsOut(l1', maxSize, key, slot, v, o.l1TtlMs, now);
    }
  }

  lemma StepKeepsOut(c: Config, m: Machine, e: Event, key: Key)
    requires Disjoint(c.keys) && key in c.keys && Allowed(c, m, e) && OutOfL1(m.caches.l1, key)
    requires !(e.Read? && e.key == key)
    ensures OutOfL1(Step(c, m, e).caches.l1, key)
  {
    if e.Read? {
      OtherReadsKeepOut(m.caches, c.maxSize, e.now, key, e.key, e.o,
        if e.fetchOk then Some(Fetch(m.db, e.key)) else None, e.io);
    }
  }

  lemma {:induction false} StaysOut(c: Config, db: map<Key, Json>, t: Trace<Event>, t': Trace<Event>, key: Key)
    requires Disjoint(c.keys) && key in c.keys && ValidRun(c, db, t') && NotRead(key, t, t')
    requires OutOfL1(Run(c, db, t).caches.l1, key)
    ensures OutOfL1(Run(c, db, t').caches.l1, key)
  {
    if t' != t {
      StaysOut(c, db, t, t'.before, key);
      StepKeepsOut(c, Run(c, db, t'.before), t'.event, key);
    }
  }

  lemma InvalidateTakesOut(c: Caches, key: Key, io: InvalidateIo)
    ensures OutOfL1(CacheInvalidate(c, key, io).l1, key)
  {
  }

  /**
   Read after invalidate: however the invalidation fared on Redis and whatever was written, invalidated, restarted or
   read under other keys since, the first read of the key with Redis unreachable answers the database.
   */
  lemma ReadAfterInvalidate(c: Config, db: map<Key, Json>, t: Trace<Event>, e: Event, t': Trace<Event>, read: Event)
    requires Disjoint(c.keys) && ValidRun(c, db, Then(t', read)) && e.Invalidate? && read.Read? && read.key == e.key
    requires NotRead(e.key, Then(t, e), t') && !read.io.getOk
    ensures var m := Run(c, db, t');
      ReadAt(c, m, read).1 == if read.fetchOk then Answered(Fetch(m.db, e.key)) else FetchThrew
  {
    InvalidateTakesOut(Run(c, db, t).caches, e.key, e.iio);
    StaysOut(c, db, Then(t, e), t', e.key);
    var m := Run(c, db, t');
    UnreachableRedisFetches(m.caches, c.maxSize, read.now, read.key, read.o,
      if read.fetchOk then Some(Fetch(m.db, read.key)) else None, read.io);
  }
}
