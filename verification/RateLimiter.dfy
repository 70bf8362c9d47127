/**
 The sliding-window rate limiter of notification-service.

 One Redis sorted set per identifier holds the admissions that are still inside the window. The
 atomic script trims the set, counts it and either rejects (with a retry-after) or adds an entry and
 refreshes the key's time to live. `After` and `Between` are the reference: they count over the full
 admission history, which the implementation never keeps.
 */
module RateLimiter {
  import opened Wrappers

  /** A sorted-set element: its score (a client timestamp in ms) and the caller's unique suffix. */
  datatype Entry = Entry(score: int, uuid: nat)

  /** A sorted-set key, in rank order, with the server time at which Redis drops it. */
  datatype ZKey = ZKey(entries: seq<Entry>, expireAt: int)

  datatype Reply = Reply(allowed: bool, count: nat, retryAfter: int)

  datatype RateLimitResult = RateLimitResult(allowed: bool, remaining: int, limit: int, retryAfterMs: int)

  /** Extra life the limiter gives its keys beyond the window, in ms. */
  const TTL_BUFFER: int := 1000

  // ---------------------------------------------------------------- Redis commands

  /** ZREMRANGEBYSCORE key lo hi. */
  function RemoveRangeByScore(z: seq<Entry>, lo: int, hi: int): seq<Entry> {
    if z == [] then []
    else
      var last := z[|z| - 1];
      RemoveRangeByScore(z[..|z| - 1], lo, hi) + if lo <= last.score <= hi then [] else [last]
  }

  /** The set without any element of the given name (ZADD moves an element that already exists). */
  function Without(z: seq<Entry>, uuid: nat): seq<Entry> {
    if z == [] then []
    else
      var last := z[|z| - 1];
      Without(z[..|z| - 1], uuid) + if last.uuid == uuid then [] else [last]
  }

  /** Insertion at the rank its score gives a new element. */
  function InsertByScore(z: seq<Entry>, e: Entry): seq<Entry> {
    if z == [] || z[|z| - 1].score <= e.score then z + [e]
    else InsertByScore(z[..|z| - 1], e) + [z[|z| - 1]]
  }

  /** ZADD key score member. */
  function ZAdd(z: seq<Entry>, e: Entry): seq<Entry> {
    InsertByScore(Without(z, e.uuid), e)
  }

  /** What a command sees under a key at server time `serverNow`: nothing once the key has expired. */
  function Live(k: ZKey, serverNow: int): seq<Entry> {
    if serverNow >= k.expireAt then [] else k.entries
  }

  /** The Lua script on one key. */
  function Script(k: ZKey, now: int, serverNow: int, windowMs: int, limit: int, ttlMs: int, uuid: nat): (ZKey, Reply) {
    var z := RemoveRangeByScore(Live(k, serverNow), 0, now - windowMs);
    if |z| >= limit then
      var oldestScore := if z == [] then 0 else z[0].score;
      var retryAfter := oldestScore + windowMs - now;
      (ZKey(z, k.expireAt), Reply(false, |z|, if retryAfter < 0 then 0 else retryAfter))
    else
      (ZKey(ZAdd(z, Entry(now, uuid)), serverNow + ttlMs), Reply(true, |z| + 1, 0))
  }

  // ---------------------------------------------------------------- the limiter

  class SlidingWindowRateLimiter {
    /** The part of Redis under the limiter's namespace. */
    var keys: map<string, ZKey>
    const limit: int
    const windowMs: int

    constructor (limit: int, windowMs: int)
      ensures this.limit == limit && this.windowMs == windowMs && keys == map[]
    {
      this.limit := limit;
      this.windowMs := windowMs;
      keys := map[];
    }

    /** The key an identifier maps to; a missing key reads as an expired one. */
    function KeyOf(identifier: string, serverNow: int): ZKey
      reads this
    {
      if identifier in keys then keys[identifier] else ZKey([], serverNow)
    }

    /** EVAL of the script: Redis runs it without interruption. */
    method Eval(identifier: string, now: int, serverNow: int, ttlMs: int, uuid: nat) returns (reply: Reply)
      modifies this`keys
      ensures identifier in keys
      ensures (keys[identifier], reply) ==
        Script(old(KeyOf(identifier, serverNow)), now, serverNow, windowMs, limit, ttlMs, uuid)
      ensures keys.Keys == old(keys.Keys) + {identifier}
      ensures forall other :: other in old(keys) && other != identifier ==> keys[other] == old(keys[other])
    {
      var k := KeyOf(identifier, serverNow);
      var z := RemoveRangeByScore(Live(k, serverNow), 0, now - windowMs);
      var count := |z|;
      if count >= limit {
        var oldestScore := 0;
        if z != [] {
          oldestScore := z[0].score;
        }
        var retryAfter := oldestScore + windowMs - now;
        if retryAfter < 0 {
          retryAfter := 0;
        }
        keys := keys[identifier := ZKey(z, k.expireAt)];
        return Reply(false, count, retryAfter);
      }
      z := ZAdd(z, Entry(now, uuid));
      keys := keys[identifier := ZKey(z, serverNow + ttlMs)];
      return Reply(true, count + 1, 0);
    }

    /** One check. Redis being unreachable fails open and changes nothing. */
    method Check(identifier: string, now: int, serverNow: int, uuid: nat, redisUp: bool) returns (r: RateLimitResult)
      modifies this`keys
      ensures !redisUp ==> keys == old(keys) && r == RateLimitResult(true, limit, limit, 0)
      ensures redisUp ==>
        && identifier in keys
        && var (k, reply) := Script(old(KeyOf(identifier, serverNow)), now, serverNow, windowMs, limit,
            windowMs + TTL_BUFFER, uuid);
          && keys[identifier] == k
          && r.allowed == reply.allowed && r.limit == limit && r.retryAfterMs == reply.retryAfter
          && r.remaining == if reply.allowed then limit - reply.count else 0
      ensures forall other :: other in old(keys) && other != identifier ==>
          other in keys && keys[other] == old(keys[other])
    {
      if !redisUp {
        return RateLimitResult(true, limit, limit, 0);
      }
      var reply := Eval(identifier, now, serverNow, windowMs + TTL_BUFFER, uuid);
      return RateLimitResult(reply.allowed, if reply.allowed then limit - reply.count else 0, limit, reply.retryAfter);
    }
  }

  // ---------------------------------------------------------------- reference: the full history

  /** The admissions of `h` later than `lo`. */
  function After(h: seq<Entry>, lo: int): seq<Entry> {
    if h == [] then []
    else
      var last := h[|h| - 1];
      After(h[..|h| - 1], lo) + if last.score > lo then [last] else []
  }

  /** The admissions of `h` in the half-open interval (lo, hi]. */
  function Between(h: seq<Entry>, lo: int, hi: int): seq<Entry> {
    if h == [] then []
    else
      var last := h[|h| - 1];
      Between(h[..|h| - 1], lo, hi) + if lo < last.score <= hi then [last] else []
  }

  /** The admissions in the half-open interval (lo, lo + windowMs]. */
  function Window(h: seq<Entry>, lo: int, windowMs: int): seq<Entry> {
    Between(h, lo, lo + windowMs)
  }

  ghost predicate Sorted(h: seq<Entry>) {
    forall i, j :: 0 <= i < j < |h| ==> h[i].score <= h[j].score
  }

  /** The decision by definition: fewer than `limit` admissions in (now - windowMs, now]. */
  predicate Admits(h: seq<Entry>, now: int, windowMs: int, limit: int) {
    |Window(h, now - windowMs, windowMs)| < limit
  }

  function Max(a: int, b: int): int {
    if a < b then b else a
  }

  // ---------------------------------------------------------------- runs

  /** One check as the script sees it. */
  datatype Check = Check(now: int, serverNow: int, uuid: nat)

  datatype Config = Config(limit: int, windowMs: int, skew: int)

  /** One identifier: its key, the history of admissions, the time of the last check. */
  datatype Machine = Machine(key: ZKey, admitted: seq<Entry>, clock: int)

  function Step(c: Config, m: Machine, e: Check): (Machine, Reply) {
    var (key, reply) := Script(m.key, e.now, e.serverNow, c.windowMs, c.limit, c.windowMs + TTL_BUFFER, e.uuid);
    (Machine(key, if reply.allowed then m.admitted + [Entry(e.now, e.uuid)] else m.admitted, e.now), reply)
  }

  function Run(c: Config, t: Trace<Check>): Machine {
    match t
    case Start => Machine(ZKey([], 0), [], 0)
    case Then(before, e) => Step(c, Run(c, before), e).0
  }

  /** The client clock does not go back and the server clock stays within the key's spare second of it. */
  ghost predicate Allowed(c: Config, m: Machine, e: Check) {
    && m.clock <= e.now
    && c.skew <= e.serverNow - e.now <= c.skew + TTL_BUFFER
    && forall i :: 0 <= i < |m.admitted| ==> m.admitted[i].uuid != e.uuid
  }

  ghost predicate ValidRun(c: Config, t: Trace<Check>) {
    t.Then? ==> ValidRun(c, t.before) && Allowed(c, Run(c, t.before), t.event)
  }

  /** No interval of one window's length holds more than `limit` admissions. */
  ghost predicate Bounded(c: Config, h: seq<Entry>) {
    forall lo :: |Window(h, lo, c.windowMs)| <= Max(c.limit, 0)
  }

  /** The history is in clock order. */
  ghost predicate Timely(h: seq<Entry>, clock: int) {
    Sorted(h) && forall i :: 0 <= i < |h| ==> 0 <= h[i].score <= clock
  }

  /**
   The trimmed set is the history cut at the last check's window; a live key outlives its last admission by a window.
   */
  ghost predicate Inv(c: Config, m: Machine) {
    && 0 <= m.clock
    && Timely(m.admitted, m.clock)
    && Bounded(c, m.admitted)
    && m.key.entries == After(m.admitted, m.clock - c.windowMs)
    && (m.admitted != [] ==>
          m.key.expireAt >= m.admitted[|m.admitted| - 1].score + c.skew + c.windowMs + TTL_BUFFER)
  }

  // ---------------------------------------------------------------- lemmas on the reference

  lemma {:induction false} AfterPart(h: seq<Entry>, lo: int)
    ensures |After(h, lo)| <= |h|
    ensures forall e :: e in After(h, lo) ==> e in h && e.score > lo
  {
    if h != [] {
      AfterPart(h[..|h| - 1], lo);
    }
  }

  lemma {:induction false} TrimIsAfter(h: seq<Entry>, lo: int, lo': int)
    requires lo <= lo'
    requires forall i :: 0 <= i < |h| ==> 0 <= h[i].score
    ensures RemoveRangeByScore(After(h, lo), 0, lo') == After(h, lo')
  {
    if h != [] {
      var init, last := h[..|h| - 1], h[|h| - 1];
      TrimIsAfter(init, lo, lo');
      var a := After(init, lo);
      if last.score > lo {
        assert (a + [last])[..|a|] == a;
      } else {
        assert After(h, lo) == a;
      }
    }
  }

  /** With nothing later than `hi`, the history after `lo` is the history in (lo, hi]. */
  lemma {:induction false} AfterIsBetween(h: seq<Entry>, lo: int, hi: int)
    requires forall i :: 0 <= i < |h| ==> h[i].score <= hi
    ensures Between(h, lo, hi) == After(h, lo)
  {
    if h != [] {
      AfterIsBetween(h[..|h| - 1], lo, hi);
    }
  }

  lemma {:induction false} AfterNothing(h: seq<Entry>, lo: int)
    requires forall i :: 0 <= i < |h| ==> h[i].score <= lo
    ensures After(h, lo) == []
  {
    if h != [] {
      AfterNothing(h[..|h| - 1], lo);
    }
  }

  /** A narrower interval never holds more. */
  lemma {:induction false} BetweenMonotone(h: seq<Entry>, lo: int, hi: int, lo': int, hi': int)
    requires lo' <= lo && hi <= hi'
    ensures |Between(h, lo, hi)| <= |Between(h, lo', hi')|
  {
    if h != [] {
      BetweenMonotone(h[..|h| - 1], lo, hi, lo', hi');
    }
  }

  lemma {:induction false} WithoutAbsent(z: seq<Entry>, uuid: nat)
    requires forall i :: 0 <= i < |z| ==> z[i].uuid != uuid
    ensures Without(z, uuid) == z
  {
    if z != [] {
      var init := z[..|z| - 1];
      assert z == init + [z[|z| - 1]];
      WithoutAbsent(init, uuid);
    }
  }

  /**
   Cutting a sorted history later loses nothing until the cut reaches the oldest entry still in, and then loses it.
   */
  lemma {:induction false} AfterLater(h: seq<Entry>, lo: int, lo': int)
    requires Sorted(h) && lo <= lo'
    ensures |After(h, lo')| <= |After(h, lo)|
    ensures After(h, lo) != [] ==>
      var oldest := After(h, lo)[0];
      && oldest in h && lo < oldest.score
      && (lo' < oldest.score ==> After(h, lo') == After(h, lo))
      && (lo' >= oldest.score ==> |After(h, lo')| < |After(h, lo)|)
  {
    if h != [] {
      AfterLater(h[..|h| - 1], lo, lo');
    }
  }

  lemma AfterSnoc(h: seq<Entry>, e: Entry, lo: int)
    ensures After(h + [e], lo) == After(h, lo) + if e.score > lo then [e] else []
  {
    assert (h + [e])[..|h|] == h;
  }

  lemma BetweenSnoc(h: seq<Entry>, e: Entry, lo: int, hi: int)
    ensures Between(h + [e], lo, hi) == Between(h, lo, hi) + if lo < e.score <= hi then [e] else []
  {
    assert (h + [e])[..|h|] == h;
  }

  // ---------------------------------------------------------------- refinement

  /** What the script finds after trimming is the reference window, expired key or not. */
  lemma TrimmedSet(c: Config, m: Machine, e: Check)
    requires Inv(c, m) && Allowed(c, m, e)
    ensures RemoveRangeByScore(Live(m.key, e.serverNow), 0, e.now - c.windowMs) == After(m.admitted, e.now - c.windowMs)
    ensures After(m.admitted, e.now - c.windowMs) == Window(m.admitted, e.now - c.windowMs, c.windowMs)
  {
    AfterIsBetween(m.admitted, e.now - c.windowMs, e.now);
    if e.serverNow >= m.key.expireAt {
      AfterNothing(m.admitted, e.now - c.windowMs);
    } else {
      TrimIsAfter(m.admitted, m.clock - c.windowMs, e.now - c.windowMs);
    }
  }

  /** A new admission goes to the end of the set. */
  lemma AddsLast(c: Config, m: Machine, e: Check)
    requires Timely(m.admitted, m.clock) && Allowed(c, m, e)
    ensures var z := After(m.admitted, e.now - c.windowMs); ZAdd(z, Entry(e.now, e.uuid)) == z + [Entry(e.now, e.uuid)]
  {
    var z := After(m.admitted, e.now - c.windowMs);
    AfterPart(m.admitted, e.now - c.windowMs);
    forall i | 0 <= i < |z| ensures z[i].uuid != e.uuid && z[i].score <= e.now {
      assert z[i] in z && z[i] in m.admitted;
    }
    WithoutAbsent(z, e.uuid);
  }

  /** A step described by the history alone. */
  ghost predicate HistoryStep(c: Config, m: Machine, e: Check, m': Machine, reply: Reply) {
    && m'.clock == e.now
    && m'.key.entries == After(m'.admitted, e.now - c.windowMs)
    && (reply.allowed <==> Admits(m.admitted, e.now, c.windowMs, c.limit))
    && reply.count == |Window(m'.admitted, e.now - c.windowMs, c.windowMs)|
    && m'.admitted == (if reply.allowed then m.admitted + [Entry(e.now, e.uuid)] else m.admitted)
    && m'.key.expireAt == (if reply.allowed then e.serverNow + c.windowMs + TTL_BUFFER else m.key.expireAt)
  }

  /** The script's effect, in terms of what its trim leaves. */
  lemma ScriptMeaning(c: Config, m: Machine, e: Check, z: seq<Entry>)
    requires RemoveRangeByScore(Live(m.key, e.serverNow), 0, e.now - c.windowMs) == z
    requires ZAdd(z, Entry(e.now, e.uuid)) == z + [Entry(e.now, e.uuid)]
    ensures var (m', reply), entry := Step(c, m, e), Entry(e.now, e.uuid);
      if |z| < c.limit then
        m' == Machine(ZKey(z + [entry], e.serverNow + c.windowMs + TTL_BUFFER), m.admitted + [entry], e.now)
          && reply == Reply(true, |z| + 1, 0)
      else m' == Machine(ZKey(z, m.key.expireAt), m.admitted, e.now) && !reply.allowed && reply.count == |z|
  {
  }

  lemma TrimGivesHistoryStep(c: Config, m: Machine, e: Check)
    requires var z := After(m.admitted, e.now - c.windowMs);
      && RemoveRangeByScore(Live(m.key, e.serverNow), 0, e.now - c.windowMs) == z
      && z == Window(m.admitted, e.now - c.windowMs, c.windowMs)
      && ZAdd(z, Entry(e.now, e.uuid)) == z + [Entry(e.now, e.uuid)]
    requires c.windowMs > 0
    ensures HistoryStep(c, m, e, Step(c, m, e).0, Step(c, m, e).1)
  {
    var lo, entry := e.now - c.windowMs, Entry(e.now, e.uuid);
    ScriptMeaning(c, m, e, After(m.admitted, lo));
    AfterSnoc(m.admitted, entry, lo);
    BetweenSnoc(m.admitted, entry, lo, e.now);
  }

  /** The script's effect, in terms of the history. */
  lemma StepMeaning(c: Config, m: Machine, e: Check)
    requires c.windowMs > 0 && Inv(c, m) && Allowed(c, m, e)
    ensures HistoryStep(c, m, e, Step(c, m, e).0, Step(c, m, e).1)
  {
    TrimmedSet(c, m, e);
    AddsLast(c, m, e);
    TrimGivesHistoryStep(c, m, e);
  }

  /** One more admission at `now`, made with a free slot in (now - windowMs, now], overfills no interval. */
  lemma AdmissionKeepsBounded(c: Config, h: seq<Entry>, e: Entry)
    requires c.windowMs > 0 && Timely(h, e.score) && Bounded(c, h) && Admits(h, e.score, c.windowMs, c.limit)
    ensures Bounded(c, h + [e])
  {
    forall lo ensures |Window(h + [e], lo, c.windowMs)| <= Max(c.limit, 0) {
      BetweenSnoc(h, e, lo, lo + c.windowMs);
      assert |Window(h, lo, c.windowMs)| <= Max(c.limit, 0);
      if lo < e.score <= lo + c.windowMs {
        BetweenMonotone(h, lo, lo + c.windowMs, e.score - c.windowMs, lo + c.windowMs);
        AfterIsBetween(h, e.score - c.windowMs, lo + c.windowMs);
        AfterIsBetween(h, e.score - c.windowMs, e.score);
      }
    }
  }

  lemma StepKeepsInv(c: Config, m: Machine, e: Check, m': Machine, reply: Reply)
    requires c.windowMs > 0 && Inv(c, m) && Allowed(c, m, e) && HistoryStep(c, m, e, m', reply)
    ensures Inv(c, m')
  {
    if Admits(m.admitted, e.now, c.windowMs, c.limit) {
      AdmissionKeepsBounded(c, m.admitted, Entry(e.now, e.uuid));
    }
  }

  lemma {:induction false} RunKeepsInv(c: Config, t: Trace<Check>)
    requires c.windowMs > 0 && ValidRun(c, t)
    ensures Inv(c, Run(c, t))
  {
    match t
    case Start =>
      assert forall lo :: Window([], lo, c.windowMs) == [];
    case Then(before, e) =>
      RunKeepsInv(c, before);
      StepMeaning(c, Run(c, before), e);
      StepKeepsInv(c, Run(c, before), e, Run(c, t), Step(c, Run(c, before), e).1);
  }

  /** Sliding-window refinement, over every run: each reply is the one the full history gives. */
  lemma SlidingWindowRefinement(c: Config, t: Trace<Check>, e: Check)
    requires c.windowMs > 0 && ValidRun(c, Then(t, e))
    ensures var m, (m', reply) := Run(c, t), Step(c, Run(c, t), e);
      && (reply.allowed <==> Admits(m.admitted, e.now, c.windowMs, c.limit))
      && reply.count == |Window(m'.admitted, e.now - c.windowMs, c.windowMs)|
      && m'.admitted == (if reply.allowed then m.admitted + [Entry(e.now, e.uuid)] else m.admitted)
  {
    RunKeepsInv(c, t);
    StepMeaning(c, Run(c, t), e);
  }

  /** Every half-open interval of one window's length holds at most `limit` admissions, in every run. */
  lemma AtMostLimitPerWindow(c: Config, t: Trace<Check>, lo: int)
    requires c.windowMs > 0 && c.limit >= 0 && ValidRun(c, t)
    ensures |Window(Run(c, t).admitted, lo, c.windowMs)| <= c.limit
  {
    RunKeepsInv(c, t);
  }

  // ---------------------------------------------------------------- retry-after

  lemma RejectionMeaning(c: Config, m: Machine, e: Check, z: seq<Entry>)
    requires RemoveRangeByScore(Live(m.key, e.serverNow), 0, e.now - c.windowMs) == z
    requires c.limit >= 1 && !Step(c, m, e).1.allowed
    ensures |z| >= c.limit
    ensures Step(c, m, e).1.retryAfter == Max(z[0].score + c.windowMs - e.now, 0)
  {
  }

  /** The delay the script computes is the time until its oldest admission is one window old. */
  lemma RejectionDelay(c: Config, m: Machine, e: Check)
    requires c.windowMs > 0 && c.limit >= 1 && Inv(c, m) && Allowed(c, m, e)
    requires !Step(c, m, e).1.allowed
    ensures var z := After(m.admitted, e.now - c.windowMs);
      && |z| >= c.limit
      && Step(c, m, e).1.retryAfter == z[0].score + c.windowMs - e.now
      && 0 < Step(c, m, e).1.retryAfter <= c.windowMs
  {
    TrimmedSet(c, m, e);
    var z := After(m.admitted, e.now - c.windowMs);
    RejectionMeaning(c, m, e, z);
    AfterPart(m.admitted, e.now - c.windowMs);
    assert z[0] in z && z[0] in m.admitted;
  }

  /** A full window frees exactly when its oldest admission is one window old. */
  lemma FreesWhenOldestLeaves(c: Config, h: seq<Entry>, now: int, t: int)
    requires c.windowMs > 0 && c.limit >= 1 && Timely(h, now) && Bounded(c, h) && t >= now
    requires |After(h, now - c.windowMs)| >= c.limit
    ensures After(h, now - c.windowMs)[0].score <= now
    ensures Admits(h, t, c.windowMs, c.limit) <==> t >= After(h, now - c.windowMs)[0].score + c.windowMs
  {
    var lo := now - c.windowMs;
    assert |After(h, lo)| == c.limit by {
      AfterIsBetween(h, lo, now);
      assert |Window(h, lo, c.windowMs)| <= Max(c.limit, 0);
    }
    AfterLater(h, lo, t - c.windowMs);
    AfterIsBetween(h, t - c.windowMs, t);
  }

  /** On the history of a rejecting state, later times are admissible exactly from now + retry-after on. */
  lemma RetryAfterOnHistory(c: Config, m: Machine, e: Check)
    requires c.windowMs > 0 && c.limit >= 1 && Inv(c, m) && Allowed(c, m, e)
    requires !Step(c, m, e).1.allowed
    ensures 0 < Step(c, m, e).1.retryAfter <= c.windowMs
    ensures forall t :: t >= e.now ==>
        (Admits(m.admitted, t, c.windowMs, c.limit) <==> t >= e.now + Step(c, m, e).1.retryAfter)
  {
    RejectionDelay(c, m, e);
    forall t | t >= e.now
      ensures Admits(m.admitted, t, c.windowMs, c.limit) <==> t >= e.now + Step(c, m, e).1.retryAfter
    {
      FreesWhenOldestLeaves(c, m.admitted, e.now, t);
    }
  }

  /** `t` continues `start`, with checks before `deadline` only. */
  ghost predicate ContinuesBefore(start: Trace<Check>, t: Trace<Check>, deadline: int) {
    t == start || (t.Then? && t.event.now < deadline && ContinuesBefore(start, t.before, deadline))
  }

  /**
   Exact retry-after, over runs: after a rejection with retry-after r at `now`, nothing checked before
   now + r is admitted, and the next check is admitted exactly when it comes at now + r or later.
   */
  lemma {:induction false} ExactRetryAfter(c: Config, t: Trace<Check>, e: Check, t': Trace<Check>, next: Check)
    requires c.windowMs > 0 && c.limit >= 1 && ValidRun(c, Then(t', next)) && ValidRun(c, Then(t, e))
    requires !Step(c, Run(c, t), e).1.allowed
    requires ContinuesBefore(Then(t, e), t', e.now + Step(c, Run(c, t), e).1.retryAfter)
    ensures var r := Step(c, Run(c, t), e).1.retryAfter;
      && 0 < r <= c.windowMs
      && Run(c, t').admitted == Run(c, t).admitted
      && Run(c, t').clock >= e.now
      && (Step(c, Run(c, t'), next).1.allowed <==> next.now >= e.now + r)
  {
    RunKeepsInv(c, t);
    RetryAfterOnHistory(c, Run(c, t), e);
    if t' != Then(t, e) {
      ExactRetryAfter(c, t, e, t'.before, t'.event);
    }
    RunKeepsInv(c, t');
    StepMeaning(c, Run(c, t'), next);
  }

  // ---------------------------------------------------------------- losing the key

  /** The key as Redis has it after dropping it. */
  function KeyLost(m: Machine, e: Check): Machine {
    m.(key := ZKey([], e.serverNow))
  }

  /** A set from which the trim removes everything. */
  lemma StepOnEmpty(c: Config, m: Machine, e: Check)
    requires RemoveRangeByScore(Live(m.key, e.serverNow), 0, e.now - c.windowMs) == []
    ensures var (m', reply) := Step(c, m, e);
      if 0 < c.limit then m'.key.entries == [Entry(e.now, e.uuid)] && reply == Reply(true, 1, 0)
      else m'.key.entries == [] && reply == Reply(false, 0, Max(c.windowMs - e.now, 0))
  {
    assert ZAdd([], Entry(e.now, e.uuid)) == [Entry(e.now, e.uuid)];
  }

  /** Dropping the key at any time from last admission + windowMs on changes neither the reply nor the set. */
  lemma DroppedKeyIsInvisible(c: Config, m: Machine, e: Check)
    requires c.windowMs > 0 && Inv(c, m) && Allowed(c, m, e)
    requires m.admitted != [] ==> e.now >= m.admitted[|m.admitted| - 1].score + c.windowMs
    ensures Step(c, KeyLost(m, e), e).1 == Step(c, m, e).1
    ensures Step(c, KeyLost(m, e), e).0.key.entries == Step(c, m, e).0.key.entries
  {
    assert RemoveRangeByScore(Live(m.key, e.serverNow), 0, e.now - c.windowMs) == [] by {
      TrimmedSet(c, m, e);
      AfterNothing(m.admitted, e.now - c.windowMs);
    }
    StepOnEmpty(c, m, e);
    StepOnEmpty(c, KeyLost(m, e), e);
  }

  /** The reply after a trim that leaves z. */
  lemma ReplyCounts(c: Config, m: Machine, e: Check, z: seq<Entry>)
    requires RemoveRangeByScore(Live(m.key, e.serverNow), 0, e.now - c.windowMs) == z
    ensures Step(c, m, e).1.allowed <==> |z| < c.limit
    ensures Step(c, m, e).1.count == |z| + if |z| < c.limit then 1 else 0
  {
  }

  lemma {:induction false} LastIsAfter(h: seq<Entry>, lo: int)
    requires h != [] && h[|h| - 1].score > lo
    ensures After(h, lo) != []
  {
  }

  /** Exactly then: while the last admission is still in the window, the loss of the key shows in the reply. */
  lemma DroppedKeyIsInvisibleExactly(c: Config, m: Machine, e: Check)
    requires c.windowMs > 0 && c.limit >= 1 && Inv(c, m) && Allowed(c, m, e)
    ensures Step(c, KeyLost(m, e), e).1 == Step(c, m, e).1 <==>
      m.admitted == [] || e.now >= m.admitted[|m.admitted| - 1].score + c.windowMs
  {
    if m.admitted == [] || e.now >= m.admitted[|m.admitted| - 1].score + c.windowMs {
      DroppedKeyIsInvisible(c, m, e);
    } else {
      TrimmedSet(c, m, e);
      LastIsAfter(m.admitted, e.now - c.windowMs);
      ReplyCounts(c, m, e, After(m.admitted, e.now - c.windowMs));
      StepOnEmpty(c, KeyLost(m, e), e);
    }
  }
}
