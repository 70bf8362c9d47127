/**
 One-time passwords of auth-service, for one email and purpose: expiring Redis keys count wrong guesses and
 requests, and block the address when there are too many. Requests interleave between the calls they make:
 the gate, the request counter, the storing of the code; each call is one instant.
 */
module Otp {
  import opened Wrappers

  const MAX_ATTEMPTS: nat := 3
  const BLOCK_TIME_MS: int := 1800000
  const OTP_REQUEST_LIMIT: nat := 3
  const OTP_SPAM_BLOCK_MS: int := 3600000
  const OTP_REQUEST_WINDOW_MS: int := 1800000
  const OTP_COOLDOWN_MS: int := 60000
  const OTP_TTL_MS: int := 300000
  const REGISTRATION_TTL_MS: int := 2100000

  /** A Redis key set with EX: gone from expiresAt on. */
  datatype Expiring<+T> = Absent | Until(value: T, expiresAt: int) {
    function Get(now: int): Option<T> {
      if Until? && now < expiresAt then Some(value) else None
    }
  }

  datatype Keys = Keys(
    block: Expiring<()>,
    attempts: Expiring<nat>,
    otp: Expiring<string>,
    spamBlock: Expiring<()>,
    requestCount: Expiring<nat>,
    cooldown: Expiring<()>)

  datatype Error =
    | OtpBlocked
    | OtpSpamBlocked
    | OtpCooldown
    | InvalidOrExpired
    | AccountBlocked
    | WrongOtp(attemptsLeft: nat)
    | EmailInUse
    | RegistrationNotFound

  function CountOf(count: Option<nat>): nat {
    if count.Some? then count.value else 0
  }

  /** `checkOtpRestrictions`: None lets the request pass. */
  function Gate(k: Keys, now: int): Option<Error> {
    if k.block.Get(now).Some? then Some(OtpBlocked)
    else if k.spamBlock.Get(now).Some? then Some(OtpSpamBlocked)
    else if k.cooldown.Get(now).Some? then Some(OtpCooldown)
    else None
  }

  function Track(k: Keys, now: int): (Keys, Option<Error>) {
    if k.spamBlock.Get(now).Some? then (k, Some(OtpSpamBlocked))
    else
      var requests := CountOf(k.requestCount.Get(now)) + 1;
      if requests > OTP_REQUEST_LIMIT then (k.(spamBlock := Until((), now + OTP_SPAM_BLOCK_MS)), Some(OtpSpamBlocked))
      else
        (k.(requestCount := Until(requests, now + OTP_REQUEST_WINDOW_MS),
            cooldown := Until((), now + OTP_COOLDOWN_MS)),
         None)
  }

  function Verify(k: Keys, now: int, otp: string): (Keys, Option<Error>) {
    if k.block.Get(now).Some? then (k, Some(OtpBlocked))
    else if k.otp.Get(now).None? then (k, Some(InvalidOrExpired))
    else if Some(otp) == k.otp.Get(now) then (k.(otp := Absent, attempts := Absent), None)
    else
      var failed := CountOf(k.attempts.Get(now)) + 1;
      if failed > MAX_ATTEMPTS then
        (k.(block := Until((), now + BLOCK_TIME_MS), otp := Absent, attempts := Absent), Some(AccountBlocked))
      else (k.(attempts := Until(failed, now + BLOCK_TIME_MS)), Some(WrongOtp(MAX_ATTEMPTS - failed)))
  }

  class OtpStore {
    var block: Expiring<()>
    var attempts: Expiring<nat>
    var otpKey: Expiring<string>
    var spamBlock: Expiring<()>
    var requestCount: Expiring<nat>
    var cooldown: Expiring<()>
    /** The cached registration of the one role this email registers for. */
    var registration: Expiring<string>

    function Stored(): Keys
      reads this
    {
      Keys(block, attempts, otpKey, spamBlock, requestCount, cooldown)
    }

    constructor ()
      ensures Stored() == Keys(Absent, Absent, Absent, Absent, Absent, Absent) && registration == Absent
    {
      block, attempts, otpKey, spamBlock, requestCount, cooldown := Absent, Absent, Absent, Absent, Absent, Absent;
      registration := Absent;
    }

    method CheckOtpRestrictions(now: int) returns (refused: Option<Error>)
      ensures refused == Gate(Stored(), now)
    {
      if block.Get(now).Some? {
        return Some(OtpBlocked);
      }
      if spamBlock.Get(now).Some? {
        return Some(OtpSpamBlocked);
      }
      if cooldown.Get(now).Some? {
        return Some(OtpCooldown);
      }
      return None;
    }

    method TrackOtpRequests(now: int) returns (refused: Option<Error>)
      modifies this
      ensures (Stored(), refused) == Track(old(Stored()), now) && registration == old(registration)
    {
      if spamBlock.Get(now).Some? {
        return Some(OtpSpamBlocked);
      }
      var otpRequests := CountOf(requestCount.Get(now)) + 1;
      if otpRequests > OTP_REQUEST_LIMIT {
        spamBlock := Until((), now + OTP_SPAM_BLOCK_MS);
        return Some(OtpSpamBlocked);
      }
      requestCount := Until(otpRequests, now + OTP_REQUEST_WINDOW_MS);
      cooldown := Until((), now + OTP_COOLDOWN_MS);
      return None;
    }

    method VerifyOtp(now: int, otp: string) returns (failed: Option<Error>)
      modifies this
      ensures (Stored(), failed) == Verify(old(Stored()), now, otp) && registration == old(registration)
      ensures failed in {None, Some(AccountBlocked)} ==> otpKey == Absent && attempts == Absent
      ensures failed !in {None, Some(AccountBlocked)} ==> otpKey == old(otpKey)
    {
      if block.Get(now).Some? {
        return Some(OtpBlocked);
      }
      var storedOtp := otpKey.Get(now);
      if storedOtp.None? {
        return Some(InvalidOrExpired);
      }
      if otp != storedOtp.value {
        var failedAttempts := CountOf(attempts.Get(now)) + 1;
        if failedAttempts > MAX_ATTEMPTS {
          block := Until((), now + BLOCK_TIME_MS);
          otpKey, attempts := Absent, Absent;
          return Some(AccountBlocked);
        }
        attempts := Until(failedAttempts, now + BLOCK_TIME_MS);
        return Some(WrongOtp(MAX_ATTEMPTS - failedAttempts));
      }
      otpKey, attempts := Absent, Absent;
      return None;
    }

    /** Gate, then counter. */
    method RequestOtp(now: int) returns (refused: Option<Error>)
      modifies this
      ensures registration == old(registration)
      ensures var gate, (k, full) := Gate(old(Stored()), now), Track(old(Stored()), now);
        (Stored(), refused) == if gate.Some? then (old(Stored()), gate) else (k, full)
    {
      refused := CheckOtpRestrictions(now);
      if refused.None? {
        refused := TrackOtpRequests(now);
      }
    }

    /** `startRegistration`, undisturbed: a refusal caches no registration and stores no code. */
    method StartRegistration(now: int, emailTaken: bool, record: string, otp: string) returns (refused: Option<Error>)
      modifies this
      ensures emailTaken ==>
          refused == Some(EmailInUse) && Stored() == old(Stored()) && registration == old(registration)
      ensures !emailTaken ==> var gate, (k, full) := Gate(old(Stored()), now), Track(old(Stored()), now);
        if gate.Some? then refused == gate && Stored() == old(Stored()) && registration == old(registration)
        else if full.Some? then refused == full && Stored() == k && registration == old(registration)
        else
          && refused == None && Stored() == k.(otp := Until(otp, now + OTP_TTL_MS))
          && registration == Until(record, now + REGISTRATION_TTL_MS)
    {
      if emailTaken {
        return Some(EmailInUse);
      }
      refused := RequestOtp(now);
      if refused.Some? {
        return refused;
      }
      registration := Until(record, now + REGISTRATION_TTL_MS);
      otpKey := Until(otp, now + OTP_TTL_MS);
    }

    /** `resendRegistrationOtp`, undisturbed: only for a registration still cached, which it leaves as it is. */
    method ResendRegistrationOtp(now: int, otp: string) returns (refused: Option<Error>)
      modifies this
      ensures registration == old(registration)
      ensures registration.Get(now).None? ==> refused == Some(RegistrationNotFound) && Stored() == old(Stored())
      ensures registration.Get(now).Some? ==>
          var gate, (k, full) := Gate(old(Stored()), now), Track(old(Stored()), now);
        if gate.Some? then refused == gate && Stored() == old(Stored())
        else if full.Some? then refused == full && Stored() == k
        else refused == None && Stored() == k.(otp := Until(otp, now + OTP_TTL_MS))
    {
      if registration.Get(now).None? {
        return Some(RegistrationNotFound);
      }
      refused := RequestOtp(now);
      if refused.Some? {
        return refused;
      }
      otpKey := Until(otp, now + OTP_TTL_MS);
    }
  }

  // ---------------------------------------------------------------- interleaved requests

  /** A request for a code: when it passed the gate, and how many grants there were then. */
  datatype Request = Passed(checkedAt: int, seen: nat) | Granted | Stopped

  /** A request counted by `trackOtpRequests`. */
  datatype Grant = Grant(checkedAt: int, seen: nat, at: int)

  /** A code stored for the user. */
  datatype Code = Code(otp: string, at: int)

  /**
   `guesses` logs the compared codes: Some(time) of a wrong one, None for a right one. `codes` logs the codes stored;
   the last of them is used up once a guess was answered with success or with the block.
   */
  datatype Machine = Machine(
    keys: Keys,
    now: int,
    requests: map<nat, Request>,
    grants: seq<Grant>,
    guesses: seq<Option<int>>,
    codes: seq<Code>,
    usedUp: bool,
    blocks: seq<int>,
    spamBlocks: seq<int>)

  datatype Event =
    | Tick(ms: nat)
    | CheckGate(request: nat)
    | TrackRequest(request: nat)
    | StoreOtp(request: nat, otp: string)
    | Guess(otp: string)

  function OnCheck(m: Machine, r: nat): Machine {
    m.(requests := m.requests[r := if Gate(m.keys, m.now).None? then Passed(m.now, |m.grants|) else Stopped])
  }

  function OnTrack(m: Machine, r: nat, checkedAt: int, seen: nat): Machine {
    var (keys, refused) := Track(m.keys, m.now);
    if refused.None? then
      m.(keys := keys, requests := m.requests[r := Granted], grants := m.grants + [Grant(checkedAt, seen, m.now)])
    else
      m.(keys := keys, requests := m.requests[r := Stopped],
         spamBlocks := if m.keys.spamBlock.Get(m.now).Some? then m.spamBlocks else m.spamBlocks + [m.now])
  }

  function OnGuess(m: Machine, otp: string): Machine {
    var (keys, failed) := Verify(m.keys, m.now, otp);
    var m' := m.(keys := keys);
    match failed
    case None => m'.(guesses := m.guesses + [None], usedUp := true)
    case Some(WrongOtp(_)) => m'.(guesses := m.guesses + [Some(m.now)])
    case Some(AccountBlocked) =>
      m'.(guesses := m.guesses + [Some(m.now)], blocks := m.blocks + [m.now], usedUp := true)
    case _ => m'
  }

  /** A request makes its calls in order; a call out of order changes nothing. */
  function Step(m: Machine, e: Event): Machine {
    match e
    case Tick(ms) => m.(now := m.now + ms)
    case CheckGate(r) => if r in m.requests then m else OnCheck(m, r)
    case TrackRequest(r) =>
      if r in m.requests && m.requests[r].Passed? then OnTrack(m, r, m.requests[r].checkedAt, m.requests[r].seen)
      else m
    case StoreOtp(r, otp) =>
      if r in m.requests && m.requests[r].Granted? then
        m.(keys := m.keys.(otp := Until(otp, m.now + OTP_TTL_MS)), requests := m.requests[r := Stopped],
           codes := m.codes + [Code(otp, m.now)], usedUp := false)
      else m
    case Guess(otp) => OnGuess(m, otp)
  }

  function Run(t: Trace<Event>): Machine {
    match t
    case Start => Machine(Keys(Absent, Absent, Absent, Absent, Absent, Absent), 0, map[], [], [], [], false, [], [])
    case Then(before, e) => Step(Run(before), e)
  }

  // ---------------------------------------------------------------- streaks

  /** Length of the chain of counted events at the end of a log, each less than `window` after the one before. */
  function Streak(log: seq<Option<int>>, window: int): nat {
    if log == [] || log[|log| - 1].None? then 0
    else if |log| >= 2 && log[|log| - 2].Some? && log[|log| - 1].value - log[|log| - 2].value < window then
      Streak(log[..|log| - 1], window) + 1
    else 1
  }

  lemma StreakGrows(log: seq<Option<int>>, window: int, at: int)
    ensures Streak(log + [Some(at)], window) ==
      if log != [] && log[|log| - 1].Some? && at - log[|log| - 1].value < window then Streak(log, window) + 1 else 1
    ensures Streak(log + [None], window) == 0
  {
    assert (log + [Some(at)])[..|log|] == log;
  }

  ghost predicate StreaksWithin(log: seq<Option<int>>, window: int, most: nat) {
    forall n :: 0 <= n <= |log| ==> Streak(log[..n], window) <= most
  }

  lemma StreaksStayWithin(log: seq<Option<int>>, window: int, most: nat, mark: Option<int>)
    requires StreaksWithin(log, window, most) && Streak(log + [mark], window) <= most
    ensures StreaksWithin(log + [mark], window, most)
  {
    var log' := log + [mark];
    forall n | 0 <= n <= |log'| ensures Streak(log'[..n], window) <= most {
      if n <= |log| {
        assert log'[..n] == log[..n];
      } else {
        assert log'[..n] == log';
      }
    }
  }

  ghost predicate TimeOrdered(log: seq<Option<int>>, now: int) {
    && (forall i :: 0 <= i < |log| && log[i].Some? ==> log[i].value <= now)
    && (forall i, j :: 0 <= i < j < |log| && log[i].Some? && log[j].Some? ==> log[i].value <= log[j].value)
  }

  ghost predicate AllCounted(log: seq<Option<int>>, i: nat, j: nat)
    requires i <= j <= |log|
  {
    forall k :: i <= k < j ==> log[k].Some?
  }

  /** A stretch of counted events that lasts less than the window is a streak. */
  lemma {:induction false} StretchIsStreak(log: seq<Option<int>>, window: int, now: int, i: nat, j: nat)
    requires TimeOrdered(log, now) && i < j <= |log| && AllCounted(log, i, j)
        && log[j - 1].value - log[i].value < window
    ensures j - i <= Streak(log[..j], window)
    decreases j
  {
    if i + 1 < j {
      StretchIsStreak(log, window, now, i, j - 1);
      assert log[..j][..j - 1] == log[..j - 1];
      assert log[i].value <= log[j - 2].value;
    }
  }

  // ---------------------------------------------------------------- the invariants

  function TimesOf(grants: seq<Grant>): seq<Option<int>> {
    seq(|grants|, i requires 0 <= i < |grants| => Some(grants[i].at))
  }

  function Last<T>(s: seq<T>): T
    requires s != []
  {
    s[|s| - 1]
  }

  /** The counter is the streak of wrong guesses; the fourth has turned it into a block. */
  ghost predicate CounterInv(m: Machine) {
    var streak := Streak(m.guesses, BLOCK_TIME_MS);
    && (streak != 0 ==> Last(m.guesses).value <= m.now)
    && streak <= MAX_ATTEMPTS + 1
    && (streak == 0 ==> m.keys.attempts.Absent?)
    && (1 <= streak <= MAX_ATTEMPTS ==> m.keys.attempts == Until(streak, Last(m.guesses).value + BLOCK_TIME_MS))
    && (streak == MAX_ATTEMPTS + 1 ==>
        m.keys.attempts.Absent? && m.blocks != [] && Last(m.blocks) == Last(m.guesses).value)
  }

  ghost predicate GuessInv(m: Machine) {
    && CounterInv(m)
    && TimeOrdered(m.guesses, m.now) && StreaksWithin(m.guesses, BLOCK_TIME_MS, MAX_ATTEMPTS + 1)
  }

  ghost predicate BlocksInv(m: Machine) {
    && m.keys.block == (if m.blocks == [] then Absent else Until((), Last(m.blocks) + BLOCK_TIME_MS))
    && m.keys.spamBlock == (if m.spamBlocks == [] then Absent else Until((), Last(m.spamBlocks) + OTP_SPAM_BLOCK_MS))
    && (forall i :: 0 <= i < |m.blocks| ==> m.blocks[i] <= Last(m.blocks) <= m.now)
    && (forall i :: 0 <= i < |m.spamBlocks| ==> m.spamBlocks[i] <= Last(m.spamBlocks) <= m.now)
  }

  /** The request counter is the streak of grants, and the cooldown runs from the last of them. */
  ghost predicate RequestInv(m: Machine) {
    var log := TimesOf(m.grants);
    var streak := Streak(log, OTP_REQUEST_WINDOW_MS);
    && streak <= OTP_REQUEST_LIMIT
    && if log == [] then m.keys.requestCount.Absent? && m.keys.cooldown.Absent?
       else
         && 1 <= streak && m.keys.requestCount == Until(streak, Last(m.grants).at + OTP_REQUEST_WINDOW_MS)
         && m.keys.cooldown == Until((), Last(m.grants).at + OTP_COOLDOWN_MS)
  }

  ghost predicate GrantInv(m: Machine) {
    && RequestInv(m)
    && TimeOrdered(TimesOf(m.grants), m.now)
        && StreaksWithin(TimesOf(m.grants), OTP_REQUEST_WINDOW_MS, OTP_REQUEST_LIMIT)
  }

  /** A gate passed with `seen` grants behind it was passed a cooldown after each of them. */
  ghost predicate PassedLate(grants: seq<Grant>, checkedAt: int, seen: nat) {
    seen <= |grants| && forall i :: 0 <= i < seen ==> grants[i].at + OTP_COOLDOWN_MS <= checkedAt
  }

  ghost predicate GateInv(m: Machine) {
    && (forall j :: 0 <= j < |m.grants| ==>
          var g := m.grants[j];
          g.seen <= j && g.checkedAt <= g.at <= m.now && PassedLate(m.grants, g.checkedAt, g.seen))
    && (forall r :: r in m.requests && m.requests[r].Passed? ==>
          m.requests[r].checkedAt <= m.now && PassedLate(m.grants, m.requests[r].checkedAt, m.requests[r].seen))
  }

  /** The key of the code holds the last code stored, unless that is used up. */
  ghost predicate CodeInv(m: Machine) {
    && m.keys.otp == (if m.codes == [] || m.usedUp then Absent
                      else Until(Last(m.codes).otp, Last(m.codes).at + OTP_TTL_MS))
    && (m.codes != [] ==> Last(m.codes).at <= m.now)
  }

  ghost predicate Inv(m: Machine) {
    GuessInv(m) && BlocksInv(m) && GrantInv(m) && GateInv(m) && CodeInv(m)
  }

  lemma SuccessKeepsCounter(m: Machine, m': Machine)
    requires m'.guesses == m.guesses + [None] && m'.keys.attempts.Absent?
    ensures CounterInv(m')
  {
    StreakGrows(m.guesses, BLOCK_TIME_MS, m.now);
  }

  lemma WrongKeepsCounter(m: Machine, m': Machine)
    requires CounterInv(m) && BlocksInv(m) && m.keys.block.Get(m.now).None?
    requires m'.guesses == m.guesses + [Some(m.now)] && m'.now == m.now
    requires var failed := CountOf(m.keys.attempts.Get(m.now)) + 1;
      if failed > MAX_ATTEMPTS then m'.keys.attempts.Absent? && m'.blocks == m.blocks + [m.now]
      else m'.keys.attempts == Until(failed, m.now + BLOCK_TIME_MS)
    ensures CounterInv(m')
  {
    StreakGrows(m.guesses, BLOCK_TIME_MS, m.now);
  }

  lemma GuessKeepsCounter(m: Machine, otp: string)
    requires CounterInv(m) && BlocksInv(m)
    ensures CounterInv(OnGuess(m, otp))
  {
    var m' := OnGuess(m, otp);
    if Verify(m.keys, m.now, otp).1 == None {
      SuccessKeepsCounter(m, m');
    } else if Verify(m.keys, m.now, otp).1 !in {Some(OtpBlocked), Some(InvalidOrExpired)} {
      WrongKeepsCounter(m, m');
    }
  }

  lemma GuessKeepsBlocks(m: Machine, otp: string)
    requires BlocksInv(m)
    ensures BlocksInv(OnGuess(m, otp))
  {
  }

  lemma GuessLeavesGrants(m: Machine, otp: string)
    ensures var m' := OnGuess(m, otp);
      && m'.grants == m.grants && m'.requests == m.requests && m'.now == m.now
      && m'.keys.requestCount == m.keys.requestCount && m'.keys.cooldown == m.keys.cooldown
  {
  }

  lemma GuessAppends(m: Machine, otp: string)
    ensures var m' := OnGuess(m, otp);
      m'.now == m.now && m'.guesses in {m.guesses, m.guesses + [None], m.guesses + [Some(m.now)]}
  {
  }

  lemma LogGrows(log: seq<Option<int>>, now: int, window: int, most: nat, mark: Option<int>)
    requires TimeOrdered(log, now) && StreaksWithin(log, window, most)
    requires Streak(log + [mark], window) <= most && (mark.Some? ==> mark.value == now)
    ensures TimeOrdered(log + [mark], now) && StreaksWithin(log + [mark], window, most)
  {
    StreaksStayWithin(log, window, most, mark);
  }

  lemma AppendedLogKept(m: Machine, m': Machine)
    requires GuessInv(m) && CounterInv(m') && m'.now == m.now
    requires m'.guesses in {m.guesses, m.guesses + [None], m.guesses + [Some(m.now)]}
    ensures GuessInv(m')
  {
    if m'.guesses != m.guesses {
      var mark := if m'.guesses == m.guesses + [None] then None else Some(m.now);
      LogGrows(m.guesses, m.now, BLOCK_TIME_MS, MAX_ATTEMPTS + 1, mark);
    }
  }

  lemma GuessKeepsGuesses(m: Machine, otp: string)
    requires GuessInv(m) && BlocksInv(m)
    ensures GuessInv(OnGuess(m, otp)) && BlocksInv(OnGuess(m, otp))
  {
    GuessKeepsCounter(m, otp);
    GuessKeepsBlocks(m, otp);
    GuessAppends(m, otp);
    AppendedLogKept(m, OnGuess(m, otp));
  }

  lemma SameGrantsKeepInv(m: Machine, m': Machine)
    requires GrantInv(m) && GateInv(m) && m'.grants == m.grants && m'.requests == m.requests && m.now <= m'.now
    requires m'.keys.requestCount == m.keys.requestCount && m'.keys.cooldown == m.keys.cooldown
    ensures GrantInv(m') && GateInv(m')
  {
  }

  /** Exactly a success and a block use the code up. */
  lemma GuessKeepsCode(m: Machine, otp: string)
    requires CodeInv(m)
    ensures CodeInv(OnGuess(m, otp))
  {
  }

  lemma GuessLeavesCodes(m: Machine, otp: string)
    ensures OnGuess(m, otp).codes == m.codes && OnGuess(m, otp).now == m.now
    ensures m.usedUp ==> OnGuess(m, otp).usedUp
    ensures Verify(m.keys, m.now, otp).1 in {None, Some(AccountBlocked)} ==> OnGuess(m, otp).usedUp
    ensures Verify(m.keys, m.now, otp).1 !in {None, Some(AccountBlocked)} ==> OnGuess(m, otp).usedUp == m.usedUp
    ensures OnGuess(m, otp).blocks ==
      if Verify(m.keys, m.now, otp).1 == Some(AccountBlocked) then m.blocks + [m.now] else m.blocks
  {
  }

  lemma GuessKeepsInv(m: Machine, otp: string)
    requires Inv(m)
    ensures Inv(OnGuess(m, otp))
  {
    GuessKeepsGuesses(m, otp);
    GuessKeepsCode(m, otp);
    GuessLeavesGrants(m, otp);
    SameGrantsKeepInv(m, OnGuess(m, otp));
  }

  lemma TimesGrow(grants: seq<Grant>, g: Grant)
    ensures TimesOf(grants + [g]) == TimesOf(grants) + [Some(g.at)]
  {
  }

  lemma GrantKeepsRequests(m: Machine, m': Machine, g: Grant)
    requires RequestInv(m) && g.at == m.now && m'.grants == m.grants + [g]
    requires var requests := CountOf(m.keys.requestCount.Get(m.now)) + 1;
      requests <= OTP_REQUEST_LIMIT && m'.keys.requestCount == Until(requests, m.now + OTP_REQUEST_WINDOW_MS)
    requires m'.keys.cooldown == Until((), m.now + OTP_COOLDOWN_MS)
    ensures RequestInv(m')
  {
    TimesGrow(m.grants, g);
    StreakGrows(TimesOf(m.grants), OTP_REQUEST_WINDOW_MS, m.now);
  }

  lemma TrackKeepsRequests(m: Machine, r: nat, checkedAt: int, seen: nat)
    requires RequestInv(m)
    ensures RequestInv(OnTrack(m, r, checkedAt, seen))
  {
    if Track(m.keys, m.now).1.None? {
      GrantKeepsRequests(m, OnTrack(m, r, checkedAt, seen), Grant(checkedAt, seen, m.now));
    }
  }

  lemma TrackKeepsGrants(m: Machine, r: nat, checkedAt: int, seen: nat)
    requires GrantInv(m)
    ensures GrantInv(OnTrack(m, r, checkedAt, seen))
  {
    var m' := OnTrack(m, r, checkedAt, seen);
    TrackKeepsRequests(m, r, checkedAt, seen);
    if m'.grants != m.grants {
      TimesGrow(m.grants, Grant(checkedAt, seen, m.now));
      LogGrows(TimesOf(m.grants), m.now, OTP_REQUEST_WINDOW_MS, OTP_REQUEST_LIMIT, Some(m.now));
    }
  }

  lemma TrackKeepsGates(m: Machine, r: nat)
    requires GateInv(m) && r in m.requests && m.requests[r].Passed?
    ensures GateInv(OnTrack(m, r, m.requests[r].checkedAt, m.requests[r].seen))
  {
  }

  lemma TrackKeepsBlocks(m: Machine, r: nat, checkedAt: int, seen: nat)
    requires BlocksInv(m)
    ensures BlocksInv(OnTrack(m, r, checkedAt, seen))
  {
  }

  lemma SameGuessesKeepInv(m: Machine, m': Machine)
    requires GuessInv(m) && m'.guesses == m.guesses && m'.blocks == m.blocks && m.now <= m'.now
        && m'.keys.attempts == m.keys.attempts
    ensures GuessInv(m')
  {
  }

  lemma TrackLeavesGuesses(m: Machine, r: nat, checkedAt: int, seen: nat)
    ensures var m' := OnTrack(m, r, checkedAt, seen);
      && m'.guesses == m.guesses && m'.blocks == m.blocks && m'.codes == m.codes && m'.usedUp == m.usedUp
      && m'.now == m.now && m'.keys.attempts == m.keys.attempts && m'.keys.otp == m.keys.otp
  {
  }

  lemma TrackKeepsInv(m: Machine, r: nat)
    requires Inv(m) && r in m.requests && m.requests[r].Passed?
    ensures Inv(OnTrack(m, r, m.requests[r].checkedAt, m.requests[r].seen))
  {
    var checkedAt, seen := m.requests[r].checkedAt, m.requests[r].seen;
    TrackKeepsGrants(m, r, checkedAt, seen);
    TrackKeepsGates(m, r);
    TrackKeepsBlocks(m, r, checkedAt, seen);
    TrackLeavesGuesses(m, r, checkedAt, seen);
    SameGuessesKeepInv(m, OnTrack(m, r, checkedAt, seen));
  }

  /** The cooldown key runs from the latest grant. */
  lemma CooldownFromAll(m: Machine)
    requires GrantInv(m)
    ensures m.keys.cooldown.Get(m.now).None? ==> forall i :: 0 <= i < |m.grants| ==>
        m.grants[i].at + OTP_COOLDOWN_MS <= m.now
  {
    var log := TimesOf(m.grants);
    forall i | 0 <= i < |m.grants| ensures m.grants[i].at <= Last(m.grants).at {
      assert log[i] == Some(m.grants[i].at) && log[|log| - 1] == Some(Last(m.grants).at);
    }
  }

  lemma CheckKeepsInv(m: Machine, r: nat)
    requires Inv(m)
    ensures Inv(OnCheck(m, r))
  {
    CooldownFromAll(m);
    assert GateInv(OnCheck(m, r));
  }

  lemma TickKeepsInv(m: Machine, ms: nat)
    requires Inv(m)
    ensures Inv(Step(m, Tick(ms)))
  {
    SameGrantsKeepInv(m, Step(m, Tick(ms)));
  }

  lemma StoreKeepsInv(m: Machine, r: nat, otp: string)
    requires Inv(m)
    ensures Inv(Step(m, StoreOtp(r, otp)))
  {
    var m' := Step(m, StoreOtp(r, otp));
    if m' != m {
      SameGuessesKeepInv(m, m');
      assert GateInv(m');
    }
  }

  lemma StepKeepsInv(m: Machine, e: Event)
    requires Inv(m)
    ensures Inv(Step(m, e))
  {
    match e {
      case Guess(otp) => GuessKeepsInv(m, otp);
      case TrackRequest(r) =>
        if r in m.requests && m.requests[r].Passed? {
          TrackKeepsInv(m, r);
        }
      case CheckGate(r) => CheckKeepsInv(m, r);
      case Tick(ms) => TickKeepsInv(m, ms);
      case StoreOtp(r, otp) => StoreKeepsInv(m, r, otp);
    }
  }

  lemma {:induction false} RunKeepsInv(t: Trace<Event>)
    ensures Inv(Run(t))
  {
    if t.Then? {
      RunKeepsInv(t.before);
      StepKeepsInv(Run(t.before), t.event);
    }
  }

  // ---------------------------------------------------------------- what holds in every run

  lemma StretchBounded(log: seq<Option<int>>, now: int, window: int, most: nat, i: nat, j: nat)
    requires TimeOrdered(log, now) && StreaksWithin(log, window, most)
    requires i < j <= |log| && AllCounted(log, i, j) && log[j - 1].value - log[i].value < window
    ensures j - i <= most
  {
    StretchIsStreak(log, window, now, i, j);
    assert Streak(log[..j], window) <= most;
  }

  /**
   Guess throttle: compared wrong guesses that follow one another with no success between them, the last less
   than 30 minutes after the first, are at most four.
   */
  lemma WrongGuessesBounded(t: Trace<Event>, i: nat, j: nat)
    requires i < j <= |Run(t).guesses| && AllCounted(Run(t).guesses, i, j)
    requires Run(t).guesses[j - 1].value - Run(t).guesses[i].value < BLOCK_TIME_MS
    ensures j - i <= MAX_ATTEMPTS + 1
  {
    RunKeepsInv(t);
    StretchBounded(Run(t).guesses, Run(t).now, BLOCK_TIME_MS, MAX_ATTEMPTS + 1, i, j);
  }

  /** Request throttle: grants less than 30 minutes apart, first to last, are at most three. */
  lemma GrantsBounded(t: Trace<Event>, i: nat, j: nat)
    requires i < j <= |Run(t).grants| && Run(t).grants[j - 1].at - Run(t).grants[i].at < OTP_REQUEST_WINDOW_MS
    ensures j - i <= OTP_REQUEST_LIMIT
  {
    RunKeepsInv(t);
    StretchBounded(TimesOf(Run(t).grants), Run(t).now, OTP_REQUEST_WINDOW_MS, OTP_REQUEST_LIMIT, i, j);
  }

  lemma CooldownMeaning(m: Machine, r: nat)
    requires RequestInv(m) && GateInv(m) && m.grants != [] && r in m.requests && m.requests[r].Passed?
    ensures m.now < Last(m.grants).at + OTP_COOLDOWN_MS <==> m.keys.cooldown.Get(m.now).Some?
    ensures m.keys.cooldown.Get(m.now).Some? ==> m.requests[r].seen < |m.grants|
  {
    assert TimesOf(m.grants) != [];
    assert PassedLate(m.grants, m.requests[r].checkedAt, m.requests[r].seen);
  }

  /**
   Cooldown, exactly: when `trackOtpRequests` grants a request, the grant comes less than 60 seconds after the
   last one if and only if the cooldown key is then alive, a key that call does not read; and this
   happens only to a request that passed the gate before that last grant was made.
   */
  lemma TooSoonExactlyInCooldown(t: Trace<Event>, r: nat)
    requires r in Run(t).requests && Run(t).requests[r].Passed? && Run(t).grants != []
    requires Track(Run(t).keys, Run(t).now).1 == None
    ensures var m, m' := Run(t), Run(Then(t, TrackRequest(r)));
      && m'.grants == m.grants + [Grant(m.requests[r].checkedAt, m.requests[r].seen, m.now)]
      && (m.now < Last(m.grants).at + OTP_COOLDOWN_MS <==> m.keys.cooldown.Get(m.now).Some?)
      && (m.keys.cooldown.Get(m.now).Some? ==> m.requests[r].seen < |m.grants|)
  {
    RunKeepsInv(t);
    CooldownMeaning(Run(t), r);
  }

  lemma GateMeaning(m: Machine, i: nat, j: nat)
    requires GateInv(m) && i < j < |m.grants| && i < m.grants[j].seen
    ensures m.grants[i].at + OTP_COOLDOWN_MS <= m.grants[j].checkedAt <= m.grants[j].at
  {
    assert PassedLate(m.grants, m.grants[j].checkedAt, m.grants[j].seen);
  }

  /** A grant comes at least 60 seconds after each grant already made when its request passed the gate. */
  lemma GrantsApart(t: Trace<Event>, i: nat, j: nat)
    requires i < j < |Run(t).grants| && i < Run(t).grants[j].seen
    ensures Run(t).grants[i].at + OTP_COOLDOWN_MS <= Run(t).grants[j].checkedAt <= Run(t).grants[j].at
  {
    RunKeepsInv(t);
    GateMeaning(Run(t), i, j);
  }

  /** No request passes the gate while another is between its gate and its counter. */
  ghost predicate NoOverlap(t: Trace<Event>) {
    t.Then? ==>
      && NoOverlap(t.before)
      && (t.event.CheckGate? ==> forall r :: r in Run(t.before).requests ==> !Run(t.before).requests[r].Passed?)
  }

  /** Whoever has passed the gate has seen every grant, and is the only one. */
  ghost predicate AllSeen(m: Machine) {
    && (forall j :: 0 <= j < |m.grants| ==> m.grants[j].seen == j)
    && (forall r :: r in m.requests && m.requests[r].Passed? ==> m.requests[r].seen == |m.grants|)
    && (forall r, q :: r in m.requests && q in m.requests && m.requests[r].Passed? && m.requests[q].Passed? ==> r == q)
  }

  lemma {:induction false} NoOverlapSeesAll(t: Trace<Event>)
    requires NoOverlap(t)
    ensures AllSeen(Run(t))
  {
    if t.Then? {
      NoOverlapSeesAll(t.before);
    }
  }

  lemma SeenIndex(m: Machine, j: nat)
    requires AllSeen(m) && j < |m.grants|
    ensures m.grants[j].seen == j
  {
  }

  /** Requests that do not overlap are granted at least 60 seconds apart. */
  lemma SerialGrantsApart(t: Trace<Event>, i: nat, j: nat)
    requires NoOverlap(t) && i < j < |Run(t).grants|
    ensures Run(t).grants[i].at + OTP_COOLDOWN_MS <= Run(t).grants[j].at
  {
    NoOverlapSeesAll(t);
    SeenIndex(Run(t), j);
    GrantsApart(t, i, j);
  }

  /**
   Overlap suffices, in every run: two requests that are both past the gate are both granted at the same
   instant, unless a spam block is alive or the counter has fewer than two grants left.
   */
  lemma OverlappingRequestsSkipTheCooldown(t: Trace<Event>, r: nat, q: nat)
    requires r in Run(t).requests && q in Run(t).requests && r != q
    requires Run(t).requests[r].Passed? && Run(t).requests[q].Passed?
    requires Run(t).keys.spamBlock.Get(Run(t).now).None?
        && CountOf(Run(t).keys.requestCount.Get(Run(t).now)) + 2 <= OTP_REQUEST_LIMIT
    ensures var m, m' := Run(t), Run(Then(Then(t, TrackRequest(r)), TrackRequest(q)));
      m'.grants == m.grants + [Grant(m.requests[r].checkedAt, m.requests[r].seen, m.now),
                               Grant(m.requests[q].checkedAt, m.requests[q].seen, m.now)]
  {
    var m, m1 := Run(t), Run(Then(t, TrackRequest(r)));
    assert m1.grants == m.grants + [Grant(m.requests[r].checkedAt, m.requests[r].seen, m.now)];
    assert m1.requests[q] == m.requests[q] && m1.now == m.now;
    assert Run(Then(Then(t, TrackRequest(r)), TrackRequest(q))) == Step(m1, TrackRequest(q));
  }

  lemma BlocksMeaning(m: Machine, otp: string)
    requires BlocksInv(m)
    ensures var blocked := m.blocks != [] && m.now < Last(m.blocks) + BLOCK_TIME_MS;
      && (Gate(m.keys, m.now) == Some(OtpBlocked) <==> blocked)
      && (Verify(m.keys, m.now, otp).1 == Some(OtpBlocked) <==> blocked)
      && (blocked ==> OnGuess(m, otp) == m)
    ensures forall i :: 0 <= i < |m.blocks| && m.now < m.blocks[i] + BLOCK_TIME_MS ==>
        Gate(m.keys, m.now) == Some(OtpBlocked)
  {
  }

  /**
   While the latest block is younger than 30 minutes, and only then, codes are neither compared nor issued past the
   gate.
   */
  lemma BlockedExactlyWhile(t: Trace<Event>, otp: string)
    ensures var m := Run(t);
      var blocked := m.blocks != [] && m.now < Last(m.blocks) + BLOCK_TIME_MS;
      && (Gate(m.keys, m.now) == Some(OtpBlocked) <==> blocked)
      && (Verify(m.keys, m.now, otp).1 == Some(OtpBlocked) <==> blocked)
      && (blocked ==> OnGuess(m, otp) == m)
    ensures forall i :: 0 <= i < |Run(t).blocks| && Run(t).now < Run(t).blocks[i] + BLOCK_TIME_MS ==>
      Gate(Run(t).keys, Run(t).now) == Some(OtpBlocked)
  {
    RunKeepsInv(t);
    BlocksMeaning(Run(t), otp);
  }

  lemma FourthMeaning(m: Machine, otp: string)
    requires CounterInv(m) && BlocksInv(m)
        && Verify(m.keys, m.now, otp).1 !in {Some(OtpBlocked), Some(InvalidOrExpired)}
    ensures var (k, failed) := Verify(m.keys, m.now, otp);
      var streak := Streak(m.guesses + [Some(m.now)], BLOCK_TIME_MS);
      && (failed == None <==> m.keys.otp.Get(m.now) == Some(otp))
      && (failed == Some(AccountBlocked) <==> failed != None && streak == MAX_ATTEMPTS + 1)
      && (failed != None && streak <= MAX_ATTEMPTS ==> failed == Some(WrongOtp(MAX_ATTEMPTS - streak)))
  {
    StreakGrows(m.guesses, BLOCK_TIME_MS, m.now);
  }

  /** A compared wrong guess blocks exactly when it is the fourth of its streak; a right one ends the streak. */
  lemma BlocksExactlyOnTheFourth(t: Trace<Event>, otp: string)
    requires Verify(Run(t).keys, Run(t).now, otp).1 !in {Some(OtpBlocked), Some(InvalidOrExpired)}
    ensures var m := Run(t);
      var (k, failed) := Verify(m.keys, m.now, otp);
      var streak := Streak(m.guesses + [Some(m.now)], BLOCK_TIME_MS);
      && (failed == None <==> m.keys.otp.Get(m.now) == Some(otp))
      && (failed == Some(AccountBlocked) <==> failed != None && streak == MAX_ATTEMPTS + 1)
      && (failed != None && streak <= MAX_ATTEMPTS ==> failed == Some(WrongOtp(MAX_ATTEMPTS - streak)))
  {
    RunKeepsInv(t);
    FourthMeaning(Run(t), otp);
  }

  // ---------------------------------------------------------------- a code is used once

  ghost predicate Blocked(m: Machine) {
    m.blocks != [] && m.now < Last(m.blocks) + BLOCK_TIME_MS
  }

  /** There is a code to compare with: the last one stored, not used up and younger than five minutes. */
  ghost predicate CodeLives(m: Machine) {
    m.codes != [] && !m.usedUp && m.now < Last(m.codes).at + OTP_TTL_MS
  }

  /** The answer by definition, from the logs of codes, guesses and blocks alone. */
  ghost function AnswerTo(m: Machine, guess: string): Option<Error> {
    var streak := Streak(m.guesses + [Some(m.now)], BLOCK_TIME_MS);
    if Blocked(m) then Some(OtpBlocked)
    else if !CodeLives(m) then Some(InvalidOrExpired)
    else if guess == Last(m.codes).otp then None
    else if streak > MAX_ATTEMPTS then Some(AccountBlocked)
    else Some(WrongOtp(MAX_ATTEMPTS - streak))
  }

  lemma AnswerMeaning(m: Machine, guess: string)
    requires CounterInv(m) && BlocksInv(m) && CodeInv(m)
    ensures Verify(m.keys, m.now, guess).1 == AnswerTo(m, guess)
  {
    StreakGrows(m.guesses, BLOCK_TIME_MS, m.now);
  }

  /** Every answer of `verifyOtp` is the one the logs give. */
  lemma AnswersExactly(t: Trace<Event>, guess: string)
    ensures Verify(Run(t).keys, Run(t).now, guess).1 == AnswerTo(Run(t), guess)
  {
    RunKeepsInv(t);
    AnswerMeaning(Run(t), guess);
  }

  lemma BlockedLess(m: Machine, ms: nat)
    requires !Blocked(m)
    ensures !Blocked(Step(m, Tick(ms)))
  {
  }

  /** Codes are only ever added, and a code used up stays so until the next one is stored. */
  lemma CodesGrow(m: Machine, e: Event)
    ensures |m.codes| <= |Step(m, e).codes|
    ensures |m.codes| == |Step(m, e).codes| ==> Step(m, e).codes == m.codes && (m.usedUp ==> Step(m, e).usedUp)
  {
    if e.Guess? {
      GuessLeavesCodes(m, e.otp);
    }
  }

  lemma {:induction false} UsedUpUntilStored(t: Trace<Event>, t': Trace<Event>)
    requires Continues(t, t')
    ensures |Run(t).codes| <= |Run(t').codes|
    ensures |Run(t).codes| == |Run(t').codes| ==> Run(t').codes == Run(t).codes && (Run(t).usedUp ==> Run(t').usedUp)
  {
    if t' != t {
      UsedUpUntilStored(t, t'.before);
      CodesGrow(Run(t'.before), t'.event);
    }
  }

  /**
   Single use: after a guess was answered with success or with the block, every guess is answered InvalidOrExpired
   or OtpBlocked until another code is stored.
   */
  lemma CodesAreUsedOnce(t: Trace<Event>, first: string, t': Trace<Event>, guess: string)
    requires Verify(Run(t).keys, Run(t).now, first).1 in {None, Some(AccountBlocked)}
    requires Continues(Then(t, Guess(first)), t') && |Run(t').codes| == |Run(t).codes|
    ensures Verify(Run(t').keys, Run(t').now, guess).1 in {Some(InvalidOrExpired), Some(OtpBlocked)}
  {
    GuessLeavesCodes(Run(t), first);
    UsedUpUntilStored(Then(t, Guess(first)), t');
    AnswersExactly(t', guess);
  }

  /** Between two successes another code was stored. */
  lemma SuccessesNeedTwoCodes(t: Trace<Event>, first: string, t': Trace<Event>, second: string)
    requires Verify(Run(t).keys, Run(t).now, first).1 == None && Verify(Run(t').keys, Run(t').now, second).1 == None
    requires Continues(Then(t, Guess(first)), t')
    ensures |Run(t).codes| < |Run(t').codes|
  {
    GuessLeavesCodes(Run(t), first);
    UsedUpUntilStored(Then(t, Guess(first)), t');
    if |Run(t').codes| == |Run(t).codes| {
      CodesAreUsedOnce(t, first, t', second);
    }
  }

  /** A wrong guess short of the block leaves the code: the right one still succeeds, as long as it lives. */
  lemma WrongGuessLeavesTheCode(t: Trace<Event>, wrong: string, guess: string)
    requires Verify(Run(t).keys, Run(t).now, wrong).1.Some? && Verify(Run(t).keys, Run(t).now, wrong).1.value.WrongOtp?
    ensures var m, m' := Run(t), Run(Then(t, Guess(wrong)));
      && m'.codes == m.codes != [] && !m'.usedUp
      && (Verify(m'.keys, m.now, guess).1 == None <==> guess == Last(m.codes).otp)
  {
    AnswersExactly(t, wrong);
    GuessLeavesCodes(Run(t), wrong);
    AnswersExactly(Then(t, Guess(wrong)), guess);
  }

  /** A code that a guess would meet now it still meets after a wait exactly if it is not five minutes old by then. */
  lemma CodesExpire(t: Trace<Event>, guess: string, ms: nat)
    requires Verify(Run(t).keys, Run(t).now, guess).1 == None
    ensures Run(t).codes != []
    ensures var m := Run(Then(t, Tick(ms)));
      m.now == Run(t).now + ms
      && Verify(m.keys, m.now, guess).1 ==
           if m.now < Last(Run(t).codes).at + OTP_TTL_MS then None else Some(InvalidOrExpired)
  {
    AnswersExactly(t, guess);
    RunKeepsInv(t);
    BlockedLess(Run(t), ms);
    AnswersExactly(Then(t, Tick(ms)), guess);
  }

  /**
   Run without interference, a request is the methods': gate, counter and code, with one grant and one code logged
   exactly if neither refused.
   */
  lemma UndisturbedRequest(t: Trace<Event>, r: nat, otp: string)
    requires r !in Run(t).requests
    ensures var m, m' := Run(t), Run(Then(Then(Then(t, CheckGate(r)), TrackRequest(r)), StoreOtp(r, otp)));
      var gate, (k, full) := Gate(m.keys, m.now), Track(m.keys, m.now);
      && m'.requests == m.requests[r := Stopped] && m'.now == m.now
      && if gate.Some? || full.Some? then
           && m'.keys == (if gate.Some? then m.keys else k)
           && m'.grants == m.grants && m'.codes == m.codes
         else
           && m'.keys == k.(otp := Until(otp, m.now + OTP_TTL_MS))
           && m'.grants == m.grants + [Grant(m.now, |m.grants|, m.now)] && m'.codes == m.codes + [Code(otp, m.now)]
  {
    var m, m1 := Run(t), Run(Then(t, CheckGate(r)));
    assert m1 == OnCheck(m, r);
    var m2 := Run(Then(Then(t, CheckGate(r)), TrackRequest(r)));
    assert m2 == if Gate(m.keys, m.now).None? then OnTrack(m1, r, m.now, |m.grants|) else m1;
  }

  // ---------------------------------------------------------------- every refusal of a request

  ghost predicate SpamBlocked(m: Machine) {
    m.spamBlocks != [] && m.now < Last(m.spamBlocks) + OTP_SPAM_BLOCK_MS
  }

  /** The gate by definition, from the logs of blocks and grants alone. */
  ghost function GateAnswer(m: Machine): Option<Error> {
    if Blocked(m) then Some(OtpBlocked)
    else if SpamBlocked(m) then Some(OtpSpamBlocked)
    else if m.grants != [] && m.now < Last(m.grants).at + OTP_COOLDOWN_MS then Some(OtpCooldown)
    else None
  }

  lemma GateAnswerMeaning(m: Machine)
    requires BlocksInv(m) && RequestInv(m)
    ensures Gate(m.keys, m.now) == GateAnswer(m)
  {
    assert m.grants == [] <==> TimesOf(m.grants) == [];
  }

  /** Every answer of the gate is the one the logs give. */
  lemma GateExactly(t: Trace<Event>)
    ensures Gate(Run(t).keys, Run(t).now) == GateAnswer(Run(t))
  {
    RunKeepsInv(t);
    GateAnswerMeaning(Run(t));
  }

  lemma SpamMeaning(m: Machine)
    requires BlocksInv(m) && RequestInv(m)
    ensures Track(m.keys, m.now).1 ==
      if SpamBlocked(m) || Streak(TimesOf(m.grants) + [Some(m.now)], OTP_REQUEST_WINDOW_MS) == OTP_REQUEST_LIMIT + 1
      then Some(OtpSpamBlocked) else None
  {
    StreakGrows(TimesOf(m.grants), OTP_REQUEST_WINDOW_MS, m.now);
  }

  /**
   A request past the gate is refused by the counter exactly in the hour after a spam block, or as the fourth of its
   streak.
   */
  lemma RefusedExactlyWhenSpamming(t: Trace<Event>)
    ensures var m := Run(t);
      Track(m.keys, m.now).1 ==
        if SpamBlocked(m) || Streak(TimesOf(m.grants) + [Some(m.now)], OTP_REQUEST_WINDOW_MS) == OTP_REQUEST_LIMIT + 1
        then Some(OtpSpamBlocked) else None
  {
    RunKeepsInv(t);
    SpamMeaning(Run(t));
  }
}
