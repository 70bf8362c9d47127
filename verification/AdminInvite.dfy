/**
 Admin invites of auth-service: accepting an invite is a saga. One transaction creates the credential and
 consumes the invite; a call to user-service creates the profile; if that call fails, a second transaction
 takes both back. Any number of accepts and validations interleave at every await.
 */
module AdminInvite {
  import opened Wrappers

  const INVITE_TTL_MS: int := 86400000

  datatype Status = Pending | Consumed | Expired

  /** A row of admin_invites, known by its token hash. */
  datatype Invite = Invite(email: string, status: Status, consumedBy: Option<nat>, expiresAt: int)

  /** Which session created a credential, and from which invite. History only: no decision reads it. */
  datatype Origin = Origin(invite: nat, session: nat)

  datatype Credential = Credential(email: string, origin: Option<Origin>)

  /** A row of the audit log. */
  datatype Audit =
    | InviteCreated(invite: nat)
    | InviteConsumed(invite: nat, actor: nat)
    | AcceptRolledBack(invite: nat, actor: nat)

  /** The event in the outbox that emails the link. */
  datatype InviteEmail = InviteEmail(invite: nat, email: string, expiresAt: int)

  predicate EmailTaken(credentials: map<nat, Credential>, email: string) {
    exists c :: c in credentials && credentials[c].email == email
  }

  datatype Error = InviteInvalid | InviteExpired | AccountExists | InviteAlreadyUsed | SetupFailed | DatabaseFailed

  datatype Database = Database(
    credentials: map<nat, Credential>,
    invites: map<nat, Invite>,
    audit: seq<Audit>,
    outbox: seq<InviteEmail>)
  {
    predicate HasStatus(h: nat, status: Status) {
      h in invites && invites[h].status == status
    }

    predicate ConsumedBy(h: nat, c: nat) {
      HasStatus(h, Consumed) && invites[h].consumedBy == Some(c)
    }

    function FindInvite(h: nat): Option<Invite> {
      if h in invites then Some(invites[h]) else None
    }

    function SetInvite(h: nat, status: Status, consumedBy: Option<nat>): Database
      requires h in invites
    {
      this.(invites := invites[h := invites[h].(status := status, consumedBy := consumedBy)])
    }

    function MarkConsumed(h: nat, c: nat): (Database, bool) {
      if HasStatus(h, Pending) then (SetInvite(h, Consumed, Some(c)), true) else (this, false)
    }

    function Reopen(h: nat, c: nat): (Database, bool) {
      if ConsumedBy(h, c) then (SetInvite(h, Pending, None), true) else (this, false)
    }

    function MarkExpired(h: nat): Database {
      if HasStatus(h, Pending) then SetInvite(h, Expired, invites[h].consumedBy) else this
    }

    function CreateInvite(h: nat, email: string, now: int): Database {
      if h in invites then this
      else
        var expiresAt := now + INVITE_TTL_MS;
        this.(invites := invites[h := Invite(email, Pending, None, expiresAt)],
              audit := audit + [InviteCreated(h)],
              outbox := outbox + [InviteEmail(h, email, expiresAt)])
    }

    /** `credential.create`: the id is the primary key, the email is unique. */
    function CreateCredential(c: nat, credential: Credential): Option<Database> {
      if c in credentials || EmailTaken(credentials, credential.email) then None
      else Some(this.(credentials := credentials[c := credential]))
    }

    /** The accepting transaction: all of it, or (on a throw) nothing. */
    function Enrol(h: nat, email: string, c: nat, session: nat): Result<Database, Error> {
      match CreateCredential(c, Credential(email, Some(Origin(h, session))))
      case None => Failure(DatabaseFailed)
      case Some(created) =>
        var (consumed, ok) := created.MarkConsumed(h, c);
        if ok then Success(consumed.(audit := audit + [InviteConsumed(h, c)])) else Failure(InviteAlreadyUsed)
    }

    /** The compensating transaction; deleting a missing credential throws. */
    function Compensate(h: nat, c: nat): Option<Database> {
      if c !in credentials then None
      else
        var (reopened, _) := this.(credentials := credentials - {c}).Reopen(h, c);
        Some(reopened.(audit := audit + [AcceptRolledBack(h, c)]))
    }
  }

  datatype Validity = Valid(email: string, expiresAt: int) | Invalid | AlreadyConsumed | AlreadyExpired

  /** What an undisturbed accept does to the database; c is the new credential's id. */
  function Accepting(db: Database, h: nat, now: int, c: nat, session: nat, profileOk: bool)
    : (Database, Result<nat, Error>)
  {
    if !db.HasStatus(h, Pending) then (db, Failure(InviteInvalid))
    else if db.invites[h].expiresAt <= now then (db.MarkExpired(h), Failure(InviteExpired))
    else if EmailTaken(db.credentials, db.invites[h].email) then (db, Failure(AccountExists))
    else if c in db.credentials then (db, Failure(DatabaseFailed))
    else
      var enrolled := db.SetInvite(h, Consumed, Some(c)).(
                        credentials := db.credentials[c := Credential(db.invites[h].email, Some(Origin(h, session)))],
                        audit := db.audit + [InviteConsumed(h, c)]);
      if profileOk then (enrolled, Success(c))
      else (db.(invites := db.invites[h := db.invites[h].(consumedBy := None)],
                audit := db.audit + [InviteConsumed(h, c), AcceptRolledBack(h, c)]),
            Failure(SetupFailed))
  }

  /** What an undisturbed look at an invite answers, and leaves of it. */
  function Validating(db: Database, h: nat, now: int): (Database, Validity) {
    if h !in db.invites then (db, Invalid)
    else if db.invites[h].status.Consumed? then (db, AlreadyConsumed)
    else if db.invites[h].status.Expired? then (db, AlreadyExpired)
    else if db.invites[h].expiresAt <= now then (db.MarkExpired(h), AlreadyExpired)
    else (db, Valid(db.invites[h].email, db.invites[h].expiresAt))
  }

  /** From db to db', at most the status and the consumer of invite h change, and they are as said. */
  ghost predicate InviteBecomes(db: Database, db': Database, h: nat, status: Status, consumedBy: Option<nat>) {
    && h in db.invites
    && db'.invites == db.invites[h := Invite(db.invites[h].email, status, consumedBy, db.invites[h].expiresAt)]
    && db'.outbox == db.outbox
  }

  /**
   What an undisturbed accept must answer and leave, one case after the other; every refusal but that of an overdue
   invite leaves all tables, and a failed profile call leaves all but the audit log.
   */
  ghost predicate AcceptEnds(db: Database, h: nat, now: int, c: nat, session: nat, profileOk: bool, db': Database,
      result: Result<nat, Error>)
  {
    var pending := h in db.invites && db.invites[h].status == Pending;
    var inTime := pending && now < db.invites[h].expiresAt;
    var free := inTime && forall d :: d in db.credentials ==> db.credentials[d].email != db.invites[h].email;
    var enrols := free && c !in db.credentials;
    && (result == Failure(InviteInvalid) <==> !pending)
    && (result == Failure(InviteExpired) <==> pending && !inTime)
    && (result == Failure(AccountExists) <==> inTime && !free)
    && (result == Failure(DatabaseFailed) <==> free && !enrols)
    && (result == Failure(SetupFailed) <==> enrols && !profileOk)
    && (result == Success(c) <==> enrols && profileOk)
    && (result.Failure? && (!pending || inTime) && !enrols ==> db' == db)
    && (pending && !inTime ==>
          && InviteBecomes(db, db', h, Expired, db.invites[h].consumedBy)
          && db'.credentials == db.credentials && db'.audit == db.audit)
    && (enrols && profileOk ==>
          && InviteBecomes(db, db', h, Consumed, Some(c))
          && db'.credentials == db.credentials[c := Credential(db.invites[h].email, Some(Origin(h, session)))]
          && db'.audit == db.audit + [InviteConsumed(h, c)])
    && (enrols && !profileOk ==>
          && InviteBecomes(db, db', h, Pending, None)
          && db'.credentials == db.credentials
          && db'.audit == db.audit + [InviteConsumed(h, c), AcceptRolledBack(h, c)])
  }

  lemma AcceptMeaning(db: Database, h: nat, now: int, c: nat, session: nat, profileOk: bool)
    ensures var (db', result) := Accepting(db, h, now, c, session, profileOk);
      AcceptEnds(db, h, now, c, session, profileOk, db', result)
  {
  }

  /** Compensating right after enrolling puts every table back; only the audit log tells. */
  lemma CompensationUndoes(db: Database, h: nat, c: nat, session: nat)
    requires db.HasStatus(h, Pending) && db.Enrol(h, db.invites[h].email, c, session).Success?
    ensures db.Enrol(h, db.invites[h].email, c, session).value.Compensate(h, c) ==
      Some(db.(invites := db.invites[h := db.invites[h].(consumedBy := None)],
               audit := db.audit + [InviteConsumed(h, c), AcceptRolledBack(h, c)]))
  {
    var enrolled := db.Enrol(h, db.invites[h].email, c, session).value;
    var back := enrolled.Compensate(h, c).value;
    assert back.credentials == db.credentials;
    assert back.invites == db.invites[h := db.invites[h].(consumedBy := None)];
    assert db.audit + [InviteConsumed(h, c)] + [AcceptRolledBack(h, c)] ==
        db.audit + [InviteConsumed(h, c), AcceptRolledBack(h, c)];
  }

  class AdminInvites {
    var credentials: map<nat, Credential>
    var invites: map<nat, Invite>
    var audit: seq<Audit>
    var outbox: seq<InviteEmail>

    ghost function Db(): Database
      reads this
    {
      Database(credentials, invites, audit, outbox)
    }

    constructor ()
      ensures Db() == Database(map[], map[], [], [])
    {
      credentials, invites, audit, outbox := map[], map[], [], [];
    }

    method FindByEmail(email: string) returns (found: bool)
      ensures found == EmailTaken(credentials, email)
    {
      var left := credentials.Keys;
      while left != {}
        invariant left <= credentials.Keys
        invariant forall c :: c in credentials && credentials[c].email == email ==> c in left
        decreases |left|
      {
        var c :| c in left;
        if credentials[c].email == email {
          return true;
        }
        left := left - {c};
      }
      return false;
    }

    method MarkConsumed(h: nat, c: nat) returns (consumed: bool)
      modifies this`invites
      ensures (Db(), consumed) == old(Db()).MarkConsumed(h, c)
      ensures consumed <==> old(Db()).HasStatus(h, Pending)
      ensures consumed ==> Db().ConsumedBy(h, c)
    {
      if h in invites && invites[h].status.Pending? {
        invites := invites[h := invites[h].(status := Consumed, consumedBy := Some(c))];
        return true;
      }
      return false;
    }

    method Reopen(h: nat, c: nat) returns (reopened: bool)
      modifies this`invites
      ensures (Db(), reopened) == old(Db()).Reopen(h, c)
      ensures reopened <==> old(Db()).ConsumedBy(h, c)
      ensures reopened ==> Db().HasStatus(h, Pending)
    {
      if h in invites && invites[h].status.Consumed? && invites[h].consumedBy == Some(c) {
        invites := invites[h := invites[h].(status := Pending, consumedBy := None)];
        return true;
      }
      return false;
    }

    method MarkExpired(h: nat)
      modifies this`invites
      ensures Db() == old(Db()).MarkExpired(h)
      ensures old(Db()).HasStatus(h, Pending) ==> Db().HasStatus(h, Expired)
    {
      if h in invites && invites[h].status.Pending? {
        invites := invites[h := invites[h].(status := Expired)];
      }
    }

    /** `createInvite`; h is the hash of the new random token. */
    method CreateInvite(h: nat, email: string, now: int) returns (result: Result<int, Error>)
      modifies this
      ensures result == if EmailTaken(old(credentials), email) then Failure(AccountExists)
                        else if h in old(invites) then Failure(DatabaseFailed)
                        else Success(now + INVITE_TTL_MS)
      ensures Db() == if result.Success? then old(Db()).CreateInvite(h, email, now) else old(Db())
    {
      var existing := FindByEmail(email);
      if existing {
        return Failure(AccountExists);
      }
      if h in invites {
        return Failure(DatabaseFailed);
      }
      invites := invites[h := Invite(email, Pending, None, now + INVITE_TTL_MS)];
      audit := audit + [InviteCreated(h)];
      outbox := outbox + [InviteEmail(h, email, now + INVITE_TTL_MS)];
      return Success(now + INVITE_TTL_MS);
    }

    method ValidateInvite(h: nat, now: int) returns (validity: Validity)
      modifies this`invites
      ensures (Db(), validity) == Validating(old(Db()), h, now)
      ensures validity.Valid? <==> old(Db()).HasStatus(h, Pending) && now < old(invites)[h].expiresAt
      ensures validity.Valid? ==> Db() == old(Db()) && validity == Valid(invites[h].email, invites[h].expiresAt)
      ensures validity.Invalid? <==> h !in invites
      ensures validity.AlreadyConsumed? <==> Db().HasStatus(h, Consumed)
      ensures validity.AlreadyExpired? <==> Db().HasStatus(h, Expired)
      ensures Db() == if validity.AlreadyExpired? then old(Db()).MarkExpired(h) else old(Db())
    {
      if h !in invites {
        return Invalid;
      }
      var invite := invites[h];
      if invite.status == Consumed {
        return AlreadyConsumed;
      }
      if invite.status == Expired {
        return AlreadyExpired;
      }
      if invite.expiresAt <= now {
        MarkExpired(h);
        return AlreadyExpired;
      }
      return Valid(invite.email, invite.expiresAt);
    }

    /** The accepting transaction; the tables are put back when it throws. */
    method EnrolTransaction(h: nat, email: string, c: nat, session: nat) returns (error: Option<Error>)
      modifies this
      ensures match old(Db()).Enrol(h, email, c, session)
              case Success(db) => error == None && Db() == db
              case Failure(e) => error == Some(e) && Db() == old(Db())
    {
      var taken := FindByEmail(email);
      if c in credentials || taken {
        return Some(DatabaseFailed);
      }
      var saved := credentials;
      credentials := credentials[c := Credential(email, Some(Origin(h, session)))];
      var consumed := MarkConsumed(h, c);
      if !consumed {
        credentials := saved;
        return Some(InviteAlreadyUsed);
      }
      audit := audit + [InviteConsumed(h, c)];
      return None;
    }

    method CompensateTransaction(h: nat, c: nat) returns (ok: bool)
      modifies this
      ensures ok == old(Db()).Compensate(h, c).Some?
      ensures Db() == if ok then old(Db()).Compensate(h, c).value else old(Db())
    {
      if c !in credentials {
        return false;
      }
      credentials := credentials - {c};
      var _ := Reopen(h, c);
      audit := audit + [AcceptRolledBack(h, c)];
      return true;
    }

    /** `acceptInvite`, undisturbed: a failed profile call leaves everything but the audit log as it was. */
    method AcceptInvite(h: nat, now: int, c: nat, session: nat, profileOk: bool) returns (result: Result<nat, Error>)
      modifies this
      ensures (Db(), result) == Accepting(old(Db()), h, now, c, session, profileOk)
      ensures AcceptEnds(old(Db()), h, now, c, session, profileOk, Db(), result)
    {
      AcceptMeaning(Db(), h, now, c, session, profileOk);
      if h !in invites || invites[h].status != Pending {
        return Failure(InviteInvalid);
      }
      var invite := invites[h];
      if invite.expiresAt <= now {
        MarkExpired(h);
        return Failure(InviteExpired);
      }
      var existing := FindByEmail(invite.email);
      if existing {
        return Failure(AccountExists);
      }
      ghost var before := Db();
      var error := EnrolTransaction(h, invite.email, c, session);
      if error.Some? {
        return Failure(error.value);
      }
      if !profileOk {
        ghost var enrolled := Db();
        var _ := CompensateTransaction(h, c);
        CompensationUndoes(before, h, c, session);
        return Failure(SetupFailed);
      }
      return Success(c);
    }
  }

  // ---------------------------------------------------------------- interleaved sessions

  datatype Purpose = ToAccept | ToValidate

  /** Which await a session stands at. */
  datatype Stage =
    | Reading
    | Judging(found: Option<Invite>)
    | Expiring
    | Looking(email: string)
    | Enrolling(email: string)
    | Provisioning(credential: nat)
    | Compensating(credential: nat)
    | Accepted(credential: nat)
    | Answered(validity: Validity)
    | Failed(error: Error)
    | Crashed

  datatype Session = Session(invite: nat, purpose: Purpose, stage: Stage)

  datatype Machine = Machine(db: Database, sessions: map<nat, Session>, now: int)

  datatype Event =
    | Tick(ms: nat)
    | Invited(invite: nat, email: string)
    | Begin(session: nat, invite: nat, purpose: Purpose)
    | Read(session: nat)
    | Judge(session: nat)
    | Expire(session: nat)
    | LookUp(session: nat)
    | Transact(session: nat, credential: nat, up: bool)
    | Provision(session: nat, ok: bool)
    | TakeBack(session: nat, up: bool)
    | Crash(session: nat)
    | Register(credential: nat, email: string)
    | Unregister(credential: nat)

  function Moved(m: Machine, s: nat, stage: Stage): Machine
    requires s in m.sessions
  {
    m.(sessions := m.sessions[s := m.sessions[s].(stage := stage)])
  }

  /** The synchronous code after the invite was read. */
  function Verdict(found: Option<Invite>, purpose: Purpose, now: int): Stage {
    if found.None? then
      if purpose.ToAccept? then Failed(InviteInvalid) else Answered(Invalid)
    else if found.value.status != Pending then
      if purpose.ToAccept? then Failed(InviteInvalid)
      else Answered(if found.value.status.Consumed? then AlreadyConsumed else AlreadyExpired)
    else if found.value.expiresAt <= now then Expiring
    else if purpose.ToAccept? then Looking(found.value.email)
    else Answered(Valid(found.value.email, found.value.expiresAt))
  }

  function OnTransact(m: Machine, s: nat, email: string, c: nat, up: bool): Machine
    requires s in m.sessions
  {
    if !up then Moved(m, s, Failed(DatabaseFailed))
    else
      match m.db.Enrol(m.sessions[s].invite, email, c, s)
      case Success(db) => Moved(m.(db := db), s, Provisioning(c))
      case Failure(error) => Moved(m, s, Failed(error))
  }

  function OnTakeBack(m: Machine, s: nat, c: nat, up: bool): Machine
    requires s in m.sessions
  {
    var undone := m.db.Compensate(m.sessions[s].invite, c);
    if up && undone.Some? then Moved(m.(db := undone.value), s, Failed(SetupFailed))
    else Moved(m, s, Failed(DatabaseFailed))
  }

  function OnSession(m: Machine, s: nat, e: Event): Machine
    requires s in m.sessions
  {
    var session := m.sessions[s];
    match (session.stage, e)
    case (Reading, Read(_)) => Moved(m, s, Judging(m.db.FindInvite(session.invite)))
    case (Judging(found), Judge(_)) => Moved(m, s, Verdict(found, session.purpose, m.now))
    case (Expiring, Expire(_)) =>
      Moved(m.(db := m.db.MarkExpired(session.invite)), s,
            if session.purpose.ToAccept? then Failed(InviteExpired) else Answered(AlreadyExpired))
    case (Looking(email), LookUp(_)) =>
      Moved(m, s, if EmailTaken(m.db.credentials, email) then Failed(AccountExists) else Enrolling(email))
    case (Enrolling(email), Transact(_, c, up)) => OnTransact(m, s, email, c, up)
    case (Provisioning(c), Provision(_, ok)) => Moved(m, s, if ok then Accepted(c) else Compensating(c))
    case (Compensating(c), TakeBack(_, up)) => OnTakeBack(m, s, c, up)
    case (Accepted(_), Crash(_)) => m
    case (_, Crash(_)) => Moved(m, s, Crashed)
    case _ => m
  }

  /**
   Other code creates credentials, and deletes only those it created. `createInvite` looks for an account
   first; leaving that look out only allows more runs.
   */
  function Step(m: Machine, e: Event): Machine {
    match e
    case Tick(ms) => m.(now := m.now + ms)
    case Invited(h, email) => m.(db := m.db.CreateInvite(h, email, m.now))
    case Begin(s, h, purpose) =>
      if s in m.sessions then m else m.(sessions := m.sessions[s := Session(h, purpose, Reading)])
    case Register(c, email) =>
      var created := m.db.CreateCredential(c, Credential(email, None));
      if created.Some? then m.(db := created.value) else m
    case Unregister(c) =>
      if c in m.db.credentials && m.db.credentials[c].origin.None? then
        m.(db := m.db.(credentials := m.db.credentials - {c}))
      else m
    case _ => if e.session in m.sessions then OnSession(m, e.session, e) else m
  }

  function Run(t: Trace<Event>): Machine {
    match t
    case Start => Machine(Database(map[], map[], [], []), map[], 0)
    case Then(before, e) => Step(Run(before), e)
  }

  // ---------------------------------------------------------------- the invariant

  function Weight(entry: Audit, h: nat, c: nat): int {
    if entry == InviteConsumed(h, c) then 1 else if entry == AcceptRolledBack(h, c) then -1 else 0
  }

  /** Accepts of invite h by credential c in the audit log that have not been rolled back. */
  function Balance(audit: seq<Audit>, h: nat, c: nat): int {
    if audit == [] then 0
    else
      var last := audit[|audit| - 1];
      Balance(audit[..|audit| - 1], h, c) + Weight(last, h, c)
  }

  ghost predicate InviteInv(m: Machine, h: nat)
    requires h in m.db.invites
  {
    var invite := m.db.invites[h];
    && (invite.status.Consumed? <==> invite.consumedBy.Some?)
    && (invite.consumedBy.Some? ==>
          var c := invite.consumedBy.value;
          c in m.db.credentials && m.db.credentials[c].origin.Some? && m.db.credentials[c].origin.value.invite == h
          && m.db.credentials[c].email == invite.email)
    && (invite.status.Expired? ==> invite.expiresAt <= m.now)
  }

  ghost predicate CredentialInv(m: Machine, c: nat)
    requires c in m.db.credentials
  {
    m.db.credentials[c].origin.Some? ==> m.db.ConsumedBy(m.db.credentials[c].origin.value.invite, c)
  }

  ghost predicate EmailsUnique(credentials: map<nat, Credential>) {
    forall c, d :: c in credentials && d in credentials && credentials[c].email == credentials[d].email ==> c == d
  }

  ghost predicate Knows(m: Machine, h: nat, email: string) {
    h in m.db.invites && m.db.invites[h].email == email
  }

  /** Session s created credential c from its invite, and c is still there. */
  ghost predicate Holds(m: Machine, s: nat, c: nat)
    requires s in m.sessions
  {
    c in m.db.credentials && m.db.credentials[c].origin == Some(Origin(m.sessions[s].invite, s))
  }

  ghost predicate SessionInv(m: Machine, s: nat)
    requires s in m.sessions
  {
    var h := m.sessions[s].invite;
    match m.sessions[s].stage
    case Judging(found) => found.Some? ==>
        Knows(m, h, found.value.email) && m.db.invites[h].expiresAt == found.value.expiresAt
    case Expiring => h in m.db.invites && m.db.invites[h].expiresAt <= m.now
    case Looking(email) => Knows(m, h, email)
    case Enrolling(email) => Knows(m, h, email)
    case Provisioning(c) => Holds(m, s, c)
    case Compensating(c) => Holds(m, s, c)
    case Accepted(c) => Holds(m, s, c)
    case _ => true
  }

  ghost predicate AuditInv(db: Database) {
    forall h, c :: Balance(db.audit, h, c) == if db.ConsumedBy(h, c) then 1 else 0
  }

  ghost predicate TablesInv(m: Machine) {
    && EmailsUnique(m.db.credentials)
    && (forall h :: h in m.db.invites ==> InviteInv(m, h))
    && (forall c :: c in m.db.credentials ==> CredentialInv(m, c))
  }

  ghost predicate Inv(m: Machine) {
    && TablesInv(m)
    && AuditInv(m.db)
    && (forall s :: s in m.sessions ==> SessionInv(m, s))
  }

  /** From m to m', invites keep what was written at their creation, and every held credential stays. */
  ghost predicate KeepsSessions(m: Machine, m': Machine) {
    && m.now <= m'.now
    && (forall h :: h in m.db.invites ==>
          h in m'.db.invites && m'.db.invites[h].email == m.db.invites[h].email
            && m'.db.invites[h].expiresAt == m.db.invites[h].expiresAt)
    && (forall s :: s in m.sessions ==> s in m'.sessions && m'.sessions[s].invite == m.sessions[s].invite)
  }

  lemma SessionKept(m: Machine, m': Machine, s: nat)
    requires KeepsSessions(m, m') && s in m.sessions && SessionInv(m, s) && m'.sessions[s] == m.sessions[s]
    requires forall c :: Holds(m, s, c) ==> Holds(m', s, c)
    ensures SessionInv(m', s)
  {
  }

  lemma OneMoreEntry(audit: seq<Audit>, entry: Audit, h: nat, c: nat)
    ensures Balance(audit + [entry], h, c) ==
      Balance(audit, h, c) + Weight(entry, h, c)
  {
    assert (audit + [entry])[..|audit|] == audit;
  }

  // ---------------------------------------------------------------- every step keeps it

  lemma CreateInviteKeepsTables(m: Machine, h: nat, email: string)
    requires TablesInv(m) && AuditInv(m.db)
    ensures TablesInv(Step(m, Invited(h, email))) && AuditInv(Step(m, Invited(h, email)).db)
  {
    var m' := Step(m, Invited(h, email));
    forall g | g in m'.db.invites ensures InviteInv(m', g) {
      assert g in m.db.invites ==> InviteInv(m, g);
    }
    forall c | c in m'.db.credentials ensures CredentialInv(m', c) {
      assert CredentialInv(m, c);
    }
    forall g, c ensures Balance(m'.db.audit, g, c) == if m'.db.ConsumedBy(g, c) then 1 else 0 {
      OneMoreEntry(m.db.audit, InviteCreated(h), g, c);
      assert m'.db.ConsumedBy(g, c) <==> m.db.ConsumedBy(g, c);
    }
  }

  lemma MarkExpiredKeepsTables(m: Machine, h: nat)
    requires TablesInv(m) && AuditInv(m.db) && h in m.db.invites && m.db.invites[h].expiresAt <= m.now
    ensures TablesInv(m.(db := m.db.MarkExpired(h))) && AuditInv(m.db.MarkExpired(h))
  {
    var m' := m.(db := m.db.MarkExpired(h));
    forall g | g in m'.db.invites ensures InviteInv(m', g) {
      assert InviteInv(m, g);
    }
    forall c | c in m'.db.credentials ensures CredentialInv(m', c) {
      assert CredentialInv(m, c);
    }
    forall g, c ensures Balance(m'.db.audit, g, c) == if m'.db.ConsumedBy(g, c) then 1 else 0 {
      assert m'.db.ConsumedBy(g, c) <==> m.db.ConsumedBy(g, c);
    }
  }

  lemma EnrolKeepsTables(m: Machine, h: nat, email: string, c: nat, session: nat)
    requires TablesInv(m) && AuditInv(m.db) && Knows(m, h, email) && m.db.Enrol(h, email, c, session).Success?
    ensures var db := m.db.Enrol(h, email, c, session).value; TablesInv(m.(db := db)) && AuditInv(db)
  {
    var m' := m.(db := m.db.Enrol(h, email, c, session).value);
    forall g | g in m'.db.invites ensures InviteInv(m', g) {
      assert InviteInv(m, g);
    }
    forall d | d in m'.db.credentials ensures CredentialInv(m', d) {
      assert d != c ==> CredentialInv(m, d);
      assert InviteInv(m, h);
    }
    forall g, d ensures Balance(m'.db.audit, g, d) == if m'.db.ConsumedBy(g, d) then 1 else 0 {
      OneMoreEntry(m.db.audit, InviteConsumed(h, c), g, d);
    }
  }

  lemma CompensateKeepsTables(m: Machine, h: nat, c: nat)
    requires TablesInv(m) && AuditInv(m.db) && m.db.ConsumedBy(h, c) && c in m.db.credentials
    ensures var db := m.db.Compensate(h, c).value; TablesInv(m.(db := db)) && AuditInv(db)
  {
    var m' := m.(db := m.db.Compensate(h, c).value);
    assert InviteInv(m, h);
    forall g | g in m'.db.invites ensures InviteInv(m', g) {
      assert InviteInv(m, g);
    }
    forall d | d in m'.db.credentials ensures CredentialInv(m', d) {
      assert CredentialInv(m, d);
    }
    forall g, d ensures Balance(m'.db.audit, g, d) == if m'.db.ConsumedBy(g, d) then 1 else 0 {
      OneMoreEntry(m.db.audit, AcceptRolledBack(h, c), g, d);
    }
  }

  lemma OthersKeepTables(m: Machine, e: Event)
    requires TablesInv(m) && AuditInv(m.db) && (e.Tick? || e.Begin? || e.Register? || e.Unregister?)
    ensures TablesInv(Step(m, e)) && AuditInv(Step(m, e).db)
  {
    var m' := Step(m, e);
    forall g | g in m'.db.invites ensures InviteInv(m', g) {
      assert InviteInv(m, g);
    }
    forall d | d in m'.db.credentials ensures CredentialInv(m', d) {
      assert d in m.db.credentials ==> CredentialInv(m, d);
    }
    forall g, d ensures Balance(m'.db.audit, g, d) == if m'.db.ConsumedBy(g, d) then 1 else 0 {
      assert m'.db.ConsumedBy(g, d) <==> m.db.ConsumedBy(g, d);
    }
  }

  lemma OutsideStepKeepsInv(m: Machine, e: Event)
    requires Inv(m) && (e.Tick? || e.Begin? || e.Register? || e.Unregister? || e.Invited?)
    ensures Inv(Step(m, e))
  {
    var m' := Step(m, e);
    if e.Invited? {
      CreateInviteKeepsTables(m, e.invite, e.email);
    } else {
      OthersKeepTables(m, e);
    }
    forall s | s in m'.sessions ensures SessionInv(m', s) {
      if s in m.sessions {
        SessionKept(m, m', s);
      }
    }
  }

  /** A session only moves itself; what others hold stays. */
  lemma SessionStepKeepsInv(m: Machine, m': Machine, s: nat)
    requires Inv(m) && s in m.sessions && TablesInv(m') && AuditInv(m'.db) && KeepsSessions(m, m')
    requires m'.sessions == m.sessions[s := m'.sessions[s]] && SessionInv(m', s)
    requires forall r, c :: r in m.sessions && r != s && Holds(m, r, c) ==> Holds(m', r, c)
    ensures Inv(m')
  {
    forall r | r in m'.sessions ensures SessionInv(m', r) {
      if r != s {
        SessionKept(m, m', r);
      }
    }
  }

  /** The invariants of the tables do not look at the sessions. */
  lemma SameTables(m: Machine, m': Machine)
    requires TablesInv(m) && AuditInv(m.db) && m'.db == m.db && m'.now == m.now
    ensures TablesInv(m') && AuditInv(m'.db)
  {
    forall h | h in m'.db.invites ensures InviteInv(m', h) {
      assert InviteInv(m, h);
    }
    forall c | c in m'.db.credentials ensures CredentialInv(m', c) {
      assert CredentialInv(m, c);
    }
  }

  lemma TransactKeepsInv(m: Machine, s: nat, email: string, c: nat, up: bool)
    requires Inv(m) && s in m.sessions && m.sessions[s].stage == Enrolling(email)
    ensures Inv(OnTransact(m, s, email, c, up))
  {
    var h := m.sessions[s].invite;
    assert SessionInv(m, s);
    var m' := OnTransact(m, s, email, c, up);
    if up && m.db.Enrol(h, email, c, s).Success? {
      EnrolKeepsTables(m, h, email, c, s);
      SameTables(m.(db := m'.db), m');
    } else {
      SameTables(m, m');
    }
    SessionStepKeepsInv(m, m', s);
  }

  lemma TakeBackKeepsInv(m: Machine, s: nat, c: nat, up: bool)
    requires Inv(m) && s in m.sessions && m.sessions[s].stage == Compensating(c)
    ensures Inv(OnTakeBack(m, s, c, up))
  {
    var h := m.sessions[s].invite;
    assert SessionInv(m, s) && CredentialInv(m, c);
    var m' := OnTakeBack(m, s, c, up);
    if up {
      CompensateKeepsTables(m, h, c);
      SameTables(m.(db := m'.db), m');
    } else {
      SameTables(m, m');
    }
    SessionStepKeepsInv(m, m', s);
  }

  lemma ExpireKeepsInv(m: Machine, s: nat)
    requires Inv(m) && s in m.sessions && m.sessions[s].stage.Expiring?
    ensures Inv(OnSession(m, s, Expire(s)))
  {
    assert SessionInv(m, s);
    var m' := OnSession(m, s, Expire(s));
    MarkExpiredKeepsTables(m, m.sessions[s].invite);
    SameTables(m.(db := m'.db), m');
    SessionStepKeepsInv(m, m', s);
  }

  /** The steps that touch no table. */
  lemma ReadingStepKeepsInv(m: Machine, s: nat, e: Event)
    requires Inv(m) && s in m.sessions && (e.Read? || e.Judge? || e.LookUp? || e.Provision? || e.Crash?)
    ensures Inv(OnSession(m, s, e))
  {
    assert SessionInv(m, s);
    var m' := OnSession(m, s, e);
    if m' != m {
      SameTables(m, m');
      SessionStepKeepsInv(m, m', s);
    }
  }

  lemma StepKeepsInv(m: Machine, e: Event)
    requires Inv(m)
    ensures Inv(Step(m, e))
  {
    match e {
      case Transact(s, c, up) =>
        if s in m.sessions && m.sessions[s].stage.Enrolling? {
          TransactKeepsInv(m, s, m.sessions[s].stage.email, c, up);
        }
      case TakeBack(s, up) =>
        if s in m.sessions && m.sessions[s].stage.Compensating? {
          TakeBackKeepsInv(m, s, m.sessions[s].stage.credential, up);
        }
      case Expire(s) =>
        if s in m.sessions && m.sessions[s].stage.Expiring? {
          ExpireKeepsInv(m, s);
        }
      case Tick(_) => OutsideStepKeepsInv(m, e);
      case Invited(_, _) => OutsideStepKeepsInv(m, e);
      case Begin(_, _, _) => OutsideStepKeepsInv(m, e);
      case Register(_, _) => OutsideStepKeepsInv(m, e);
      case Unregister(_) => OutsideStepKeepsInv(m, e);
      case _ =>
        if e.session in m.sessions {
          ReadingStepKeepsInv(m, e.session, e);
        }
    }
  }

  lemma {:induction false} RunKeepsInv(t: Trace<Event>)
    ensures Inv(Run(t))
  {
    if t.Then? {
      RunKeepsInv(t.before);
      StepKeepsInv(Run(t.before), t.event);
    }
  }

  // ---------------------------------------------------------------- what holds in every run

  /** An invite is consumed by c exactly if the credential c created from it exists, with the invite's email. */
  lemma ConsumedIffCredentialExists(t: Trace<Event>, h: nat, c: nat)
    ensures var db := Run(t).db;
      db.ConsumedBy(h, c) <==>
        c in db.credentials && db.credentials[c].origin.Some? && db.credentials[c].origin.value.invite == h
    ensures var db := Run(t).db; db.ConsumedBy(h, c) ==> db.credentials[c].email == db.invites[h].email
    ensures var db := Run(t).db; db.HasStatus(h, Consumed) ==> db.invites[h].consumedBy.Some?
  {
    var m := Run(t);
    RunKeepsInv(t);
    assert h in m.db.invites ==> InviteInv(m, h);
    assert c in m.db.credentials ==> CredentialInv(m, c);
  }

  /** Two invites for one email are never both consumed. */
  lemma OneConsumedInvitePerEmail(t: Trace<Event>, h: nat, g: nat)
    requires Run(t).db.HasStatus(h, Consumed) && Run(t).db.HasStatus(g, Consumed)
    requires Run(t).db.invites[h].email == Run(t).db.invites[g].email
    ensures h == g
  {
    RunKeepsInv(t);
    assert InviteInv(Run(t), h) && InviteInv(Run(t), g);
  }

  lemma ExpiredStays(m: Machine, e: Event, h: nat)
    requires m.db.HasStatus(h, Expired)
    ensures Step(m, e).db.HasStatus(h, Expired) && Step(m, e).db.invites[h] == m.db.invites[h]
  {
  }

  /** EXPIRED is final, and is only ever said of an invite whose time is over. */
  lemma {:induction false} ExpiredIsFinal(t: Trace<Event>, t': Trace<Event>, h: nat)
    requires Continues(t, t') && Run(t).db.HasStatus(h, Expired)
    ensures Run(t').db.HasStatus(h, Expired) && Run(t').db.invites[h] == Run(t).db.invites[h]
    ensures Run(t').db.invites[h].expiresAt <= Run(t').now
  {
    if t' != t {
      ExpiredIsFinal(t, t'.before, h);
      ExpiredStays(Run(t'.before), t'.event, h);
    }
    RunKeepsInv(t');
    assert InviteInv(Run(t'), h);
  }

  lemma AcceptedStays(m: Machine, e: Event, s: nat)
    requires s in m.sessions && m.sessions[s].stage.Accepted?
    ensures s in Step(m, e).sessions && Step(m, e).sessions[s] == m.sessions[s]
  {
  }

  lemma OneHolder(m: Machine, s: nat, r: nat)
    requires Inv(m) && s in m.sessions && m.sessions[s].stage.Accepted?
    ensures var h, c := m.sessions[s].invite, m.sessions[s].stage.credential;
      m.db.ConsumedBy(h, c) && c in m.db.credentials && m.db.credentials[c].email == m.db.invites[h].email
    ensures r in m.sessions && m.sessions[r].stage.Accepted? && m.sessions[r].invite == m.sessions[s].invite ==> r == s
  {
    var c := m.sessions[s].stage.credential;
    assert SessionInv(m, s) && CredentialInv(m, c) && InviteInv(m, m.sessions[s].invite);
    if r in m.sessions && m.sessions[r].stage.Accepted? {
      assert SessionInv(m, r) && CredentialInv(m, m.sessions[r].stage.credential);
    }
  }

  /** A successful accept stands for ever, and no other accept of that invite ever succeeds. */
  lemma {:induction false} AtMostOneAcceptSucceeds(t: Trace<Event>, t': Trace<Event>, s: nat, r: nat)
    requires Continues(t, t') && s in Run(t).sessions && Run(t).sessions[s].stage.Accepted?
    ensures s in Run(t').sessions && Run(t').sessions[s] == Run(t).sessions[s]
    ensures var db, h, c := Run(t').db, Run(t).sessions[s].invite, Run(t).sessions[s].stage.credential;
      db.ConsumedBy(h, c) && c in db.credentials && db.credentials[c].email == db.invites[h].email
    ensures r in Run(t').sessions && Run(t').sessions[r].stage.Accepted? ==>
        (Run(t').sessions[r].invite == Run(t).sessions[s].invite <==> r == s)
  {
    if t' != t {
      AtMostOneAcceptSucceeds(t, t'.before, s, r);
      AcceptedStays(Run(t'.before), t'.event, s);
    }
    RunKeepsInv(t');
    OneHolder(Run(t'), s, r);
  }

  /** The audit log tells the state: accepts less rollbacks of an invite by c is one while c consumes it, else zero. */
  lemma AuditTellsTheState(t: Trace<Event>, h: nat, c: nat)
    ensures Balance(Run(t).db.audit, h, c) == if Run(t).db.ConsumedBy(h, c) then 1 else 0
  {
    RunKeepsInv(t);
  }

  lemma TransactMeaning(m: Machine, s: nat, c: nat)
    requires Inv(m) && s in m.sessions && m.sessions[s].stage.Enrolling? && c !in m.db.credentials
    ensures var m', h, email := Step(m, Transact(s, c, true)), m.sessions[s].invite, m.sessions[s].stage.email;
      var stage := m'.sessions[s].stage;
      && (stage == Provisioning(c) <==> m.db.HasStatus(h, Pending) && !EmailTaken(m.db.credentials, email))
      && (stage == Failed(DatabaseFailed) <==> EmailTaken(m.db.credentials, email))
      && (stage == Failed(InviteAlreadyUsed) <==>
            m.db.HasStatus(h, Expired) && !EmailTaken(m.db.credentials, email))
      && (stage != Provisioning(c) ==> m'.db == m.db)
      && (m.db.HasStatus(h, Consumed) ==> stage == Failed(DatabaseFailed))
    ensures Step(m, Transact(s, c, false)) == Moved(m, s, Failed(DatabaseFailed))
  {
    var h := m.sessions[s].invite;
    assert SessionInv(m, s) && InviteInv(m, h);
  }

  /**
   How a racing accept loses: the transaction goes through exactly for a PENDING invite with a free email; against
   an accept that won it fails on the unique email, and it meets an invite already used only if that is EXPIRED.
   */
  lemma RacingAcceptLoses(t: Trace<Event>, s: nat, c: nat)
    requires s in Run(t).sessions && Run(t).sessions[s].stage.Enrolling? && c !in Run(t).db.credentials
    ensures var m, m' := Run(t), Run(Then(t, Transact(s, c, true)));
      var h, email, stage := m.sessions[s].invite, m.sessions[s].stage.email, m'.sessions[s].stage;
      && (stage == Provisioning(c) <==> m.db.HasStatus(h, Pending) && !EmailTaken(m.db.credentials, email))
      && (stage == Failed(DatabaseFailed) <==> EmailTaken(m.db.credentials, email))
      && (stage == Failed(InviteAlreadyUsed) <==>
            m.db.HasStatus(h, Expired) && !EmailTaken(m.db.credentials, email))
      && (stage != Provisioning(c) ==> m'.db == m.db)
      && (m.db.HasStatus(h, Consumed) ==> stage == Failed(DatabaseFailed))
    ensures Run(Then(t, Transact(s, c, false))) == Moved(Run(t), s, Failed(DatabaseFailed))
  {
    RunKeepsInv(t);
    TransactMeaning(Run(t), s, c);
  }

  /** An overdue invite found PENDING is EXPIRED once the session says so, unless an accept under way has it. */
  lemma ExpiringMarks(t: Trace<Event>, s: nat)
    requires s in Run(t).sessions && Run(t).sessions[s].stage.Expiring?
    ensures var m, m', h := Run(t), Run(Then(t, Expire(s))), Run(t).sessions[s].invite;
      && m'.sessions[s].stage ==
          (if m.sessions[s].purpose.ToAccept? then Failed(InviteExpired) else Answered(AlreadyExpired))
      && (m'.db.HasStatus(h, Expired) || (exists c :: m'.db.ConsumedBy(h, c)))
      && (!m.db.HasStatus(h, Pending) ==> m'.db == m.db)
  {
    RunKeepsInv(t);
    var m, h := Run(t), Run(t).sessions[s].invite;
    assert SessionInv(m, s) && InviteInv(m, h);
    if m.db.HasStatus(h, Consumed) {
      assert Run(Then(t, Expire(s))).db.ConsumedBy(h, m.db.invites[h].consumedBy.value);
    }
  }

  ghost predicate Emails(db: Database, e: InviteEmail) {
    e.invite in db.invites && db.invites[e.invite].email == e.email && db.invites[e.invite].expiresAt == e.expiresAt
  }

  /** The outbox emails each invite once, with its own address and expiry, and emails nothing else. */
  ghost predicate EmailedOnce(db: Database) {
    && (forall i :: 0 <= i < |db.outbox| ==> Emails(db, db.outbox[i]))
    && (forall i, j :: 0 <= i < j < |db.outbox| ==> db.outbox[i].invite != db.outbox[j].invite)
    && (forall h :: h in db.invites ==> InviteEmail(h, db.invites[h].email, db.invites[h].expiresAt) in db.outbox)
  }

  lemma CreationEmailsOnce(m: Machine, h: nat, email: string)
    requires EmailedOnce(m.db)
    ensures EmailedOnce(Step(m, Invited(h, email)).db)
  {
    var db, db' := m.db, Step(m, Invited(h, email)).db;
    if h !in db.invites {
      assert db'.outbox[|db.outbox|] == InviteEmail(h, email, m.now + INVITE_TTL_MS);
      forall g | g in db'.invites ensures InviteEmail(g, db'.invites[g].email, db'.invites[g].expiresAt) in db'.outbox {
        assert g != h ==> InviteEmail(g, db.invites[g].email, db.invites[g].expiresAt) in db.outbox;
      }
    }
  }

  lemma OnlyCreationEmails(m: Machine, e: Event)
    requires !e.Invited?
    ensures var db, db' := m.db, Step(m, e).db;
      && db'.outbox == db.outbox && db'.invites.Keys == db.invites.Keys
      && forall h :: h in db.invites ==>
          db'.invites[h].email == db.invites[h].email && db'.invites[h].expiresAt == db.invites[h].expiresAt
  {
  }

  lemma SameEmails(db: Database, db': Database)
    requires EmailedOnce(db) && db'.outbox == db.outbox && db'.invites.Keys == db.invites.Keys
    requires forall h :: h in db.invites ==>
        db'.invites[h].email == db.invites[h].email && db'.invites[h].expiresAt == db.invites[h].expiresAt
    ensures EmailedOnce(db')
  {
    forall i | 0 <= i < |db'.outbox| ensures Emails(db', db'.outbox[i]) {
      assert Emails(db, db.outbox[i]);
    }
  }

  lemma {:induction false} InvitesAreEmailedOnce(t: Trace<Event>)
    ensures EmailedOnce(Run(t).db)
  {
    if t.Then? {
      InvitesAreEmailedOnce(t.before);
      if t.event.Invited? {
        CreationEmailsOnce(Run(t.before), t.event.invite, t.event.email);
      } else {
        OnlyCreationEmails(Run(t.before), t.event);
        SameEmails(Run(t.before).db, Run(t).db);
      }
    }
  }

  /** How often the audit log says that the invite was created. */
  function Creations(audit: seq<Audit>, h: nat): nat {
    if audit == [] then 0
    else Creations(audit[..|audit| - 1], h) + if audit[|audit| - 1] == InviteCreated(h) then 1 else 0
  }

  ghost predicate AuditedOnce(db: Database) {
    forall h :: Creations(db.audit, h) == if h in db.invites then 1 else 0
  }

  lemma OneMoreCreation(audit: seq<Audit>, entry: Audit, h: nat)
    ensures Creations(audit + [entry], h) == Creations(audit, h) + if entry == InviteCreated(h) then 1 else 0
  {
    assert (audit + [entry])[..|audit|] == audit;
  }

  /** A step creates an invite and audits it, or writes another audit entry or none and creates none. */
  lemma StepAudits(m: Machine, e: Event)
    ensures var db, db' := m.db, Step(m, e).db;
      || (db'.audit == db.audit && db'.invites.Keys == db.invites.Keys)
      || (exists h :: db'.audit == db.audit + [InviteCreated(h)] && h !in db.invites
            && db'.invites.Keys == db.invites.Keys + {h})
      || (exists entry: Audit :: !entry.InviteCreated? && db'.audit == db.audit + [entry]
            && db'.invites.Keys == db.invites.Keys)
  {
  }

  lemma StepAuditsOnce(m: Machine, e: Event)
    requires AuditedOnce(m.db)
    ensures AuditedOnce(Step(m, e).db)
  {
    var db, db' := m.db, Step(m, e).db;
    StepAudits(m, e);
    forall h ensures Creations(db'.audit, h) == if h in db'.invites then 1 else 0 {
      if db'.audit != db.audit {
        var entry := db'.audit[|db'.audit| - 1];
        assert db'.audit == db.audit + [entry];
        OneMoreCreation(db.audit, entry, h);
      }
    }
  }

  /** The audit log tells of each invite's creation exactly once, and of no other. */
  lemma {:induction false} CreationsAreAuditedOnce(t: Trace<Event>)
    ensures AuditedOnce(Run(t).db)
  {
    if t.Then? {
      CreationsAreAuditedOnce(t.before);
      StepAuditsOnce(Run(t.before), t.event);
    }
  }

  /**
   A compensation always finds the credential and the invite it is to undo; after it the invite is pending,
   its email is free, and until it expires an undisturbed retry with the same link succeeds.
   */
  lemma CompensationReopens(t: Trace<Event>, s: nat, now: int, c': nat, s': nat)
    requires s in Run(t).sessions && Run(t).sessions[s].stage.Compensating? && c' !in Run(t).db.credentials
    ensures var h, c := Run(t).sessions[s].invite, Run(t).sessions[s].stage.credential;
      var db := Run(Then(t, TakeBack(s, true))).db;
      && Run(t).db.ConsumedBy(h, c) && Run(t).db.Compensate(h, c) == Some(db)
      && db.HasStatus(h, Pending) && db.invites[h].consumedBy == None
          && !EmailTaken(db.credentials, db.invites[h].email)
      && (now < db.invites[h].expiresAt ==> Accepting(db, h, now, c', s', true).1 == Success(c'))
    ensures Run(Then(t, TakeBack(s, true))).sessions[s].stage == Failed(SetupFailed)
    ensures Run(Then(t, TakeBack(s, false))) == Moved(Run(t), s, Failed(DatabaseFailed))
  {
    var m := Run(t);
    var c := m.sessions[s].stage.credential;
    RunKeepsInv(t);
    assert SessionInv(m, s) && CredentialInv(m, c) && InviteInv(m, m.sessions[s].invite);
  }

  // ---------------------------------------------------------------- the undisturbed session

  /**
   All awaits of one accept up to the transaction, one after the other; steps its path does not reach change nothing.
   */
  function LookAlone(t: Trace<Event>, s: nat, h: nat): Trace<Event> {
    Then(Then(Then(Then(Then(t, Begin(s, h, ToAccept)), Read(s)), Judge(s)), Expire(s)), LookUp(s))
  }

  function AcceptAlone(t: Trace<Event>, s: nat, h: nat, c: nat, profileOk: bool): Trace<Event> {
    Then(Then(Then(LookAlone(t, s, h), Transact(s, c, true)), Provision(s, profileOk)), TakeBack(s, true))
  }

  function Ending(result: Result<nat, Error>): Stage {
    match result
    case Success(c) => Accepted(c)
    case Failure(error) => Failed(error)
  }

  /** m with other tables and session s at `stage`. */
  function Alone(m: Machine, db: Database, s: nat, h: nat, stage: Stage): Machine {
    m.(db := db, sessions := m.sessions[s := Session(h, ToAccept, stage)])
  }

  lemma TransactsAlone(m: Machine, s: nat, h: nat, c: nat)
    requires m.db.HasStatus(h, Pending)
    ensures var email := m.db.invites[h].email;
      var enrolled := m.db.Enrol(h, email, c, s);
      Step(Alone(m, m.db, s, h, Enrolling(email)), Transact(s, c, true)) ==
        if enrolled.Success? then Alone(m, enrolled.value, s, h, Provisioning(c))
        else Alone(m, m.db, s, h, Failed(DatabaseFailed))
  {
  }

  lemma ProvisionsAlone(m: Machine, db: Database, s: nat, h: nat, c: nat, profileOk: bool)
    requires c in db.credentials
    ensures Step(Step(Alone(m, db, s, h, Provisioning(c)), Provision(s, profileOk)), TakeBack(s, true)) ==
      if profileOk then Alone(m, db, s, h, Accepted(c))
      else Alone(m, db.Compensate(h, c).value, s, h, Failed(SetupFailed))
  {
    assert Step(Alone(m, db, s, h, Provisioning(c)), Provision(s, profileOk)) ==
      Alone(m, db, s, h, if profileOk then Accepted(c) else Compensating(c));
  }

  lemma EnrolsAlone(m: Machine, s: nat, h: nat, c: nat, profileOk: bool)
    requires m.db.HasStatus(h, Pending) && m.now < m.db.invites[h].expiresAt
        && !EmailTaken(m.db.credentials, m.db.invites[h].email)
    ensures var m5 := Alone(m, m.db, s, h, Enrolling(m.db.invites[h].email));
      var (db, result) := Accepting(m.db, h, m.now, c, s, profileOk);
      Step(Step(Step(m5, Transact(s, c, true)), Provision(s, profileOk)), TakeBack(s, true)) ==
        Alone(m, db, s, h, Ending(result))
  {
    var enrolled := m.db.Enrol(h, m.db.invites[h].email, c, s);
    TransactsAlone(m, s, h, c);
    if enrolled.Success? {
      CompensationUndoes(m.db, h, c, s);
      ProvisionsAlone(m, enrolled.value, s, h, c, profileOk);
    }
  }

  lemma JudgesAlone(t: Trace<Event>, s: nat, h: nat)
    requires s !in Run(t).sessions
    ensures Run(Then(Then(Then(t, Begin(s, h, ToAccept)), Read(s)), Judge(s))) ==
      Alone(Run(t), Run(t).db, s, h, Verdict(Run(t).db.FindInvite(h), ToAccept, Run(t).now))
  {
    var t2 := Then(Then(t, Begin(s, h, ToAccept)), Read(s));
    assert Run(t2) == Alone(Run(t), Run(t).db, s, h, Judging(Run(t).db.FindInvite(h)));
  }

  /** The two awaits after the verdict, of which at most one is on its path. */
  lemma ActsOnVerdict(m: Machine, s: nat, h: nat)
    ensures var m3 := Alone(m, m.db, s, h, Verdict(m.db.FindInvite(h), ToAccept, m.now));
      Step(Step(m3, Expire(s)), LookUp(s)) ==
        if !m.db.HasStatus(h, Pending) then Alone(m, m.db, s, h, Failed(InviteInvalid))
        else if m.db.invites[h].expiresAt <= m.now then Alone(m, m.db.MarkExpired(h), s, h, Failed(InviteExpired))
        else if EmailTaken(m.db.credentials, m.db.invites[h].email) then Alone(m, m.db, s, h, Failed(AccountExists))
        else Alone(m, m.db, s, h, Enrolling(m.db.invites[h].email))
  {
  }

  lemma LooksAlone(t: Trace<Event>, s: nat, h: nat)
    requires s !in Run(t).sessions
    ensures var m := Run(t);
      Run(LookAlone(t, s, h)) ==
        if !m.db.HasStatus(h, Pending) then Alone(m, m.db, s, h, Failed(InviteInvalid))
        else if m.db.invites[h].expiresAt <= m.now then Alone(m, m.db.MarkExpired(h), s, h, Failed(InviteExpired))
        else if EmailTaken(m.db.credentials, m.db.invites[h].email) then Alone(m, m.db, s, h, Failed(AccountExists))
        else Alone(m, m.db, s, h, Enrolling(m.db.invites[h].email))
  {
    var m := Run(t);
    var verdict := Verdict(m.db.FindInvite(h), ToAccept, m.now);
    var t3 := Then(Then(Then(t, Begin(s, h, ToAccept)), Read(s)), Judge(s));
    assert Run(t3) == Alone(m, m.db, s, h, verdict) by {
      JudgesAlone(t, s, h);
    }
    var t4 := Then(t3, Expire(s));
    assert Run(t4) == Step(Run(t3), Expire(s));
    assert Run(Then(t4, LookUp(s))) == Step(Run(t4), LookUp(s));
    ActsOnVerdict(m, s, h);
  }

  /** Run without interference, the interleaved accept is the method's: same tables, same outcome. */
  lemma UndisturbedAccept(t: Trace<Event>, s: nat, h: nat, c: nat, profileOk: bool)
    requires s !in Run(t).sessions
    ensures var m, m' := Run(t), Run(AcceptAlone(t, s, h, c, profileOk));
      var (db, result) := Accepting(m.db, h, m.now, c, s, profileOk);
      m'.db == db && m'.now == m.now && m'.sessions == m.sessions[s := Session(h, ToAccept, Ending(result))]
  {
    LooksAlone(t, s, h);
    var t5 := LookAlone(t, s, h);
    var t6 := Then(t5, Transact(s, c, true));
    var t7 := Then(t6, Provision(s, profileOk));
    assert Run(t6) == Step(Run(t5), Transact(s, c, true));
    assert Run(t7) == Step(Run(t6), Provision(s, profileOk));
    assert Run(Then(t7, TakeBack(s, true))) == Step(Run(t7), TakeBack(s, true));
    if Run(t5).sessions[s].stage.Enrolling? {
      EnrolsAlone(Run(t), s, h, c, profileOk);
    }
  }

  /** All awaits of one validation, one after the other; steps its path does not reach change nothing. */
  function ValidateAlone(t: Trace<Event>, s: nat, h: nat): Trace<Event> {
    Then(Then(Then(Then(t, Begin(s, h, ToValidate)), Read(s)), Judge(s)), Expire(s))
  }

  lemma ValidationJudged(t: Trace<Event>, s: nat, h: nat)
    requires s !in Run(t).sessions
    ensures var m := Run(t);
      Run(Then(Then(Then(t, Begin(s, h, ToValidate)), Read(s)), Judge(s))) ==
        m.(sessions := m.sessions[s := Session(h, ToValidate, Verdict(m.db.FindInvite(h), ToValidate, m.now))])
  {
    var m, t2 := Run(t), Then(Then(t, Begin(s, h, ToValidate)), Read(s));
    assert Run(t2) == m.(sessions := m.sessions[s := Session(h, ToValidate, Judging(m.db.FindInvite(h)))]);
  }

  lemma ActsOnValidation(m: Machine, s: nat, h: nat)
    ensures var m3 := m.(sessions :=
        m.sessions[s := Session(h, ToValidate, Verdict(m.db.FindInvite(h), ToValidate, m.now))]);
      var (db, validity) := Validating(m.db, h, m.now);
      Step(m3, Expire(s)) == m.(db := db, sessions := m.sessions[s := Session(h, ToValidate, Answered(validity))])
  {
  }

  /** Run without interference, the interleaved validation is the method's: same tables, same answer. */
  lemma UndisturbedValidate(t: Trace<Event>, s: nat, h: nat)
    requires s !in Run(t).sessions
    ensures var m, m' := Run(t), Run(ValidateAlone(t, s, h));
      var (db, validity) := Validating(m.db, h, m.now);
      m' == m.(db := db, sessions := m.sessions[s := Session(h, ToValidate, Answered(validity))])
  {
    ValidationJudged(t, s, h);
    ActsOnValidation(Run(t), s, h);
    var t3 := Then(Then(Then(t, Begin(s, h, ToValidate)), Read(s)), Judge(s));
    assert Run(Then(t3, Expire(s))) == Step(Run(t3), Expire(s));
  }
}
