/**
 Refresh tokens of auth-service: one Redis key per token family, holding the hash of the family's
 current token. A refresh reads the hash, compares, rotates by compare-and-swap, and revokes the
 family on any mismatch. Every Redis command is one atomic step; any number of clients, logouts,
 revoke-all scans and key expiries interleave between the steps.
 */
module RefreshToken {
  import opened Wrappers

  /** The Redis key `auth:refresh:<credential>:<family>`. */
  datatype Key = Key(credential: nat, family: nat)

  /** A signed token; two signings of one family differ in their serial. */
  datatype Token = Token(key: Key, serial: nat)

  /** SHA-256 of a token, taken as injective. */
  datatype Hash = HashOf(token: Token)

  type Store = map<Key, Hash>

  const REFRESH_TOKEN_TTL_MS: int := 604800000

  // ---------------------------------------------------------------- the repository

  function Find(store: Store, key: Key): Option<Hash> {
    if key in store then Some(store[key]) else None
  }

  /** The rotate script: compare, then overwrite. */
  function Rotate(store: Store, key: Key, expected: Hash, next: Token): (Store, bool) {
    if key in store && store[key] == expected then (store[key := HashOf(next)], true) else (store, false)
  }

  function KeysOf(store: Store, credential: nat): set<Key> {
    set k | k in store && k.credential == credential
  }

  datatype RefreshResult = Refreshed(next: Token) | Unauthorized

  /** What Redis holds: the hashes, and when each key expires. */
  datatype Redis = Redis(store: Store, expireAt: map<Key, int>)

  class RefreshTokens {
    var store: Store
    var expireAt: map<Key, int>

    /** Every key is set with EX. */
    ghost predicate Valid()
      reads this
    {
      expireAt.Keys == store.Keys
    }

    constructor ()
      ensures Valid() && store == map[]
    {
      store, expireAt := map[], map[];
    }

    method IssueRefreshToken(token: Token, now: int)
      requires Valid()
      modifies this
      ensures Valid()
      ensures store == old(store)[token.key := HashOf(token)]
      ensures expireAt == old(expireAt)[token.key := now + REFRESH_TOKEN_TTL_MS]
    {
      store := store[token.key := HashOf(token)];
      expireAt := expireAt[token.key := now + REFRESH_TOKEN_TTL_MS];
    }

    method FindActiveTokenHash(key: Key) returns (hash: Option<Hash>)
      ensures hash == Find(store, key)
    {
      if key !in store {
        return None;
      }
      return Some(store[key]);
    }

    method RotateRefreshToken(key: Key, expected: Hash, next: Token, now: int) returns (rotated: bool)
      requires Valid()
      modifies this
      ensures Valid()
      ensures (store, rotated) == Rotate(old(store), key, expected, next)
      ensures expireAt == if rotated then old(expireAt)[key := now + REFRESH_TOKEN_TTL_MS] else old(expireAt)
    {
      if key !in store || store[key] != expected {
        return false;
      }
      store := store[key := HashOf(next)];
      expireAt := expireAt[key := now + REFRESH_TOKEN_TTL_MS];
      return true;
    }

    method RevokeTokenFamily(key: Key)
      requires Valid()
      modifies this
      ensures Valid() && store == old(store) - {key} && expireAt == old(expireAt) - {key}
    {
      store := store - {key};
      expireAt := expireAt - {key};
    }

    /** Logout: a token that does not decode names no key. */
    method RevokeRefreshToken(decoded: Option<Key>)
      requires Valid()
      modifies this
      ensures Valid()
      ensures store == match decoded { case None => old(store) case Some(key) => old(store) - {key} }
    {
      if decoded.Some? {
        RevokeTokenFamily(decoded.value);
      }
    }

    /** The SCAN loop, undisturbed: `replies` holds what each call returns, every key present at least once. */
    method RevokeAllRefreshTokens(credential: nat, replies: seq<set<Key>>)
      requires Valid()
      requires forall i, k :: 0 <= i < |replies| && k in replies[i] ==> k.credential == credential
      requires forall k :: k in KeysOf(store, credential) ==> exists i :: 0 <= i < |replies| && k in replies[i]
      modifies this
      ensures Valid() && store == old(store) - KeysOf(old(store), credential)
    {
      var cursor := 0;
      while cursor < |replies|
        invariant 0 <= cursor <= |replies| && Valid()
        invariant forall k :: k in store ==> k in old(store) && store[k] == old(store)[k]
        invariant forall k :: k in old(store) && k.credential != credential ==> k in store
        invariant forall i, k :: 0 <= i < cursor && k in replies[i] ==> k !in store
      {
        var keys := replies[cursor];
        if keys != {} {
          store := store - keys;
          expireAt := expireAt - keys;
        }
        cursor := cursor + 1;
      }
    }

    /**
     `refreshToken`. `verified` says that the token's signature, expiry, family and role are good; `meanwhile` is what
     others leave of Redis between the read and the compare-and-swap.
     */
    method Refresh(token: Token, verified: bool, next: Token, meanwhile: Option<Redis>, now: int)
        returns (result: RefreshResult)
      requires Valid() && next.key == token.key
      requires meanwhile.Some? ==> meanwhile.value.expireAt.Keys == meanwhile.value.store.Keys
      modifies this
      ensures Valid()
      ensures !verified ==> result == Unauthorized && store == old(store) && expireAt == old(expireAt)
      ensures verified && Find(old(store), token.key) != Some(HashOf(token)) ==>
        result == Unauthorized && store == old(store) - {token.key}
      ensures verified && Find(old(store), token.key) == Some(HashOf(token)) ==>
        var present := if meanwhile.Some? then meanwhile.value.store else old(store);
        if Find(present, token.key) == Some(HashOf(token)) then
          && result == Refreshed(next) && store == present[token.key := HashOf(next)]
          && expireAt[token.key] == now + REFRESH_TOKEN_TTL_MS
        else result == Unauthorized && store == present - {token.key}
    {
      if !verified {
        return Unauthorized;
      }
      var stored := FindActiveTokenHash(token.key);
      if stored == None {
        assert store == store - {token.key};
        return Unauthorized;
      }
      if HashOf(token) != stored.value {
        RevokeTokenFamily(token.key);
        return Unauthorized;
      }
      if meanwhile.Some? {
        store, expireAt := meanwhile.value.store, meanwhile.value.expireAt;
      }
      var rotated := RotateRefreshToken(token.key, stored.value, next, now);
      if !rotated {
        RevokeTokenFamily(token.key);
        return Unauthorized;
      }
      return Refreshed(next);
    }
  }

  // ---------------------------------------------------------------- interleaved clients

  /** Where a client's refresh stands. */
  datatype Stage = Looking | Rotating(expected: Hash) | Revoking | Succeeded(next: Token) | Rejected

  datatype Client = Client(token: Token, stage: Stage)

  /**
   A revoke-all scan: the keys it must kill, those of them present ever since and not yet returned, the
   reply being deleted, and whether the cursor is back at zero.
   */
  datatype Scan = Scan(credential: nat, initial: set<Key>, unseen: set<Key>, deleting: set<Key>, last: bool)

  /** One successful exchange: by whom, and for what. */
  datatype Exchange = Exchange(client: nat, spent: Token, next: Token)

  datatype Machine = Machine(
    store: Store,
    signed: set<Token>,
    chain: map<Key, seq<Token>>,
    exchanges: map<Key, seq<Exchange>>,
    dead: set<Key>,
    clients: map<nat, Client>,
    scans: map<nat, Scan>)

  datatype Event =
    | Login(token: Token)
    | Present(client: nat, token: Token)
    | Get(client: nat)
    | Eval(client: nat, serial: nat)
    | Del(client: nat)
    | Logout(key: Key)
    | Expire(key: Key)
    | ScanStart(scan: nat, credential: nat)
    | ScanReply(scan: nat, keys: set<Key>, last: bool)
    | ScanDel(scan: nat)

  /** DEL of some keys; a scan no longer finds what is gone. */
  function Kill(m: Machine, keys: set<Key>): Machine {
    m.(store := m.store - keys,
       dead := m.dead + (keys * m.store.Keys),
       scans := map s | s in m.scans :: m.scans[s].(unseen := m.scans[s].unseen - keys))
  }

  function SetStage(m: Machine, client: nat, stage: Stage): Machine
    requires client in m.clients
  {
    m.(clients := m.clients[client := m.clients[client].(stage := stage)])
  }

  function OnGet(m: Machine, client: nat): Machine
    requires client in m.clients
  {
    var token := m.clients[client].token;
    var stored := Find(m.store, token.key);
    SetStage(m, client,
             if stored == None then Rejected
             else if HashOf(token) != stored.value then Revoking
             else Rotating(stored.value))
  }

  function OnEval(m: Machine, client: nat, expected: Hash, serial: nat): Machine
    requires client in m.clients
  {
    var token := m.clients[client].token;
    var next := Token(token.key, serial);
    var (store, rotated) := Rotate(m.store, token.key, expected, next);
    if !rotated || token.key !in m.chain || token.key !in m.exchanges then
      SetStage(m.(signed := m.signed + {next}), client, Revoking)
    else
      SetStage(m.(store := store,
                  signed := m.signed + {next},
                  chain := m.chain[token.key := m.chain[token.key] + [next]],
                  exchanges := m.exchanges[token.key := m.exchanges[token.key] + [Exchange(client, token, next)]]),
               client, Succeeded(next))
  }

  /** An event that its target is not ready for changes nothing. */
  function Step(m: Machine, e: Event): Machine {
    match e
    case Login(token) =>
      m.(store := m.store[token.key := HashOf(token)],
         signed := m.signed + {token},
         chain := m.chain[token.key := [token]],
         exchanges := m.exchanges[token.key := []])
    case Present(c, token) => if c in m.clients then m else m.(clients := m.clients[c := Client(token, Looking)])
    case Get(c) => if c in m.clients && m.clients[c].stage.Looking? then OnGet(m, c) else m
    case Eval(c, serial) =>
      if c in m.clients && m.clients[c].stage.Rotating? then OnEval(m, c, m.clients[c].stage.expected, serial) else m
    case Del(c) =>
      if c in m.clients && m.clients[c].stage.Revoking? then
        SetStage(Kill(m, {m.clients[c].token.key}), c, Rejected)
      else m
    case Logout(key) => Kill(m, {key})
    case Expire(key) => Kill(m, {key})
    case ScanStart(s, credential) =>
      if s in m.scans then m
      else
        var keys := KeysOf(m.store, credential);
        m.(scans := m.scans[s := Scan(credential, keys, keys, {}, false)])
    case ScanReply(s, keys, last) =>
      if s !in m.scans || m.scans[s].last || m.scans[s].deleting != {} then m
      else m.(scans := m.scans[s := m.scans[s].(unseen := m.scans[s].unseen - keys, deleting := keys, last := last)])
    case ScanDel(s) =>
      if s !in m.scans then m
      else
        var m' := Kill(m, m.scans[s].deleting);
        m'.(scans := m'.scans[s := m'.scans[s].(deleting := {})])
  }

  function Run(t: Trace<Event>): Machine {
    match t
    case Start => Machine(map[], {}, map[], map[], {}, map[], map[])
    case Then(before, e) => Step(Run(before), e)
  }

  /**
   What is taken for granted: a login opens a family never used before, tokens are signed once, clients
   present signed tokens, and a full SCAN returns every key that was there throughout.
   */
  ghost predicate Allowed(m: Machine, e: Event) {
    match e
    case Login(token) => token.key !in m.chain && token !in m.signed
    case Present(_, token) => token in m.signed
    case Eval(c, serial) => c in m.clients ==> Token(m.clients[c].token.key, serial) !in m.signed
    case ScanReply(s, keys, last) =>
      s in m.scans ==>
        (forall k :: k in keys ==> k.credential == m.scans[s].credential) && (last ==> m.scans[s].unseen <= keys)
    case _ => true
  }

  ghost predicate ValidRun(t: Trace<Event>) {
    t.Then? ==> ValidRun(t.before) && Allowed(Run(t.before), t.event)
  }

  // ---------------------------------------------------------------- the invariant

  /** The last token issued for a family. */
  function Current(m: Machine, key: Key): Token
    requires key in m.chain && m.chain[key] != []
  {
    m.chain[key][|m.chain[key]| - 1]
  }

  ghost predicate ChainInv(m: Machine, k: Key)
    requires k in m.chain && k in m.exchanges
  {
    var chain, done := m.chain[k], m.exchanges[k];
    && |chain| == |done| + 1
    && (forall i :: 0 <= i < |chain| ==> chain[i].key == k && chain[i] in m.signed)
    && (forall i, j :: 0 <= i < j < |chain| ==> chain[i] != chain[j])
    && (forall i :: 0 <= i < |done| ==> done[i].spent == chain[i] && done[i].next == chain[i + 1])
    && (k in m.store ==> m.store[k] == HashOf(chain[|chain| - 1]))
    && (k in m.store <==> k !in m.dead)
  }

  ghost predicate StoreInv(m: Machine) {
    && m.exchanges.Keys == m.chain.Keys
    && m.store.Keys <= m.chain.Keys
    && m.dead <= m.chain.Keys
    && (forall token :: token in m.signed ==> token.key in m.chain)
    && (forall k :: k in m.chain ==> ChainInv(m, k))
  }

  ghost predicate ClientInv(m: Machine, c: nat)
    requires c in m.clients && m.exchanges.Keys == m.chain.Keys
  {
    var client := m.clients[c];
    && client.token in m.signed
    && client.token.key in m.chain
    && match client.stage
       case Rotating(expected) => expected == HashOf(client.token)
       case Succeeded(next) => Exchange(c, client.token, next) in m.exchanges[client.token.key]
       case Rejected => client.token.key in m.dead
       case _ => true
  }

  ghost predicate ScanInv(m: Machine, s: nat)
    requires s in m.scans
  {
    var scan := m.scans[s];
    && scan.unseen <= m.store.Keys
    && (forall k :: k in scan.initial ==> k in m.chain && (k in m.dead || k in scan.unseen || k in scan.deleting))
    && (scan.last ==> scan.unseen == {})
  }

  ghost predicate Inv(m: Machine) {
    && StoreInv(m)
    && (forall c :: c in m.clients ==> ClientInv(m, c))
    && (forall s :: s in m.scans ==> ScanInv(m, s))
  }

  /** The families look the same from m to m'. */
  ghost predicate SameFamilies(m: Machine, m': Machine) {
    m'.store == m.store && m'.signed == m.signed && m'.chain == m.chain && m'.exchanges == m.exchanges
      && m'.dead == m.dead
  }

  lemma SameStore(m: Machine, m': Machine)
    requires StoreInv(m) && SameFamilies(m, m')
    ensures StoreInv(m')
  {
    forall k | k in m'.chain ensures ChainInv(m', k) {
      assert ChainInv(m, k);
    }
  }

  /** One client moves, or arrives; families and scans stay. */
  lemma ClientMoves(m: Machine, m': Machine, c: nat)
    requires Inv(m) && SameFamilies(m, m') && m'.scans == m.scans
    requires c in m'.clients && m'.clients == m.clients[c := m'.clients[c]]
    requires m'.exchanges.Keys == m'.chain.Keys && ClientInv(m', c)
    ensures Inv(m')
  {
    SameStore(m, m');
    forall d | d in m'.clients ensures ClientInv(m', d) {
      if d != c {
        assert ClientInv(m, d);
      }
    }
    forall s | s in m'.scans ensures ScanInv(m', s) {
      assert ScanInv(m, s);
    }
  }

  /** One scan moves, or starts; families and clients stay. */
  lemma ScanMoves(m: Machine, m': Machine, s: nat)
    requires Inv(m) && SameFamilies(m, m') && m'.clients == m.clients
    requires s in m'.scans && m'.scans == m.scans[s := m'.scans[s]] && ScanInv(m', s)
    ensures Inv(m')
  {
    SameStore(m, m');
    forall d | d in m'.clients ensures ClientInv(m', d) {
      assert ClientInv(m, d);
    }
    forall r | r in m'.scans ensures ScanInv(m', r) {
      if r != s {
        assert ScanInv(m, r);
      }
    }
  }

  lemma KillKeepsInv(m: Machine, keys: set<Key>)
    requires Inv(m)
    ensures Inv(Kill(m, keys))
    ensures forall k :: k in keys && k in m.chain ==> k in Kill(m, keys).dead
  {
    var m' := Kill(m, keys);
    forall k | k in m'.chain ensures ChainInv(m', k) && (k in keys ==> k in m'.dead) {
      assert ChainInv(m, k);
    }
    forall c | c in m'.clients ensures ClientInv(m', c) {
      assert ClientInv(m, c);
    }
    forall s | s in m'.scans ensures ScanInv(m', s) {
      assert ScanInv(m, s);
    }
  }

  /** Families only grow: more signings, more exchanges, the same keys alive. */
  ghost predicate Grows(m: Machine, m': Machine) {
    && m'.exchanges.Keys == m'.chain.Keys && m.signed <= m'.signed && m.chain.Keys <= m'.chain.Keys
    && m.dead <= m'.dead && m.store.Keys <= m'.store.Keys && m'.scans == m.scans
    && forall k, x :: k in m.exchanges && x in m.exchanges[k] ==> k in m'.exchanges && x in m'.exchanges[k]
  }

  lemma ClientKept(m: Machine, m': Machine, c: nat)
    requires m.exchanges.Keys == m.chain.Keys && Grows(m, m')
    requires c in m.clients && ClientInv(m, c) && c in m'.clients && m'.clients[c] == m.clients[c]
    ensures ClientInv(m', c)
  {
  }

  /** Growth leaves the invariant intact, whichever client c it comes from. */
  lemma GrowthKeepsInv(m: Machine, m': Machine, c: nat)
    requires Inv(m) && StoreInv(m') && Grows(m, m')
    requires m'.clients == m.clients
        || (c in m'.clients && ClientInv(m', c) && m'.clients == m.clients[c := m'.clients[c]])
    ensures Inv(m')
  {
    forall d | d in m'.clients ensures ClientInv(m', d) {
      if m'.clients == m.clients || d != c {
        ClientKept(m, m', d);
      }
    }
    forall s | s in m'.scans ensures ScanInv(m', s) {
      assert ScanInv(m, s);
    }
  }

  lemma ChainUntouched(m: Machine, m': Machine, k: Key)
    requires k in m.chain && k in m.exchanges && ChainInv(m, k) && m.signed <= m'.signed
    requires k in m'.chain && m'.chain[k] == m.chain[k] && k in m'.exchanges && m'.exchanges[k] == m.exchanges[k]
    requires Find(m'.store, k) == Find(m.store, k) && (k in m'.dead <==> k in m.dead)
    ensures ChainInv(m', k)
  {
    assert k in m.store ==> m'.store[k] == m.store[k];
  }

  lemma LoginKeepsChains(m: Machine, token: Token)
    requires StoreInv(m) && Allowed(m, Login(token))
    ensures StoreInv(Step(m, Login(token)))
  {
    var m' := Step(m, Login(token));
    assert ChainInv(m', token.key);
    forall k | k in m.chain ensures ChainInv(m', k) {
      ChainUntouched(m, m', k);
    }
  }

  lemma LoginKeepsInv(m: Machine, token: Token)
    requires Inv(m) && Allowed(m, Login(token))
    ensures Inv(Step(m, Login(token)))
  {
    LoginKeepsChains(m, token);
    GrowthKeepsInv(m, Step(m, Login(token)), 0);
  }

  lemma GetKeepsInv(m: Machine, c: nat)
    requires Inv(m) && c in m.clients && m.clients[c].stage.Looking?
    ensures Inv(OnGet(m, c))
  {
    assert ClientInv(OnGet(m, c), c) by {
      assert ClientInv(m, c) && ChainInv(m, m.clients[c].token.key);
    }
    ClientMoves(m, OnGet(m, c), c);
  }

  /** What a successful rotation finds and leaves. */
  lemma RotationMeaning(m: Machine, c: nat, serial: nat)
    requires Inv(m) && c in m.clients && m.clients[c].stage.Rotating? && Allowed(m, Eval(c, serial))
    ensures var token := m.clients[c].token;
      var next, m' := Token(token.key, serial), OnEval(m, c, m.clients[c].stage.expected, serial);
      && token.key in m.chain && m.chain[token.key] != []
      && m' == if token.key !in m.dead && token == Current(m, token.key)
               then m.(store := m.store[token.key := HashOf(next)],
                       signed := m.signed + {next},
                       chain := m.chain[token.key := m.chain[token.key] + [next]],
                       exchanges := m.exchanges[token.key := m.exchanges[token.key] + [Exchange(c, token, next)]],
                       clients := m.clients[c := Client(token, Succeeded(next))])
               else m.(signed := m.signed + {next}, clients := m.clients[c := Client(token, Revoking)])
  {
    assert ClientInv(m, c) && ChainInv(m, m.clients[c].token.key);
  }

  /** The machine after client c's token was rotated into `next`. */
  ghost function Linked(m: Machine, c: nat, next: Token): Machine
    requires c in m.clients && m.clients[c].token.key in m.chain && m.clients[c].token.key in m.exchanges
  {
    var token := m.clients[c].token;
    m.(store := m.store[token.key := HashOf(next)],
       signed := m.signed + {next},
       chain := m.chain[token.key := m.chain[token.key] + [next]],
       exchanges := m.exchanges[token.key := m.exchanges[token.key] + [Exchange(c, token, next)]],
       clients := m.clients[c := Client(token, Succeeded(next))])
  }

  /** A successful rotation adds one link to the family's chain. */
  lemma LinkKeepsChain(m: Machine, c: nat, next: Token)
    requires c in m.clients && m.clients[c].token.key in m.chain && m.clients[c].token.key in m.exchanges
    requires ChainInv(m, m.clients[c].token.key)
    requires next.key == m.clients[c].token.key && next !in m.signed && next.key !in m.dead
    requires m.chain[next.key] != [] && m.clients[c].token == Current(m, next.key)
    ensures ChainInv(Linked(m, c, next), next.key)
  {
    assert ChainInv(m, next.key);
  }

  lemma LinkKeepsStore(m: Machine, c: nat, next: Token)
    requires StoreInv(m) && c in m.clients && m.clients[c].token.key == next.key && next.key in m.chain
    requires ChainInv(Linked(m, c, next), next.key) && next.key !in m.dead
    ensures StoreInv(Linked(m, c, next))
  {
    var m' := Linked(m, c, next);
    forall k | k in m.chain && k != next.key ensures ChainInv(m', k) {
      ChainUntouched(m, m', k);
    }
  }

  lemma LinkGrows(m: Machine, c: nat, next: Token)
    requires m.exchanges.Keys == m.chain.Keys && m.store.Keys <= m.chain.Keys
    requires c in m.clients && m.clients[c].token.key == next.key && next.key in m.chain
    ensures Grows(m, Linked(m, c, next))
    ensures m.clients[c].token in m.signed ==> ClientInv(Linked(m, c, next), c)
  {
    var done := m.exchanges[next.key];
    var x := Exchange(c, m.clients[c].token, next);
    assert (done + [x])[|done|] == x;
  }

  lemma LinkKeepsInv(m: Machine, c: nat, next: Token)
    requires Inv(m) && c in m.clients && m.clients[c].token.key in m.chain && m.clients[c].token.key in m.exchanges
    requires next.key == m.clients[c].token.key && next !in m.signed && next.key !in m.dead
    requires m.chain[next.key] != [] && m.clients[c].token == Current(m, next.key)
    ensures Inv(Linked(m, c, next))
  {
    assert ChainInv(m, next.key);
    LinkKeepsChain(m, c, next);
    LinkKeepsStore(m, c, next);
    LinkGrows(m, c, next);
    assert m.clients[c].token in m.signed by { assert ClientInv(m, c); }
    GrowthKeepsInv(m, Linked(m, c, next), c);
  }

  /** A signing that leads to no exchange changes nothing for the families. */
  ghost function Lost(m: Machine, c: nat, next: Token): Machine
    requires c in m.clients
  {
    m.(signed := m.signed + {next}, clients := m.clients[c := Client(m.clients[c].token, Revoking)])
  }

  lemma LosingKeepsStore(m: Machine, c: nat, next: Token)
    requires StoreInv(m) && c in m.clients && next.key in m.chain
    ensures StoreInv(Lost(m, c, next)) && Grows(m, Lost(m, c, next))
  {
    forall k | k in m.chain ensures ChainInv(Lost(m, c, next), k) {
      ChainUntouched(m, Lost(m, c, next), k);
    }
  }

  lemma LosingKeepsInv(m: Machine, c: nat, next: Token)
    requires Inv(m) && c in m.clients && next.key in m.chain
    ensures Inv(Lost(m, c, next))
  {
    assert StoreInv(Lost(m, c, next)) && Grows(m, Lost(m, c, next)) by {
      LosingKeepsStore(m, c, next);
    }
    assert ClientInv(Lost(m, c, next), c) by {
      assert ClientInv(m, c);
    }
    GrowthKeepsInv(m, Lost(m, c, next), c);
  }

  lemma EvalKeepsInv(m: Machine, c: nat, serial: nat)
    requires Inv(m) && c in m.clients && m.clients[c].stage.Rotating? && Allowed(m, Eval(c, serial))
    ensures Inv(OnEval(m, c, m.clients[c].stage.expected, serial))
  {
    var token := m.clients[c].token;
    RotationMeaning(m, c, serial);
    if token.key !in m.dead && token == Current(m, token.key) {
      LinkKeepsInv(m, c, Token(token.key, serial));
    } else {
      LosingKeepsInv(m, c, Token(token.key, serial));
    }
  }

  lemma ScanStartKeepsInv(m: Machine, s: nat, credential: nat)
    requires Inv(m)
    ensures Inv(Step(m, ScanStart(s, credential)))
  {
    if s !in m.scans {
      ScanMoves(m, Step(m, ScanStart(s, credential)), s);
    }
  }

  lemma ScanReplyKeepsInv(m: Machine, s: nat, keys: set<Key>, last: bool)
    requires Inv(m) && Allowed(m, ScanReply(s, keys, last))
    ensures Inv(Step(m, ScanReply(s, keys, last)))
  {
    if s in m.scans {
      assert ScanInv(m, s);
      ScanMoves(m, Step(m, ScanReply(s, keys, last)), s);
    }
  }

  /** Once its reply is deleted, what the scan returned is dead. */
  lemma ScanDelKeepsInv(m: Machine, s: nat)
    requires Inv(m) && s in m.scans
    ensures Inv(Step(m, ScanDel(s)))
  {
    var keys := m.scans[s].deleting;
    var killed := Kill(m, keys);
    KillKeepsInv(m, keys);
    assert ScanInv(killed, s);
    ScanMoves(killed, Step(m, ScanDel(s)), s);
  }

  lemma RejectedKeepsInv(m: Machine, c: nat)
    requires Inv(m) && c in m.clients && m.clients[c].token.key in m.dead
    ensures Inv(SetStage(m, c, Rejected))
  {
    assert ClientInv(m, c);
    ClientMoves(m, SetStage(m, c, Rejected), c);
  }

  lemma DelKeepsInv(m: Machine, c: nat)
    requires Inv(m) && c in m.clients && m.clients[c].stage.Revoking?
    ensures Inv(SetStage(Kill(m, {m.clients[c].token.key}), c, Rejected))
  {
    var key := m.clients[c].token.key;
    var killed := Kill(m, {key});
    assert Inv(killed) && key in killed.dead by {
      assert ClientInv(m, c);
      KillKeepsInv(m, {key});
    }
    RejectedKeepsInv(killed, c);
  }

  lemma ClientStepKeepsInv(m: Machine, e: Event)
    requires Inv(m) && Allowed(m, e) && (e.Get? || e.Eval? || e.Del?)
    ensures Inv(Step(m, e))
  {
    match e {
      case Get(c) =>
        if c in m.clients && m.clients[c].stage.Looking? {
          GetKeepsInv(m, c);
        }
      case Eval(c, serial) =>
        if c in m.clients && m.clients[c].stage.Rotating? {
          EvalKeepsInv(m, c, serial);
        }
      case Del(c) =>
        if c in m.clients && m.clients[c].stage.Revoking? {
          DelKeepsInv(m, c);
        }
    }
  }

  lemma ScanStepKeepsInv(m: Machine, e: Event)
    requires Inv(m) && Allowed(m, e) && (e.ScanStart? || e.ScanReply? || e.ScanDel?)
    ensures Inv(Step(m, e))
  {
    match e {
      case ScanStart(s, credential) => ScanStartKeepsInv(m, s, credential);
      case ScanReply(s, keys, last) => ScanReplyKeepsInv(m, s, keys, last);
      case ScanDel(s) =>
        if s in m.scans {
          ScanDelKeepsInv(m, s);
        }
    }
  }

  lemma PresentKeepsInv(m: Machine, c: nat, token: Token)
    requires Inv(m) && token in m.signed
    ensures Inv(Step(m, Present(c, token)))
  {
    if c !in m.clients {
      ClientMoves(m, Step(m, Present(c, token)), c);
    }
  }

  lemma StepKeepsInv(m: Machine, e: Event)
    requires Inv(m) && Allowed(m, e)
    ensures Inv(Step(m, e))
  {
    if e.Login? {
      LoginKeepsInv(m, e.token);
    } else if e.Present? {
      PresentKeepsInv(m, e.client, e.token);
    } else if e.Logout? || e.Expire? {
      KillKeepsInv(m, {e.key});
    } else if e.Get? || e.Eval? || e.Del? {
      ClientStepKeepsInv(m, e);
    } else {
      ScanStepKeepsInv(m, e);
    }
  }

  lemma {:induction false} RunKeepsInv(t: Trace<Event>)
    requires ValidRun(t)
    ensures Inv(Run(t))
  {
    if t.Then? {
      RunKeepsInv(t.before);
      StepKeepsInv(Run(t.before), t.event);
    }
  }

  // ---------------------------------------------------------------- rotation safety

  lemma LinksDiffer(m: Machine, key: Key, i: nat, j: nat)
    requires key in m.chain && key in m.exchanges && ChainInv(m, key) && i < |m.exchanges[key]|
        && j < |m.exchanges[key]|
    ensures m.exchanges[key][i].spent == m.exchanges[key][j].spent <==> i == j
    ensures m.exchanges[key][i].next == m.exchanges[key][j].next <==> i == j
    ensures m.exchanges[key][i].next == m.exchanges[key][j].spent ==> i + 1 == j
  {
    var chain := m.chain[key];
    assert chain[i] == m.exchanges[key][i].spent && chain[j] == m.exchanges[key][j].spent;
    assert chain[i + 1] == m.exchanges[key][i].next && chain[j + 1] == m.exchanges[key][j].next;
  }

  /**
   Two exchanges of one family never spend the same token: the k-th spends the k-th token issued and issues the next.
   */
  lemma ExchangedAtMostOnce(t: Trace<Event>, key: Key, i: nat, j: nat)
    requires ValidRun(t) && key in Run(t).exchanges && i < j < |Run(t).exchanges[key]|
    ensures Run(t).exchanges[key][i].spent != Run(t).exchanges[key][j].spent
    ensures Run(t).exchanges[key][i].next != Run(t).exchanges[key][j].next
  {
    RunKeepsInv(t);
    LinksDiffer(Run(t), key, i, j);
  }

  lemma WinnersDiffer(m: Machine, c: nat, d: nat)
    requires Inv(m) && c in m.clients && d in m.clients && m.clients[c].token == m.clients[d].token
    requires m.clients[c].stage.Succeeded? && m.clients[d].stage.Succeeded?
    ensures c == d && m.clients[c].token != m.clients[c].stage.next
  {
    var key := m.clients[c].token.key;
    assert ClientInv(m, c) && ClientInv(m, d) && ChainInv(m, key);
    var i :| 0 <= i < |m.exchanges[key]|
        && m.exchanges[key][i] == Exchange(c, m.clients[c].token, m.clients[c].stage.next);
    var j :| 0 <= j < |m.exchanges[key]|
        && m.exchanges[key][j] == Exchange(d, m.clients[d].token, m.clients[d].stage.next);
    LinksDiffer(m, key, i, j);
    LinksDiffer(m, key, i, i);
  }

  /** No two refreshes succeed with the same token, however their steps interleave. */
  lemma OneWinnerPerToken(t: Trace<Event>, c: nat, d: nat)
    requires ValidRun(t) && c in Run(t).clients && d in Run(t).clients
    requires Run(t).clients[c].stage.Succeeded? && Run(t).clients[d].stage.Succeeded?
    requires Run(t).clients[c].token == Run(t).clients[d].token
    ensures c == d && Run(t).clients[c].token != Run(t).clients[c].stage.next
  {
    RunKeepsInv(t);
    WinnersDiffer(Run(t), c, d);
  }

  /** A live family accepts its last issued token and no other; a dead one accepts none. */
  lemma OnlyTheLastIssuedIsAcceptable(t: Trace<Event>, c: nat)
    requires ValidRun(t) && c in Run(t).clients && Run(t).clients[c].stage.Looking?
    ensures var m, token := Run(t), Run(t).clients[c].token;
      && token.key in m.chain && m.chain[token.key] != []
      && (Run(Then(t, Get(c))).clients[c].stage.Rotating? <==> token.key !in m.dead && token == Current(m, token.key))
      && (Run(Then(t, Get(c))).clients[c].stage.Rejected? <==> token.key in m.dead)
  {
    RunKeepsInv(t);
    assert ClientInv(Run(t), c) && ChainInv(Run(t), Run(t).clients[c].token.key);
  }

  /** The compare-and-swap goes through exactly if the token is still the last issued of a live family. */
  lemma RotatesExactlyTheCurrent(t: Trace<Event>, c: nat, serial: nat)
    requires ValidRun(Then(t, Eval(c, serial))) && c in Run(t).clients && Run(t).clients[c].stage.Rotating?
    ensures var m, m', token := Run(t), Run(Then(t, Eval(c, serial))), Run(t).clients[c].token;
      && token.key in m.chain && m.chain[token.key] != []
      && (m'.clients[c].stage.Succeeded? <==> token.key !in m.dead && token == Current(m, token.key))
      && (m'.clients[c].stage.Succeeded? ==>
            && m'.clients[c].stage.next == Token(token.key, serial)
            && m'.chain == m.chain[token.key := m.chain[token.key] + [Token(token.key, serial)]])
      && (!m'.clients[c].stage.Succeeded? ==>
          m'.clients[c].stage.Revoking? && m'.store == m.store && m'.chain == m.chain)
  {
    RunKeepsInv(t);
    assert ClientInv(Run(t), c) && ChainInv(Run(t), Run(t).clients[c].token.key);
  }

  // ---------------------------------------------------------------- revocation is permanent

  lemma DeadStaysDead(m: Machine, e: Event, key: Key)
    requires Inv(m) && Allowed(m, e) && key in m.dead
    ensures key in Step(m, e).dead && key in Step(m, e).exchanges && Step(m, e).exchanges[key] == m.exchanges[key]
  {
    if e.Eval? && e.client in m.clients && m.clients[e.client].stage.Rotating? {
      RotationMeaning(m, e.client, e.serial);
    }
  }

  /** A deleted or expired family never comes back, and no rotation, not even one in flight, exchanges in it again. */
  lemma {:induction false} RevocationIsPermanent(t: Trace<Event>, t': Trace<Event>, key: Key)
    requires ValidRun(t') && Continues(t, t') && key in Run(t).dead
    ensures key in Run(t').dead && key !in Run(t').store && key in Run(t').exchanges
    ensures key in Run(t).exchanges && Run(t').exchanges[key] == Run(t).exchanges[key]
  {
    RunKeepsInv(t');
    if t' != t {
      RevocationIsPermanent(t, t'.before, key);
      RunKeepsInv(t'.before);
      DeadStaysDead(Run(t'.before), t'.event, key);
    }
    assert ChainInv(Run(t'), key);
  }

  /** Logout kills: the family of any key ever used is dead afterwards, and so is that of every rejected client. */
  lemma LogoutAndRejectionKill(t: Trace<Event>, key: Key, c: nat)
    requires ValidRun(t) && key in Run(t).chain
    ensures key in Run(Then(t, Logout(key))).dead
    ensures c in Run(t).clients && Run(t).clients[c].stage.Rejected? ==> Run(t).clients[c].token.key in Run(t).dead
  {
    RunKeepsInv(t);
    assert ChainInv(Run(t), key);
    if c in Run(t).clients {
      assert ClientInv(Run(t), c);
    }
  }

  /**
   Reuse: a client whose token is already spent, or whose family is dead, when it looks is on its way to rejection.
   */
  ghost predicate Doomed(m: Machine, c: nat) {
    && c in m.clients && m.clients[c].token.key in m.chain && m.chain[m.clients[c].token.key] != []
    && (m.clients[c].stage.Revoking? || m.clients[c].stage.Rejected?
        || (!m.clients[c].stage.Succeeded?
            && (m.clients[c].token.key in m.dead || m.clients[c].token != Current(m, m.clients[c].token.key))))
  }

  /** A client keeps its token, and a dead family stays dead; only the client's own steps move its stage. */
  lemma OtherStepsLeaveClient(m: Machine, e: Event, c: nat)
    requires c in m.clients && !(e.Get? && e.client == c) && !(e.Eval? && e.client == c) && !(e.Del? && e.client == c)
    ensures c in Step(m, e).clients && Step(m, e).clients[c] == m.clients[c] && m.dead <= Step(m, e).dead
  {
  }

  lemma OnlySwapsExtend(m: Machine, e: Event, key: Key)
    requires Allowed(m, e) && key in m.chain
        && !(e.Eval? && e.client in m.clients && m.clients[e.client].stage.Rotating?)
    ensures key in Step(m, e).chain && Step(m, e).chain[key] == m.chain[key]
  {
  }

  /** A token that is not a family's last stays so. */
  lemma SpentStaysSpent(m: Machine, e: Event, token: Token)
    requires Inv(m) && Allowed(m, e) && token in m.signed && token.key in m.chain && m.chain[token.key] != []
    requires token != Current(m, token.key)
    ensures token.key in Step(m, e).chain && Step(m, e).chain[token.key] != []
        && token != Current(Step(m, e), token.key)
  {
    if e.Eval? && e.client in m.clients && m.clients[e.client].stage.Rotating? {
      RotationMeaning(m, e.client, e.serial);
    } else {
      OnlySwapsExtend(m, e, token.key);
    }
  }

  lemma ChainsRemain(m: Machine, e: Event, key: Key)
    requires key in m.chain && m.chain[key] != []
    ensures key in Step(m, e).chain && Step(m, e).chain[key] != []
  {
  }

  lemma DoomedClientFails(m: Machine, e: Event, c: nat)
    requires Inv(m) && Allowed(m, e) && Doomed(m, c) && (e.Get? || e.Eval? || e.Del?) && e.client == c
    ensures var m', client := Step(m, e), m.clients[c];
      && c in m'.clients && m'.clients[c].token == client.token && m.dead <= m'.dead
      && (m'.clients[c].stage.Revoking? || m'.clients[c].stage.Rejected? || m'.clients[c].stage == client.stage)
  {
    assert ClientInv(m, c) && ChainInv(m, m.clients[c].token.key);
    if e.Eval? && m.clients[c].stage.Rotating? {
      RotationMeaning(m, c, e.serial);
    }
  }

  lemma DoomedStepStaysDoomed(m: Machine, e: Event, c: nat)
    requires Inv(m) && Allowed(m, e) && Doomed(m, c)
    ensures Doomed(Step(m, e), c)
  {
    var token := m.clients[c].token;
    assert ClientInv(m, c);
    ChainsRemain(m, e, token.key);
    if token != Current(m, token.key) {
      SpentStaysSpent(m, e, token);
    }
    if (e.Get? || e.Eval? || e.Del?) && e.client == c {
      DoomedClientFails(m, e, c);
    } else {
      OtherStepsLeaveClient(m, e, c);
    }
  }

  /**
   Token reuse, whole protocol: a refresh with a token that has already been exchanged never succeeds, and
   when it ends its family is dead for good. The same goes for the loser of a race, once it has lost.
   */
  lemma {:induction false} ReuseKillsTheFamily(t: Trace<Event>, t': Trace<Event>, c: nat)
    requires ValidRun(t') && Continues(t, t') && Doomed(Run(t), c)
    ensures c in Run(t').clients && !Run(t').clients[c].stage.Succeeded?
    ensures Doomed(Run(t'), c)
    ensures Run(t').clients[c].stage.Rejected? ==> Run(t').clients[c].token.key in Run(t').dead
  {
    RunKeepsInv(t');
    if t' != t {
      ReuseKillsTheFamily(t, t'.before, c);
      RunKeepsInv(t'.before);
      DoomedStepStaysDoomed(Run(t'.before), t'.event, c);
    }
    assert ClientInv(Run(t'), c);
  }

  // ---------------------------------------------------------------- the undisturbed refresh

  /** All awaits of one refresh, one after the other; steps its path does not reach change nothing. */
  function RefreshAlone(t: Trace<Event>, c: nat, token: Token, serial: nat): Trace<Event> {
    Then(Then(Then(Then(t, Present(c, token)), Get(c)), Eval(c, serial)), Del(c))
  }

  function Looked(m: Machine, token: Token): Stage {
    if token.key !in m.store then Rejected
    else if m.store[token.key] != HashOf(token) then Revoking
    else Rotating(HashOf(token))
  }

  lemma Looks(m: Machine, c: nat)
    requires c in m.clients && m.clients[c].stage.Looking?
    ensures Step(m, Get(c)) == SetStage(m, c, Looked(m, m.clients[c].token))
  {
  }

  lemma LooksAlone(t: Trace<Event>, c: nat, token: Token)
    requires c !in Run(t).clients
    ensures var m := Run(t);
      Run(Then(Then(t, Present(c, token)), Get(c))) == m.(clients := m.clients[c := Client(token, Looked(m, token))])
  {
    var m1 := Run(Then(t, Present(c, token)));
    assert m1 == Run(t).(clients := Run(t).clients[c := Client(token, Looking)]);
    Looks(m1, c);
    assert Run(Then(Then(t, Present(c, token)), Get(c))) == Step(m1, Get(c));
  }

  lemma RotatesAlone(m: Machine, c: nat, serial: nat)
    requires Inv(m) && Allowed(m, Eval(c, serial)) && c in m.clients && m.clients[c].stage.Rotating?
    requires Find(m.store, m.clients[c].token.key) == Some(HashOf(m.clients[c].token))
    ensures var m', token := Step(m, Eval(c, serial)), m.clients[c].token;
      var next := Token(token.key, serial);
      && c in m'.clients && m'.clients[c] == Client(token, Succeeded(next))
          && m'.store == m.store[token.key := HashOf(next)]
  {
    RotationMeaning(m, c, serial);
    assert ChainInv(m, m.clients[c].token.key);
  }

  /** Run without interference, the four steps leave the store and the answer of the method. */
  lemma UndisturbedRefresh(t: Trace<Event>, c: nat, token: Token, serial: nat)
    requires ValidRun(RefreshAlone(t, c, token, serial)) && c !in Run(t).clients
    ensures var m, m', next := Run(t), Run(RefreshAlone(t, c, token, serial)), Token(token.key, serial);
      && c in m'.clients && m'.clients[c].token == token
      && (if Find(m.store, token.key) == Some(HashOf(token))
          then m'.clients[c].stage == Succeeded(next) && m'.store == m.store[token.key := HashOf(next)]
          else m'.clients[c].stage == Rejected && m'.store == m.store - {token.key})
  {
    var t2 := Then(Then(t, Present(c, token)), Get(c));
    var t3 := Then(t2, Eval(c, serial));
    LooksAlone(t, c, token);
    assert Run(t3) == Step(Run(t2), Eval(c, serial));
    assert Run(Then(t3, Del(c))) == Step(Run(t3), Del(c));
    if Run(t2).clients[c].stage.Rotating? {
      RunKeepsInv(t2);
      RotatesAlone(Run(t2), c, serial);
    }
  }

  // ---------------------------------------------------------------- revoke-all

  lemma ScanKeepsItsAim(m: Machine, e: Event, s: nat)
    requires s in m.scans
    ensures s in Step(m, e).scans && Step(m, e).scans[s].initial == m.scans[s].initial
  {
  }

  lemma FinishedScanKilled(m: Machine, s: nat)
    requires Inv(m) && s in m.scans && m.scans[s].last && m.scans[s].deleting == {}
    ensures forall key :: key in m.scans[s].initial ==> key in m.dead && key !in m.store
  {
    assert ScanInv(m, s);
    forall key | key in m.scans[s].initial ensures key in m.dead && key !in m.store {
      assert ChainInv(m, key);
    }
  }

  /** When a scan's loop ends, every family of the credential that existed when it began is dead. */
  lemma {:induction false} ScanKillsAllItFound(t: Trace<Event>, s: nat, credential: nat, t': Trace<Event>)
    requires ValidRun(t') && s !in Run(t).scans && Continues(Then(t, ScanStart(s, credential)), t')
    ensures s in Run(t').scans && Run(t').scans[s].initial == KeysOf(Run(t).store, credential)
    ensures Run(t').scans[s].last && Run(t').scans[s].deleting == {} ==>
      forall key :: key in Run(t).store && key.credential == credential ==> key in Run(t').dead && key !in Run(t').store
  {
    RunKeepsInv(t');
    if t' != Then(t, ScanStart(s, credential)) {
      ScanKillsAllItFound(t, s, credential, t'.before);
      ScanKeepsItsAim(Run(t'.before), t'.event, s);
    }
    if Run(t').scans[s].last && Run(t').scans[s].deleting == {} {
      FinishedScanKilled(Run(t'), s);
    }
  }

  /** The first n replies of a SCAN loop, each deleted before the next is asked for. */
  function ScanPages(t: Trace<Event>, s: nat, replies: seq<set<Key>>, n: nat): Trace<Event>
    requires n <= |replies|
  {
    if n == 0 then t
    else Then(Then(ScanPages(t, s, replies, n - 1), ScanReply(s, replies[n - 1], n == |replies|)), ScanDel(s))
  }

  function Seen(replies: seq<set<Key>>, n: nat): set<Key>
    requires n <= |replies|
  {
    if n == 0 then {} else Seen(replies, n - 1) + replies[n - 1]
  }

  lemma {:induction false} SeenMembers(replies: seq<set<Key>>, n: nat, k: Key)
    requires n <= |replies|
    ensures k in Seen(replies, n) <==> exists i :: 0 <= i < n && k in replies[i]
  {
    if n != 0 {
      SeenMembers(replies, n - 1, k);
    }
  }

  /** One page: what the reply names is deleted, and the loop ends with the last reply. */
  lemma OnePage(m: Machine, s: nat, keys: set<Key>, last: bool)
    requires s in m.scans && !m.scans[s].last && m.scans[s].deleting == {}
    ensures var m' := Step(Step(m, ScanReply(s, keys, last)), ScanDel(s));
      && m'.store == m.store - keys && s in m'.scans
      && m'.scans[s] == m.scans[s].(unseen := m.scans[s].unseen - keys, last := last)
  {
    var unseen := m.scans[s].unseen;
    assert unseen - keys - keys == unseen - keys;
  }

  /** Replies of a scan of the credential that together name each of its keys. */
  ghost predicate Complete(store: Store, credential: nat, replies: seq<set<Key>>) {
    && replies != []
    && (forall i, k :: 0 <= i < |replies| && k in replies[i] ==> k.credential == credential)
    && forall k :: k in KeysOf(store, credential) ==> exists i :: 0 <= i < |replies| && k in replies[i]
  }

  lemma CompleteSeesAll(store: Store, credential: nat, replies: seq<set<Key>>)
    requires Complete(store, credential, replies)
    ensures KeysOf(store, credential) <= Seen(replies, |replies|)
    ensures store - Seen(replies, |replies|) == store - KeysOf(store, credential)
  {
    forall k ensures k in Seen(replies, |replies|) <==> exists i :: 0 <= i < |replies| && k in replies[i] {
      SeenMembers(replies, |replies|, k);
    }
  }

  /** A scan that began in a store has seen n of the replies and deleted what they name. */
  ghost predicate ScannedTo(store: Store, m: Machine, s: nat, credential: nat, replies: seq<set<Key>>, n: nat)
    requires n <= |replies|
  {
    && m.store == store - Seen(replies, n) && s in m.scans
    && m.scans[s] == Scan(credential, KeysOf(store, credential), KeysOf(store, credential) - Seen(replies, n), {},
                          n == |replies|)
  }

  lemma NextPage(store: Store, m: Machine, s: nat, credential: nat, replies: seq<set<Key>>, n: nat)
    requires Complete(store, credential, replies) && n < |replies| && ScannedTo(store, m, s, credential, replies, n)
    ensures var e := ScanReply(s, replies[n], n + 1 == |replies|);
      Allowed(m, e) && ScannedTo(store, Step(Step(m, e), ScanDel(s)), s, credential, replies, n + 1)
  {
    CompleteSeesAll(store, credential, replies);
    OnePage(m, s, replies[n], n + 1 == |replies|);
    assert store - Seen(replies, n) - replies[n] == store - Seen(replies, n + 1);
    assert KeysOf(store, credential) - Seen(replies, n) - replies[n] ==
        KeysOf(store, credential) - Seen(replies, n + 1);
  }

  lemma {:induction false} PagesAlone(t: Trace<Event>, s: nat, credential: nat, replies: seq<set<Key>>, n: nat)
    requires ValidRun(t) && s !in Run(t).scans && Complete(Run(t).store, credential, replies) && n <= |replies|
    ensures var t' := ScanPages(Then(t, ScanStart(s, credential)), s, replies, n);
      ValidRun(t') && ScannedTo(Run(t).store, Run(t'), s, credential, replies, n)
  {
    var start := Then(t, ScanStart(s, credential));
    if n == 0 {
      assert Run(t).store - {} == Run(t).store;
    } else {
      PagesAlone(t, s, credential, replies, n - 1);
      var t1 := ScanPages(start, s, replies, n - 1);
      var t2 := Then(t1, ScanReply(s, replies[n - 1], n == |replies|));
      NextPage(Run(t).store, Run(t1), s, credential, replies, n - 1);
      assert ScanPages(start, s, replies, n) == Then(t2, ScanDel(s));
      assert Run(Then(t2, ScanDel(s))) == Step(Run(t2), ScanDel(s)) && Run(t2) == Step(Run(t1), t2.event);
    }
  }

  /** Run without interference, a scan ends, and leaves the store of the method: all but the credential's keys. */
  lemma UndisturbedScan(t: Trace<Event>, s: nat, credential: nat, replies: seq<set<Key>>)
    requires ValidRun(t) && s !in Run(t).scans && Complete(Run(t).store, credential, replies)
    ensures var t' := ScanPages(Then(t, ScanStart(s, credential)), s, replies, |replies|);
      && ValidRun(t') && s in Run(t').scans && Run(t').scans[s].last && Run(t').scans[s].deleting == {}
      && Run(t').store == Run(t).store - KeysOf(Run(t).store, credential)
  {
    PagesAlone(t, s, credential, replies, |replies|);
    CompleteSeesAll(Run(t).store, credential, replies);
  }
}
