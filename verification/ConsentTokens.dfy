/** Consent tokens and the keys that sign them: issuing, rotating, and checking a token that is
    presented with an application. */
module ConsentTokens {
  import opened Common
  import opened Timestamps
  import opened Canonical
  import opened AuditTables
  import opened Domain

  type Keys = map<Guid, TenantKey>

  /** What an issuance draws afresh: a token id, a key in case one is needed, and the signed
      token text. */
  datatype Material = Material(tokenId: Guid, keyId: Guid, publicJwk: string, token: string)

  // ----- Keys -----

  predicate IsActive(keys: Keys, tenantId: Guid, k: Guid) {
    k in keys && keys[k].tenantId == tenantId && keys[k].status.Current?
  }

  predicate IsNewest(keys: Keys, tenantId: Guid, k: Guid) {
    IsActive(keys, tenantId, k)
    && forall j | j in keys && IsActive(keys, tenantId, j) :: keys[j].activatedAt <= keys[k].activatedAt
  }

  /** The tenant's active key, the one activated last if there are several. */
  ghost function ActiveKey(keys: Keys, tenantId: Guid): (r: Option<Guid>)
    ensures r.Some? ==> IsNewest(keys, tenantId, r.value)
    ensures r.None? ==> forall k :: !IsNewest(keys, tenantId, k)
  {
    if k :| IsNewest(keys, tenantId, k) then Some(k) else None
  }

  function NewKey(o: Options, tenantId: Guid, m: Material, now: int): TenantKey {
    TenantKey(tenantId, Current, m.publicJwk, now, now + KeyLifetime(o), None, None)
  }

  function Retire(keys: Keys, k: Guid, now: int): Keys
    requires k in keys
  {
    keys[k := keys[k].(status := Retired, retiredAt := Some(now))]
  }

  function RotateKey(o: Options, keys: Keys, tenantId: Guid, current: Option<Guid>, m: Material, now: int): Keys
    requires current.Some? ==> current.value in keys
  {
    (if current.Some? then Retire(keys, current.value, now) else keys)[m.keyId := NewKey(o, tenantId, m, now)]
  }

  predicate Reusable(o: Options, key: TenantKey, now: int) {
    now < key.expiresAt && RotationLead(o) < key.expiresAt - now
  }

  /** The tenant has a key that is good for longer than the rotation lead. */
  ghost predicate HasGoodKey(o: Options, keys: Keys, tenantId: Guid, now: int) {
    var key := ActiveKey(keys, tenantId);
    key.Some? && Reusable(o, keys[key.value], now)
  }

  ghost function SigningKey(o: Options, keys: Keys, tenantId: Guid, m: Material, now: int): Guid {
    if HasGoodKey(o, keys, tenantId, now) then ActiveKey(keys, tenantId).value else m.keyId
  }

  ghost function EnsureActiveKey(o: Options, keys: Keys, tenantId: Guid, m: Material, now: int): (r: Keys)
    ensures SigningKey(o, keys, tenantId, m, now) in r
  {
    if HasGoodKey(o, keys, tenantId, now) then keys
    else RotateKey(o, keys, tenantId, ActiveKey(keys, tenantId), m, now)
  }

  /** Keys that do not retire twice, and of which each tenant has at most one that is not
      retired, activated after all the others. */
  predicate Ordered(keys: Keys, a: Guid, b: Guid)
    requires a in keys && b in keys
  {
    keys[a].tenantId == keys[b].tenantId && !keys[b].status.Retired? ==>
      && keys[a].activatedAt <= keys[b].activatedAt
      && (!keys[a].status.Retired? ==> a == b)
  }

  predicate KeyOk(o: Options, key: TenantKey, clock: int) {
    && !key.status.Next? && key.activatedAt <= clock
    && key.expiresAt == key.activatedAt + KeyLifetime(o)
  }

  ghost predicate Led(keys: Keys, tenantId: Guid) {
    exists k :: IsActive(keys, tenantId, k)
  }

  ghost predicate KeysOk(o: Options, keys: Keys, clock: int) {
    && (forall k | k in keys :: KeyOk(o, keys[k], clock) && Led(keys, keys[k].tenantId))
    && (forall a, b | a in keys && b in keys :: Ordered(keys, a, b))
  }

  /** Keys are only added; what they are stays; and a retired key stays retired. */
  predicate Grown(keys: Keys, later: Keys) {
    forall k | k in keys ::
      && k in later && later[k].tenantId == keys[k].tenantId && later[k].publicJwk == keys[k].publicJwk
      && later[k].activatedAt == keys[k].activatedAt && later[k].expiresAt == keys[k].expiresAt
      && (keys[k].status.Retired? ==> later[k].status.Retired?)
  }

  lemma ActiveIsNewest(o: Options, keys: Keys, clock: int, tenantId: Guid, k: Guid)
    requires KeysOk(o, keys, clock) && IsActive(keys, tenantId, k)
    ensures ActiveKey(keys, tenantId) == Some(k)
  {
    forall j | j in keys && IsActive(keys, tenantId, j) ensures j == k {
      assert Ordered(keys, j, k);
    }
    assert IsNewest(keys, tenantId, k);
  }

  /** Retiring the tenant's active key leaves it with none. */
  lemma NoneLeft(o: Options, keys: Keys, clock: int, tenantId: Guid) returns (idle: Keys)
    requires KeysOk(o, keys, clock)
    ensures var current := ActiveKey(keys, tenantId);
            idle == if current.Some? then Retire(keys, current.value, clock) else keys
    ensures Grown(keys, idle) && idle.Keys == keys.Keys
    ensures forall k | k in idle :: KeyOk(o, idle[k], clock) && !IsActive(idle, tenantId, k)
    ensures forall k | k in idle && idle[k].tenantId != tenantId :: idle[k] == keys[k]
    ensures forall a, b | a in idle && b in idle :: Ordered(idle, a, b)
  {
    var current := ActiveKey(keys, tenantId);
    idle := if current.Some? then Retire(keys, current.value, clock) else keys;
    forall k | k in keys && IsActive(keys, tenantId, k) ensures current == Some(k) {
      ActiveIsNewest(o, keys, clock, tenantId, k);
    }
    forall a, b | a in idle && b in idle ensures Ordered(idle, a, b) {
      assert Ordered(keys, a, b);
    }
  }

  /** A new key for a tenant without an active one. */
  lemma AddedKeyOrdered(idle: Keys, clock: int, k: Guid, key: TenantKey, r: Keys)
    requires k !in idle && key.activatedAt == clock && key.status.Current? && r == idle[k := key]
    requires forall j | j in idle :: idle[j].activatedAt <= clock && !idle[j].status.Next? && !IsActive(idle, key.tenantId, j)
    requires forall a, b | a in idle && b in idle :: Ordered(idle, a, b)
    ensures forall a, b | a in r && b in r :: Ordered(r, a, b)
  {
    forall a, b | a in r && b in r ensures Ordered(r, a, b) {
      if a in idle && b in idle { assert Ordered(idle, a, b); }
    }
  }

  lemma AddedKeyLed(keys: Keys, r: Keys, k: Guid)
    requires k !in keys && r.Keys == keys.Keys + {k} && r[k].status.Current?
    requires forall j | j in keys :: Led(keys, keys[j].tenantId)
    requires forall j | j in keys :: r[j].tenantId == keys[j].tenantId
    requires forall j | j in keys && keys[j].tenantId != r[k].tenantId :: r[j] == keys[j]
    ensures forall j | j in r :: Led(r, r[j].tenantId)
  {
    assert IsActive(r, r[k].tenantId, k);
    forall j | j in r ensures Led(r, r[j].tenantId) {
      if r[j].tenantId != r[k].tenantId {
        var i :| IsActive(keys, keys[j].tenantId, i);
        assert IsActive(r, r[j].tenantId, i);
      }
    }
  }

  /** Rotation leaves the tenant with one key that is not retired: the new one. */
  lemma RotationKeepsKeysOk(o: Options, keys: Keys, clock: int, tenantId: Guid, m: Material)
    requires KeysOk(o, keys, clock) && m.keyId !in keys
    ensures var r := RotateKey(o, keys, tenantId, ActiveKey(keys, tenantId), m, clock);
            KeysOk(o, r, clock) && Grown(keys, r) && IsActive(r, tenantId, m.keyId)
    ensures forall k | k in keys && Some(k) != ActiveKey(keys, tenantId) ::
              RotateKey(o, keys, tenantId, ActiveKey(keys, tenantId), m, clock)[k] == keys[k]
  {
    hide Ordered, Led;
    var r := RotateKey(o, keys, tenantId, ActiveKey(keys, tenantId), m, clock);
    var idle := NoneLeft(o, keys, clock, tenantId);
    assert r == idle[m.keyId := NewKey(o, tenantId, m, clock)];
    assert IsActive(r, tenantId, m.keyId);
    AddedKeyOrdered(idle, clock, m.keyId, NewKey(o, tenantId, m, clock), r);
    AddedKeyLed(keys, r, m.keyId);
  }

  lemma TouchKeepsKeysOk(o: Options, keys: Keys, clock: int, k: Guid, used: Option<int>)
    requires KeysOk(o, keys, clock) && k in keys
    ensures KeysOk(o, keys[k := keys[k].(lastUsedAt := used)], clock)
    ensures Grown(keys, keys[k := keys[k].(lastUsedAt := used)])
  {
    var r := keys[k := keys[k].(lastUsedAt := used)];
    forall a, b | a in r && b in r ensures Ordered(r, a, b) {
      assert Ordered(keys, a, b);
    }
    forall j | j in r ensures Led(r, r[j].tenantId) {
      var i :| IsActive(keys, keys[j].tenantId, i);
      assert IsActive(r, r[j].tenantId, i);
    }
  }

  /** A rotation that nobody forced comes at least the key lifetime less the rotation lead after
      every earlier activation of the tenant. */
  lemma UnforcedRotationIsLate(o: Options, keys: Keys, clock: int, tenantId: Guid, m: Material, k: Guid)
    requires KeysOk(o, keys, clock) && Constructible(o) && m.keyId !in keys
    requires EnsureActiveKey(o, keys, tenantId, m, clock) != keys && k in keys && keys[k].tenantId == tenantId
    ensures clock >= keys[k].activatedAt + KeyLifetime(o) - RotationLead(o)
    ensures 0 <= RotationLead(o) <= KeyLifetime(o)
  {
    var j :| IsActive(keys, tenantId, j);
    ActiveIsNewest(o, keys, clock, tenantId, j);
    assert Ordered(keys, k, j);
  }

  // ----- Issuing -----

  datatype Issuance = Issuance(consent: Consent, keys: Keys, tokens: map<Guid, TokenRecord>)

  /** The consent's row once it carries a token. */
  function WithToken(o: Options, hash: HashFn, c: Consent, m: Material, keyId: Guid, now: int): Consent {
    c.(tokenId := m.tokenId, tokenIssuedAt := now, tokenExpiresAt := now + TokenLifetime(o), tokenKeyId := keyId,
       tokenHash := Some(hash(m.token)))
  }

  /** IssueToken; None when the consent's agent is not a known tenant. */
  ghost function IssueToken(o: Options, hash: HashFn, w: World, consentId: Guid, c: Consent, m: Material): Option<Issuance> {
    var tenant := BySlug(w.tenants, c.agent);
    if tenant.None? then None
    else
      var now, t := w.clock, tenant.value.id;
      var keys, k := EnsureActiveKey(o, w.keys, t, m, now), SigningKey(o, w.keys, t, m, now);
      Some(Issuance(WithToken(o, hash, c, m, k, now),
                    keys[k := keys[k].(lastUsedAt := Some(now))],
                    w.tokens[m.tokenId := TokenRecord(consentId, hash(m.token), k, now, now + TokenLifetime(o))]))
  }

  /** The header and claims of the token that a consent carries; expiry is cut to whole seconds. */
  function Content(consentId: Guid, c: Consent): Jwt {
    Jwt(c.tokenKeyId, c.tokenId, c.tokenExpiresAt / SECOND, Some(consentId), Some(c.agent), Some(c.board), Some(c.candidateId))
  }

  // ----- Presenting -----

  datatype Presented = Unauthorized | Forbidden | Honoured(consentId: Guid)

  predicate Holds(consents: map<Guid, Consent>, tokenId: Guid, c: Guid) {
    c in consents && consents[c].tokenId == tokenId
  }

  /** The consent whose current token has the given id. */
  ghost function HolderOf(consents: map<Guid, Consent>, tokenId: Guid): (r: Option<Guid>)
    ensures r.Some? ==> Holds(consents, tokenId, r.value)
    ensures r.None? ==> forall c :: !Holds(consents, tokenId, c)
  {
    if c :| Holds(consents, tokenId, c) then Some(c) else None
  }

  predicate Usable(c: Consent, now: int) {
    c.status.Active? && now < c.expiresAt
  }

  /** Not expired, or expired within the grace period. */
  predicate Timely(o: Options, expires: int, now: int) {
    now < expires || now <= expires + Grace(o)
  }

  predicate ClaimsMatch(lib: Library, jwt: Jwt, consentId: Guid, c: Consent) {
    && lib.parseGuid(jwt.jti) == Some(c.tokenId) && jwt.consentId == Some(consentId)
    && jwt.agent == Some(c.agent) && jwt.board == Some(c.board) && jwt.subject == Some(c.candidateId)
  }

  predicate KeyMatches(keys: Keys, tenantId: Guid, kid: string) {
    kid in keys && keys[kid].tenantId == tenantId && !keys[kid].status.Retired?
  }

  /** The `ctok:` form. */
  ghost function CheckOpaque(o: Options, lib: Library, w: World, text: string): (r: Presented)
    ensures r.Honoured? ==> r.consentId in w.consents
  {
    var tokenId := lib.parseGuid(text);
    if tokenId.None? then Unauthorized
    else
      var holder := HolderOf(w.consents, tokenId.value);
      if holder.None? || !Usable(w.consents[holder.value], w.clock) then Forbidden
      else if !Timely(o, w.consents[holder.value].tokenExpiresAt, w.clock) then Forbidden
      else Honoured(holder.value)
  }

  ghost function CheckJwt(o: Options, lib: Library, w: World, token: string): (r: Presented)
    ensures r.Honoured? ==> r.consentId in w.consents
  {
    var read := lib.readJwt(token);
    if read.None? || lib.parseGuid(read.value.jti).None? then Unauthorized
    else
      var holder := HolderOf(w.consents, lib.parseGuid(read.value.jti).value);
      if holder.None? || !Usable(w.consents[holder.value], w.clock) then Forbidden
      else
        var c := w.consents[holder.value];
        var tenant := BySlug(w.tenants, c.agent);
        if tenant.None? then Forbidden
        else if !KeyMatches(w.keys, tenant.value.id, read.value.kid) then Unauthorized
        else if !lib.validJwt(token, w.keys[read.value.kid].publicJwk, o.issuer, c.board) then Unauthorized
        else if !ClaimsMatch(lib, read.value, holder.value, c) then Forbidden
        else if !Timely(o, read.value.expires * SECOND, w.clock) then Forbidden
        else if c.tokenHash.Some? && c.tokenHash.value != lib.hash(token) then Forbidden
        else Honoured(holder.value)
  }

  const OPAQUE_PREFIX := "ctok:"

  predicate Opaque(token: string) {
    |OPAQUE_PREFIX| <= |token| && token[..|OPAQUE_PREFIX|] == OPAQUE_PREFIX
  }

  ghost function CheckToken(o: Options, lib: Library, w: World, token: string): (r: Presented)
    ensures r.Honoured? ==> r.consentId in w.consents
  {
    if Blank(token) then Unauthorized
    else if Opaque(token) then CheckOpaque(o, lib, w, token[|OPAQUE_PREFIX|..])
    else CheckJwt(o, lib, w, token)
  }
}
