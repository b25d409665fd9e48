/** The gateway's handlers and services as the source writes them: guards in sequence, then updates
    of the tables in place. Each leaves exactly the tables that the state machine's step does. */
module GatewayServices {
  import opened Common
  import opened Timestamps
  import opened AuditTables
  import opened Domain
  import opened ConsentTokens
  import opened DataSubjects
  import opened Gateway
  import opened GatewayInvariant
  import opened TokenTheorems
  import Req = ConsentRequests

  /** Of two active keys of one tenant there is only one. */
  predicate NotBothActive(keys: Keys, a: Guid, b: Guid)
    requires a in keys && b in keys
  {
    keys[a].tenantId == keys[b].tenantId && keys[a].status.Current? && keys[b].status.Current? ==> a == b
  }

  predicate OneActive(keys: Keys) {
    forall a, b | a in keys && b in keys :: NotBothActive(keys, a, b)
  }

  /** Fresh identifiers: no key has the one, and no consent carries a token with the other. */
  predicate Drawn(keys: Keys, consents: Consents, m: Material) {
    m.keyId !in keys && forall c | c in consents :: consents[c].tokenId != m.tokenId
  }

  lemma DrawnKeepsUnique(keys: Keys, consents: Consents, m: Material, id: Guid, c: Consent)
    requires UniqueTokens(consents) && c.tokenId == m.tokenId
    ensures Drawn(keys, consents, m) ==> UniqueTokens(consents[id := c]) && m.keyId !in keys
  {
    if Drawn(keys, consents, m) {
      TokenKeepsUnique(consents, id, c);
    }
  }

  lemma RotationKeepsOneActive(o: Options, keys: Keys, tenantId: Guid, m: Material, now: int)
    requires OneActive(keys) && m.keyId !in keys
    ensures OneActive(RotateKey(o, keys, tenantId, ActiveKey(keys, tenantId), m, now))
  {
    var current := ActiveKey(keys, tenantId);
    var r := RotateKey(o, keys, tenantId, current, m, now);
    forall k | k in keys && IsActive(keys, tenantId, k) ensures current == Some(k) {
      OnlyActive(keys, tenantId, k);
    }
    forall a, b | a in r && b in r ensures NotBothActive(r, a, b) {
      if a in keys && b in keys { assert NotBothActive(keys, a, b); }
    }
  }

  lemma OnlyActive(keys: Keys, tenantId: Guid, k: Guid)
    requires OneActive(keys) && IsActive(keys, tenantId, k)
    ensures ActiveKey(keys, tenantId) == Some(k)
  {
    forall j | j in keys && IsActive(keys, tenantId, j) ensures j == k { assert NotBothActive(keys, j, k); }
    assert IsNewest(keys, tenantId, k);
  }

  lemma TouchKeepsOneActive(keys: Keys, k: Guid, used: Option<int>)
    requires OneActive(keys) && k in keys
    ensures OneActive(keys[k := keys[k].(lastUsedAt := used)])
  {
    var r := keys[k := keys[k].(lastUsedAt := used)];
    forall a, b | a in r && b in r ensures NotBothActive(r, a, b) { assert NotBothActive(keys, a, b); }
  }

  lemma TokenKeepsUnique(consents: Consents, id: Guid, c: Consent)
    requires UniqueTokens(consents) && forall d | d in consents :: consents[d].tokenId != c.tokenId
    ensures UniqueTokens(consents[id := c])
  {
    var r := consents[id := c];
    forall a, b | a in r && b in r ensures OneHolder(r, a, b) {
      if a != id && b != id { assert OneHolder(consents, a, b); }
    }
  }

  lemma StatusKeepsUnique(consents: Consents, id: Guid, at: Option<int>)
    requires UniqueTokens(consents) && id in consents
    ensures UniqueTokens(consents[id := consents[id].(status := Revoked, revokedAt := at)])
  {
    var r := consents[id := consents[id].(status := Revoked, revokedAt := at)];
    forall a, b | a in r && b in r ensures OneHolder(r, a, b) { assert OneHolder(consents, a, b); }
  }

  lemma CandidateKeepsUnique(candidates: Candidates, id: Guid, c: Candidate)
    requires UniqueEmails(candidates) && CandidateOf(candidates, c.email).None?
    ensures UniqueEmails(candidates[id := c])
  {
    var r := candidates[id := c];
    forall a, b | a in r && b in r ensures OneCandidate(r, a, b) {
      if a in candidates { assert !HasEmail(candidates, c.email, a); }
      if b in candidates { assert !HasEmail(candidates, c.email, b); }
      if a != id && b != id { assert OneCandidate(candidates, a, b); }
    }
  }

  /** Every reachable world meets what the handlers below ask of the tables. */
  lemma ReachableIsValid(o: Options, lib: Library, w: World)
    requires Inv(o, lib, w)
    ensures UniqueTokens(w.consents) && UniqueEmails(w.candidates) && OneActive(w.keys)
  {
    hide ConsentsOk, TokensOk, ApplicationsOk, RequestsOk, UniqueTokens, UniqueEmails;
    forall a, b | a in w.keys && b in w.keys ensures NotBothActive(w.keys, a, b) {
      assert Ordered(w.keys, a, b);
    }
  }

  /** The database context. */
  class GatewayDbContext {
    var tenants: seq<Tenant>
    var requests: map<Guid, Request>
    var candidates: map<Guid, Candidate>
    var consents: map<Guid, Consent>
    var tokens: map<Guid, TokenRecord>
    var keys: map<Guid, TenantKey>
    var applications: map<Guid, Application>
    ghost var handedOut: map<Guid, string>

    /** The tables as a world at an instant. */
    ghost function View(now: int): World
      reads this
    {
      World(now, tenants, requests, candidates, consents, tokens, keys, applications, handedOut)
    }

    /** The unique indexes on token ids and addresses, and one active key per tenant. */
    ghost predicate Valid()
      reads this
    {
      UniqueTokens(consents) && UniqueEmails(candidates) && OneActive(keys)
    }

    method FindByToken(tokenId: Guid) returns (r: Option<Guid>)
      requires UniqueTokens(consents)
      ensures r == HolderOf(consents, tokenId)
    {
      if c :| c in consents && consents[c].tokenId == tokenId {
        assert Holds(consents, tokenId, c);
        assert OneHolder(consents, HolderOf(consents, tokenId).value, c);
        return Some(c);
      }
      return None;
    }

    method FindByEmail(email: string) returns (r: Option<Guid>)
      requires UniqueEmails(candidates)
      ensures r == CandidateOf(candidates, email)
    {
      if c :| c in candidates && candidates[c].email == email {
        assert HasEmail(candidates, email, c);
        assert OneCandidate(candidates, CandidateOf(candidates, email).value, c);
        return Some(c);
      }
      return None;
    }

    /** The active key of a tenant, the one activated last first. */
    method FindActiveKey(tenantId: Guid) returns (r: Option<Guid>)
      requires OneActive(keys)
      ensures r == ActiveKey(keys, tenantId)
    {
      if k :| k in keys && IsNewest(keys, tenantId, k) {
        assert NotBothActive(keys, ActiveKey(keys, tenantId).value, k);
        return Some(k);
      }
      return None;
    }
  }

  class JwtConsentTokenFactory {
    const db: GatewayDbContext
    const options: Options
    const hash: HashFn
    const tokenLifetime: int
    const keyLifetime: int
    const rotationLeadTime: int

    /** The constructor throws on a negative key lifetime. */
    constructor (db: GatewayDbContext, options: Options, hash: HashFn)
      requires Constructible(options)
      ensures this.db == db && this.options == options && this.hash == hash && Configured()
    {
      this.db := db;
      this.options := options;
      this.hash := hash;
      tokenLifetime := Max(1, options.tokenLifetimeDays) * DAY;
      keyLifetime := Max(30, options.keyLifetimeDays) * DAY;
      rotationLeadTime := (if options.rotationLeadDays < 0 then 0
                           else if options.rotationLeadDays > options.keyLifetimeDays then options.keyLifetimeDays
                           else options.rotationLeadDays) * DAY;
    }

    predicate Configured() {
      tokenLifetime == TokenLifetime(options) && keyLifetime == KeyLifetime(options) && rotationLeadTime == RotationLead(options)
    }

    method RotateKey(tenantId: Guid, current: Option<Guid>, now: int, m: Material)
      requires Configured() && (current.Some? ==> current.value in db.keys && db.keys[current.value].status.Current?)
      modifies db`keys
      ensures db.keys == ConsentTokens.RotateKey(options, old(db.keys), tenantId, current, m, now)
    {
      if current.Some? && db.keys[current.value].status.Current? {
        db.keys := db.keys[current.value := db.keys[current.value].(status := Retired, retiredAt := Some(now))];
      }
      db.keys := db.keys[m.keyId := TenantKey(tenantId, Current, m.publicJwk, now, now + keyLifetime, None, None)];
    }

    method EnsureActiveKey(tenantId: Guid, now: int, m: Material) returns (k: Guid)
      requires Configured() && OneActive(db.keys)
      modifies db`keys
      ensures db.keys == ConsentTokens.EnsureActiveKey(options, old(db.keys), tenantId, m, now)
      ensures k == SigningKey(options, old(db.keys), tenantId, m, now) && k in db.keys
      ensures m.keyId !in old(db.keys) ==> OneActive(db.keys)
    {
      var key := db.FindActiveKey(tenantId);
      if key.Some? && db.keys[key.value].expiresAt > now && db.keys[key.value].expiresAt - now > rotationLeadTime {
        return key.value;
      }
      if m.keyId !in db.keys {
        RotationKeepsOneActive(options, db.keys, tenantId, m, now);
      }
      RotateKey(tenantId, key, now, m);
      return m.keyId;
    }

    method RotateAsync(slug: string, now: int, m: Material) returns (found: bool)
      requires Configured() && OneActive(db.keys)
      modifies db`keys
      ensures found <==> !Blank(slug) && BySlug(db.tenants, slug).Some?
      ensures db.View(now) == Rotated(options, old(db.View(now)), slug, m)
      ensures m.keyId !in old(db.keys) ==> OneActive(db.keys)
    {
      var tenant := BySlug(db.tenants, slug);
      if Blank(slug) || tenant.None? {
        return false;
      }
      var current := db.FindActiveKey(tenant.value.id);
      if m.keyId !in db.keys {
        RotationKeepsOneActive(options, db.keys, tenant.value.id, m, now);
      }
      RotateKey(tenant.value.id, current, now, m);
      return true;
    }

    /** None when the consent's agent is not a known tenant; then nothing has changed. */
    method IssueToken(consentId: Guid, consent: Consent, now: int, m: Material) returns (r: Option<Consent>)
      requires Configured() && OneActive(db.keys)
      modifies db`keys, db`tokens, db`handedOut
      ensures var i := ConsentTokens.IssueToken(options, hash, old(db.View(now)), consentId, consent, m);
              if i.None? then r.None? && db.View(now) == old(db.View(now))
              else
                && r == Some(i.value.consent) && db.keys == i.value.keys && db.tokens == i.value.tokens
                && db.handedOut == old(db.handedOut)[m.tokenId := m.token]
      ensures m.keyId !in old(db.keys) ==> OneActive(db.keys)
    {
      hide OneActive, ConsentTokens.EnsureActiveKey, SigningKey;
      var tenant := BySlug(db.tenants, consent.agent);
      if tenant.None? {
        return None;
      }
      var signingKey := EnsureActiveKey(tenant.value.id, now, m);
      if OneActive(db.keys) {
        TouchKeepsOneActive(db.keys, signingKey, Some(now));
      }
      db.keys := db.keys[signingKey := db.keys[signingKey].(lastUsedAt := Some(now))];
      var expires := now + tokenLifetime;
      var tokenHash := hash(m.token);
      db.tokens := db.tokens[m.tokenId := TokenRecord(consentId, tokenHash, signingKey, now, expires)];
      db.handedOut := db.handedOut[m.tokenId := m.token];
      return Some(consent.(tokenId := m.tokenId, tokenIssuedAt := now, tokenExpiresAt := expires, tokenKeyId := signingKey,
                           tokenHash := Some(tokenHash)));
    }
  }

  class ConsentLifecycleService {
    const db: GatewayDbContext
    const tokenFactory: JwtConsentTokenFactory
    const options: Options

    constructor (db: GatewayDbContext, tokenFactory: JwtConsentTokenFactory)
      requires tokenFactory.db == db
      ensures this.db == db && this.tokenFactory == tokenFactory && this.options == tokenFactory.options
    {
      this.db := db;
      this.tokenFactory := tokenFactory;
      this.options := tokenFactory.options;
    }

    method RenewAsync(consentId: Guid, now: int, m: Material) returns (r: Option<Consent>)
      requires tokenFactory.db == db && tokenFactory.options == options && tokenFactory.Configured() && db.Valid()
      modifies db
      ensures var w := old(db.View(now));
              var i := if consentId !in w.consents then None
                       else ConsentTokens.IssueToken(options, tokenFactory.hash, w, consentId, w.consents[consentId], m);
              && (r.Some? <==> Renewable(options, w, consentId) && i.Some?)
              && db.View(now) == if r.None? then w else Stored(w, consentId, i.value.consent, i.value, m)
      ensures Drawn(old(db.keys), old(db.consents), m) ==> db.Valid()
    {
      hide UniqueTokens, UniqueEmails, OneActive, Drawn;
      if consentId !in db.consents || db.consents[consentId].candidateId !in db.candidates {
        return None;
      }
      var consent := db.consents[consentId];
      if !consent.status.Active? {
        return None;
      }
      if consent.expiresAt <= now {
        return None;
      }
      var windowStart := consent.tokenExpiresAt - Max(0, options.renewalLeadDays) * DAY;
      var windowEnd := consent.tokenExpiresAt + Max(0, options.expiryGraceDays) * DAY;
      if now < windowStart || now > windowEnd {
        return None;
      }
      r := tokenFactory.IssueToken(consentId, consent, now, m);
      if r.Some? {
        DrawnKeepsUnique(old(db.keys), db.consents, m, consentId, r.value);
        db.consents := db.consents[consentId := r.value];
      }
    }
  }

  lemma IssuedCandidate(o: Options, hash: HashFn, w: World, id: Guid, c: Consent, m: Material)
    ensures var i := IssueToken(o, hash, w, id, c, m);
            i.Some? ==> i.value.consent.candidateId == c.candidateId && i.value.consent.tokenId == m.tokenId
  {
    hide EnsureActiveKey, SigningKey;
  }

  // ----- The consent pages -----

  datatype PageResult = NotFound | Page | ToApprove | ToComplete

  class RequestPage {
    const db: GatewayDbContext
    const verify: Req.CodeCheck

    constructor (db: GatewayDbContext, verify: Req.CodeCheck)
      ensures this.db == db && this.verify == verify
    {
      this.db := db;
      this.verify := verify;
    }

    method OnGetAsync(id: Guid, now: int) returns (r: PageResult)
      modifies db`requests
      ensures db.View(now) == Stepped(verify, old(db.View(now)), id, Req.View)
      ensures r.NotFound? <==> id !in old(db.requests)
      ensures r.ToApprove? <==> id in db.requests && db.requests[id].status.Verified?
    {
      if id !in db.requests {
        return NotFound;
      }
      var request := db.requests[id];
      if request.expiresAt <= now && (request.status.Pending? || request.status.Verified?) {
        request := request.(status := Expired);
      }
      db.requests := db.requests[id := request];
      return if request.status.Verified? then ToApprove else Page;
    }

    method OnPostAsync(id: Guid, input: Option<string>, now: int) returns (r: PageResult)
      modifies db`requests
      ensures db.View(now) == Stepped(verify, old(db.View(now)), id, Req.Post(input))
      ensures r.NotFound? <==> id !in old(db.requests)
      ensures r.ToApprove? <==> id in db.requests && now < db.requests[id].expiresAt && db.requests[id].status.Verified?
    {
      if id !in db.requests {
        return NotFound;
      }
      var request := db.requests[id];
      if request.expiresAt <= now {
        if !request.status.Expired? {
          request := request.(status := Expired);
        }
        db.requests := db.requests[id := request];
        return Page;
      }
      if request.status.Approved? || request.status.Denied? {
        assert db.requests[id := request] == db.requests;
        return Page;
      }
      if request.status.Verified? {
        assert db.requests[id := request] == db.requests;
        return ToApprove;
      }
      var code := if input.Some? then Trim(input.value) else "";
      if Blank(code) {
        assert db.requests[id := request] == db.requests;
        return Page;
      }
      request := request.(attempts := request.attempts + 1);
      var verified := request.codeHash.Some? && verify(code, request.codeHash.value);
      if !verified {
        if request.attempts >= 5 {
          request := request.(status := Denied, decisionAt := Some(now));
        }
        db.requests := db.requests[id := request];
        return Page;
      }
      request := request.(status := Verified, verifiedAt := Some(now), codeHash := None);
      db.requests := db.requests[id := request];
      return ToApprove;
    }

    /** A fresh code's hash is given; the cooldown field is zero here, so it holds nothing back. */
    method OnPostResendAsync(id: Guid, hash: string, now: int) returns (r: PageResult)
      modifies db`requests
      ensures db.View(now) == Stepped(verify, old(db.View(now)), id, Req.Resend(hash))
      ensures r.NotFound? <==> id !in old(db.requests)
    {
      if id !in db.requests {
        return NotFound;
      }
      var request := db.requests[id];
      if request.expiresAt <= now {
        if !request.status.Expired? {
          request := request.(status := Expired);
        }
        db.requests := db.requests[id := request];
        return Page;
      }
      if request.status.Approved? || request.status.Denied? {
        assert db.requests[id := request] == db.requests;
        return Page;
      }
      request := request.(codeHash := Some(hash));
      request := request.(attempts := 0);
      db.requests := db.requests[id := request];
      return Page;
    }
  }

  class ApprovePage {
    const db: GatewayDbContext
    const tokenFactory: JwtConsentTokenFactory
    const lib: Library

    constructor (db: GatewayDbContext, tokenFactory: JwtConsentTokenFactory, lib: Library)
      requires tokenFactory.db == db && tokenFactory.hash == lib.hash
      ensures this.db == db && this.tokenFactory == tokenFactory && this.lib == lib
    {
      this.db := db;
      this.tokenFactory := tokenFactory;
      this.lib := lib;
    }

    /** Fresh identifiers are given. When no token can be issued nothing is saved. */
    method OnPostAsync(id: Guid, approve: bool, candidateId: Guid, consentId: Guid, m: Material, now: int) returns (r: Option<PageResult>)
      requires tokenFactory.db == db && tokenFactory.hash == lib.hash && tokenFactory.Configured() && db.Valid()
      requires candidateId !in db.candidates
      modifies db
      ensures db.View(now)
           == Decided(tokenFactory.options, lib, old(db.View(now)), Decide(id, approve, candidateId, consentId, m))
      ensures id !in old(db.requests) ==> r == Some(NotFound)
      ensures !approve && id in old(db.requests) && old(db.requests)[id].status == Verified && now < old(db.requests)[id].expiresAt
          ==> db.requests == old(db.requests)[id := old(db.requests)[id].(status := Denied, decisionAt := Some(now))]
      ensures Drawn(old(db.keys), old(db.consents), m) ==> db.Valid()
    {
      hide IssuanceOf, Approval;
      if id !in db.requests {
        return Some(NotFound);
      }
      var request := db.requests[id];
      if request.expiresAt <= now && !request.status.Expired? {
        db.requests := db.requests[id := request.(status := Expired, decisionAt := Some(now))];
        return Some(ToComplete);
      }
      if !request.status.Verified? {
        assert db.requests[id := request] == db.requests;
        return Some(ToComplete);
      }
      if !approve {
        db.requests := db.requests[id := request.(status := Denied, decisionAt := Some(now))];
        return Some(ToComplete);
      }
      var issued := Mint(id, candidateId, consentId, m, now);
      return if issued then Some(ToComplete) else None;
    }

    /** The rest of the handler: candidate, consent, token, request, and one save for all of them. */
    method Mint(id: Guid, candidateId: Guid, consentId: Guid, m: Material, now: int) returns (issued: bool)
      requires tokenFactory.db == db && tokenFactory.hash == lib.hash && tokenFactory.Configured() && db.Valid()
      requires candidateId !in db.candidates && id in db.requests && Req.Decidable(db.requests[id], now)
      modifies db
      ensures var w, step := old(db.View(now)), Decide(id, true, candidateId, consentId, m);
              var i := IssuanceOf(tokenFactory.options, lib, w, step);
              && issued == i.Some?
              && db.View(now) == if issued then Approval(w, w.requests[id], step, i.value) else w
      ensures Drawn(old(db.keys), old(db.consents), m) ==> db.Valid()
    {
      hide ConsentTokens.IssueToken, UniqueTokens, UniqueEmails, OneActive, Drawn;
      var request := db.requests[id];
      var normalizedEmail := Lower(request.email);
      var found := db.FindByEmail(normalizedEmail);
      var candidate := if found.Some? then found.value else candidateId;
      var draft := Consent(candidate, request.agent, request.board, request.scopes, Active, now, now, None,
                           candidate, now, now, candidate, None, normalizedEmail);
      ghost var w := db.View(now);
      assert draft == Draft(request, CandidateFor(w, request, candidateId), now);
      var issue := tokenFactory.IssueToken(consentId, draft, now, m);
      if issue.None? {
        return false;
      }
      IssuedCandidate(tokenFactory.options, lib.hash, w, consentId, draft, m);
      var consent := issue.value.(expiresAt := issue.value.tokenExpiresAt);
      if found.None? {
        CandidateKeepsUnique(db.candidates, candidateId, Candidate(normalizedEmail, now));
        db.candidates := db.candidates[candidateId := Candidate(normalizedEmail, now)];
      }
      DrawnKeepsUnique(old(db.keys), db.consents, m, consentId, consent);
      db.consents := db.consents[consentId := consent];
      db.requests := db.requests[id := request.(status := Approved, decisionAt := Some(now), consentId := Some(consentId), codeHash := None)];
      return true;
    }
  }

  // ----- The endpoints -----

  datatype Reply = Ok | NoSuchRow | BadRequest | NotAuthorized | Forbid

  class Endpoints {
    const db: GatewayDbContext
    const lifecycle: ConsentLifecycleService
    const options: Options
    const lib: Library

    constructor (db: GatewayDbContext, lifecycle: ConsentLifecycleService, lib: Library)
      requires lifecycle.db == db && lifecycle.tokenFactory.hash == lib.hash
      ensures this.db == db && this.lifecycle == lifecycle && this.lib == lib && options == lifecycle.options
    {
      this.db := db;
      this.lifecycle := lifecycle;
      this.options := lifecycle.options;
      this.lib := lib;
    }

    method CreateConsentRequest(caller: Caller, agent: Option<string>, board: string, email: string, scopes: seq<string>,
                                hash: string, id: Guid, now: int) returns (r: Reply)
      modifies db`requests
      ensures db.View(now) == Created(old(db.View(now)), caller, agent, board, email, scopes, hash, id)
      ensures r.Ok? <==> MayCreate(caller, agent, email)
      ensures r.Forbid? <==> !IsAgent(caller)
    {
      if caller.slug.None? || caller.kind != Some(TenantType.Agent) {
        return Forbid;
      }
      if agent.Some? && !Blank(agent.value) && agent.value != caller.slug.value {
        return BadRequest;
      }
      var normalizedEmail := Lower(Trim(email));
      if Blank(normalizedEmail) {
        return BadRequest;
      }
      var joined := ScopesText(scopes);
      var request := Request(caller.slug.value, board, normalizedEmail, if joined == "" then "apply:submit" else joined,
                             Pending, Some(hash), 0, now, now + 24 * HOUR, None, None, None);
      db.requests := db.requests[id := request];
      return Ok;
    }

    method CancelConsentRequest(caller: Caller, id: Guid, now: int) returns (r: Reply)
      modifies db`requests
      ensures db.View(now) == Cancelled(lib.verifyCode, old(db.View(now)), caller, id)
      ensures r.Ok? <==> && id in old(db.requests) && caller.kind == Some(TenantType.Agent) && caller.slug == Some(old(db.requests)[id].agent)
                         && (old(db.requests)[id].status == Pending || old(db.requests)[id].status == Verified)
      ensures db.requests == if r.Ok? then old(db.requests)[id := old(db.requests)[id].(status := Denied, decisionAt := Some(now))]
                             else old(db.requests)
      ensures r.NoSuchRow? ==> id !in old(db.requests)
      ensures r.BadRequest? ==> id in old(db.requests) && caller.slug == Some(old(db.requests)[id].agent)
    {
      if caller.slug.None? || caller.kind != Some(TenantType.Agent) {
        return Forbid;
      }
      if id !in db.requests {
        return NoSuchRow;
      }
      var request := db.requests[id];
      if request.agent != caller.slug.value {
        return Forbid;
      }
      if request.status.Approved? || request.status.Denied? || request.status.Expired? {
        assert db.requests[id := request] == db.requests;
        return BadRequest;
      }
      db.requests := db.requests[id := request.(status := Denied, decisionAt := Some(now))];
      return Ok;
    }

    method RenewConsent(caller: Caller, id: Guid, m: Material, now: int) returns (r: Reply)
      requires lifecycle.db == db && lifecycle.options == options && lifecycle.tokenFactory.db == db
      requires lifecycle.tokenFactory.options == options && lifecycle.tokenFactory.hash == lib.hash
      requires lifecycle.tokenFactory.Configured() && db.Valid()
      modifies db
      ensures db.View(now) == Renewed(options, lib, old(db.View(now)), Renew(caller, id, m))
      ensures r.Ok? <==> IssuanceOf(options, lib, old(db.View(now)), Renew(caller, id, m)).Some?
      ensures Drawn(old(db.keys), old(db.consents), m) ==> db.Valid()
    {
      if caller.slug.None? || caller.kind != Some(TenantType.Agent) {
        return Forbid;
      }
      if id !in db.consents {
        return NoSuchRow;
      }
      if db.consents[id].agent != caller.slug.value {
        return Forbid;
      }
      var result := lifecycle.RenewAsync(id, now, m);
      return if result.None? then BadRequest else Ok;
    }

    method RevokeConsent(id: Guid, now: int) returns (r: Reply)
      modifies db`consents
      ensures db.View(now) == Withdrawn(old(db.View(now)), id)
      ensures r == if id in old(db.consents) then Ok else NoSuchRow
      ensures old(db.Valid()) ==> db.Valid()
    {
      if id !in db.consents {
        return NoSuchRow;
      }
      if db.Valid() {
        StatusKeepsUnique(db.consents, id, Some(now));
      }
      db.consents := db.consents[id := db.consents[id].(status := Revoked, revokedAt := Some(now))];
      return Ok;
    }

    /** The `ctok:` branch. */
    method PresentOpaque(text: string, now: int) returns (p: Presented)
      requires UniqueTokens(db.consents)
      ensures p == CheckOpaque(options, lib, db.View(now), text)
    {
      var tokenId := lib.parseGuid(text);
      if tokenId.None? {
        return Unauthorized;
      }
      var holder := db.FindByToken(tokenId.value);
      if holder.None? || !db.consents[holder.value].status.Active? || db.consents[holder.value].expiresAt <= now {
        return Forbidden;
      }
      var expires := db.consents[holder.value].tokenExpiresAt;
      var withinGrace := now <= expires + Max(0, options.expiryGraceDays) * DAY;
      if expires <= now && !withinGrace {
        return Forbidden;
      }
      return Honoured(holder.value);
    }

    /** The JWT branch. */
    method PresentJwt(token: string, now: int) returns (p: Presented)
      requires UniqueTokens(db.consents)
      ensures p == CheckJwt(options, lib, db.View(now), token)
    {
      var jwt := lib.readJwt(token);
      if jwt.None? || lib.parseGuid(jwt.value.jti).None? {
        return Unauthorized;
      }
      var holder := db.FindByToken(lib.parseGuid(jwt.value.jti).value);
      if holder.None? || !db.consents[holder.value].status.Active? || db.consents[holder.value].expiresAt <= now {
        return Forbidden;
      }
      var consent := db.consents[holder.value];
      var agent := BySlug(db.tenants, consent.agent);
      if agent.None? {
        return Forbidden;
      }
      var kid := jwt.value.kid;
      if !(kid in db.keys && db.keys[kid].tenantId == agent.value.id && !db.keys[kid].status.Retired?) {
        return Unauthorized;
      }
      if !lib.validJwt(token, db.keys[kid].publicJwk, options.issuer, consent.board) {
        return Unauthorized;
      }
      if !ClaimsMatch(lib, jwt.value, holder.value, consent) {
        return Forbidden;
      }
      var expires := jwt.value.expires * SECOND;
      var withinGrace := now <= expires + Max(0, options.expiryGraceDays) * DAY;
      if expires <= now && !withinGrace {
        return Forbidden;
      }
      if consent.tokenHash.Some? && lib.hash(token) != consent.tokenHash.value {
        return Forbidden;
      }
      return Honoured(holder.value);
    }

    /** The part of a submission before the board is asked. */
    method SubmitApplication(s: Submission, id: Guid, now: int) returns (r: Reply)
      requires UniqueTokens(db.consents)
      modifies db`applications
      ensures db.View(now) == Applied(options, lib, old(db.View(now)), s, id)
      ensures r.Ok? <==> exists c | c in db.consents :: Entitles(options, lib, old(db.View(now)), s, c)
      ensures r.Ok? ==> id in db.applications && (s.detached(db.applications[id].agent) || (s.development && s.jws == Some("DEMO")))
      ensures r.Ok? ==> exists c | c in db.consents :: AppliedFor(old(db.View(now)), s, c, db.applications[id])
      ensures db.applications == if r.Ok? && id in db.applications then old(db.applications)[id := db.applications[id]] else old(db.applications)
      ensures var signature, presented := s.development || (s.jws.Some? && !Blank(s.jws.value)), CheckToken(options, lib, old(db.View(now)), s.token);
              && (r.NotAuthorized? <==> signature && presented.Unauthorized?)
              && (r.Forbid? <==> signature && presented.Forbidden?)
              && !r.NoSuchRow?
    {
      EntitledFor(options, lib, db.View(now), s);
      hide CheckOpaque, CheckJwt;
      if (s.jws.None? || Blank(s.jws.value)) && !s.development {
        return BadRequest;
      }
      if Blank(s.token) {
        return NotAuthorized;
      }
      var presented: Presented;
      if Opaque(s.token) {
        presented := PresentOpaque(s.token[|OPAQUE_PREFIX|..], now);
      } else {
        presented := PresentJwt(s.token, now);
      }
      if presented.Unauthorized? {
        return NotAuthorized;
      }
      if presented.Forbidden? {
        return Forbid;
      }
      var consent := db.consents[presented.consentId];
      var bypass := s.development && s.jws == Some("DEMO");
      if !bypass && !s.detached(consent.agent) {
        return BadRequest;
      }
      db.applications := db.applications[id := Application(presented.consentId, consent.agent, consent.board, Submitted, now,
                                                           None, None, None, s.payloadHash)];
      return Ok;
    }

    /** The part of a submission after the board has answered. Nobody else settles the application,
        but it may have been deleted in between; then the save fails and nothing changes. */
    method RecordReply(id: Guid, reply: BoardReply, now: int) returns (saved: bool)
      requires id in db.applications ==> db.applications[id].status.Submitted?
      modifies db`applications
      ensures saved <==> id in old(db.applications)
      ensures db.View(now) == Answered(lib.hash, old(db.View(now)), id, reply)
    {
      if id !in db.applications {
        return false;
      }
      var application := db.applications[id];
      if reply.Receipt? && !Blank(reply.signature) && reply.valid {
        application := application.(status := Accepted, receipt := Some(reply.text));
        application := application.(receiptSignature := Some(reply.signature), receiptHash := Some(lib.hash(reply.text)));
      } else {
        application := application.(status := Failed);
      }
      db.applications := db.applications[id := application];
      return true;
    }
  }
}
