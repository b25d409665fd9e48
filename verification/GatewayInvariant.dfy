/** What every reachable world of the gateway satisfies, and that each step keeps it. */
module GatewayInvariant {
  import opened Common
  import opened Timestamps
  import opened Canonical
  import opened AuditTables
  import opened Domain
  import opened ConsentTokens
  import opened DataSubjects
  import opened Gateway
  import Req = ConsentRequests

  // ----- The invariant -----

  /** A request that names a consent shares its tenants, its scopes and its candidate's address. */
  predicate Linked(r: Request, consents: Consents, candidates: Candidates) {
    r.consentId.Some? ==>
      && r.consentId.value in consents
      && var c := consents[r.consentId.value];
         && c.agent == r.agent && c.board == r.board && c.scopes == r.scopes && c.approvedByEmail == r.email
         && HasEmail(candidates, r.email, c.candidateId)
  }

  predicate RequestOk(r: Request, clock: int) {
    Lower(r.email) == r.email && (r.status.Expired? ==> r.expiresAt <= clock)
  }

  predicate RequestsOk(w: World) {
    forall r | r in w.requests :: RequestOk(w.requests[r], w.clock) && Linked(w.requests[r], w.consents, w.candidates)
  }

  /** The consent's columns describe the token last handed out for it, which reads back and
      validates under its key. */
  predicate Carries(o: Options, lib: Library, tenants: seq<Tenant>, keys: Keys, handedOut: map<Guid, string>, id: Guid, c: Consent) {
    && c.tokenId in handedOut && c.tokenHash == Some(lib.hash(handedOut[c.tokenId]))
    && lib.readJwt(handedOut[c.tokenId]) == Some(Content(id, c)) && lib.parseGuid(c.tokenId) == Some(c.tokenId)
    && c.tokenKeyId in keys && lib.validJwt(handedOut[c.tokenId], keys[c.tokenKeyId].publicJwk, o.issuer, c.board)
    && BySlug(tenants, c.agent).Some? && keys[c.tokenKeyId].tenantId == BySlug(tenants, c.agent).value.id
  }

  predicate Dated(o: Options, clock: int, c: Consent) {
    && c.issuedAt <= c.tokenIssuedAt <= clock
    && c.expiresAt == c.issuedAt + TokenLifetime(o) && c.tokenExpiresAt == c.tokenIssuedAt + TokenLifetime(o)
  }

  function TokensOf(tokens: map<Guid, TokenRecord>, id: Guid): set<Guid> {
    set t | t in tokens && tokens[t].consentId == id
  }

  /** How often the consent's token has been replaced. */
  function Renewals(tokens: map<Guid, TokenRecord>, id: Guid): int {
    |TokensOf(tokens, id)| - 1
  }

  /** The time between two issuances for a consent is at least this. */
  function Gap(o: Options): int {
    TokenLifetime(o) - RenewalLead(o)
  }

  predicate Ledger(o: Options, tokens: map<Guid, TokenRecord>, id: Guid, c: Consent) {
    && c.tokenId in TokensOf(tokens, id)
    && (forall t | t in TokensOf(tokens, id) :: tokens[t].issuedAt <= c.tokenIssuedAt)
    && Renewals(tokens, id) * Gap(o) <= c.tokenIssuedAt - c.issuedAt
    && (Renewals(tokens, id) > 0 ==> c.tokenIssuedAt < c.expiresAt)
  }

  predicate ConsentOk(o: Options, lib: Library, w: World, id: Guid, c: Consent) {
    && c.candidateId in w.candidates
    && Carries(o, lib, w.tenants, w.keys, w.handedOut, id, c)
    && Dated(o, w.clock, c)
    && Ledger(o, w.tokens, id, c)
  }

  /** A token record belongs to a consent, and its token does not outlive its key if the token
      lifetime is within the rotation lead. */
  predicate TokenOk(o: Options, w: World, id: Guid, t: TokenRecord) {
    && t.consentId in w.consents && id in w.handedOut && t.keyId in w.keys
    && (TokenLifetime(o) <= RotationLead(o) ==> t.expiresAt <= w.keys[t.keyId].expiresAt)
  }

  predicate ApplicationOk(hash: HashFn, consents: Consents, a: Application) {
    && a.consentId in consents && consents[a.consentId].agent == a.agent && consents[a.consentId].board == a.board
    && (a.receipt.Some? ==> a.receiptHash == Some(hash(a.receipt.value)))
  }

  predicate OneHolder(consents: Consents, a: Guid, b: Guid)
    requires a in consents && b in consents
  {
    consents[a].tokenId == consents[b].tokenId ==> a == b
  }

  predicate OneCandidate(candidates: Candidates, a: Guid, b: Guid)
    requires a in candidates && b in candidates
  {
    candidates[a].email == candidates[b].email ==> a == b
  }

  predicate UniqueTokens(consents: Consents) {
    forall a, b | a in consents && b in consents :: OneHolder(consents, a, b)
  }

  predicate UniqueEmails(candidates: Candidates) {
    forall a, b | a in candidates && b in candidates :: OneCandidate(candidates, a, b)
  }

  predicate ConsentsOk(o: Options, lib: Library, w: World) {
    forall c | c in w.consents :: ConsentOk(o, lib, w, c, w.consents[c])
  }

  predicate TokensOk(o: Options, w: World) {
    forall t | t in w.tokens :: TokenOk(o, w, t, w.tokens[t])
  }

  predicate ApplicationsOk(hash: HashFn, w: World) {
    forall a | a in w.applications :: ApplicationOk(hash, w.consents, w.applications[a])
  }

  ghost predicate Inv(o: Options, lib: Library, w: World) {
    && KeysOk(o, w.keys, w.clock)
    && UniqueTokens(w.consents) && UniqueEmails(w.candidates)
    && ConsentsOk(o, lib, w) && TokensOk(o, w) && ApplicationsOk(lib.hash, w) && RequestsOk(w)
  }

  // ----- Rows that a step leaves alone -----

  predicate Extended<T(==)>(m: map<Guid, T>, later: map<Guid, T>) {
    forall k | k in m :: k in later && later[k] == m[k]
  }

  lemma ConsentFrame(o: Options, lib: Library, w: World, v: World, id: Guid)
    requires id in w.consents && ConsentOk(o, lib, w, id, w.consents[id])
    requires v.tenants == w.tenants && w.clock <= v.clock && w.consents[id].candidateId in v.candidates
    requires Extended(w.handedOut, v.handedOut) && Grown(w.keys, v.keys)
    requires TokensOf(v.tokens, id) == TokensOf(w.tokens, id)
    requires forall t | t in TokensOf(w.tokens, id) :: v.tokens[t] == w.tokens[t]
    ensures ConsentOk(o, lib, v, id, w.consents[id])
  {
  }

  lemma TokenFrame(o: Options, w: World, v: World, t: Guid)
    requires t in w.tokens && TokenOk(o, w, t, w.tokens[t])
    requires w.tokens[t].consentId in v.consents && Extended(w.handedOut, v.handedOut) && Grown(w.keys, v.keys)
    ensures TokenOk(o, v, t, w.tokens[t])
  {
  }

  /** Steps that leave the consents, candidates and tokens as they are and only add keys. */
  predicate Still(w: World, v: World) {
    && v.tenants == w.tenants && v.candidates == w.candidates && v.consents == w.consents
    && v.tokens == w.tokens && v.handedOut == w.handedOut && Grown(w.keys, v.keys) && w.clock <= v.clock
  }

  lemma StillKeeps(o: Options, lib: Library, w: World, v: World)
    requires Inv(o, lib, w) && Still(w, v) && KeysOk(o, v.keys, v.clock)
    requires ApplicationsOk(lib.hash, v) && RequestsOk(v)
    ensures Inv(o, lib, v)
  {
    hide Carries, Ledger, Dated, UniqueEmails, UniqueTokens, KeysOk, ApplicationOk, Linked, RequestOk;
    forall c | c in v.consents ensures ConsentOk(o, lib, v, c, v.consents[c]) {
      ConsentFrame(o, lib, w, v, c);
    }
    forall t | t in v.tokens ensures TokenOk(o, v, t, v.tokens[t]) {
      assert v.tokens[t].consentId in w.consents;
      TokenFrame(o, w, v, t);
    }
  }

  lemma LaterKeysOk(o: Options, keys: Keys, clock: int, now: int)
    requires KeysOk(o, keys, clock) && clock <= now
    ensures KeysOk(o, keys, now)
  {
    forall k | k in keys ensures KeyOk(o, keys[k], now) && Led(keys, keys[k].tenantId) {
      assert KeyOk(o, keys[k], clock);
    }
  }

  lemma TimePasses(o: Options, lib: Library, w: World, now: int)
    requires Inv(o, lib, w) && w.clock <= now
    ensures Inv(o, lib, At(w, now))
  {
    LaterKeysOk(o, w.keys, w.clock, now);
    hide KeysOk, ApplicationOk, Linked, ConsentsOk, TokensOk, UniqueTokens, UniqueEmails;
    StillKeeps(o, lib, w, At(w, now));
  }

  lemma RequestKept(o: Options, lib: Library, w: World, id: Guid, r: Request)
    requires Inv(o, lib, w) && RequestOk(r, w.clock) && Linked(r, w.consents, w.candidates)
    ensures Inv(o, lib, SetRequest(w, id, r))
  {
    hide KeysOk;
    StillKeeps(o, lib, w, SetRequest(w, id, r));
  }

  // ----- Issuing -----

  /** Issuing keeps the keys in order, and the token lives no longer than its key if the token
      lifetime is within the rotation lead. */
  lemma IssuanceKeys(o: Options, hash: HashFn, w: World, id: Guid, c: Consent, m: Material)
    requires KeysOk(o, w.keys, w.clock) && Constructible(o) && m.keyId !in w.keys
    requires IssueToken(o, hash, w, id, c, m).Some?
    ensures var i := IssueToken(o, hash, w, id, c, m).value;
            && KeysOk(o, i.keys, w.clock) && Grown(w.keys, i.keys)
            && i.consent.tokenKeyId in i.keys && i.keys[i.consent.tokenKeyId].tenantId == BySlug(w.tenants, c.agent).value.id
            && !i.keys[i.consent.tokenKeyId].status.Retired?
            && (TokenLifetime(o) <= RotationLead(o) ==> i.consent.tokenExpiresAt <= i.keys[i.consent.tokenKeyId].expiresAt)
  {
    var t, now := BySlug(w.tenants, c.agent).value.id, w.clock;
    var keys, k := EnsureActiveKey(o, w.keys, t, m, now), SigningKey(o, w.keys, t, m, now);
    if !HasGoodKey(o, w.keys, t, now) {
      RotationKeepsKeysOk(o, w.keys, now, t, m);
    }
    TouchKeepsKeysOk(o, keys, now, k, Some(now));
  }

  lemma TokenAdded(tokens: map<Guid, TokenRecord>, t: Guid, rec: TokenRecord, id: Guid)
    requires t !in tokens
    ensures TokensOf(tokens[t := rec], id) == if rec.consentId == id then TokensOf(tokens, id) + {t} else TokensOf(tokens, id)
    ensures t !in TokensOf(tokens, id)
    ensures Renewals(tokens[t := rec], id) == Renewals(tokens, id) + if rec.consentId == id then 1 else 0
  {
    assert TokensOf(tokens[t := rec], id) == if rec.consentId == id then TokensOf(tokens, id) + {t} else TokensOf(tokens, id);
  }

  lemma FreshToken(o: Options, w: World, t: Guid)
    requires TokensOk(o, w) && t !in w.handedOut
    ensures t !in w.tokens
  {
  }

  /** Consents are only added, and who they are between stays. */
  predicate SameParties(consents: Consents, later: Consents) {
    forall c | c in consents ::
      && c in later && later[c].agent == consents[c].agent && later[c].board == consents[c].board
      && later[c].candidateId == consents[c].candidateId && later[c].scopes == consents[c].scopes
      && later[c].approvedByEmail == consents[c].approvedByEmail
  }

  /** An issuance and the row it is stored in. */
  ghost predicate Issues(o: Options, lib: Library, w: World, id: Guid, base: Consent, m: Material, i: Issuance, c: Consent) {
    && Constructible(o) && m.tokenId !in w.handedOut && m.keyId !in w.keys
    && IssueToken(o, lib.hash, w, id, base, m) == Some(i) && Written(o, lib, id, i, m)
    && c == i.consent.(expiresAt := c.expiresAt)
    && base.candidateId in w.candidates
    && (id in w.consents ==>
          var d := w.consents[id];
          && d.agent == base.agent && d.board == base.board && d.candidateId == base.candidateId
          && d.scopes == base.scopes && d.approvedByEmail == base.approvedByEmail)
  }

  lemma StoredTokens(o: Options, lib: Library, w: World, id: Guid, base: Consent, m: Material, i: Issuance, c: Consent)
    requires Issues(o, lib, w, id, base, m, i, c) && KeysOk(o, w.keys, w.clock) && TokensOk(o, w)
    ensures TokensOk(o, Stored(w, id, c, i, m))
  {
    hide KeysOk, Content;
    var v := Stored(w, id, c, i, m);
    IssuanceKeys(o, lib.hash, w, id, base, m);
    forall t | t in v.tokens ensures TokenOk(o, v, t, v.tokens[t]) {
      if t != m.tokenId {
        TokenFrame(o, w, v, t);
      }
    }
  }

  lemma StoredConsents(o: Options, lib: Library, w: World, id: Guid, base: Consent, m: Material, i: Issuance, c: Consent)
    requires Issues(o, lib, w, id, base, m, i, c) && KeysOk(o, w.keys, w.clock) && TokensOk(o, w) && ConsentsOk(o, lib, w)
    requires Dated(o, w.clock, c) && Ledger(o, i.tokens, id, c)
    ensures ConsentsOk(o, lib, Stored(w, id, c, i, m))
  {
    var v := Stored(w, id, c, i, m);
    assert ConsentOk(o, lib, v, id, c) by {
      IssuanceKeys(o, lib.hash, w, id, base, m);
      StoredCarries(o, lib, w, id, base, m, i, c);
    }
    hide KeysOk, Content, Ledger, Dated, Carries, Issues, TokensOk;
    forall d | d in v.consents ensures ConsentOk(o, lib, v, d, v.consents[d]) {
      if d != id {
        OtherConsent(o, lib, w, id, base, m, i, c, d);
      }
    }
  }

  lemma StoredCarries(o: Options, lib: Library, w: World, id: Guid, base: Consent, m: Material, i: Issuance, c: Consent)
    requires Issues(o, lib, w, id, base, m, i, c) && KeysOk(o, w.keys, w.clock)
    ensures var v := Stored(w, id, c, i, m); Carries(o, lib, v.tenants, v.keys, v.handedOut, id, c)
    ensures c.candidateId in w.candidates
  {
    hide KeysOk;
    IssuanceKeys(o, lib.hash, w, id, base, m);
    assert Content(id, c) == Content(id, i.consent);
  }

  lemma OtherConsent(o: Options, lib: Library, w: World, id: Guid, base: Consent, m: Material, i: Issuance, c: Consent, d: Guid)
    requires Issues(o, lib, w, id, base, m, i, c) && KeysOk(o, w.keys, w.clock) && TokensOk(o, w)
    requires d in w.consents && d != id && ConsentOk(o, lib, w, d, w.consents[d])
    ensures ConsentOk(o, lib, Stored(w, id, c, i, m), d, w.consents[d])
  {
    hide KeysOk, ConsentOk, TokensOk, Written;
    var v := Stored(w, id, c, i, m);
    IssuanceKeys(o, lib.hash, w, id, base, m);
    assert m.tokenId !in w.tokens by { FreshToken(o, w, m.tokenId); }
    TokenAdded(w.tokens, m.tokenId, i.tokens[m.tokenId], d);
    assert w.consents[d].candidateId in w.candidates by { ConsentHasCandidate(o, lib, w, d); }
    ConsentFrame(o, lib, w, v, d);
  }

  lemma ConsentHasCandidate(o: Options, lib: Library, w: World, d: Guid)
    requires d in w.consents && ConsentOk(o, lib, w, d, w.consents[d])
    ensures w.consents[d].candidateId in w.candidates && w.consents[d].tokenId in w.handedOut
  {
  }

  lemma StoredUnique(o: Options, lib: Library, w: World, id: Guid, base: Consent, m: Material, i: Issuance, c: Consent)
    requires Issues(o, lib, w, id, base, m, i, c) && ConsentsOk(o, lib, w) && UniqueTokens(w.consents)
    ensures UniqueTokens(Stored(w, id, c, i, m).consents)
  {
    hide Carries, Ledger, Dated, Written;
    var v := Stored(w, id, c, i, m);
    assert c.tokenId == m.tokenId;
    forall a, b | a in v.consents && b in v.consents ensures OneHolder(v.consents, a, b) {
      if a != id { ConsentHasCandidate(o, lib, w, a); }
      if b != id { ConsentHasCandidate(o, lib, w, b); }
      if a != id && b != id { assert OneHolder(w.consents, a, b); }
    }
  }

  /** Storing an issuance keeps everything but the requests' part, which depends on the step. */
  lemma StoredKeeps(o: Options, lib: Library, w: World, id: Guid, base: Consent, m: Material, i: Issuance, c: Consent, v: World)
    requires Inv(o, lib, w) && Issues(o, lib, w, id, base, m, i, c)
    requires Dated(o, w.clock, c) && Ledger(o, i.tokens, id, c)
    requires v == Stored(w, id, c, i, m).(requests := v.requests) && RequestsOk(v)
    ensures Inv(o, lib, v)
  {
    StoredUnique(o, lib, w, id, base, m, i, c);
    StoredTokens(o, lib, w, id, base, m, i, c);
    StoredConsents(o, lib, w, id, base, m, i, c);
    IssuanceKeys(o, lib.hash, w, id, base, m);
    BaseKeepsParties(o, lib, w, id, base, m, i, c);
    hide KeysOk, UniqueEmails, UniqueTokens, RequestsOk, Issues, ConsentsOk, TokensOk, Dated, Ledger;
    OtherRequests(o, lib, Stored(w, id, c, i, m), v);
    ApplicationsKept(lib.hash, w, v);
  }

  lemma OtherRequests(o: Options, lib: Library, u: World, v: World)
    requires ConsentsOk(o, lib, u) && TokensOk(o, u) && v == u.(requests := v.requests)
    ensures ConsentsOk(o, lib, v) && TokensOk(o, v)
  {
    hide Carries, Ledger, Dated;
    forall d | d in v.consents ensures ConsentOk(o, lib, v, d, v.consents[d]) { assert ConsentOk(o, lib, u, d, u.consents[d]); }
    forall t | t in v.tokens ensures TokenOk(o, v, t, v.tokens[t]) { assert TokenOk(o, u, t, u.tokens[t]); }
  }

  lemma ApplicationsKept(hash: HashFn, w: World, v: World)
    requires ApplicationsOk(hash, w) && v.applications == w.applications
    requires SameParties(w.consents, v.consents)
    ensures ApplicationsOk(hash, v)
  {
    forall a | a in v.applications ensures ApplicationOk(hash, v.consents, v.applications[a]) {
      assert ApplicationOk(hash, w.consents, w.applications[a]);
    }
  }

  lemma BaseKeepsParties(o: Options, lib: Library, w: World, id: Guid, base: Consent, m: Material, i: Issuance, c: Consent)
    requires Issues(o, lib, w, id, base, m, i, c)
    ensures c.agent == base.agent && c.board == base.board && c.candidateId == base.candidateId
    ensures var v := Stored(w, id, c, i, m);
            SameParties(w.consents, v.consents)
  {
  }

  // ----- Renewing -----

  lemma RenewKeeps(o: Options, lib: Library, w: World, step: Step)
    requires Inv(o, lib, w) && Constructible(o) && step.Renew? && Enabled(o, lib, w, step)
    ensures Inv(o, lib, Renewed(o, lib, w, step))
  {
    hide KeysOk, Carries, UniqueEmails, UniqueTokens, RequestsOk, TokensOk, ApplicationsOk, Written, IssueToken, Ledger, Dated;
    var issued := IssuanceOf(o, lib, w, step);
    if issued.Some? {
      var id, m, i, c := step.id, step.material, issued.value, w.consents[step.id];
      assert ConsentOk(o, lib, w, id, c);
      assert m.tokenId !in w.tokens by { FreshToken(o, w, m.tokenId); }
      RenewedLedger(o, lib.hash, w, id, m, i);
      var v := Stored(w, id, i.consent, i, m);
      assert Issues(o, lib, w, id, c, m, i, i.consent);
      assert RequestsOk(v) by {
        BaseKeepsParties(o, lib, w, id, c, m, i, i.consent);
        RequestsKept(w, v);
      }
      StoredKeeps(o, lib, w, id, c, m, i, i.consent, v);
    }
  }

  lemma RequestsKept(w: World, v: World)
    requires RequestsOk(w) && v.requests == w.requests && v.clock == w.clock
    requires SameParties(w.consents, v.consents) && Extended(w.candidates, v.candidates)
    ensures RequestsOk(v)
  {
    forall r | r in v.requests ensures RequestOk(v.requests[r], v.clock) && Linked(v.requests[r], v.consents, v.candidates) {
      assert Linked(w.requests[r], w.consents, w.candidates);
    }
  }

  lemma OneMore(n: int, gap: int, since: int, elapsed: int)
    requires n * gap <= since && gap <= elapsed
    ensures (n + 1) * gap <= since + elapsed
  {
    assert (n + 1) * gap == n * gap + gap;
  }

  /** Each renewal comes at least the gap after the issuance before it, and before expiry. */
  lemma RenewedLedger(o: Options, hash: HashFn, w: World, id: Guid, m: Material, i: Issuance)
    requires id in w.consents && Dated(o, w.clock, w.consents[id]) && Ledger(o, w.tokens, id, w.consents[id])
    requires Renewable(o, w, id) && IssueToken(o, hash, w, id, w.consents[id], m) == Some(i) && m.tokenId !in w.tokens
    ensures Dated(o, w.clock, i.consent) && Ledger(o, i.tokens, id, i.consent)
    ensures w.clock - w.consents[id].tokenIssuedAt >= Gap(o)
  {
    hide EnsureActiveKey, SigningKey, TokenLifetime, RenewalLead, Renewals;
    var c := w.consents[id];
    TokenAdded(w.tokens, m.tokenId, i.tokens[m.tokenId], id);
    assert w.clock - c.tokenIssuedAt >= Gap(o);
    assert 0 <= Renewals(w.tokens, id) by { CurrentIsCounted(w.tokens, id, c.tokenId); }
    OneMore(Renewals(w.tokens, id), Gap(o), c.tokenIssuedAt - c.issuedAt, w.clock - c.tokenIssuedAt);
  }

  lemma CurrentIsCounted(tokens: map<Guid, TokenRecord>, id: Guid, t: Guid)
    requires t in TokensOf(tokens, id)
    ensures 0 <= Renewals(tokens, id)
  {
    assert TokensOf(tokens, id) != {};
  }

  // ----- Approving -----

  lemma CandidateAdded(o: Options, lib: Library, w: World, id: Guid, email: string)
    requires Inv(o, lib, w) && (id in w.candidates ==> w.candidates[id].email == email)
    requires id !in w.candidates ==> CandidateOf(w.candidates, email).None?
    ensures var v := w.(candidates := WithCandidate(w.candidates, id, email, w.clock));
            Inv(o, lib, v) && HasEmail(v.candidates, email, id) && Extended(w.candidates, v.candidates)
  {
    hide KeysOk, Carries, Ledger, Dated, UniqueTokens, Linked;
    var v := w.(candidates := WithCandidate(w.candidates, id, email, w.clock));
    forall a, b | a in v.candidates && b in v.candidates ensures OneCandidate(v.candidates, a, b) {
      if a in w.candidates && b in w.candidates { assert OneCandidate(w.candidates, a, b); }
      assert !HasEmail(w.candidates, email, a) || id in w.candidates;
      assert !HasEmail(w.candidates, email, b) || id in w.candidates;
    }
    RequestsKept(w, v);
    assert forall c | c in v.consents :: ConsentOk(o, lib, w, c, w.consents[c]);
    assert forall t | t in v.tokens :: TokenOk(o, w, t, w.tokens[t]);
  }

  lemma ApproveKeeps(o: Options, lib: Library, w: World, step: Step)
    requires Inv(o, lib, w) && Constructible(o) && step.Decide? && Enabled(o, lib, w, step)
    requires IssuanceOf(o, lib, w, step).Some?
    ensures Inv(o, lib, Approval(w, w.requests[step.id], step, IssuanceOf(o, lib, w, step).value))
  {
    hide KeysOk, Carries, UniqueEmails, UniqueTokens, RequestsOk, TokensOk, ApplicationsOk, Written, ConsentsOk, Ledger, Dated,
         EnsureActiveKey, SigningKey;
    var r, id, m := w.requests[step.id], step.consentId, step.material;
    var i := IssuanceOf(o, lib, w, step).value;
    var base := Draft(r, CandidateFor(w, r, step.candidateId), w.clock);
    var u := w.(candidates := WithCandidate(w.candidates, base.candidateId, Lower(r.email), w.clock));
    CandidateAdded(o, lib, w, base.candidateId, Lower(r.email));
    assert IssueToken(o, lib.hash, u, id, base, m) == Some(i);
    assert m.tokenId !in w.tokens by { FreshToken(o, w, m.tokenId); }
    MintedLedger(o, lib.hash, u, id, base, m, i);
    var v := Approval(w, r, step, i);
    assert RequestsOk(v) by { ApprovedRequests(u, v, step.id, id, base.candidateId); }
    StoredKeeps(o, lib, u, id, base, m, i, Minted(i.consent), v);
  }

  lemma MintedLedger(o: Options, hash: HashFn, w: World, id: Guid, base: Consent, m: Material, i: Issuance)
    requires TokensOk(o, w) && id !in w.consents && m.tokenId !in w.tokens && base.issuedAt == w.clock
    requires IssueToken(o, hash, w, id, base, m) == Some(i)
    ensures Dated(o, w.clock, Minted(i.consent)) && Ledger(o, i.tokens, id, Minted(i.consent))
  {
    hide EnsureActiveKey, SigningKey;
    TokenAdded(w.tokens, m.tokenId, i.tokens[m.tokenId], id);
    forall t | t in w.tokens ensures w.tokens[t].consentId != id { assert TokenOk(o, w, t, w.tokens[t]); }
    assert TokensOf(w.tokens, id) == {};
    assert Renewals(i.tokens, id) == 0;
  }

  lemma ApprovedRequests(w: World, v: World, id: Guid, consentId: Guid, candidateId: Guid)
    requires RequestsOk(w) && id in w.requests && v.clock == w.clock && v.candidates == w.candidates
    requires Req.Decidable(w.requests[id], w.clock)
    requires v.requests == w.requests[id := Req.ApprovedAs(w.requests[id], consentId, w.clock)]
    requires SameParties(w.consents, v.consents) && consentId in v.consents
    requires var c, r := v.consents[consentId], w.requests[id];
             && c.agent == r.agent && c.board == r.board && c.scopes == r.scopes && c.approvedByEmail == Lower(r.email)
             && c.candidateId == candidateId && HasEmail(w.candidates, Lower(r.email), candidateId)
    ensures RequestsOk(v)
  {
    forall r | r in v.requests ensures RequestOk(v.requests[r], v.clock) && Linked(v.requests[r], v.consents, v.candidates) {
      assert RequestOk(w.requests[r], w.clock) && Linked(w.requests[r], w.consents, w.candidates);
    }
  }

  // ----- The other steps -----

  lemma CreateKeeps(o: Options, lib: Library, w: World, caller: Caller, agent: Option<string>, board: string, email: string,
                    scopes: seq<string>, hash: string, id: Guid)
    requires Inv(o, lib, w)
    ensures Inv(o, lib, Created(w, caller, agent, board, email, scopes, hash, id))
  {
    hide Inv, NormalizeEmail;
    if MayCreate(caller, agent, email) {
      var r := Req.NewRequest(caller.slug.value, board, email, ScopesOrDefault(scopes), hash, w.clock);
      assert RequestOk(r, w.clock) by { NormalizedIsLower(email); }
      RequestKept(o, lib, w, id, r);
    }
  }

  lemma NormalizedIsLower(email: string)
    ensures Lower(NormalizeEmail(email)) == NormalizeEmail(email)
  {
    LowerTwice(Trim(email));
  }

  lemma RequestInvariant(o: Options, lib: Library, w: World, id: Guid)
    requires Inv(o, lib, w) && id in w.requests
    ensures RequestOk(w.requests[id], w.clock) && Linked(w.requests[id], w.consents, w.candidates)
  {
  }

  /** Whatever happens to a request's row, except its approval, keeps the invariant. */
  lemma SteppedKeeps(o: Options, lib: Library, w: World, id: Guid, event: Req.Event)
    requires Inv(o, lib, w) && !event.Approve?
    ensures Inv(o, lib, Stepped(lib.verifyCode, w, id, event))
  {
    hide Inv;
    if id in w.requests {
      RequestInvariant(o, lib, w, id);
      RequestKept(o, lib, w, id, Req.After(lib.verifyCode, w.requests[id], event, w.clock));
    }
  }

  lemma DecideKeeps(o: Options, lib: Library, w: World, step: Step)
    requires Inv(o, lib, w) && Constructible(o) && step.Decide? && Enabled(o, lib, w, step)
    ensures Inv(o, lib, Decided(o, lib, w, step))
  {
    hide Inv, IssuanceOf, Enabled, Approval;
    if step.id in w.requests {
      if !step.approve || !Req.Decidable(w.requests[step.id], w.clock) {
        SteppedKeeps(o, lib, w, step.id, Req.Deny);
      } else if IssuanceOf(o, lib, w, step).Some? {
        ApproveKeeps(o, lib, w, step);
      }
    }
  }

  lemma RotateKeeps(o: Options, lib: Library, w: World, slug: string, m: Material)
    requires Inv(o, lib, w) && m.keyId !in w.keys
    ensures Inv(o, lib, Rotated(o, w, slug, m))
  {
    hide ConsentsOk, TokensOk, UniqueEmails, UniqueTokens, KeysOk, RotateKey, ApplicationOk, RequestOk, Linked, IsActive, Grown;
    var tenant := BySlug(w.tenants, slug);
    if tenant.Some? && !Blank(slug) {
      RotationKeepsKeysOk(o, w.keys, w.clock, tenant.value.id, m);
      StillKeeps(o, lib, w, Rotated(o, w, slug, m));
    }
  }

  lemma RevokeKeeps(o: Options, lib: Library, w: World, id: Guid)
    requires Inv(o, lib, w)
    ensures Inv(o, lib, Withdrawn(w, id))
  {
    hide KeysOk, UniqueEmails, UniqueTokens, TokensOk, ApplicationsOk, RequestsOk, ConsentsOk;
    if id in w.consents {
      var v := Withdrawn(w, id);
      assert ConsentsOk(o, lib, v) by { RevokedConsents(o, lib, w, id); }
      assert UniqueTokens(v.consents) by { RevokedUnique(w, id); }
      RequestsKept(w, v);
      ApplicationsKept(lib.hash, w, v);
      RevokedTokens(o, w, id);
    }
  }

  lemma RevokedTokens(o: Options, w: World, id: Guid)
    requires TokensOk(o, w)
    ensures TokensOk(o, Withdrawn(w, id))
  {
    var v := Withdrawn(w, id);
    forall t | t in v.tokens ensures TokenOk(o, v, t, v.tokens[t]) { assert TokenOk(o, w, t, w.tokens[t]); }
  }

  lemma RevokedConsents(o: Options, lib: Library, w: World, id: Guid)
    requires ConsentsOk(o, lib, w)
    ensures ConsentsOk(o, lib, Withdrawn(w, id))
  {
    hide Ledger, Dated;
    var v := Withdrawn(w, id);
    forall c | c in v.consents ensures ConsentOk(o, lib, v, c, v.consents[c]) {
      assert ConsentOk(o, lib, w, c, w.consents[c]);
      Restated(o, w.clock, w.tokens, c, w.consents[c], Revoked, Some(w.clock));
    }
  }

  lemma RevokedUnique(w: World, id: Guid)
    requires UniqueTokens(w.consents)
    ensures UniqueTokens(Withdrawn(w, id).consents)
  {
    var v := Withdrawn(w, id);
    forall a, b | a in v.consents && b in v.consents ensures OneHolder(v.consents, a, b) {
      assert OneHolder(w.consents, a, b);
    }
  }

  /** The consent's status plays no part in its dates and ledger. */
  lemma Restated(o: Options, clock: int, tokens: map<Guid, TokenRecord>, id: Guid, c: Consent, status: ConsentStatus, at: Option<int>)
    ensures Dated(o, clock, c.(status := status, revokedAt := at)) == Dated(o, clock, c)
    ensures Ledger(o, tokens, id, c.(status := status, revokedAt := at)) == Ledger(o, tokens, id, c)
  {
  }

  lemma ApplicationsChanged(o: Options, lib: Library, w: World, applications: Applications)
    requires Inv(o, lib, w) && ApplicationsOk(lib.hash, w.(applications := applications))
    ensures Inv(o, lib, w.(applications := applications))
  {
    hide KeysOk, UniqueEmails, UniqueTokens, ConsentsOk, TokensOk, ApplicationOk;
    StillKeeps(o, lib, w, w.(applications := applications));
  }

  lemma SubmitKeeps(o: Options, lib: Library, w: World, s: Submission, id: Guid)
    requires Inv(o, lib, w)
    ensures Inv(o, lib, Applied(o, lib, w, s, id))
  {
    hide KeysOk, UniqueEmails, UniqueTokens, ConsentsOk, TokensOk, CheckToken, RequestsOk, HasSignature, Signed;
    var v := Applied(o, lib, w, s, id);
    if AcceptedFor(o, lib, w, s).Some? {
      forall a | a in v.applications ensures ApplicationOk(lib.hash, v.consents, v.applications[a]) {
        if a != id { assert ApplicationOk(lib.hash, w.consents, w.applications[a]); }
      }
      ApplicationsChanged(o, lib, w, v.applications);
    }
  }

  lemma SettledOk(hash: HashFn, consents: Consents, a: Application, reply: BoardReply)
    requires ApplicationOk(hash, consents, a)
    ensures ApplicationOk(hash, consents, Settled(hash, a, reply))
  {
  }

  lemma SettleKeeps(o: Options, lib: Library, w: World, id: Guid, reply: BoardReply)
    requires Inv(o, lib, w)
    ensures Inv(o, lib, Answered(lib.hash, w, id, reply))
  {
    hide KeysOk, UniqueEmails, UniqueTokens, ConsentsOk, TokensOk, RequestsOk, ApplicationOk, Settled;
    var v := Answered(lib.hash, w, id, reply);
    forall a | a in v.applications ensures ApplicationOk(lib.hash, v.consents, v.applications[a]) {
      SettledOk(lib.hash, w.consents, w.applications[a], reply);
    }
    ApplicationsChanged(o, lib, w, v.applications);
  }

  lemma SweepKeeps(o: Options, lib: Library, w: World, retention: RetentionOptions)
    requires Inv(o, lib, w)
    ensures Inv(o, lib, Retain(w, retention))
  {
    hide KeysOk, UniqueEmails, UniqueTokens, ConsentsOk, TokensOk, ReceiptCutoff, RequestCutoff;
    var v := Retain(w, retention);
    forall a | a in v.applications ensures ApplicationOk(lib.hash, v.consents, v.applications[a]) {
      assert ApplicationOk(lib.hash, w.consents, w.applications[a]);
    }
    StillKeeps(o, lib, w, v);
  }

  // ----- Deleting a data subject -----

  lemma WithoutConsents(o: Options, lib: Library, w: World, consents: set<Guid>, requests: set<Guid>)
    requires ConsentsOk(o, lib, w) && UniqueTokens(w.consents)
    ensures var v := Without(w, consents, requests); ConsentsOk(o, lib, v) && UniqueTokens(v.consents)
  {
    hide Carries, Dated, Ledger;
    var v := Without(w, consents, requests);
    forall c | c in v.consents ensures ConsentOk(o, lib, v, c, v.consents[c]) {
      assert TokensOf(v.tokens, c) == TokensOf(w.tokens, c);
      ConsentFrame(o, lib, w, v, c);
    }
    forall a, b | a in v.consents && b in v.consents ensures OneHolder(v.consents, a, b) {
      assert OneHolder(w.consents, a, b);
    }
  }

  lemma WithoutRequests(w: World, consents: set<Guid>, requests: set<Guid>)
    requires RequestsOk(w) && !StillNamed(w.requests - requests, consents)
    ensures RequestsOk(Without(w, consents, requests))
  {
    var v := Without(w, consents, requests);
    forall r | r in v.requests ensures RequestOk(v.requests[r], v.clock) && Linked(v.requests[r], v.consents, v.candidates) {
      assert RequestOk(w.requests[r], w.clock) && Linked(w.requests[r], w.consents, w.candidates);
    }
  }

  lemma WithoutKeeps(o: Options, lib: Library, w: World, consents: set<Guid>, requests: set<Guid>)
    requires Inv(o, lib, w) && !StillNamed(w.requests - requests, consents)
    ensures Inv(o, lib, Without(w, consents, requests))
  {
    hide KeysOk, UniqueEmails, UniqueTokens, ConsentsOk, RequestsOk, StillNamed;
    var v := Without(w, consents, requests);
    WithoutConsents(o, lib, w, consents, requests);
    WithoutRequests(w, consents, requests);
    forall t | t in v.tokens ensures TokenOk(o, v, t, v.tokens[t]) { TokenFrame(o, w, v, t); }
    forall a | a in v.applications ensures ApplicationOk(lib.hash, v.consents, v.applications[a]) {
      assert ApplicationOk(lib.hash, w.consents, w.applications[a]);
    }
  }

  lemma ForgettingKeeps(o: Options, lib: Library, w: World, candidate: Guid, email: string)
    requires Inv(o, lib, w) && HasEmail(w.candidates, email, candidate) && Forgotten(w, candidate, email)
    ensures Inv(o, lib, w.(candidates := w.candidates - {candidate}))
  {
    hide KeysOk, Carries, Dated, Ledger, UniqueTokens;
    var v := w.(candidates := w.candidates - {candidate});
    forall c | c in v.consents ensures ConsentOk(o, lib, v, c, v.consents[c]) {
      assert ConsentOk(o, lib, w, c, w.consents[c]);
    }
    forall a, b | a in v.candidates && b in v.candidates ensures OneCandidate(v.candidates, a, b) {
      assert OneCandidate(w.candidates, a, b);
    }
    forall t | t in v.tokens ensures TokenOk(o, v, t, v.tokens[t]) { assert TokenOk(o, w, t, w.tokens[t]); }
    forall r | r in v.requests ensures RequestOk(v.requests[r], v.clock) && Linked(v.requests[r], v.consents, v.candidates) {
      assert RequestOk(w.requests[r], w.clock) && Linked(w.requests[r], w.consents, w.candidates);
    }
  }

  lemma DeleteKeeps(o: Options, lib: Library, w: World, slug: string, kind: Option<TenantType>, email: string)
    requires Inv(o, lib, w)
    ensures Inv(o, lib, Erased(w, slug, kind, email))
  {
    hide Inv, Without;
    var normalized := NormalizeEmail(email);
    var candidate := CandidateOf(w.candidates, normalized);
    if candidate.Some? {
      var consents := ConsentsOf(w.consents, slug, kind, candidate.value);
      var requests := RequestsOf(w.requests, slug, kind, normalized);
      var left := Without(w, consents, requests);
      assert left.requests == w.requests - requests && left.candidates == w.candidates by { WithoutIs(w, consents, requests); }
      if !StillNamed(left.requests, consents) {
        WithoutKeeps(o, lib, w, consents, requests);
        if Forgotten(left, candidate.value, normalized) {
          ForgettingKeeps(o, lib, left, candidate.value, normalized);
        }
      }
    }
  }

  lemma WithoutIs(w: World, consents: set<Guid>, requests: set<Guid>)
    ensures Without(w, consents, requests).requests == w.requests - requests
    ensures Without(w, consents, requests).candidates == w.candidates
  {
  }

  // ----- Every step and every run -----

  lemma StepKeepsInv(o: Options, lib: Library, w: World, s: Timed)
    requires Inv(o, lib, w) && Constructible(o) && Possible(o, lib, w, s)
    ensures Inv(o, lib, After(o, lib, w, s))
  {
    hide Inv, Stepped, Created, Decided, Renewed, Rotated, Withdrawn, Applied, Answered, Erased, Retain, FreshMaterial;
    TimePasses(o, lib, w, s.now);
    var v := At(w, s.now);
    match s.step
    case CreateRequest(caller, agent, board, email, scopes, hash, id) => CreateKeeps(o, lib, v, caller, agent, board, email, scopes, hash, id);
    case ViewRequest(id) => SteppedKeeps(o, lib, v, id, Req.View);
    case PostCode(id, code) => SteppedKeeps(o, lib, v, id, Req.Post(code));
    case ResendCode(id, hash) => SteppedKeeps(o, lib, v, id, Req.Resend(hash));
    case CancelRequest(caller, id) => SteppedKeeps(o, lib, v, id, Req.Cancel);
    case Decide(_, _, _, _, _) => DecideKeeps(o, lib, v, s.step);
    case Renew(_, _, _) => RenewKeeps(o, lib, v, s.step);
    case Rotate(slug, m) => RotateKeeps(o, lib, v, slug, m);
    case Revoke(id) => RevokeKeeps(o, lib, v, id);
    case Submit(submission, id) => SubmitKeeps(o, lib, v, submission, id);
    case Settle(id, reply) => SettleKeeps(o, lib, v, id, reply);
    case DeleteSubject(slug, kind, email) => DeleteKeeps(o, lib, v, slug, kind, email);
    case Sweep(retention) => SweepKeeps(o, lib, v, retention);
  }

  /** The invariant holds in every world of every run. */
  lemma {:induction false} RunKeepsInv(o: Options, lib: Library, trace: seq<World>, steps: seq<Timed>, n: nat)
    requires Constructible(o) && Run(o, lib, trace, steps) && n < |trace|
    ensures Inv(o, lib, trace[n])
  {
    if n > 0 {
      hide Inv, After, Possible;
      RunKeepsInv(o, lib, trace, steps, n - 1);
      StepKeepsInv(o, lib, trace[n - 1], steps[n - 1]);
    }
  }
}
