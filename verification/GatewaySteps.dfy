/** The steps of the gateway row by row: who may take one, which columns it writes, and that it
    leaves everything else alone. */
module GatewaySteps {
  import opened Common
  import opened Timestamps
  import opened Canonical
  import opened AuditTables
  import opened Domain
  import opened ConsentTokens
  import opened DataSubjects
  import opened Gateway
  import opened GatewayInvariant
  import opened KeyTheorems
  import opened Promises
  import Req = ConsentRequests

  // ----- Durations -----

  /** The configured days in ticks: a token lives at least one day and a key at least thirty, a negative
      lead or grace period is none, and the rotation lead ends at the key lifetime as configured. */
  lemma Durations(o: Options)
    ensures TokenLifetime(o) == (if 1 <= o.tokenLifetimeDays then o.tokenLifetimeDays else 1) * 864_000_000_000
    ensures KeyLifetime(o) == (if 30 <= o.keyLifetimeDays then o.keyLifetimeDays else 30) * 864_000_000_000
    ensures RenewalLead(o) == (if 0 <= o.renewalLeadDays then o.renewalLeadDays else 0) * 864_000_000_000
    ensures Grace(o) == (if 0 <= o.expiryGraceDays then o.expiryGraceDays else 0) * 864_000_000_000
    ensures 0 <= o.rotationLeadDays <= o.keyLifetimeDays ==> RotationLead(o) == o.rotationLeadDays * 864_000_000_000
    ensures o.rotationLeadDays <= 0 <= o.keyLifetimeDays ==> RotationLead(o) == 0
    ensures 0 <= o.keyLifetimeDays <= o.rotationLeadDays ==> RotationLead(o) == o.keyLifetimeDays * 864_000_000_000
  {
  }

  // ----- Creating, revoking -----

  predicate AsksFor(caller: Caller, agent: Option<string>, email: string) {
    && caller.kind == Some(TenantType.Agent) && caller.slug.Some?
    && (agent == None || Blank(agent.value) || agent.value == caller.slug.value)
    && !Blank(email)
  }

  /** A request is created exactly if an agent asks in its own name for an address that is not blank;
      it is pending under that agent for a day, and nothing else changes. */
  lemma CreationIsExact(o: Options, lib: Library, w: World, caller: Caller, agent: Option<string>, board: string, email: string,
                        scopes: seq<string>, hash: string, id: Guid)
    ensures Act(o, lib, w, CreateRequest(caller, agent, board, email, scopes, hash, id))
         == if !AsksFor(caller, agent, email) then w
            else w.(requests := w.requests[id :=
                   Request(caller.slug.value, board, Lower(Trim(email)), ScopesOrDefault(scopes), Pending, Some(hash), 0,
                           w.clock, w.clock + DAY, None, None, None)])
  {
    NormalizedBlank(email);
    hide Lower, Trim, ScopesOrDefault, Blank;
  }

  /** A revocation takes effect on a consent that is there, whatever its state, and on nothing else. */
  lemma RevocationIsExact(o: Options, lib: Library, w: World, id: Guid)
    ensures Act(o, lib, w, Revoke(id))
         == if id !in w.consents then w
            else w.(consents := w.consents[id := w.consents[id].(status := Revoked, revokedAt := Some(w.clock))])
  {
  }

  /** A cancellation takes effect exactly if the request's own agent cancels it pending or verified. */
  lemma CancellationIsExact(o: Options, lib: Library, w: World, caller: Caller, id: Guid)
    ensures Act(o, lib, w, CancelRequest(caller, id))
         == if && id in w.requests && caller.kind == Some(TenantType.Agent) && caller.slug == Some(w.requests[id].agent)
               && (w.requests[id].status == Pending || w.requests[id].status == Verified)
            then w.(requests := w.requests[id := w.requests[id].(status := Denied, decisionAt := Some(w.clock))])
            else w
  {
    if id in w.requests {
      assert w.requests[id := w.requests[id]] == w.requests;
    }
  }

  // ----- Addresses and scopes -----

  /** Scopes are joined by single blanks, blank ones left out, and there is a default for none at all. */
  lemma {:induction false} ScopesAreJoined(a: seq<string>, b: seq<string>)
    ensures ScopesText(a + b)
         == if ScopesText(a) == "" then ScopesText(b)
            else if ScopesText(b) == "" then ScopesText(a)
            else ScopesText(a) + " " + ScopesText(b)
    ensures forall s :: ScopesText([s]) == if Blank(s) then "" else s
    ensures ScopesText([]) == ""
    ensures ScopesOrDefault(a) == if ScopesText(a) == "" then "apply:submit" else ScopesText(a)
  {
    if a == [] {
      assert a + b == b;
    } else {
      ScopesAreJoined(a[1..], b);
      assert (a + b)[0] == a[0] && (a + b)[1..] == a[1..] + b;
    }
  }

  /** Trimming takes white space off both ends and nothing else. */
  lemma {:induction false} TrimMeans(s: string) returns (i: nat, j: nat)
    ensures i <= j <= |s| && Trim(s) == s[i..j]
    ensures forall k | 0 <= k < i || j <= k < |s| :: IsWhiteSpace(s[k])
    ensures i < j ==> !IsWhiteSpace(s[i]) && !IsWhiteSpace(s[j - 1])
    decreases |s|
  {
    i, j := 0, |s|;
    if s != [] && IsWhiteSpace(s[0]) {
      i, j := TrimMeans(s[1..]);
      i, j := i + 1, j + 1;
    } else if s != [] && IsWhiteSpace(s[|s| - 1]) {
      i, j := TrimMeans(s[..|s| - 1]);
    }
  }

  /** A normalised address is the given one without the white space at its ends and in small letters. */
  lemma NormalizedMeans(email: string) returns (i: nat, j: nat)
    ensures i <= j <= |email| && |NormalizeEmail(email)| == j - i
    ensures forall k | i <= k < j ::
              NormalizeEmail(email)[k - i] == if 'A' <= email[k] <= 'Z' then email[k] - 'A' + 'a' else email[k]
    ensures forall k | 0 <= k < i || j <= k < |email| :: IsWhiteSpace(email[k])
    ensures i < j ==> !IsWhiteSpace(email[i]) && !IsWhiteSpace(email[j - 1])
  {
    i, j := TrimMeans(email);
    hide Trim;
  }

  lemma NormalizedBlank(email: string)
    ensures Blank(NormalizeEmail(email)) <==> Blank(email)
  {
    var i, j := NormalizedMeans(email);
    if i < j {
      assert NormalizeEmail(email)[0] == if 'A' <= email[i] <= 'Z' then email[i] - 'A' + 'a' else email[i];
    }
    hide NormalizeEmail;
  }

  // ----- Keys -----

  /** The tenant's key in use is retired and a new one added; every other key stays. */
  predicate KeysRotated(o: Options, keys: Keys, tenantId: Guid, m: Material, now: int, used: Option<int>, later: Keys) {
    && later.Keys == keys.Keys + {m.keyId}
    && later[m.keyId] == TenantKey(tenantId, Current, m.publicJwk, now, now + KeyLifetime(o), None, used)
    && forall k | k in keys ::
         later[k] == if keys[k].tenantId == tenantId && keys[k].status == Current
                     then keys[k].(status := Retired, retiredAt := Some(now)) else keys[k]
  }

  lemma RotatedKeys(o: Options, keys: Keys, clock: int, tenantId: Guid, m: Material, used: Option<int>)
    requires KeysOk(o, keys, clock) && m.keyId !in keys
    ensures var r := RotateKey(o, keys, tenantId, ActiveKey(keys, tenantId), m, clock);
            KeysRotated(o, keys, tenantId, m, clock, used, r[m.keyId := r[m.keyId].(lastUsedAt := used)])
  {
    forall k | k in keys && keys[k].tenantId == tenantId && keys[k].status.Current? ensures ActiveKey(keys, tenantId) == Some(k) {
      ActiveIsNewest(o, keys, clock, tenantId, k);
    }
  }

  /** A forced rotation takes place for every known tenant, whatever its keys, and touches nothing else. */
  lemma RotationIsExact(o: Options, lib: Library, past: Past, w: World, slug: string, m: Material)
    requires Reached(o, lib, past, w) && m.keyId !in w.keys
    ensures var v := Act(o, lib, w, Rotate(slug, m));
            if Blank(slug) || forall t | t in w.tenants :: t.slug != slug then v == w
            else
              v == w.(keys := v.keys) && BySlug(w.tenants, slug).Some?
              && KeysRotated(o, w.keys, BySlug(w.tenants, slug).value.id, m, w.clock, None, v.keys)
  {
    hide Inv, Reached;
    ReachedInv(o, lib, past, w);
    InvKeys(o, lib, w);
    hide KeysOk, Blank, KeysRotated, Rotated;
    RotatedIs(o, w, slug, m);
  }

  lemma RotatedIs(o: Options, w: World, slug: string, m: Material)
    requires KeysOk(o, w.keys, w.clock) && m.keyId !in w.keys
    ensures var v := Rotated(o, w, slug, m);
            if Blank(slug) || forall t | t in w.tenants :: t.slug != slug then v == w
            else
              v == w.(keys := v.keys) && BySlug(w.tenants, slug).Some?
              && KeysRotated(o, w.keys, BySlug(w.tenants, slug).value.id, m, w.clock, None, v.keys)
  {
    hide Blank;
    var tenant := BySlug(w.tenants, slug);
    if tenant.Some? {
      RotatedKeys(o, w.keys, w.clock, tenant.value.id, m, None);
    }
    hide KeysOk, KeysRotated;
  }

  /** The key is in use, belongs to the tenant with the slug, and is good for longer than the rotation lead. */
  predicate Serves(o: Options, w: World, slug: string, k: Guid)
    requires k in w.keys
  {
    && BySlug(w.tenants, slug).Some? && w.keys[k].tenantId == BySlug(w.tenants, slug).value.id
    && w.keys[k].status == Current && w.clock + RotationLead(o) < w.keys[k].expiresAt
  }

  /** A token signed for the consent's row: its columns and its record, under a key that serves, or under
      a new one if none does. */
  ghost predicate Signs(o: Options, hash: HashFn, w: World, id: Guid, c: Consent, m: Material, i: Issuance) {
    var k, tenant := i.consent.tokenKeyId, BySlug(w.tenants, c.agent);
    && i.consent == c.(tokenId := m.tokenId, tokenIssuedAt := w.clock, tokenExpiresAt := w.clock + TokenLifetime(o), tokenKeyId := k,
                       tokenHash := Some(hash(m.token)))
    && i.tokens == w.tokens[m.tokenId := TokenRecord(id, hash(m.token), k, w.clock, w.clock + TokenLifetime(o))]
    && tenant.Some?
    && if k in w.keys then Serves(o, w, c.agent, k) && i.keys == w.keys[k := w.keys[k].(lastUsedAt := Some(w.clock))]
       else && k == m.keyId && (forall j | j in w.keys :: !Serves(o, w, c.agent, j))
            && KeysRotated(o, w.keys, tenant.value.id, m, w.clock, Some(w.clock), i.keys)
  }

  lemma ServingKey(o: Options, w: World, slug: string, j: Guid)
    requires KeysOk(o, w.keys, w.clock) && Constructible(o) && j in w.keys && Serves(o, w, slug, j)
    ensures ActiveKey(w.keys, BySlug(w.tenants, slug).value.id) == Some(j) && HasGoodKey(o, w.keys, BySlug(w.tenants, slug).value.id, w.clock)
  {
    ActiveIsNewest(o, w.keys, w.clock, BySlug(w.tenants, slug).value.id, j);
  }

  lemma IssuanceIsExact(o: Options, hash: HashFn, w: World, id: Guid, c: Consent, m: Material)
    requires KeysOk(o, w.keys, w.clock) && Constructible(o) && m.keyId !in w.keys
    ensures IssueToken(o, hash, w, id, c, m).None? <==> forall t | t in w.tenants :: t.slug != c.agent
    ensures IssueToken(o, hash, w, id, c, m).Some? ==> Signs(o, hash, w, id, c, m, IssueToken(o, hash, w, id, c, m).value)
  {
    hide EnsureActiveKey, SigningKey, KeysOk, KeysRotated, Serves;
    if BySlug(w.tenants, c.agent).Some? {
      SigningKeyServes(o, w, c.agent, m);
    }
  }

  lemma SigningKeyServes(o: Options, w: World, slug: string, m: Material)
    requires KeysOk(o, w.keys, w.clock) && Constructible(o) && m.keyId !in w.keys && BySlug(w.tenants, slug).Some?
    ensures var t := BySlug(w.tenants, slug).value.id;
            var k, keys := SigningKey(o, w.keys, t, m, w.clock), EnsureActiveKey(o, w.keys, t, m, w.clock);
            if k in w.keys then Serves(o, w, slug, k) && keys == w.keys
            else && k == m.keyId && (forall j | j in w.keys :: !Serves(o, w, slug, j))
                 && KeysRotated(o, w.keys, t, m, w.clock, Some(w.clock), keys[k := keys[k].(lastUsedAt := Some(w.clock))])
  {
    var t := BySlug(w.tenants, slug).value.id;
    forall j | j in w.keys && Serves(o, w, slug, j) ensures HasGoodKey(o, w.keys, t, w.clock) {
      ServingKey(o, w, slug, j);
    }
    RotatedKeys(o, w.keys, w.clock, t, m, Some(w.clock));
    hide KeysOk, KeysRotated;
  }

  // ----- Renewing -----

  predicate MayRenewNow(o: Options, w: World, caller: Caller, id: Guid) {
    && id in w.consents
    && var c := w.consents[id];
       && caller.kind == Some(TenantType.Agent) && caller.slug == Some(c.agent)
       && c.status == Active && w.clock < c.expiresAt && c.tokenExpiresAt - RenewalLead(o) <= w.clock
  }

  /** A renewal takes place exactly if the consent's own agent asks, the consent is active and not
      expired, and the window before the token's expiry has opened; the consent's row gets a newly
      signed token and keeps every other column, its expiry among them. */
  lemma RenewalIsExact(o: Options, lib: Library, past: Past, w: World, caller: Caller, id: Guid, m: Material)
    requires Reached(o, lib, past, w) && m.keyId !in w.keys
    ensures !MayRenewNow(o, w, caller, id) ==> Act(o, lib, w, Renew(caller, id, m)) == w
    ensures MayRenewNow(o, w, caller, id) ==>
              var issued := IssueToken(o, lib.hash, w, id, w.consents[id], m);
              && issued.Some? && Signs(o, lib.hash, w, id, w.consents[id], m, issued.value)
              && Act(o, lib, w, Renew(caller, id, m))
              == w.(consents := w.consents[id := issued.value.consent], keys := issued.value.keys, tokens := issued.value.tokens,
                    handedOut := w.handedOut[m.tokenId := m.token])
  {
    hide Inv, Reached;
    ReachedInv(o, lib, past, w);
    InvKeys(o, lib, w);
    hide KeysOk, Signs, IssueToken, MayRenewNow, Renewed;
    RenewsNow(o, lib, w, caller, id, m);
    if MayRenewNow(o, w, caller, id) {
      IssuanceIsExact(o, lib.hash, w, id, w.consents[id], m);
    }
  }

  lemma RenewsNow(o: Options, lib: Library, w: World, caller: Caller, id: Guid, m: Material)
    requires Inv(o, lib, w)
    ensures !MayRenewNow(o, w, caller, id) ==> Renewed(o, lib, w, Renew(caller, id, m)) == w
    ensures MayRenewNow(o, w, caller, id) ==>
              var issued := IssueToken(o, lib.hash, w, id, w.consents[id], m);
              issued.Some? && Renewed(o, lib, w, Renew(caller, id, m)) == Stored(w, id, issued.value.consent, issued.value, m)
  {
    hide Inv, IssueToken;
    if id in w.consents {
      ConsentFacts(o, lib, w, id);
      KnownAgent(o, lib.hash, w, id, w.consents[id], m);
    }
    hide RenewalLead;
  }

  lemma KnownAgent(o: Options, hash: HashFn, w: World, id: Guid, c: Consent, m: Material)
    ensures IssueToken(o, hash, w, id, c, m).Some? <==> BySlug(w.tenants, c.agent).Some?
  {
    hide EnsureActiveKey, SigningKey;
  }

  lemma ConsentFacts(o: Options, lib: Library, w: World, id: Guid)
    requires Inv(o, lib, w) && id in w.consents
    ensures var c := w.consents[id];
            c.candidateId in w.candidates && BySlug(w.tenants, c.agent).Some? && c.expiresAt <= c.tokenExpiresAt
  {
    hide Ledger;
    assert ConsentOk(o, lib, w, id, w.consents[id]);
  }

  // ----- Deciding -----

  /** The candidate that an approval names has the request's address and is the one that was there, if
      any was; nobody else is added or changed. */
  predicate Named(w: World, email: string, drawn: Guid, candidate: Guid, later: Candidates) {
    && HasEmail(later, email, candidate)
    && if exists c | c in w.candidates :: w.candidates[c].email == email then later == w.candidates
       else candidate == drawn && later == w.candidates[drawn := Candidate(email, w.clock)]
  }

  lemma CandidateIsNamed(w: World, r: Request, drawn: Guid)
    requires Lower(r.email) == r.email && drawn !in w.candidates
    ensures var candidate := CandidateFor(w, r, drawn);
            Named(w, r.email, drawn, candidate, WithCandidate(w.candidates, candidate, r.email, w.clock))
  {
    hide Lower;
    if c :| c in w.candidates && w.candidates[c].email == r.email {
      assert HasEmail(w.candidates, r.email, c);
    }
  }

  /** The consent as it stands before its token: what the request asked for, for the candidate, for as
      long as its first token lives. */
  predicate Granted(o: Options, r: Request, candidate: Guid, now: int, c: Consent) {
    && c.candidateId == candidate && c.agent == r.agent && c.board == r.board && c.scopes == r.scopes && c.approvedByEmail == r.email
    && c.status == Active && c.issuedAt == now && c.expiresAt == now + TokenLifetime(o) && c.revokedAt == None
  }

  /** What an approval leaves behind. */
  ghost predicate Approves(o: Options, hash: HashFn, w: World, step: Step, v: World)
    requires step.Decide? && step.id in w.requests
  {
    var r, id := w.requests[step.id], step.consentId;
    && v.requests == w.requests[step.id := r.(status := Approved, decisionAt := Some(w.clock), consentId := Some(id), codeHash := None)]
    && v.handedOut == w.handedOut[step.material.tokenId := step.material.token]
    && v.applications == w.applications && v.tenants == w.tenants && v.clock == w.clock
    && id in v.consents && v.consents == w.consents[id := v.consents[id]]
    && var c := v.consents[id];
       && Granted(o, r, c.candidateId, w.clock, c) && Named(w, r.email, step.candidateId, c.candidateId, v.candidates)
       && Signs(o, hash, w, id, c, step.material, Issuance(c, v.keys, v.tokens))
  }

  /** An approval takes effect exactly on a verified request before its expiry whose agent is a known
      tenant; then the request, its candidate, its consent and the consent's token are stored together. */
  lemma ApprovalIsExact(o: Options, lib: Library, past: Past, w: World, step: Step)
    requires Reached(o, lib, past, w) && step.Decide? && step.approve && Enabled(o, lib, w, step)
    requires step.id in w.requests && w.requests[step.id].status == Verified && w.clock < w.requests[step.id].expiresAt
    ensures if exists t | t in w.tenants :: t.slug == w.requests[step.id].agent
            then Approves(o, lib.hash, w, step, Act(o, lib, w, step)) else Act(o, lib, w, step) == w
  {
    hide Inv, Reached;
    ReachedInv(o, lib, past, w);
    InvKeys(o, lib, w);
    RequestInvariant(o, lib, w, step.id);
    hide KeysOk, Linked, Approves, Decided;
    DrawnKey(o, lib, w, step);
    DecisionApproves(o, lib, w, step);
  }

  lemma DrawnKey(o: Options, lib: Library, w: World, step: Step)
    requires step.Decide? && Enabled(o, lib, w, step)
    ensures step.material.keyId !in w.keys && step.candidateId !in w.candidates
  {
    hide IssuanceOf;
  }

  lemma DecisionApproves(o: Options, lib: Library, w: World, step: Step)
    requires step.Decide? && step.approve && step.id in w.requests
    requires w.requests[step.id].status == Verified && w.clock < w.requests[step.id].expiresAt && Lower(w.requests[step.id].email) == w.requests[step.id].email
    requires KeysOk(o, w.keys, w.clock) && Constructible(o) && step.material.keyId !in w.keys && step.candidateId !in w.candidates
    ensures if exists t | t in w.tenants :: t.slug == w.requests[step.id].agent
            then Approves(o, lib.hash, w, step, Decided(o, lib, w, step)) else Decided(o, lib, w, step) == w
  {
    hide KeysOk, IssueToken, Signs, Lower, Named, CandidateFor, WithCandidate;
    var r := w.requests[step.id];
    var draft := Draft(r, CandidateFor(w, r, step.candidateId), w.clock);
    var issued := IssueToken(o, lib.hash, w, step.consentId, draft, step.material);
    IssuanceIsExact(o, lib.hash, w, step.consentId, draft, step.material);
    CandidateIsNamed(w, r, step.candidateId);
    if issued.Some? {
      SignsMinted(o, lib.hash, w, step.consentId, draft, step.material, issued.value);
    }
  }

  lemma SignsMinted(o: Options, hash: HashFn, w: World, id: Guid, draft: Consent, m: Material, i: Issuance)
    requires Signs(o, hash, w, id, draft, m, i)
    ensures var c := Minted(i.consent);
            && Signs(o, hash, w, id, c, m, Issuance(c, i.keys, i.tokens))
            && c == draft.(expiresAt := w.clock + TokenLifetime(o), tokenId := c.tokenId, tokenIssuedAt := c.tokenIssuedAt,
                           tokenExpiresAt := c.tokenExpiresAt, tokenKeyId := c.tokenKeyId, tokenHash := c.tokenHash)
  {
    hide KeysRotated, Serves;
  }
}
