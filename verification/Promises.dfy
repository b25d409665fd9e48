/** What every run of the gateway promises about its worlds: the theorems about tokens, keys and
    data subjects, for each world that a run reaches, at any instant from then on. */
module Promises {
  import opened Common
  import opened Timestamps
  import opened AuditTables
  import opened AuditChain
  import opened Domain
  import opened ConsentTokens
  import opened DataSubjects
  import opened Gateway
  import opened GatewayInvariant
  import opened TokenTheorems
  import opened KeyTheorems
  import opened DataSubjectTheorems
  import Life = KeyLifetimes

  /** A run. */
  datatype Past = Past(trace: seq<World>, steps: seq<Timed>)

  /** The world that the run leads to, at some instant from then on. */
  ghost predicate Reached(o: Options, lib: Library, past: Past, w: World) {
    && Constructible(o) && Run(o, lib, past.trace, past.steps)
    && past.trace[|past.steps|].clock <= w.clock && w == At(past.trace[|past.steps|], w.clock)
  }

  lemma ReachedInv(o: Options, lib: Library, past: Past, w: World)
    requires Reached(o, lib, past, w)
    ensures Inv(o, lib, w) && Constructible(o)
  {
    RunKeepsInv(o, lib, past.trace, past.steps, |past.steps|);
    hide Inv, Run;
    TimePasses(o, lib, past.trace[|past.steps|], w.clock);
  }

  /** The opaque form is honoured for a consent exactly if it names the consent's current token
      and the consent is active and not expired. */
  lemma OpaqueTokens(o: Options, lib: Library, past: Past, w: World, token: string, id: Guid)
    requires Reached(o, lib, past, w) && id in w.consents && "ctok:" <= token
    ensures CheckToken(o, lib, w, token) == Honoured(id)
       <==> && lib.parseGuid(token[5..]) == Some(w.consents[id].tokenId)
            && w.consents[id].status == Active && w.clock < w.consents[id].expiresAt
    ensures CheckToken(o, lib, w, token) == Unauthorized <==> lib.parseGuid(token[5..]) == None
  {
    hide Inv, Reached;
    ReachedInv(o, lib, past, w);
    HolderOfConsent(o, lib, w, id);
    ConsentDates(o, lib, w, id);
    assert token[0] == 'c';
    var tokenId := Named(lib, token);
    if tokenId.Some? && HolderOf(w.consents, tokenId.value).Some? {
      ConsentDates(o, lib, w, HolderOf(w.consents, tokenId.value).value);
    }
  }

  /** A JWT is honoured for a consent exactly if it is the very token handed out last for it, the
      consent is active and not expired, the signing key is in force, and the token's whole
      seconds with grace are not over. The hash must not confuse the two tokens. */
  lemma JwtTokens(o: Options, lib: Library, past: Past, w: World, token: string, id: Guid)
    requires Reached(o, lib, past, w) && id in w.consents && !Blank(token) && !("ctok:" <= token)
    requires w.consents[id].tokenId in w.handedOut ==> Apart(lib.hash, token, w.handedOut[w.consents[id].tokenId])
    ensures var c := w.consents[id];
            c.tokenId in w.handedOut
            && (CheckToken(o, lib, w, token) == Honoured(id)
                <==> && token == w.handedOut[c.tokenId] && c.status == Active && w.clock < c.expiresAt && KeyInForce(w, c)
                     && InTime(o, c.tokenExpiresAt / SECOND * SECOND, w.clock))
  {
    hide Inv, Reached;
    ReachedInv(o, lib, past, w);
    JwtAcceptance(o, lib, w, token, id);
  }

  /** The header's key is one of the tenant's that is not retired, and the token validates under it. */
  predicate Verifies(o: Options, lib: Library, w: World, token: string, jwt: Jwt, c: Consent) {
    && jwt.kid in w.keys && BySlug(w.tenants, c.agent).Some? && w.keys[jwt.kid].tenantId == BySlug(w.tenants, c.agent).value.id
    && w.keys[jwt.kid].status != Retired
    && lib.validJwt(token, w.keys[jwt.kid].publicJwk, o.issuer, c.board)
  }

  /** A JWT goes unauthenticated exactly if it is blank, does not read, names no token id, or names the token of a
      usable consent and does not verify; whatever else is wrong with it, it is forbidden. */
  lemma JwtUnauthorized(o: Options, lib: Library, past: Past, w: World, token: string)
    requires Reached(o, lib, past, w) && !("ctok:" <= token)
    ensures CheckToken(o, lib, w, token) == Unauthorized
       <==> || Blank(token) || lib.readJwt(token) == None || lib.parseGuid(lib.readJwt(token).value.jti) == None
            || exists c | c in w.consents ::
                 && lib.parseGuid(lib.readJwt(token).value.jti) == Some(w.consents[c].tokenId)
                 && w.consents[c].status == Active && w.clock < w.consents[c].expiresAt
                 && !Verifies(o, lib, w, token, lib.readJwt(token).value, w.consents[c])
  {
    hide Inv, Reached;
    ReachedInv(o, lib, past, w);
    var read := lib.readJwt(token);
    if read.Some? && lib.parseGuid(read.value.jti).Some? {
      var tokenId := lib.parseGuid(read.value.jti).value;
      forall c | c in w.consents && w.consents[c].tokenId == tokenId
        ensures HolderOf(w.consents, tokenId) == Some(c) && BySlug(w.tenants, w.consents[c].agent).Some?
      {
        HolderOfConsent(o, lib, w, c);
        AgentKnown(o, lib, w, c);
      }
    }
  }

  /** Whatever the hash, a JWT is honoured for a consent exactly if it names the consent's current token,
      the consent is usable, it verifies, all its claims are the consent's, it is in time, and its hash
      is the one stored. */
  lemma JwtHonoured(o: Options, lib: Library, past: Past, w: World, token: string, id: Guid)
    requires Reached(o, lib, past, w) && id in w.consents && !Blank(token) && !("ctok:" <= token)
    ensures CheckToken(o, lib, w, token) == Honoured(id)
       <==> && lib.readJwt(token).Some?
            && var jwt, c := lib.readJwt(token).value, w.consents[id];
               && lib.parseGuid(jwt.jti) == Some(c.tokenId) && c.status == Active && w.clock < c.expiresAt
               && Verifies(o, lib, w, token, jwt, c)
               && jwt.consentId == Some(id) && jwt.agent == Some(c.agent) && jwt.board == Some(c.board)
               && jwt.subject == Some(c.candidateId)
               && InTime(o, jwt.expires * SECOND, w.clock) && c.tokenHash == Some(lib.hash(token))
  {
    hide Inv, Reached;
    ReachedInv(o, lib, past, w);
    HolderOfConsent(o, lib, w, id);
    HashKept(o, lib, w, id);
  }

  lemma HashKept(o: Options, lib: Library, w: World, id: Guid)
    requires Inv(o, lib, w) && id in w.consents
    ensures w.consents[id].tokenHash.Some?
  {
    ConsentInvariant(o, lib, w, id);
  }

  lemma AgentKnown(o: Options, lib: Library, w: World, id: Guid)
    requires Inv(o, lib, w) && id in w.consents
    ensures BySlug(w.tenants, w.consents[id].agent).Some?
  {
    ConsentInvariant(o, lib, w, id);
  }

  /** Revoking a consent kills its token. */
  lemma RevocationKills(o: Options, lib: Library, past: Past, w: World, id: Guid)
    requires Reached(o, lib, past, w) && id in w.consents
    ensures Dead(Withdrawn(w, id), w.consents[id].tokenId)
  {
    hide Inv, Reached, Withdrawn, Dead, UniqueTokens;
    ReachedInv(o, lib, past, w);
    ConsentTokenKnown(o, lib, w, id);
    TokensUnique(o, lib, w);
    WithdrawnIsDead(w, id);
  }

  /** A renewal that succeeds kills the token it replaces. */
  lemma RenewalKills(o: Options, lib: Library, past: Past, w: World, step: Step)
    requires Reached(o, lib, past, w) && step.Renew? && Enabled(o, lib, w, step) && IssuanceOf(o, lib, w, step).Some?
    ensures step.id in w.consents && Dead(Renewed(o, lib, w, step), w.consents[step.id].tokenId)
  {
    hide Enabled, IssuanceOf, Renewed, Dead, Inv, Reached, UniqueTokens;
    ReachedInv(o, lib, past, w);
    RenewalIssuance(o, lib, w, step);
    ConsentTokenKnown(o, lib, w, step.id);
    TokensUnique(o, lib, w);
    ReplacedIsDead(w, Renewed(o, lib, w, step), step.id);
  }

  /** Deleting a data subject kills the tokens of the consents that go. */
  lemma ErasureKills(o: Options, lib: Library, past: Past, w: World, slug: string, kind: Option<TenantType>, email: string, id: Guid)
    requires Reached(o, lib, past, w) && id in w.consents && id !in Erased(w, slug, kind, email).consents
    ensures Dead(Erased(w, slug, kind, email), w.consents[id].tokenId)
  {
    hide Inv, Reached;
    ReachedInv(o, lib, past, w);
    var v := Erased(w, slug, kind, email);
    DeleteTokensKept(w, slug, kind, email);
    ConsentTokenKnown(o, lib, w, id);
    hide Erased;
    forall c | c in v.consents && Usable(v.consents[c], v.clock) ensures v.consents[c].tokenId != w.consents[id].tokenId {
      assert TokenKept(w, v, c);
      if c in w.consents { TokenDetermines(o, lib, w, c, id); }
    }
  }

  /** The bound is exact: whenever n(L - d) < L, a consent that has just been issued can be
      renewed n times, each time as soon as its window opens. */
  lemma RenewalsToTheBound(o: Options, lib: Library, past: Past, w: World, caller: Caller, id: Guid, ms: seq<Material>)
    requires Reached(o, lib, past, w) && id in w.consents && w.consents[id].status.Active? && MayRenew(caller, w.consents[id])
    requires Supplied(o, lib, w, caller, id, ms)
    requires w.clock == w.consents[id].tokenIssuedAt == w.consents[id].issuedAt
    requires |ms| * Gap(o) < TokenLifetime(o)
    ensures id in RenewAll(o, lib, w, caller, id, ms).consents
    ensures Renewals(RenewAll(o, lib, w, caller, id, ms).tokens, id) == Renewals(w.tokens, id) + |ms|
  {
    hide Inv, Reached;
    ReachedInv(o, lib, past, w);
    RenewalBoundReached(o, lib, w, caller, id, ms);
  }

  /** No reachable consent outlives its token, so the opaque form and renewal give the same answer
      for every length of the grace period. */
  lemma GraceInert(o: Options, p: Options, lib: Library, past: Past, w: World)
    requires Reached(o, lib, past, w) && SameButGrace(o, p)
    ensures forall text :: CheckOpaque(o, lib, w, text) == CheckOpaque(p, lib, w, text)
    ensures forall step: Step | step.Renew? :: Renewed(o, lib, w, step) == Renewed(p, lib, w, step)
  {
    hide Inv, Reached;
    ReachedInv(o, lib, past, w);
    hide CheckOpaque, Renewed;
    forall text ensures CheckOpaque(o, lib, w, text) == CheckOpaque(p, lib, w, text) {
      OpaqueEither(o, p, lib, w, text);
    }
    forall step: Step | step.Renew? ensures Renewed(o, lib, w, step) == Renewed(p, lib, w, step) {
      RenewalEither(o, p, lib, w, step);
    }
  }

  /** For the JWT form grace matters only in the last second before the token's expiry, because
      the claim holds whole seconds, and there only whether there is any grace at all. */
  lemma GraceLastSecond(o: Options, lib: Library, past: Past, w: World, id: Guid)
    requires Reached(o, lib, past, w) && id in w.consents && w.clock < w.consents[id].expiresAt
    ensures var c, claimed := w.consents[id], w.consents[id].tokenExpiresAt / SECOND * SECOND;
            && (InTime(o, claimed, w.clock) <==> o.expiryGraceDays > 0 || w.clock <= claimed)
            && (claimed <= w.clock ==> c.tokenExpiresAt - SECOND < w.clock < c.expiresAt <= c.tokenExpiresAt)
  {
    hide Inv, Reached;
    ReachedInv(o, lib, past, w);
    ConsentDates(o, lib, w, id);
  }

  /** A key that no Rotate step made comes at least the key lifetime less the rotation lead after
      every earlier key of its tenant was activated. */
  lemma RotationSpacing(o: Options, lib: Library, past: Past, w: World, s: Timed, k: Guid, earlier: Guid)
    requires Reached(o, lib, past, w) && Possible(o, lib, w, s) && !s.step.Rotate?
    requires k !in w.keys && k in After(o, lib, w, s).keys && earlier in w.keys
    requires After(o, lib, w, s).keys[k].tenantId == w.keys[earlier].tenantId
    ensures After(o, lib, w, s).keys[k].activatedAt == s.now
    ensures s.now - w.keys[earlier].activatedAt >= KeyLifetime(o) - RotationLead(o) >= 0
  {
    hide Inv, Reached;
    ReachedInv(o, lib, past, w);
    hide Enabled, Act;
    var u := At(w, s.now);
    TimePasses(o, lib, w, s.now);
    FreshKeyId(o, lib, u, s.step);
    KeysOnlyFromIssuing(o, lib, u, s.step);
    assert KeysOk(o, u.keys, u.clock) by { InvKeys(o, lib, u); }
    OrderedMaterial(o, u, s.step);
    LateIssuance(o, lib.hash, u, OrderOf(o, u, s.step).value, k, earlier);
  }

  /** Deletion removes exactly the tenant's rows with true counts, leaves every other row as it
      was, and drops the candidate exactly if no consent or request of any tenant is left. */
  lemma DeletionExact(o: Options, lib: Library, past: Past, w: World, q: Query, candidate: Guid)
    requires Reached(o, lib, past, w) && Stated(q) && Subject(w, q) == Some(candidate)
    ensures forall a | a in w.applications :: w.applications[a].consentId in w.consents
    ensures Exact(w, q, candidate, Delete(w, q.slug, q.kind, q.email))
  {
    hide Inv, Reached;
    ReachedInv(o, lib, past, w);
    DeletionIsExact(o, lib, w, q, candidate);
  }

  /** An export lists exactly the rows that a deletion would remove. */
  lemma ExportMatchesDeletion(o: Options, lib: Library, past: Past, w: World, q: Query, candidate: Guid)
    requires Reached(o, lib, past, w) && Stated(q) && Subject(w, q) == Some(candidate)
    ensures var e, d := ExportFor(w, q), DeleteFor(w, q);
            && e.Some? && d.Deleted?
            && e.value.email == w.candidates[candidate].email && e.value.createdAt == w.candidates[candidate].createdAt
            && e.value.consents == w.consents - d.world.consents.Keys
            && e.value.applications == w.applications - d.world.applications.Keys
            && e.value.requests == w.requests - d.world.requests.Keys
  {
    hide Inv, Reached;
    ReachedInv(o, lib, past, w);
    DeletionIsExact(o, lib, w, q, candidate);
    hide ConsentsOf, RequestsOf, ApplicationsOf, Forgotten, NormalizeEmail, Exact, Delete, RowsDeleted;
    assert DeleteFor(w, q).Deleted? by { ExactIsDeleted(w, q, candidate, DeleteFor(w, q)); }
    DeletedTables(w, q, candidate);
    var cs := ConsentsOf(w.consents, q.slug, q.kind, candidate);
    Complement(w.consents, cs);
    Complement(w.applications, ApplicationsOf(w.applications, cs));
    Complement(w.requests, RequestsOf(w.requests, q.slug, q.kind, NormalizeEmail(q.email)));
  }

  /** After a deletion the export is absent or lists nothing. */
  lemma NothingToExport(o: Options, lib: Library, past: Past, w: World, q: Query, candidate: Guid)
    requires Reached(o, lib, past, w) && Stated(q) && Subject(w, q) == Some(candidate)
    ensures DeleteFor(w, q).Deleted?
    ensures var e := ExportFor(DeleteFor(w, q).world, q);
            && (e.None? <==> DeleteFor(w, q).counts.candidateDeleted)
            && (e.Some? ==> EmptyExport(e.value))
  {
    hide Inv, Reached;
    ReachedInv(o, lib, past, w);
    NothingLeft(o, lib, w, q, candidate);
    hide Delete, NormalizeEmail, ConsentsOf, RequestsOf, Blank;
    EmptyIfNothingLeft(DeleteFor(w, q).world, q, candidate);
  }

  /** Tenants are apart: whatever a tenant deletes or exports, every consent, application and request
      that does not name it in the role in which it asks stays as it is and is not exported. */
  lemma TenantsApart(o: Options, lib: Library, past: Past, w: World, q: Query)
    requires Reached(o, lib, past, w)
    ensures LeftOut(w, Erased(w, q.slug, q.kind, q.email), ExportFor(w, q), q)
  {
    hide Inv, Reached;
    ReachedInv(o, lib, past, w);
    ApplicationInvariant(o, lib, w);
    hide LeftOut, Erased, Export;
    ForeignLeftOut(lib.hash, w, q);
  }

  /** A second deletion changes nothing and reports nothing. */
  lemma SecondDeletion(o: Options, lib: Library, past: Past, w: World, q: Query, candidate: Guid)
    requires Reached(o, lib, past, w) && Stated(q) && Subject(w, q) == Some(candidate)
    ensures DeleteFor(w, q).Deleted?
    ensures DeleteFor(DeleteFor(w, q).world, q) == Deleted(DeleteFor(w, q).world, Counts(0, 0, 0, false))
  {
    hide Inv, Reached, Delete, Forgotten, NormalizeEmail, ConsentsOf, RequestsOf, Blank, RowsDeleted, CountsTrue;
    ReachedInv(o, lib, past, w);
    NothingLeft(o, lib, w, q, candidate);
    DeletionIsExact(o, lib, w, q, candidate);
    var v := DeleteFor(w, q).world;
    ForgottenMeans(v, candidate, NormalizeEmail(q.email));
    SecondTime(v, q, candidate, DeleteFor(w, q).counts.candidateDeleted);
  }

  /** No reference dangles after a deletion, whoever asks and for whom. */
  lemma ReferencesHold(o: Options, lib: Library, past: Past, w: World, q: Query)
    requires Reached(o, lib, past, w)
    ensures NothingDangles(Erased(w, q.slug, q.kind, q.email))
  {
    hide Inv, Reached;
    ReachedInv(o, lib, past, w);
    DeleteKeeps(o, lib, w, q.slug, q.kind, q.email);
    InvHasNoDangles(o, lib, Erased(w, q.slug, q.kind, q.email));
  }

  /** A deletion leaves none of the tenant's requests with the address exactly if there is a
      candidate with it, or there was no such request. */
  lemma RequestsReached(o: Options, lib: Library, past: Past, w: World, q: Query)
    requires Reached(o, lib, past, w) && Stated(q)
    ensures DeleteFor(w, q).Deleted?
    ensures RequestsGone(DeleteFor(w, q).world, q) <==> Subject(w, q).Some? || RequestsGone(w, q)
  {
    hide Inv, Reached;
    ReachedInv(o, lib, past, w);
    hide ConsentsOf, RequestsOf, NormalizeEmail;
    if Subject(w, q).Some? {
      NothingLeft(o, lib, w, q, Subject(w, q).value);
    }
    RequestsGoneMeans(DeleteFor(w, q).world, q);
    hide RequestsGone;
  }

  lemma RotateIs(o: Options, lib: Library, w: World, s: Timed)
    requires s.step.Rotate? && Possible(o, lib, w, s)
    ensures After(o, lib, w, s) == Rotated(o, At(w, s.now), s.step.slug, s.step.material)
    ensures w.clock <= s.now && s.step.material.keyId !in w.keys
  {
    hide Rotated;
  }

  /** A rotation at step i ends the agent's outstanding JWTs: at no later point of the run is a JWT
      honoured for a consent that still carries the token it had. */
  lemma RotationEndsTokens(o: Options, lib: Library, trace: seq<World>, steps: seq<Timed>, i: nat, j: nat, now: int, id: Guid, token: string)
    requires Constructible(o) && Run(o, lib, trace, steps) && i < j < |trace| && trace[j].clock <= now
    requires steps[i].step.Rotate? && !Blank(steps[i].step.slug)
    requires id in trace[i].consents && trace[i].consents[id].agent == steps[i].step.slug
    requires id in trace[j].consents && trace[j].consents[id].tokenKeyId == trace[i].consents[id].tokenKeyId
    requires !Blank(token) && !("ctok:" <= token)
    requires trace[j].consents[id].tokenId in trace[j].handedOut
      ==> Apart(lib.hash, token, trace[j].handedOut[trace[j].consents[id].tokenId])
    ensures CheckToken(o, lib, At(trace[j], now), token) != Honoured(id)
  {
    RunKeepsInv(o, lib, trace, steps, i);
    RunKeepsInv(o, lib, trace, steps, j);
    RunStep(o, lib, trace, steps, i);
    RetiredForever(o, lib, trace, steps, i + 1, j);
    hide Inv, Run, Grown, Rotated, CheckToken, After, Possible;
    RotateIs(o, lib, trace[i], steps[i]);
    TimePasses(o, lib, trace[i], steps[i].now);
    TimePasses(o, lib, trace[j], now);
    RotationEndsJwts(o, lib, At(trace[i], steps[i].now), steps[i].step.slug, steps[i].step.material, At(trace[j], now), id, token);
  }

  /** The promises are not empty: for every configuration there are libraries and a run that
      reaches a consent with a token handed out for it. */
  lemma AConsentIsReached(o: Options, hash: HashFn) returns (lib: Library, past: Past, w: World, id: Guid)
    requires Constructible(o)
    ensures Reached(o, lib, past, w) && id in w.consents && w.consents[id].tokenId in w.handedOut
  {
    lib := Life.Lib(o, hash);
    Life.FirstSubject(o, hash);
    Life.FirstKeys(o, 0);
    var a, b, v := Life.Onboard(o, lib, Life.Empty(), Life.FIRST, Life.TENANT, 0);
    hide After, Possible, Run, Life.Lib, Life.FreshSubject, Life.WellWritten, Life.Obliging;
    Life.OneOnboarding(o, lib, Life.Empty(), Life.FIRST, 0, a, b, v);
    past, w, id := Past([Life.Empty(), a, b, v], Life.Steps(Life.FIRST, 0)), v, Life.FIRST.consentId;
    assert Reached(o, lib, past, w);
    ReachedInv(o, lib, past, w);
    hide Inv;
    ConsentTokenKnown(o, lib, w, id);
  }
}
