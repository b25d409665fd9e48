/** What runs of the gateway promise about consents and their tokens: how often a consent can be
    renewed, which presented token is accepted, that a dead token stays dead, and what the grace
    period changes. */
module TokenTheorems {
  import opened Common
  import opened Timestamps
  import opened Canonical
  import opened AuditTables
  import opened AuditChain
  import opened Domain
  import opened ConsentTokens
  import opened DataSubjects
  import opened Gateway
  import opened GatewayInvariant
  import Req = ConsentRequests

  // ----- Renewals -----

  lemma ConsentInvariant(o: Options, lib: Library, w: World, id: Guid)
    requires Inv(o, lib, w) && id in w.consents
    ensures ConsentOk(o, lib, w, id, w.consents[id])
  {
  }

  /** In any run a consent renewed k times satisfies k(L - d) < L. */
  lemma RenewalBound(o: Options, lib: Library, trace: seq<World>, steps: seq<Timed>, n: nat, id: Guid)
    requires Constructible(o) && Run(o, lib, trace, steps) && n < |trace| && id in trace[n].consents
    ensures 0 <= Renewals(trace[n].tokens, id)
    ensures Renewals(trace[n].tokens, id) * Gap(o) < TokenLifetime(o)
    ensures o.tokenLifetimeDays == 180 && o.renewalLeadDays == 14 ==> Renewals(trace[n].tokens, id) <= 1
  {
    RunKeepsInv(o, lib, trace, steps, n);
    hide Inv, Run;
    ConsentInvariant(o, lib, trace[n], id);
    BoundFromLedger(o, trace[n].tokens, trace[n].clock, id, trace[n].consents[id]);
  }

  lemma BoundFromLedger(o: Options, tokens: map<Guid, TokenRecord>, clock: int, id: Guid, c: Consent)
    requires Dated(o, clock, c) && Ledger(o, tokens, id, c)
    ensures 0 <= Renewals(tokens, id) && Renewals(tokens, id) * Gap(o) < TokenLifetime(o)
    ensures o.tokenLifetimeDays == 180 && o.renewalLeadDays == 14 ==> Renewals(tokens, id) <= 1
  {
    var n := Renewals(tokens, id);
    assert TokensOf(tokens, id) != {};
    if n >= 2 && Gap(o) > 0 {
      assert n * Gap(o) >= 2 * Gap(o);
    }
  }

  /** The instant at which the consent's renewal window opens. */
  function Due(o: Options, w: World, id: Guid): int
    requires id in w.consents
  {
    Max(w.clock, w.consents[id].tokenExpiresAt - RenewalLead(o))
  }

  /** Renews the consent as soon as it is due, once for each material. */
  ghost function RenewAll(o: Options, lib: Library, w: World, caller: Caller, id: Guid, ms: seq<Material>): World
    decreases |ms|
  {
    if ms == [] || id !in w.consents then w
    else RenewAll(o, lib, After(o, lib, w, Timed(Renew(caller, id, ms[0]), Due(o, w, id))), caller, id, ms[1..])
  }

  /** Each material is fresh where it is used, and its token well written. */
  ghost predicate Supplied(o: Options, lib: Library, w: World, caller: Caller, id: Guid, ms: seq<Material>)
    decreases |ms|
  {
    ms == [] || id !in w.consents
    || (var s := Timed(Renew(caller, id, ms[0]), Due(o, w, id));
        Possible(o, lib, w, s) && Supplied(o, lib, After(o, lib, w, s), caller, id, ms[1..]))
  }

  lemma RenewsWhenDue(o: Options, lib: Library, w: World, caller: Caller, id: Guid, m: Material) returns (v: World)
    requires Inv(o, lib, w) && Constructible(o) && id in w.consents && w.consents[id].status.Active? && MayRenew(caller, w.consents[id])
    requires var s := Timed(Renew(caller, id, m), Due(o, w, id)); Possible(o, lib, w, s)
    requires Due(o, w, id) < w.consents[id].expiresAt
    ensures v == After(o, lib, w, Timed(Renew(caller, id, m), Due(o, w, id))) && Inv(o, lib, v)
    ensures id in v.consents && v.consents[id].status.Active? && MayRenew(caller, v.consents[id])
    ensures v.clock == v.consents[id].tokenIssuedAt == Due(o, w, id)
    ensures v.consents[id].issuedAt == w.consents[id].issuedAt
    ensures Renewals(v.tokens, id) == Renewals(w.tokens, id) + 1
  {
    hide Act, Enabled, Inv, RenewalOpen;
    var s := Timed(Renew(caller, id, m), Due(o, w, id));
    v := After(o, lib, w, s);
    StepKeepsInv(o, lib, w, s);
    TimePasses(o, lib, w, s.now);
    var u := At(w, s.now);
    DueIsRenewable(o, lib, u, id);
    RenewalIs(o, lib, u, s.step);
    assert m.tokenId !in w.tokens by { FreshFromInv(o, lib, u, m.tokenId); }
    TokenAdded(w.tokens, m.tokenId, v.tokens[m.tokenId], id);
  }

  lemma DueIsRenewable(o: Options, lib: Library, w: World, id: Guid)
    requires Inv(o, lib, w) && id in w.consents && w.consents[id].status.Active?
    requires w.consents[id].tokenExpiresAt - RenewalLead(o) <= w.clock < w.consents[id].expiresAt
    ensures Renewable(o, w, id) && BySlug(w.tenants, w.consents[id].agent).Some?
  {
    hide Inv, Ledger;
    ConsentInvariant(o, lib, w, id);
  }

  /** A renewal that is due and permitted stores an issuance. */
  lemma RenewalIs(o: Options, lib: Library, w: World, step: Step)
    requires step.Renew? && Enabled(o, lib, w, step) && Renewable(o, w, step.id) && MayRenew(step.caller, w.consents[step.id])
    requires BySlug(w.tenants, w.consents[step.id].agent).Some?
    ensures step.material.tokenId !in w.handedOut
    ensures var v := Act(o, lib, w, step);
            var c := w.consents[step.id];
            && v.consents == w.consents[step.id := v.consents[step.id]]
            && v.consents[step.id] == WithToken(o, lib.hash, c, step.material, v.consents[step.id].tokenKeyId, w.clock)
            && v.clock == w.clock
            && step.material.tokenId in v.tokens && v.tokens[step.material.tokenId].consentId == step.id
            && v.tokens == w.tokens[step.material.tokenId := v.tokens[step.material.tokenId]]
  {
    hide Written, EnsureActiveKey, SigningKey, Renewable;
  }

  lemma FreshFromInv(o: Options, lib: Library, w: World, t: Guid)
    requires Inv(o, lib, w) && t !in w.handedOut
    ensures t !in w.tokens
  {
    FreshToken(o, w, t);
  }

  lemma {:induction false} RenewalsOnTime(o: Options, lib: Library, w: World, caller: Caller, id: Guid, ms: seq<Material>, done: nat)
    requires Inv(o, lib, w) && Constructible(o) && id in w.consents && w.consents[id].status.Active? && MayRenew(caller, w.consents[id])
    requires Supplied(o, lib, w, caller, id, ms)
    requires w.clock == w.consents[id].tokenIssuedAt <= w.consents[id].issuedAt + done * Max(0, Gap(o))
    requires (done + |ms|) * Gap(o) < TokenLifetime(o)
    ensures id in RenewAll(o, lib, w, caller, id, ms).consents
    ensures Renewals(RenewAll(o, lib, w, caller, id, ms).tokens, id) == Renewals(w.tokens, id) + |ms|
    decreases |ms|
  {
    hide Inv, After, Possible;
    if ms != [] {
      assert Dated(o, w.clock, w.consents[id]) by { ConsentInvariant(o, lib, w, id); }
      NextDue(done, |ms|, Gap(o), TokenLifetime(o));
      var v := RenewsWhenDue(o, lib, w, caller, id, ms[0]);
      RenewalsOnTime(o, lib, v, caller, id, ms[1..], done + 1);
    }
  }

  lemma NextDue(done: nat, n: nat, gap: int, lifetime: int)
    requires n > 0 && (done + n) * gap < lifetime && 0 < lifetime
    ensures done * Max(0, gap) + Max(0, gap) == (done + 1) * Max(0, gap)
    ensures (done + 1) * Max(0, gap) < lifetime
  {
    if gap > 0 {
      assert (done + n) * gap == (done + 1) * gap + (n - 1) * gap;
      assert (n - 1) * gap >= 0;
    }
  }

  /** The bound is exact: whenever n(L - d) < L, a consent that has just been issued can be
      renewed n times, each time as soon as its window opens. */
  lemma RenewalBoundReached(o: Options, lib: Library, w: World, caller: Caller, id: Guid, ms: seq<Material>)
    requires Inv(o, lib, w) && Constructible(o) && id in w.consents && w.consents[id].status.Active? && MayRenew(caller, w.consents[id])
    requires Supplied(o, lib, w, caller, id, ms)
    requires w.clock == w.consents[id].tokenIssuedAt == w.consents[id].issuedAt
    requires |ms| * Gap(o) < TokenLifetime(o)
    ensures id in RenewAll(o, lib, w, caller, id, ms).consents
    ensures Renewals(RenewAll(o, lib, w, caller, id, ms).tokens, id) == Renewals(w.tokens, id) + |ms|
  {
    hide Inv, RenewAll, Supplied, Renewals, Gap, TokenLifetime;
    RenewalsOnTime(o, lib, w, caller, id, ms, 0);
  }

  // ----- What is accepted -----

  /** The token id that a presented token names. */
  function Named(lib: Library, token: string): Option<Guid> {
    if "ctok:" <= token then lib.parseGuid(token[5..])
    else
      var read := lib.readJwt(token);
      if read.None? then None else lib.parseGuid(read.value.jti)
  }

  lemma HolderIs(consents: Consents, id: Guid)
    requires UniqueTokens(consents) && id in consents
    ensures HolderOf(consents, consents[id].tokenId) == Some(id)
  {
    assert Holds(consents, consents[id].tokenId, id);
    assert OneHolder(consents, HolderOf(consents, consents[id].tokenId).value, id);
  }

  /** The key that signed the consent's current token has not been retired. */
  predicate KeyInForce(w: World, c: Consent) {
    c.tokenKeyId in w.keys && !w.keys[c.tokenKeyId].status.Retired?
  }

  /** A JWT is honoured for a consent exactly if it is the very token handed out last for it, the
      consent is active and not expired, the signing key is in force, and the token's whole
      seconds with grace are not over. The hash must not confuse the two tokens. */
  lemma JwtAcceptance(o: Options, lib: Library, w: World, token: string, id: Guid)
    requires Inv(o, lib, w) && id in w.consents && !Blank(token) && !("ctok:" <= token)
    requires w.consents[id].tokenId in w.handedOut ==> Apart(lib.hash, token, w.handedOut[w.consents[id].tokenId])
    ensures var c := w.consents[id];
            c.tokenId in w.handedOut
            && (CheckToken(o, lib, w, token) == Honoured(id)
                <==> && token == w.handedOut[c.tokenId] && c.status == Active && w.clock < c.expiresAt && KeyInForce(w, c)
                     && InTime(o, c.tokenExpiresAt / SECOND * SECOND, w.clock))
  {
    HolderOfConsent(o, lib, w, id);
    ConsentInvariant(o, lib, w, id);
    hide Inv, Ledger, Dated, CheckOpaque, CheckJwt, Carries;
    CarriedIsHonoured(o, lib, w, token, id);
  }

  lemma CarriedIsHonoured(o: Options, lib: Library, w: World, token: string, id: Guid)
    requires id in w.consents && Carries(o, lib, w.tenants, w.keys, w.handedOut, id, w.consents[id])
    requires HolderOf(w.consents, w.consents[id].tokenId) == Some(id)
    requires w.consents[id].tokenId in w.handedOut ==> Apart(lib.hash, token, w.handedOut[w.consents[id].tokenId])
    ensures var c := w.consents[id];
            c.tokenId in w.handedOut
            && (CheckJwt(o, lib, w, token) == Honoured(id)
                <==> && token == w.handedOut[c.tokenId] && c.status == Active && w.clock < c.expiresAt && KeyInForce(w, c)
                     && InTime(o, c.tokenExpiresAt / SECOND * SECOND, w.clock))
  {
  }

  /** Before the instant, or within the grace period that starts there. */
  predicate InTime(o: Options, expires: int, now: int) {
    now < expires || now <= expires + Max(0, o.expiryGraceDays) * DAY
  }

  /** What holds of the consent that a submission is accepted for. */
  ghost predicate SafelyAccepted(o: Options, lib: Library, w: World, s: Submission, id: Guid) {
    && id in w.consents
    && var c := w.consents[id];
       && c.status.Active? && w.clock < c.issuedAt + TokenLifetime(o)
       && Named(lib, s.token) == Some(c.tokenId)
       && (forall t | t in TokensOf(w.tokens, id) :: w.tokens[t].issuedAt <= c.tokenIssuedAt)
       && c.tokenId in TokensOf(w.tokens, id)
       && (s.detached(c.agent) || (s.development && s.jws == Some("DEMO")))
       && (!("ctok:" <= s.token) ==> SignedByOnlyKey(o, lib, w, s.token, c))
  }

  /** The token's text and header key belong to the consent's current token, and that key is the
      agent's only one not retired. */
  ghost predicate SignedByOnlyKey(o: Options, lib: Library, w: World, token: string, c: Consent) {
    var tenant := BySlug(w.tenants, c.agent);
    && lib.readJwt(token).Some? && tenant.Some? && c.tokenHash == Some(lib.hash(token))
    && var kid := lib.readJwt(token).value.kid;
       && kid in w.keys && w.keys[kid].tenantId == tenant.value.id && !w.keys[kid].status.Retired?
       && lib.validJwt(token, w.keys[kid].publicJwk, o.issuer, c.board)
       && forall k | k in w.keys && w.keys[k].tenantId == tenant.value.id && !w.keys[k].status.Retired? :: k == kid
  }

  lemma HonouredJwt(o: Options, lib: Library, w: World, token: string, id: Guid)
    requires KeysOk(o, w.keys, w.clock) && CheckJwt(o, lib, w, token) == Honoured(id)
    ensures id in w.consents && Usable(w.consents[id], w.clock)
    ensures lib.readJwt(token).Some? && lib.parseGuid(lib.readJwt(token).value.jti) == Some(w.consents[id].tokenId)
    ensures w.consents[id].tokenHash.Some? ==> SignedByOnlyKey(o, lib, w, token, w.consents[id])
  {
    var kid := lib.readJwt(token).value.kid;
    forall k | k in w.keys && w.keys[k].tenantId == BySlug(w.tenants, w.consents[id].agent).value.id && !w.keys[k].status.Retired?
      ensures k == kid
    {
      assert Ordered(w.keys, k, kid);
    }
  }

  lemma AcceptanceIsSafe(o: Options, lib: Library, w: World, s: Submission)
    requires Inv(o, lib, w) && AcceptedFor(o, lib, w, s).Some?
    ensures SafelyAccepted(o, lib, w, s, AcceptedFor(o, lib, w, s).value)
  {
    hide Inv, AcceptedFor, SignedByOnlyKey, Carries, Renewals;
    var id := AcceptedFor(o, lib, w, s).value;
    AcceptedNames(o, lib, w, s, id);
    AcceptedFacts(o, lib, w, id);
    if !("ctok:" <= s.token) {
      HonouredJwt(o, lib, w, s.token, id);
    }
  }

  lemma AcceptedFacts(o: Options, lib: Library, w: World, id: Guid)
    requires Inv(o, lib, w) && id in w.consents
    ensures KeysOk(o, w.keys, w.clock) && w.consents[id].tokenHash.Some?
    ensures Dated(o, w.clock, w.consents[id]) && Ledger(o, w.tokens, id, w.consents[id])
  {
    hide Dated, Ledger, KeysOk;
    ConsentInvariant(o, lib, w, id);
  }

  lemma AcceptedNames(o: Options, lib: Library, w: World, s: Submission, id: Guid)
    requires AcceptedFor(o, lib, w, s) == Some(id)
    ensures id in w.consents && w.consents[id].status.Active? && w.clock < w.consents[id].expiresAt
    ensures Named(lib, s.token) == Some(w.consents[id].tokenId)
    ensures s.detached(w.consents[id].agent) || (s.development && s.jws == Some("DEMO"))
    ensures !("ctok:" <= s.token) ==> CheckJwt(o, lib, w, s.token) == Honoured(id)
  {
  }

  /** Every application that a run adds was accepted safely. */
  lemma SubmissionSafety(o: Options, lib: Library, trace: seq<World>, steps: seq<Timed>, n: nat, a: Guid)
    requires Constructible(o) && Run(o, lib, trace, steps) && n < |steps|
    requires a !in trace[n].applications && a in trace[n + 1].applications
    ensures steps[n].step.Submit? && steps[n].step.id == a
    ensures SafelyAccepted(o, lib, At(trace[n], steps[n].now), steps[n].step.submission, trace[n + 1].applications[a].consentId)
  {
    RunKeepsInv(o, lib, trace, steps, n);
    hide Inv, Run, CheckToken, HasSignature, SafelyAccepted, KeysOk;
    assert Possible(o, lib, trace[n], steps[n]) && trace[n + 1] == After(o, lib, trace[n], steps[n]) by { RunStep(o, lib, trace, steps, n); }
    var w, step := At(trace[n], steps[n].now), steps[n].step;
    TimePasses(o, lib, trace[n], steps[n].now);
    OnlySubmitAdds(o, lib, w, step, a);
    AcceptanceIsSafe(o, lib, w, step.submission);
  }

  lemma RunStep(o: Options, lib: Library, trace: seq<World>, steps: seq<Timed>, n: nat)
    requires Run(o, lib, trace, steps) && n < |steps|
    ensures Possible(o, lib, trace[n], steps[n]) && trace[n + 1] == After(o, lib, trace[n], steps[n])
  {
  }

  lemma OnlySubmitAdds(o: Options, lib: Library, w: World, step: Step, a: Guid)
    requires a !in w.applications && a in Act(o, lib, w, step).applications
    ensures step.Submit? && step.id == a && AcceptedFor(o, lib, w, step.submission).Some?
    ensures Act(o, lib, w, step).applications[a].consentId == AcceptedFor(o, lib, w, step.submission).value
  {
    hide AcceptedFor, IssuanceOf, Blank;
  }

  /** The consent answers the submission's token, the submission carries a signature or comes from a
      development environment, and the signature is the agent's, or it is the placeholder that only
      development accepts. */
  ghost predicate Entitles(o: Options, lib: Library, w: World, s: Submission, c: Guid)
    requires c in w.consents
  {
    && CheckToken(o, lib, w, s.token) == Honoured(c)
    && (s.development || (s.jws.Some? && !Blank(s.jws.value)))
    && (s.detached(w.consents[c].agent) || (s.development && s.jws == Some("DEMO")))
  }

  /** The application that a submission leaves behind names the consent and its parties and has yet
      to be answered. */
  predicate AppliedFor(w: World, s: Submission, c: Guid, a: Application)
    requires c in w.consents
  {
    && a.consentId == c && a.agent == w.consents[c].agent && a.board == w.consents[c].board
    && a.status == Submitted && a.submittedAt == w.clock && a.payloadHash == s.payloadHash
    && a.receipt == None && a.receiptSignature == None && a.receiptHash == None
  }

  lemma EntitledFor(o: Options, lib: Library, w: World, s: Submission)
    ensures forall c | c in w.consents :: Entitles(o, lib, w, s, c) <==> AcceptedFor(o, lib, w, s) == Some(c)
    ensures AcceptedFor(o, lib, w, s).Some? ==> AcceptedFor(o, lib, w, s).value in w.consents
  {
    hide CheckToken, Blank;
  }

  /** A submission adds an application exactly if some consent entitles it, for that consent, and
      changes nothing else. */
  lemma SubmissionIsExact(o: Options, lib: Library, w: World, s: Submission, id: Guid)
    requires id !in w.applications
    ensures var v := Act(o, lib, w, Submit(s, id));
            && (id in v.applications <==> exists c | c in w.consents :: Entitles(o, lib, w, s, c))
            && (forall c | c in w.consents && Entitles(o, lib, w, s, c) :: id in v.applications && AppliedFor(w, s, c, v.applications[id]))
            && v == w.(applications := v.applications) && v.applications - {id} == w.applications
  {
    EntitledFor(o, lib, w, s);
    hide AcceptedFor, Entitles;
  }

  /** Whatever application a run adds was signed by the agent it names, or placed with the
      placeholder in a development environment. */
  lemma ApplicationsAreSigned(o: Options, lib: Library, trace: seq<World>, steps: seq<Timed>, n: nat, a: Guid)
    requires Constructible(o) && Run(o, lib, trace, steps) && n < |steps|
    requires a !in trace[n].applications && a in trace[n + 1].applications
    ensures steps[n].step.Submit?
    ensures var s := steps[n].step.submission;
            s.detached(trace[n + 1].applications[a].agent) || (s.development && s.jws == Some("DEMO"))
  {
    hide Act, Enabled, Entitles;
    RunStep(o, lib, trace, steps, n);
    var w, step := At(trace[n], steps[n].now), steps[n].step;
    OnlySubmitAdds(o, lib, w, step, a);
    SubmissionIsExact(o, lib, w, step.submission, a);
    var c :| c in w.consents && Entitles(o, lib, w, step.submission, c);
    assert step == Submit(step.submission, a);
    EntitledBySignature(o, lib, w, step.submission, c);
  }

  lemma EntitledBySignature(o: Options, lib: Library, w: World, s: Submission, c: Guid)
    requires c in w.consents && Entitles(o, lib, w, s, c)
    ensures s.detached(w.consents[c].agent) || (s.development && s.jws == Some("DEMO"))
  {
  }

  // ----- Dead tokens -----

  /** The token was handed out once and no usable consent carries it. */
  predicate Dead(w: World, tokenId: Guid) {
    tokenId in w.handedOut && forall c | c in w.consents && Usable(w.consents[c], w.clock) :: w.consents[c].tokenId != tokenId
  }

  /** A step leaves a consent's token, its expiry and a revocation alone, or gives the row a token
      never handed out before. */
  predicate TokenKept(w: World, v: World, c: Guid)
    requires c in v.consents
  {
    || v.consents[c].tokenId !in w.handedOut
    || (c in w.consents && v.consents[c].tokenId == w.consents[c].tokenId && v.consents[c].expiresAt == w.consents[c].expiresAt
        && (w.consents[c].status.Revoked? ==> v.consents[c].status.Revoked?))
  }

  predicate TokensKept(w: World, v: World) {
    Extended(w.handedOut, v.handedOut) && v.clock == w.clock && forall c | c in v.consents :: TokenKept(w, v, c)
  }

  lemma StoredTokensKept(w: World, id: Guid, c: Consent, m: Material, v: World)
    requires v.consents == w.consents[id := c] && c.tokenId == m.tokenId && m.tokenId !in w.handedOut
    requires v.handedOut == w.handedOut[m.tokenId := m.token] && v.clock == w.clock
    ensures TokensKept(w, v)
  {
  }

  lemma OrderedMaterial(o: Options, w: World, step: Step)
    requires OrderOf(o, w, step).Some?
    ensures (step.Decide? || step.Renew?) && OrderOf(o, w, step).value.material == step.material
  {
  }

  lemma IssuedTokenId(o: Options, lib: Library, w: World, step: Step)
    requires IssuanceOf(o, lib, w, step).Some?
    ensures (step.Decide? || step.Renew?) && IssuanceOf(o, lib, w, step).value.consent.tokenId == step.material.tokenId
  {
    hide EnsureActiveKey, SigningKey, OrderOf;
    OrderedMaterial(o, w, step);
  }

  lemma DecideTokensKept(o: Options, lib: Library, w: World, step: Step)
    requires step.Decide? && step.material.tokenId !in w.handedOut
    ensures TokensKept(w, Decided(o, lib, w, step))
  {
    hide IssuanceOf, TokensKept;
    var v, i := Decided(o, lib, w, step), IssuanceOf(o, lib, w, step);
    if v.handedOut == w.handedOut && v.consents == w.consents {
      UntouchedTokensKept(w, v);
    } else {
      IssuedTokenId(o, lib, w, step);
      StoredTokensKept(w, step.consentId, Minted(i.value.consent), step.material, v);
    }
  }

  lemma RenewTokensKept(o: Options, lib: Library, w: World, step: Step)
    requires step.Renew? && step.material.tokenId !in w.handedOut
    ensures TokensKept(w, Renewed(o, lib, w, step))
  {
    hide IssuanceOf, TokensKept;
    var v, i := Renewed(o, lib, w, step), IssuanceOf(o, lib, w, step);
    if i.None? {
      UntouchedTokensKept(w, v);
    } else {
      IssuedTokenId(o, lib, w, step);
      StoredTokensKept(w, step.id, i.value.consent, step.material, v);
    }
  }

  lemma UntouchedTokensKept(w: World, v: World)
    requires v.consents == w.consents && v.handedOut == w.handedOut && v.clock == w.clock
    ensures TokensKept(w, v)
  {
  }

  lemma RevokeTokensKept(w: World, id: Guid)
    ensures TokensKept(w, Withdrawn(w, id))
  {
  }

  lemma DeleteTokensKept(w: World, slug: string, kind: Option<TenantType>, email: string)
    ensures TokensKept(w, Erased(w, slug, kind, email))
  {
    hide StillNamed, Forgotten, ConsentsOf, RequestsOf, NormalizeEmail;
  }

  lemma FreshTokenId(o: Options, lib: Library, w: World, step: Step)
    requires Enabled(o, lib, w, step)
    ensures step.Decide? || step.Renew? ==> step.material.tokenId !in w.handedOut
  {
  }

  lemma RequestStepsQuiet(o: Options, lib: Library, w: World, step: Step)
    requires step.CreateRequest? || step.ViewRequest? || step.PostCode? || step.ResendCode? || step.CancelRequest?
    ensures var v := Act(o, lib, w, step); v.consents == w.consents && v.handedOut == w.handedOut && v.clock == w.clock
  {
    hide MayCreate, ScopesOrDefault, MayCancel, Req.After, Req.NewRequest;
  }

  lemma OtherStepsQuiet(o: Options, lib: Library, w: World, step: Step)
    requires step.Rotate? || step.Submit? || step.Settle? || step.Sweep?
    ensures var v := Act(o, lib, w, step); v.consents == w.consents && v.handedOut == w.handedOut && v.clock == w.clock
  {
    hide AcceptedFor, RotateKey, ActiveKey, Blank, Settled, RequestsDue, ClearReceipts;
  }

  lemma QuietTokensKept(o: Options, lib: Library, w: World, step: Step)
    requires !step.Decide? && !step.Renew? && !step.DeleteSubject? && !step.Revoke?
    ensures TokensKept(w, Act(o, lib, w, step))
  {
    hide Act, TokensKept;
    if step.Rotate? || step.Submit? || step.Settle? || step.Sweep? {
      OtherStepsQuiet(o, lib, w, step);
    } else {
      RequestStepsQuiet(o, lib, w, step);
    }
    UntouchedTokensKept(w, Act(o, lib, w, step));
  }

  lemma StepTokensKept(o: Options, lib: Library, w: World, step: Step)
    requires Enabled(o, lib, w, step)
    ensures TokensKept(w, Act(o, lib, w, step))
  {
    hide Enabled, Created, Stepped, Cancelled, Decided, Renewed, Rotated, Withdrawn, Applied, Answered, Erased, Retain, TokensKept;
    if step.Decide? {
      FreshTokenId(o, lib, w, step);
      DecideTokensKept(o, lib, w, step);
    } else if step.Renew? {
      FreshTokenId(o, lib, w, step);
      RenewTokensKept(o, lib, w, step);
    } else if step.DeleteSubject? {
      DeleteTokensKept(w, step.slug, step.kind, step.email);
    } else if step.Revoke? {
      RevokeTokensKept(w, step.id);
    } else {
      QuietTokensKept(o, lib, w, step);
    }
  }

  lemma DeadStays(o: Options, lib: Library, w: World, s: Timed, tokenId: Guid)
    requires Possible(o, lib, w, s) && Dead(w, tokenId)
    ensures Dead(After(o, lib, w, s), tokenId)
  {
    hide Act, Enabled;
    var u, v := At(w, s.now), After(o, lib, w, s);
    StepTokensKept(o, lib, u, s.step);
    forall c | c in v.consents && Usable(v.consents[c], v.clock) ensures v.consents[c].tokenId != tokenId {
      assert TokenKept(u, v, c);
      assert c in w.consents && !Usable(w.consents[c], w.clock) ==> !Usable(w.consents[c], v.clock);
    }
  }

  /** A submission that names the token is not accepted. */
  ghost predicate Refuses(o: Options, lib: Library, w: World, s: Submission, tokenId: Guid) {
    Named(lib, s.token) == Some(tokenId) ==> AcceptedFor(o, lib, w, s) == None
  }

  /** A dead token is dead in every later world of the run, and no submission that names it is
      accepted there. */
  lemma {:induction false} DeadForever(o: Options, lib: Library, trace: seq<World>, steps: seq<Timed>, i: nat, j: nat, tokenId: Guid)
    requires Run(o, lib, trace, steps) && i <= j < |trace| && Dead(trace[i], tokenId)
    ensures Dead(trace[j], tokenId)
    ensures forall now: int, s: Submission | trace[j].clock <= now :: Refuses(o, lib, At(trace[j], now), s, tokenId)
    decreases j - i
  {
    hide After, Possible, AcceptedFor;
    if i < j {
      DeadForever(o, lib, trace, steps, i, j - 1, tokenId);
      RunStep(o, lib, trace, steps, j - 1);
      DeadStays(o, lib, trace[j - 1], steps[j - 1], tokenId);
    }
    forall now: int, s: Submission | trace[j].clock <= now ensures Refuses(o, lib, At(trace[j], now), s, tokenId) {
      DeadRejected(o, lib, trace[j], now, s, tokenId);
    }
  }

  lemma DeadRejected(o: Options, lib: Library, w: World, now: int, s: Submission, tokenId: Guid)
    requires Dead(w, tokenId) && w.clock <= now
    ensures Refuses(o, lib, At(w, now), s, tokenId)
  {
    var u := At(w, now);
    var holder := HolderOf(u.consents, tokenId);
    assert holder.Some? ==> !Usable(u.consents[holder.value], now);
  }

  lemma TokenDetermines(o: Options, lib: Library, w: World, a: Guid, b: Guid)
    requires Inv(o, lib, w) && a in w.consents && b in w.consents
    ensures OneHolder(w.consents, a, b)
  {
  }

  /** The one row that a renewal changes, and the new token it gets. */
  lemma RenewalIssuance(o: Options, lib: Library, w: World, step: Step)
    requires step.Renew? && Enabled(o, lib, w, step) && IssuanceOf(o, lib, w, step).Some?
    ensures var v := Renewed(o, lib, w, step);
            && step.id in w.consents && v.consents == w.consents[step.id := v.consents[step.id]]
            && v.consents[step.id].tokenId == step.material.tokenId && step.material.tokenId !in w.handedOut
            && v.handedOut == w.handedOut[step.material.tokenId := step.material.token]
  {
    hide EnsureActiveKey, SigningKey, Written;
  }

  lemma TokensUnique(o: Options, lib: Library, w: World)
    requires Inv(o, lib, w)
    ensures UniqueTokens(w.consents)
  {
  }

  lemma WithdrawnIsDead(w: World, id: Guid)
    requires UniqueTokens(w.consents) && id in w.consents && w.consents[id].tokenId in w.handedOut
    ensures Dead(Withdrawn(w, id), w.consents[id].tokenId)
  {
    var v := Withdrawn(w, id);
    forall c | c in v.consents && Usable(v.consents[c], v.clock) ensures v.consents[c].tokenId != w.consents[id].tokenId {
      assert OneHolder(w.consents, c, id);
    }
  }

  /** A consent's token is dead once its row has one never handed out before. */
  lemma ReplacedIsDead(w: World, v: World, id: Guid)
    requires UniqueTokens(w.consents) && id in w.consents && w.consents[id].tokenId in w.handedOut
    requires id in v.consents && v.consents == w.consents[id := v.consents[id]] && v.consents[id].tokenId !in w.handedOut
    requires Extended(w.handedOut, v.handedOut)
    ensures Dead(v, w.consents[id].tokenId)
  {
    forall c | c in v.consents && Usable(v.consents[c], v.clock) ensures v.consents[c].tokenId != w.consents[id].tokenId {
      if c != id { assert OneHolder(w.consents, c, id); }
    }
  }

  lemma HolderOfConsent(o: Options, lib: Library, w: World, id: Guid)
    requires Inv(o, lib, w) && id in w.consents
    ensures HolderOf(w.consents, w.consents[id].tokenId) == Some(id)
  {
    HolderIs(w.consents, id);
  }

  lemma ConsentTokenKnown(o: Options, lib: Library, w: World, id: Guid)
    requires Inv(o, lib, w) && id in w.consents
    ensures w.consents[id].tokenId in w.handedOut
  {
    ConsentInvariant(o, lib, w, id);
  }

  // ----- Grace -----

  /** Two configurations that differ in the grace period alone. */
  predicate SameButGrace(o: Options, p: Options) {
    p == o.(expiryGraceDays := p.expiryGraceDays)
  }

  lemma ConsentDates(o: Options, lib: Library, w: World, id: Guid)
    requires Inv(o, lib, w) && id in w.consents
    ensures w.consents[id].expiresAt <= w.consents[id].tokenExpiresAt
  {
    ConsentInvariant(o, lib, w, id);
  }

  lemma OpaqueEither(o: Options, p: Options, lib: Library, w: World, text: string)
    requires Inv(o, lib, w) && SameButGrace(o, p)
    ensures CheckOpaque(o, lib, w, text) == CheckOpaque(p, lib, w, text)
  {
    hide Inv;
    var tokenId := lib.parseGuid(text);
    if tokenId.Some? && HolderOf(w.consents, tokenId.value).Some? {
      ConsentDates(o, lib, w, HolderOf(w.consents, tokenId.value).value);
    }
  }

  lemma RenewalEither(o: Options, p: Options, lib: Library, w: World, step: Step)
    requires Inv(o, lib, w) && SameButGrace(o, p) && step.Renew?
    ensures Renewed(o, lib, w, step) == Renewed(p, lib, w, step)
  {
    hide Inv, IssueToken, RenewalOpen;
    if step.id in w.consents {
      ConsentDates(o, lib, w, step.id);
      RenewalOpenEither(o, p, w.consents[step.id], w.clock);
      IssuanceEither(o, p, lib.hash, w, step.id, w.consents[step.id], step.material);
    }
  }

  lemma RenewalOpenEither(o: Options, p: Options, c: Consent, now: int)
    requires SameButGrace(o, p) && c.expiresAt <= c.tokenExpiresAt
    ensures RenewalOpen(o, c, now) == RenewalOpen(p, c, now)
  {
  }

  lemma IssuanceEither(o: Options, p: Options, hash: HashFn, w: World, id: Guid, c: Consent, m: Material)
    requires SameButGrace(o, p)
    ensures IssueToken(o, hash, w, id, c, m) == IssueToken(p, hash, w, id, c, m)
  {
  }

}
