/** A run in which a token outlives its signing key, whenever the configuration allows one. */
module KeyLifetimes {
  import opened Common
  import opened Timestamps
  import opened Canonical
  import opened AuditTables
  import opened Domain
  import opened ConsentTokens
  import opened DataSubjects
  import opened Gateway
  import Req = ConsentRequests

  // ----- Three steps from a request to a token -----

  const AGENT := Caller(Some("acme"), Some(TenantType.Agent))

  /** What one onboarding draws: an address, identifiers and the token's material. */
  datatype Subject = Subject(email: string, requestId: Guid, candidateId: Guid, consentId: Guid, material: Material)

  function Asking(p: Subject): Step {
    CreateRequest(AGENT, None, "board", p.email, [], "hash", p.requestId)
  }

  function Typing(p: Subject): Step {
    PostCode(p.requestId, Some("1"))
  }

  function Approving(p: Subject): Step {
    Decide(p.requestId, true, p.candidateId, p.consentId, p.material)
  }

  /** The token that the onboarding must write when its key is the given one. */
  function Claims(o: Options, p: Subject, keyId: Guid, now: int): Jwt {
    Jwt(keyId, p.material.tokenId, (now + TokenLifetime(o)) / SECOND, Some(p.consentId), Some("acme"), Some("board"), Some(p.candidateId))
  }

  ghost predicate Obliging(lib: Library) {
    && lib.verifyCode("1", "hash")
    && (forall a, b, c, d :: lib.validJwt(a, b, c, d))
    && (forall g: Guid :: lib.parseGuid(g) == Some(g))
  }

  predicate FreshSubject(w: World, p: Subject) {
    && Lower(Trim(p.email)) == p.email && !Blank(p.email)
    && p.requestId !in w.requests && p.candidateId !in w.candidates && p.consentId !in w.consents
    && p.material.tokenId !in w.handedOut && p.material.keyId !in w.keys
    && (forall c | c in w.candidates :: w.candidates[c].email != p.email)
  }

  /** The request of a world, and nothing else, has changed since the given one. */
  predicate RequestPut(w: World, p: Subject, now: int, v: World) {
    p.requestId in v.requests && v == SetRequest(At(w, now), p.requestId, v.requests[p.requestId])
  }

  predicate Asked(p: Subject, r: Request, now: int) {
    && r.codeHash == Some("hash") && r.attempts == 0 && r.expiresAt == now + 24 * HOUR
    && r.agent == "acme" && r.board == "board" && r.email == p.email
  }

  lemma AskingIs(o: Options, lib: Library, w: World, p: Subject, now: int) returns (v: World)
    requires w.clock <= now && FreshSubject(w, p)
    ensures Possible(o, lib, w, Timed(Asking(p), now)) && v == After(o, lib, w, Timed(Asking(p), now))
    ensures RequestPut(w, p, now, v) && v.requests[p.requestId].status.Pending? && Asked(p, v.requests[p.requestId], now)
  {
    v := After(o, lib, w, Timed(Asking(p), now));
  }

  lemma TypingIs(o: Options, lib: Library, w: World, a: World, p: Subject, tenant: Tenant, now: int) returns (v: World)
    requires Obliging(lib) && FreshSubject(w, p) && w.tenants == [tenant] && tenant.slug == "acme"
    requires RequestPut(w, p, now, a) && a.requests[p.requestId].status.Pending? && Asked(p, a.requests[p.requestId], now)
    ensures Possible(o, lib, a, Timed(Typing(p), now)) && v == After(o, lib, a, Timed(Typing(p), now))
    ensures RequestPut(w, p, now, v) && ReadyToApprove(lib, v, p, tenant) && v.keys == w.keys
  {
    hide Lower, Trim, Blank, Req.Posted;
    v := After(o, lib, a, Timed(Typing(p), now));
    TypedRequest(lib, a, p, now);
    assert v == SetRequest(a, p.requestId, Req.Posted(lib.verifyCode, a.requests[p.requestId], Some("1"), now));
    hide After, Possible;
    NowReady(lib, w, a, v, p, tenant, now);
  }

  lemma NowReady(lib: Library, w: World, a: World, v: World, p: Subject, tenant: Tenant, now: int)
    requires Obliging(lib) && FreshSubject(w, p) && w.tenants == [tenant] && tenant.slug == "acme"
    requires RequestPut(w, p, now, a) && Asked(p, a.requests[p.requestId], now)
    requires var r := a.requests[p.requestId];
             v == SetRequest(a, p.requestId, r.(status := Verified, attempts := r.attempts + 1, verifiedAt := Some(now), codeHash := None))
    ensures RequestPut(w, p, now, v) && ReadyToApprove(lib, v, p, tenant) && v.keys == w.keys
  {
    hide Lower, Trim, Blank, Obliging;
  }

  lemma TypedRequest(lib: Library, a: World, p: Subject, now: int)
    requires Obliging(lib) && p.requestId in a.requests && a.clock == now
    requires a.requests[p.requestId].status.Pending? && Asked(p, a.requests[p.requestId], now)
    ensures var r := a.requests[p.requestId];
            Req.Posted(lib.verifyCode, r, Some("1"), now)
            == r.(status := Verified, attempts := r.attempts + 1, verifiedAt := Some(now), codeHash := None)
  {
    assert Trim("1") == "1" && !Blank("1");
  }

  predicate WellWritten(o: Options, lib: Library, p: Subject, keyId: Guid, now: int) {
    lib.readJwt(p.material.token) == Some(Claims(o, p, keyId, now))
  }

  ghost predicate ReadyToApprove(lib: Library, w: World, p: Subject, tenant: Tenant) {
    && Obliging(lib) && FreshSubject(w.(requests := map[]), p) && p.requestId in w.requests
    && w.tenants == [tenant] && tenant.slug == "acme"
    && var r := w.requests[p.requestId];
       r.status.Verified? && w.clock < r.expiresAt && r.agent == "acme" && r.board == "board" && r.email == p.email
  }

  function Drafted(w: World, p: Subject): Consent
    requires p.requestId in w.requests
  {
    Draft(w.requests[p.requestId], p.candidateId, w.clock)
  }

  lemma OrderIs(o: Options, lib: Library, w: World, p: Subject, tenant: Tenant)
    requires ReadyToApprove(lib, w, p, tenant)
    ensures OrderOf(o, w, Approving(p)) == Some(Order(p.consentId, Drafted(w, p), p.material))
    ensures BySlug(w.tenants, "acme") == Some(tenant) && Lower(w.requests[p.requestId].email) == p.email
  {
    LowerTwice(Trim(p.email));
    assert CandidateFor(w, w.requests[p.requestId], p.candidateId) == p.candidateId;
  }

  /** What an onboarding leaves behind. */
  ghost predicate Onboarded(o: Options, lib: Library, w: World, p: Subject, tenant: Tenant, now: int, v: World) {
    && v.tenants == w.tenants && v.clock == now
    && v.requests.Keys == w.requests.Keys + {p.requestId}
    && v.candidates == w.candidates[p.candidateId := Candidate(p.email, now)]
    && v.consents.Keys == w.consents.Keys + {p.consentId}
    && v.handedOut == w.handedOut[p.material.tokenId := p.material.token]
    && v.applications == w.applications
    && var k, keys := SigningKey(o, w.keys, tenant.id, p.material, now), EnsureActiveKey(o, w.keys, tenant.id, p.material, now);
       && v.tokens == w.tokens[p.material.tokenId := TokenRecord(p.consentId, lib.hash(p.material.token), k, now, now + TokenLifetime(o))]
       && v.keys == keys[k := keys[k].(lastUsedAt := Some(now))]
       && Issued(v.consents[p.consentId], p, k, now)
  }

  /** The consent of an onboarding, as far as later steps look at it. */
  predicate Issued(c: Consent, p: Subject, keyId: Guid, now: int) {
    && c.status.Active? && c.agent == "acme" && c.candidateId == p.candidateId && c.issuedAt == now == c.tokenIssuedAt
    && c.tokenId == p.material.tokenId && c.tokenKeyId == keyId
  }

  lemma ApprovingIssues(o: Options, lib: Library, w: World, p: Subject, tenant: Tenant)
    requires ReadyToApprove(lib, w, p, tenant)
    requires WellWritten(o, lib, p, SigningKey(o, w.keys, tenant.id, p.material, w.clock), w.clock)
    ensures IssuanceOf(o, lib, w, Approving(p)) == IssueToken(o, lib.hash, w, p.consentId, Drafted(w, p), p.material)
    ensures IssuanceOf(o, lib, w, Approving(p)).Some? && Enabled(o, lib, w, Approving(p))
  {
    hide EnsureActiveKey, SigningKey, TokenLifetime, OrderOf;
    OrderIs(o, lib, w, p, tenant);
  }

  lemma DecidedIs(o: Options, lib: Library, w: World, p: Subject, tenant: Tenant)
    requires ReadyToApprove(lib, w, p, tenant)
    requires WellWritten(o, lib, p, SigningKey(o, w.keys, tenant.id, p.material, w.clock), w.clock)
    ensures Onboarded(o, lib, w, p, tenant, w.clock, Decided(o, lib, w, Approving(p)))
  {
    OrderIs(o, lib, w, p, tenant);
    ApprovingIssues(o, lib, w, p, tenant);
    var r, i := w.requests[p.requestId], IssuanceOf(o, lib, w, Approving(p)).value;
    assert Req.Decidable(r, w.clock) && p.candidateId !in w.candidates;
    hide IssuanceOf, ReadyToApprove, IssueToken;
    assert Decided(o, lib, w, Approving(p)) == Approval(w, r, Approving(p), i);
    ApprovalIs(o, lib, w, p, tenant, i);
  }

  lemma ApprovalIs(o: Options, lib: Library, w: World, p: Subject, tenant: Tenant, i: Issuance)
    requires p.requestId in w.requests && p.candidateId !in w.candidates && Lower(w.requests[p.requestId].email) == p.email
    requires BySlug(w.tenants, w.requests[p.requestId].agent) == Some(tenant) && w.requests[p.requestId].agent == "acme"
    requires IssueToken(o, lib.hash, w, p.consentId, Drafted(w, p), p.material) == Some(i)
    ensures Onboarded(o, lib, w, p, tenant, w.clock, Approval(w, w.requests[p.requestId], Approving(p), i))
  {
    hide EnsureActiveKey, SigningKey, TokenLifetime;
  }

  lemma ApprovingIs(o: Options, lib: Library, w: World, p: Subject, tenant: Tenant) returns (v: World)
    requires ReadyToApprove(lib, w, p, tenant)
    requires WellWritten(o, lib, p, SigningKey(o, w.keys, tenant.id, p.material, w.clock), w.clock)
    ensures Possible(o, lib, w, Timed(Approving(p), w.clock)) && v == After(o, lib, w, Timed(Approving(p), w.clock))
    ensures Onboarded(o, lib, w, p, tenant, w.clock, v)
  {
    ApprovingIssues(o, lib, w, p, tenant);
    DecidedIs(o, lib, w, p, tenant);
    assert At(w, w.clock) == w;
    hide Decided, Onboarded, Enabled, ReadyToApprove;
    v := After(o, lib, w, Timed(Approving(p), w.clock));
  }

  /** One onboarding, all at one instant. */
  lemma Onboard(o: Options, lib: Library, w: World, p: Subject, tenant: Tenant, now: int) returns (a: World, b: World, v: World)
    requires Obliging(lib) && w.clock <= now && FreshSubject(w, p) && w.tenants == [tenant] && tenant.slug == "acme"
    requires WellWritten(o, lib, p, SigningKey(o, w.keys, tenant.id, p.material, now), now)
    ensures Possible(o, lib, w, Timed(Asking(p), now)) && a == After(o, lib, w, Timed(Asking(p), now))
    ensures Possible(o, lib, a, Timed(Typing(p), now)) && b == After(o, lib, a, Timed(Typing(p), now))
    ensures Possible(o, lib, b, Timed(Approving(p), now)) && v == After(o, lib, b, Timed(Approving(p), now))
    ensures Onboarded(o, lib, w, p, tenant, now, v)
  {
    hide After, Possible, SigningKey, Obliging, FreshSubject, WellWritten, Onboarded, ReadyToApprove, Asked;
    a := AskingIs(o, lib, w, p, now);
    b := TypingIs(o, lib, w, a, p, tenant, now);
    v := ApprovingIs(o, lib, b, p, tenant);
    OnboardedFrom(o, lib, w, b, p, tenant, now, v);
  }

  lemma OnboardedFrom(o: Options, lib: Library, w: World, b: World, p: Subject, tenant: Tenant, now: int, v: World)
    requires RequestPut(w, p, now, b) && Onboarded(o, lib, b, p, tenant, now, v)
    ensures Onboarded(o, lib, w, p, tenant, now, v)
  {
    hide EnsureActiveKey, SigningKey, TokenLifetime;
  }

  // ----- The run -----

  const TENANT := Tenant("00000000-0000-0000-0000-000000000000", "acme")

  function Id(c: char): Guid
    requires '0' <= c <= '9'
  {
    seq(36, _ => c)
  }

  const FIRST := Subject("x", Id('1'), Id('1'), Id('1'), Material(Id('1'), Id('1'), "jwk1", "first"))
  const SECOND_SUBJECT := Subject("y", Id('2'), Id('2'), Id('2'), Material(Id('2'), Id('2'), "jwk2", "second"))

  function Empty(): World {
    World(0, [TENANT], map[], map[], map[], map[], map[], map[], map[])
  }

  /** The instant at which the first key is still good, by one tick. */
  function Brink(o: Options): int {
    KeyLifetime(o) - RotationLead(o) - 1
  }

  function Lib(o: Options, hash: HashFn): Library {
    var first, second := Claims(o, FIRST, Id('1'), 0), Claims(o, SECOND_SUBJECT, Id('1'), Brink(o));
    Library((code, stored) => true,
            token => if token == "first" then Some(first) else Some(second),
            (token, jwk, issuer, audience) => true,
            text => if IsGuidText(text) then Some(text) else None,
            hash)
  }

  function Steps(p: Subject, now: int): seq<Timed> {
    [Timed(Asking(p), now), Timed(Typing(p), now), Timed(Approving(p), now)]
  }

  ghost predicate Outlives(w: World, t: Guid) {
    && t in w.tokens && w.tokens[t].keyId in w.keys
    && w.tokens[t].expiresAt > w.keys[w.tokens[t].keyId].expiresAt
  }

  lemma FirstKeys(o: Options, now: int)
    ensures SigningKey(o, map[], TENANT.id, FIRST.material, now) == Id('1')
    ensures EnsureActiveKey(o, map[], TENANT.id, FIRST.material, now) == map[Id('1') := NewKey(o, TENANT.id, FIRST.material, now)]
  {
  }

  /** On the brink the first key signs once more. */
  lemma SecondKey(o: Options, keys: Keys)
    requires Constructible(o) && RotationLead(o) < KeyLifetime(o)
    requires keys == map[Id('1') := NewKey(o, TENANT.id, FIRST.material, 0).(lastUsedAt := Some(0))]
    ensures SigningKey(o, keys, TENANT.id, SECOND_SUBJECT.material, Brink(o)) == Id('1')
    ensures EnsureActiveKey(o, keys, TENANT.id, SECOND_SUBJECT.material, Brink(o)) == keys
  {
    assert IsNewest(keys, TENANT.id, Id('1'));
    assert ActiveKey(keys, TENANT.id) == Some(Id('1'));
  }

  lemma FirstSubject(o: Options, hash: HashFn)
    ensures Obliging(Lib(o, hash)) && FreshSubject(Empty(), FIRST) && WellWritten(o, Lib(o, hash), FIRST, Id('1'), 0)
  {
    assert Trim("x") == "x" && Lower("x") == "x" && !Blank("x");
  }

  lemma SecondSubject(o: Options, lib: Library, hash: HashFn, v: World)
    requires Onboarded(o, lib, Empty(), FIRST, TENANT, 0, v)
    ensures v.tenants == [TENANT] && v.clock == 0
    ensures FreshSubject(v, SECOND_SUBJECT) && WellWritten(o, Lib(o, hash), SECOND_SUBJECT, Id('1'), Brink(o))
    ensures v.keys == map[Id('1') := NewKey(o, TENANT.id, FIRST.material, 0).(lastUsedAt := Some(0))]
    ensures v.tokens == map[Id('1') := TokenRecord(Id('1'), lib.hash("first"), Id('1'), 0, TokenLifetime(o))]
  {
    FirstKeys(o, 0);
    assert Trim("y") == "y" && Lower("y") == "y" && !Blank("y");
    assert Id('1')[0] != Id('2')[0];
    assert "first" != "second";
    assert v.candidates[Id('1')].email == "x" && "x"[0] != "y"[0];
  }

  lemma FirstOutlives(o: Options, lib: Library, v: World)
    requires Onboarded(o, lib, Empty(), FIRST, TENANT, 0, v) && KeyLifetime(o) < TokenLifetime(o)
    ensures Outlives(v, Id('1'))
  {
    FirstKeys(o, 0);
  }

  lemma SecondOutlives(o: Options, lib: Library, v: World, w: World)
    requires Constructible(o) && RotationLead(o) < KeyLifetime(o) && RotationLead(o) < TokenLifetime(o)
    requires v.keys == map[Id('1') := NewKey(o, TENANT.id, FIRST.material, 0).(lastUsedAt := Some(0))]
    requires Onboarded(o, lib, v, SECOND_SUBJECT, TENANT, Brink(o), w)
    ensures Outlives(w, Id('2'))
  {
    SecondKey(o, v.keys);
  }

  /** Three possible steps, one after the other. */
  ghost predicate Chained(o: Options, lib: Library, w: World, p: Subject, now: int, a: World, b: World, v: World) {
    && Possible(o, lib, w, Timed(Asking(p), now)) && a == After(o, lib, w, Timed(Asking(p), now))
    && Possible(o, lib, a, Timed(Typing(p), now)) && b == After(o, lib, a, Timed(Typing(p), now))
    && Possible(o, lib, b, Timed(Approving(p), now)) && v == After(o, lib, b, Timed(Approving(p), now))
  }

  lemma OneOnboarding(o: Options, lib: Library, w: World, p: Subject, now: int, a: World, b: World, v: World)
    requires Initial(w) && Chained(o, lib, w, p, now, a, b, v)
    ensures Run(o, lib, [w, a, b, v], Steps(p, now))
  {
    hide After, Possible;
  }

  lemma AnotherOnboarding(o: Options, lib: Library, trace: seq<World>, steps: seq<Timed>, p: Subject, now: int, a: World, b: World, v: World)
    requires Run(o, lib, trace, steps) && Chained(o, lib, trace[|steps|], p, now, a, b, v)
    ensures Run(o, lib, trace + [a, b, v], steps + Steps(p, now))
  {
    hide After, Possible;
    var longer, all := trace + [a, b, v], steps + Steps(p, now);
    forall i | 0 <= i < |all| ensures Possible(o, lib, longer[i], all[i]) && longer[i + 1] == After(o, lib, longer[i], all[i]) {
      if i >= |steps| { assert longer[|steps|] == trace[|steps|]; }
    }
  }

  /** If the token lifetime exceeds the rotation lead, some run issues a token that outlives its
      key. So the promise of TokensWithinKeys holds in every run exactly if the token lifetime is
      within the rotation lead. */
  lemma LongTokensOutliveKeys(o: Options, hash: HashFn) returns (lib: Library, trace: seq<World>, steps: seq<Timed>, t: Guid)
    requires Constructible(o) && RotationLead(o) < TokenLifetime(o)
    ensures Run(o, lib, trace, steps) && Outlives(trace[|steps|], t)
  {
    lib := Lib(o, hash);
    FirstSubject(o, hash);
    FirstKeys(o, 0);
    hide Run, After, Possible, Obliging, FreshSubject, WellWritten, EnsureActiveKey, SigningKey, Outlives, Onboarded, Lib;
    var a, b, v := Onboard(o, lib, Empty(), FIRST, TENANT, 0);
    SecondSubject(o, lib, hash, v);
    trace, steps, t := [Empty(), a, b, v], Steps(FIRST, 0), Id('1');
    OneOnboarding(o, lib, Empty(), FIRST, 0, a, b, v);
    if RotationLead(o) < KeyLifetime(o) {
      SecondKey(o, v.keys);
      var c, d, w := Onboard(o, lib, v, SECOND_SUBJECT, TENANT, Brink(o));
      SecondOutlives(o, lib, v, w);
      AnotherOnboarding(o, lib, trace, steps, SECOND_SUBJECT, Brink(o), c, d, w);
      trace, steps, t := trace + [c, d, w], steps + Steps(SECOND_SUBJECT, Brink(o)), Id('2');
    } else {
      FirstOutlives(o, lib, v);
    }
  }
}
