/** Runs that reach what the theorems about tokens allow: as many renewals as the bound leaves room
    for, and a token that is accepted before a rotation and refused after it. */
module TokenRuns {
  import opened Common
  import opened Timestamps
  import opened Canonical
  import opened AuditTables
  import opened AuditChain
  import opened Domain
  import opened ConsentTokens
  import opened DataSubjects
  import opened Gateway
  import opened GatewayInvariant
  import opened TokenTheorems
  import opened KeyTheorems
  import opened KeyLifetimes
  import Req = ConsentRequests

  lemma AnotherStep(o: Options, lib: Library, trace: seq<World>, steps: seq<Timed>, s: Timed)
    requires Run(o, lib, trace, steps) && Possible(o, lib, trace[|steps|], s)
    ensures Run(o, lib, trace + [After(o, lib, trace[|steps|], s)], steps + [s])
  {
    hide After, Possible;
    var v := After(o, lib, trace[|steps|], s);
    var longer, all := trace + [v], steps + [s];
    forall i | 0 <= i < |all| ensures Possible(o, lib, longer[i], all[i]) && longer[i + 1] == After(o, lib, longer[i], all[i]) {
      if i == |steps| { assert longer[i] == trace[i]; }
    }
  }

  /** The first onboarding, with everything that holds of the world it reaches. */
  lemma FirstOnboarding(o: Options, lib: Library) returns (trace: seq<World>, steps: seq<Timed>)
    requires Constructible(o) && Obliging(lib) && WellWritten(o, lib, FIRST, Id('1'), 0)
    ensures Run(o, lib, trace, steps) && |trace| == 4 && |steps| == 3
    ensures steps == Steps(FIRST, 0) && trace[0] == Empty()
    ensures Onboarded(o, lib, Empty(), FIRST, TENANT, 0, trace[3]) && Inv(o, lib, trace[3])
  {
    hide After, Possible, Run, Obliging, Onboarded, Inv, EnsureActiveKey, SigningKey, WellWritten, FreshSubject;
    FirstKeys(o, 0);
    EmptyIsFresh();
    var a, b, v := Onboard(o, lib, Empty(), FIRST, TENANT, 0);
    OneOnboarding(o, lib, Empty(), FIRST, 0, a, b, v);
    trace, steps := [Empty(), a, b, v], Steps(FIRST, 0);
    RunKeepsInv(o, lib, trace, steps, 3);
  }

  lemma EmptyIsFresh()
    ensures FreshSubject(Empty(), FIRST) && Initial(Empty())
  {
    assert Trim("x") == "x" && Lower("x") == "x" && !Blank("x");
  }

  // ----- Renewals up to the bound -----

  /** The consent of the first onboarding. */
  const OWNER: Guid := Id('1')

  /** A renewal's material, with one identifier for the token, its key and its text. */
  function Renewing(id: Guid): Material {
    Material(id, id, "jwk", id)
  }

  function Materials(ids: seq<Guid>): seq<Material> {
    if ids == [] then [] else [Renewing(ids[0])] + Materials(ids[1..])
  }

  /** The renewal with the given identifier, as soon as it is due. */
  function DueRenewal(o: Options, w: World, id: Guid): Timed
    requires OWNER in w.consents
  {
    Timed(Renew(AGENT, OWNER, Renewing(id)), Due(o, w, OWNER))
  }

  predicate Distinct(ids: seq<Guid>) {
    forall i, j | 0 <= i < j < |ids| :: ids[i] != ids[j]
  }

  /** What the token of each renewal must say. */
  ghost function Claimed(o: Options, lib: Library, w: World, ids: seq<Guid>): map<string, Jwt>
    decreases |ids|
  {
    if ids == [] || OWNER !in w.consents then map[]
    else
      var v := After(o, lib, w, DueRenewal(o, w, ids[0]));
      if OWNER !in v.consents then map[] else Claimed(o, lib, v, ids[1..])[ids[0] := Content(OWNER, v.consents[OWNER])]
  }

  lemma IssuanceReadsNothing(o: Options, lib: Library, read: string -> Option<Jwt>, w: World, step: Step)
    ensures IssuanceOf(o, lib.(readJwt := read), w, step) == IssuanceOf(o, lib, w, step)
  {
    hide OrderOf, IssueToken;
  }

  /** How tokens read plays no part in any step but a submission. */
  lemma StepReadsNothing(o: Options, lib: Library, read: string -> Option<Jwt>, w: World, s: Timed)
    requires !s.step.Submit?
    ensures After(o, lib.(readJwt := read), w, s) == After(o, lib, w, s)
  {
    hide IssuanceOf, Created, Stepped, Cancelled, Rotated, Withdrawn, Applied, Answered, Erased, Retain, Approval, Stored;
    IssuanceReadsNothing(o, lib, read, At(w, s.now), s.step);
  }

  lemma {:induction false} ClaimsReadNothing(o: Options, lib: Library, read: string -> Option<Jwt>, w: World, ids: seq<Guid>)
    ensures Claimed(o, lib.(readJwt := read), w, ids) == Claimed(o, lib, w, ids)
    decreases |ids|
  {
    if ids != [] && OWNER in w.consents {
      var s := DueRenewal(o, w, ids[0]);
      StepReadsNothing(o, lib, read, w, s);
      hide After;
      ClaimsReadNothing(o, lib, read, After(o, lib, w, s), ids[1..]);
    }
  }

  /** What a renewal adds. */
  lemma RenewalAdds(o: Options, lib: Library, w: World, s: Timed)
    requires s.step.Renew?
    ensures var v := After(o, lib, w, s);
            && v.clock == s.now && v.consents.Keys == w.consents.Keys
            && v.handedOut.Keys <= w.handedOut.Keys + {s.step.material.tokenId}
            && v.keys.Keys <= w.keys.Keys + {s.step.material.keyId}
            && (IssuanceOf(o, lib, At(w, s.now), s.step).Some? ==>
                  && s.step.id in v.consents
                  && v.consents[s.step.id] == IssuanceOf(o, lib, At(w, s.now), s.step).value.consent)
  {
    var u := At(w, s.now);
    var i := IssuanceOf(o, lib, u, s.step);
    if i.Some? {
      RenewalIssues(o, lib, u, s.step);
    }
    hide IssuanceOf, OrderOf;
  }

  lemma RenewalIssues(o: Options, lib: Library, w: World, step: Step)
    requires step.Renew? && IssuanceOf(o, lib, w, step).Some?
    ensures step.id in w.consents
    ensures IssuanceOf(o, lib, w, step).value.keys.Keys <= w.keys.Keys + {step.material.keyId}
    ensures IssuanceOf(o, lib, w, step).value.consent.tokenKeyId in IssuanceOf(o, lib, w, step).value.keys
    ensures IssuanceOf(o, lib, w, step).value.consent.board == w.consents[step.id].board
  {
    hide HasGoodKey, RenewalOpen, MayRenew;
    var c := w.consents[step.id];
    KeysAdded(o, w.keys, BySlug(w.tenants, c.agent).value.id, step.material, w.clock);
    hide EnsureActiveKey, SigningKey;
  }

  lemma KeysAdded(o: Options, keys: Keys, tenantId: Guid, m: Material, now: int)
    ensures EnsureActiveKey(o, keys, tenantId, m, now).Keys <= keys.Keys + {m.keyId}
    ensures SigningKey(o, keys, tenantId, m, now) in EnsureActiveKey(o, keys, tenantId, m, now)
  {
  }

  /** The identifiers are new to the world. */
  predicate Unused(w: World, ids: seq<Guid>) {
    Distinct(ids) && forall i | 0 <= i < |ids| :: ids[i] !in w.handedOut && ids[i] !in w.keys
  }

  ghost predicate Reads(lib: Library, claims: map<string, Jwt>) {
    forall t | t in claims :: lib.readJwt(t) == Some(claims[t])
  }

  lemma UnusedLater(w: World, v: World, ids: seq<Guid>)
    requires ids != [] && Unused(w, ids)
    requires v.handedOut.Keys <= w.handedOut.Keys + {ids[0]} && v.keys.Keys <= w.keys.Keys + {ids[0]}
    ensures Unused(v, ids[1..])
  {
    forall i | 0 <= i < |ids[1..]| ensures ids[1..][i] !in v.handedOut && ids[1..][i] !in v.keys {
      assert ids[1..][i] == ids[i + 1] && ids[0] != ids[i + 1];
    }
  }

  lemma {:induction false} ClaimedKeys(o: Options, lib: Library, w: World, ids: seq<Guid>)
    ensures forall t | t in Claimed(o, lib, w, ids) :: t in ids
    decreases |ids|
  {
    hide After;
    if ids != [] && OWNER in w.consents {
      var v := After(o, lib, w, DueRenewal(o, w, ids[0]));
      ClaimedKeys(o, lib, v, ids[1..]);
    }
  }

  lemma RestClaimed(o: Options, lib: Library, w: World, ids: seq<Guid>)
    requires ids != [] && Distinct(ids) && OWNER in w.consents && Reads(lib, Claimed(o, lib, w, ids))
    requires OWNER in After(o, lib, w, DueRenewal(o, w, ids[0])).consents
    ensures var v := After(o, lib, w, DueRenewal(o, w, ids[0]));
            lib.readJwt(ids[0]) == Some(Content(OWNER, v.consents[OWNER])) && Reads(lib, Claimed(o, lib, v, ids[1..]))
  {
    hide After, Content;
    var v := After(o, lib, w, DueRenewal(o, w, ids[0]));
    var all, rest := Claimed(o, lib, w, ids), Claimed(o, lib, v, ids[1..]);
    assert all == rest[ids[0] := Content(OWNER, v.consents[OWNER])];
    ClaimedKeys(o, lib, v, ids[1..]);
    assert ids[0] in all;
    forall t | t in rest ensures lib.readJwt(t) == Some(rest[t]) {
      assert t in ids[1..] && t in all;
      var i :| 0 <= i < |ids[1..]| && ids[1..][i] == t;
      assert ids[i + 1] == t && ids[0] != ids[i + 1];
    }
  }

  lemma RenewalIsPossible(o: Options, lib: Library, w: World, id: Guid)
    requires Obliging(lib) && OWNER in w.consents && id !in w.handedOut && id !in w.keys
    requires var v := After(o, lib, w, DueRenewal(o, w, id));
             OWNER in v.consents && lib.readJwt(id) == Some(Content(OWNER, v.consents[OWNER]))
    ensures Possible(o, lib, w, DueRenewal(o, w, id))
  {
    var s := DueRenewal(o, w, id);
    var u := At(w, s.now);
    var i := IssuanceOf(o, lib, u, s.step);
    RenewalAdds(o, lib, w, s);
    if i.Some? {
      OrderedMaterial(o, u, s.step);
      RenewalIssues(o, lib, u, s.step);
      hide After, IssuanceOf, Content;
      assert Written(o, lib, OWNER, i.value, s.step.material) by { IssuedTokenId(o, lib, u, s.step); }
      RenewalOrder(o, u, s.step);
    }
  }

  lemma RenewalOrder(o: Options, w: World, step: Step)
    requires step.Renew? && OrderOf(o, w, step).Some?
    ensures OrderOf(o, w, step).value.consentId == step.id
  {
  }

  lemma {:induction false} ClaimsSupply(o: Options, lib: Library, w: World, ids: seq<Guid>)
    requires Obliging(lib) && OWNER in w.consents && Unused(w, ids) && Reads(lib, Claimed(o, lib, w, ids))
    ensures Supplied(o, lib, w, AGENT, OWNER, Materials(ids))
    decreases |ids|
  {
    hide After, Possible, Obliging, Reads, Claimed, Due, Unused, Content;
    if ids != [] {
      var s := DueRenewal(o, w, ids[0]);
      var v := After(o, lib, w, s);
      assert ids[0] !in w.handedOut && ids[0] !in w.keys && Distinct(ids) by { UnusedFirst(w, ids); }
      RenewalAdds(o, lib, w, s);
      RestClaimed(o, lib, w, ids);
      RenewalIsPossible(o, lib, w, ids[0]);
      UnusedLater(w, v, ids);
      ClaimsSupply(o, lib, v, ids[1..]);
      assert Materials(ids)[0] == Renewing(ids[0]) && Materials(ids)[1..] == Materials(ids[1..]);
    }
  }

  lemma UnusedFirst(w: World, ids: seq<Guid>)
    requires ids != [] && Unused(w, ids)
    ensures ids[0] !in w.handedOut && ids[0] !in w.keys && Distinct(ids)
  {
  }

  /** The renewals as steps of a run. */
  lemma {:induction false} RenewalsAsRun(o: Options, lib: Library, trace: seq<World>, steps: seq<Timed>, ms: seq<Material>)
      returns (longer: seq<World>, all: seq<Timed>)
    requires Run(o, lib, trace, steps) && Supplied(o, lib, trace[|steps|], AGENT, OWNER, ms)
    ensures Run(o, lib, longer, all) && longer[|all|] == RenewAll(o, lib, trace[|steps|], AGENT, OWNER, ms)
    decreases |ms|
  {
    hide After, Possible, Due;
    longer, all := trace, steps;
    var w := trace[|steps|];
    if ms != [] && OWNER in w.consents {
      var s := Timed(Renew(AGENT, OWNER, ms[0]), Due(o, w, OWNER));
      AnotherStep(o, lib, trace, steps, s);
      longer, all := RenewalsAsRun(o, lib, trace + [After(o, lib, w, s)], steps + [s], ms[1..]);
    }
  }

  /** A library that reads the first token, and the claimed ones. */
  ghost function Reader(o: Options, hash: HashFn, claims: map<string, Jwt>): Library {
    Lib(o, hash).(readJwt := (t: string) =>
      if t == "first" then Some(Claims(o, FIRST, Id('1'), 0)) else if t in claims then Some(claims[t]) else None)
  }

  lemma ReaderObliges(o: Options, hash: HashFn, claims: map<string, Jwt>)
    requires "first" !in claims
    ensures Obliging(Reader(o, hash, claims)) && WellWritten(o, Reader(o, hash, claims), FIRST, Id('1'), 0)
    ensures Reads(Reader(o, hash, claims), claims)
  {
  }

  lemma LengthMatters(ids: seq<Guid>)
    ensures "first" !in ids && |Materials(ids)| == |ids|
  {
    if ids != [] {
      LengthMatters(ids[1..]);
    }
  }

  /** Runs of the same steps under libraries that read tokens differently pass through the same
      worlds. */
  lemma SameStart(o: Options, hash: HashFn, claims: map<string, Jwt>, a: seq<World>, b: seq<World>)
    requires Run(o, Reader(o, hash, map[]), a, Steps(FIRST, 0)) && Run(o, Reader(o, hash, claims), b, Steps(FIRST, 0))
    requires a[0] == b[0]
    ensures a[3] == b[3]
  {
    hide After, Possible;
    var plain, read := Reader(o, hash, map[]), Reader(o, hash, claims).readJwt;
    assert Reader(o, hash, claims) == plain.(readJwt := read);
    var steps := Steps(FIRST, 0);
    forall i | 0 <= i < 3 ensures After(o, plain.(readJwt := read), a[i], steps[i]) == After(o, plain, a[i], steps[i]) {
      StepReadsNothing(o, plain, read, a[i], steps[i]);
    }
    assert a[1] == b[1];
    assert a[2] == b[2];
  }

  lemma ReaderClaims(o: Options, hash: HashFn, claims: map<string, Jwt>, w: World, ids: seq<Guid>)
    ensures Claimed(o, Reader(o, hash, claims), w, ids) == Claimed(o, Reader(o, hash, map[]), w, ids)
  {
    ClaimsReadNothing(o, Reader(o, hash, map[]), Reader(o, hash, claims).readJwt, w, ids);
  }

  /** Where the renewals start from. */
  lemma StartFacts(o: Options, lib: Library, w: World, ids: seq<Guid>)
    requires Onboarded(o, lib, Empty(), FIRST, TENANT, 0, w) && Distinct(ids) && Id('1') !in ids
    ensures Unused(w, ids) && OWNER in w.consents
    ensures var c := w.consents[OWNER];
            c.status.Active? && MayRenew(AGENT, c) && w.clock == c.tokenIssuedAt == c.issuedAt && c.tokenId == Id('1')
    ensures Renewals(w.tokens, OWNER) == 0
    ensures w.keys == map[Id('1') := NewKey(o, TENANT.id, FIRST.material, 0).(lastUsedAt := Some(0))]
    ensures w.handedOut == map[Id('1') := "first"] && w.tenants == [TENANT] && w.consents.Keys == {OWNER}
  {
    hide TokenLifetime, KeyLifetime;
    FirstKeys(o, 0);
    assert TokensOf(w.tokens, OWNER) == {Id('1')};
  }

  /** The bound on renewals is reached by a run: whenever n(L - d) < L there are libraries and a run
      in which a consent is renewed n times. */
  lemma ManyRenewals(o: Options, hash: HashFn, ids: seq<Guid>) returns (lib: Library, trace: seq<World>, steps: seq<Timed>)
    requires Constructible(o) && Distinct(ids) && Id('1') !in ids && |ids| * Gap(o) < TokenLifetime(o)
    ensures Run(o, lib, trace, steps) && OWNER in trace[|steps|].consents && Renewals(trace[|steps|].tokens, OWNER) == |ids|
  {
    hide Run, After, Possible, Inv, Onboarded, Obliging, WellWritten, Claimed, Reads, Supplied, RenewAll, Reader, Gap, TokenLifetime,
         Renewals, MayRenew;
    LengthMatters(ids);
    // What the tokens must say does not depend on how they read, so it is known before the library.
    ReaderObliges(o, hash, map[]);
    var plain := Reader(o, hash, map[]);
    var start, first := FirstOnboarding(o, plain);
    var claims := Claimed(o, plain, start[3], ids);
    ClaimedKeys(o, plain, start[3], ids);
    ReaderObliges(o, hash, claims);
    lib := Reader(o, hash, claims);
    trace, steps := FirstOnboarding(o, lib);
    SameStart(o, hash, claims, start, trace);
    assert Claimed(o, lib, trace[3], ids) == claims by { ReaderClaims(o, hash, claims, trace[3], ids); }
    StartFacts(o, lib, trace[3], ids);
    ClaimsSupply(o, lib, trace[3], ids);
    RenewalBoundReached(o, lib, trace[3], AGENT, OWNER, Materials(ids));
    trace, steps := RenewalsAsRun(o, lib, trace, steps, Materials(ids));
  }

  // ----- A token before and after a rotation -----

  const SUBMISSION := Submission(false, Some("signed"), (agent: string) => true, "first", "payload")

  function SubmitFirst(): Step {
    Submit(SUBMISSION, Id('3'))
  }

  function RotateFirst(): Step {
    Rotate("acme", Material(Id('4'), Id('4'), "jwk4", ""))
  }

  lemma FirstText()
    ensures !Blank("first") && !("ctok:" <= "first") && !Blank("signed") && !Blank("acme")
  {
    assert "first"[0] == 'f' && "signed"[0] == 's' && "acme"[0] == 'a';
    assert "ctok:"[0] == 'c';
  }

  /** The first consent and its key, as the check of the first token looks at them. */
  lemma FirstIsGood(o: Options, lib: Library, w: World)
    requires Inv(o, lib, w) && Onboarded(o, lib, Empty(), FIRST, TENANT, 0, w)
    ensures OWNER in w.consents && w.consents[OWNER].status == Active && 0 < w.consents[OWNER].expiresAt && KeyInForce(w, w.consents[OWNER])
    ensures w.consents[OWNER].tokenExpiresAt == TokenLifetime(o) && w.clock == 0
  {
    StartFacts(o, lib, w, []);
    ConsentInvariant(o, lib, w, OWNER);
    LifetimeIsLong(o);
    hide Inv, Onboarded, TokenLifetime, Ledger;
  }

  lemma FirstIsAccepted(o: Options, lib: Library, w: World)
    requires Inv(o, lib, w) && Onboarded(o, lib, Empty(), FIRST, TENANT, 0, w)
    ensures AcceptedFor(o, lib, w, SUBMISSION) == Some(OWNER)
  {
    hide Inv, CheckToken, KeyInForce, TokenLifetime;
    FirstIsGood(o, lib, w);
    StartFacts(o, lib, w, []);
    hide Onboarded;
    FirstText();
    LifetimeIsLong(o);
    JwtAcceptance(o, lib, w, "first", OWNER);
  }

  lemma LifetimeIsLong(o: Options)
    ensures 0 < TokenLifetime(o) / SECOND * SECOND <= TokenLifetime(o)
  {
    assert TokenLifetime(o) >= DAY;
  }

  /** A token is accepted, then its agent's key is rotated, and then the same submission is refused,
      although the consent is as usable as before. */
  lemma AcceptedThenRefused(o: Options, hash: HashFn) returns (lib: Library, trace: seq<World>, steps: seq<Timed>)
    requires Constructible(o)
    ensures Run(o, lib, trace, steps) && |steps| == 5 && steps[3].step == SubmitFirst() && steps[4].step == RotateFirst()
    ensures AcceptedFor(o, lib, trace[3], SUBMISSION) == Some(OWNER) && Id('3') in trace[4].applications
    ensures AcceptedFor(o, lib, trace[5], SUBMISSION) == None
    ensures OWNER in trace[5].consents && trace[5].consents[OWNER].status == Active && trace[5].clock < trace[5].consents[OWNER].expiresAt
  {
    hide Run, After, Possible, Inv, Onboarded, Obliging, WellWritten, AcceptedFor, Lib;
    lib := Lib(o, hash);
    FirstSubject(o, hash);
    trace, steps := FirstOnboarding(o, lib);
    var w := trace[3];
    FirstIsAccepted(o, lib, w);
    var v := SubmittedIs(o, lib, w);
    AnotherStep(o, lib, trace, steps, Timed(SubmitFirst(), 0));
    trace, steps := trace + [v], steps + [Timed(SubmitFirst(), 0)];
    RunKeepsInv(o, lib, trace, steps, 4);
    var u := RotatedIs(o, lib, w, v);
    AnotherStep(o, lib, trace, steps, Timed(RotateFirst(), 0));
    trace, steps := trace + [u], steps + [Timed(RotateFirst(), 0)];
    RunKeepsInv(o, lib, trace, steps, 5);
    RefusedNow(o, lib, w, v, u);
  }

  lemma SubmittedIs(o: Options, lib: Library, w: World) returns (v: World)
    requires Onboarded(o, lib, Empty(), FIRST, TENANT, 0, w) && AcceptedFor(o, lib, w, SUBMISSION) == Some(OWNER)
    ensures v == After(o, lib, w, Timed(SubmitFirst(), 0)) && Possible(o, lib, w, Timed(SubmitFirst(), 0))
    ensures v == w.(applications := v.applications) && Id('3') in v.applications
  {
    hide AcceptedFor, EnsureActiveKey, SigningKey;
    assert At(w, 0) == w;
    v := After(o, lib, w, Timed(SubmitFirst(), 0));
  }

  lemma RotatedIs(o: Options, lib: Library, w: World, v: World) returns (u: World)
    requires Onboarded(o, lib, Empty(), FIRST, TENANT, 0, w) && v == w.(applications := v.applications)
    ensures u == After(o, lib, v, Timed(RotateFirst(), 0)) && Possible(o, lib, v, Timed(RotateFirst(), 0))
    ensures u == Rotated(o, v, "acme", RotateFirst().material)
  {
    StartFacts(o, lib, w, []);
    hide Rotated, Onboarded;
    assert At(v, 0) == v;
    assert Id('4')[0] != Id('1')[0];
    u := After(o, lib, v, Timed(RotateFirst(), 0));
  }

  lemma RefusedNow(o: Options, lib: Library, w: World, v: World, u: World)
    requires Inv(o, lib, w) && Onboarded(o, lib, Empty(), FIRST, TENANT, 0, w) && v == w.(applications := v.applications)
    requires Inv(o, lib, v) && Inv(o, lib, u) && u == Rotated(o, v, "acme", RotateFirst().material)
    ensures AcceptedFor(o, lib, u, SUBMISSION) == None
    ensures OWNER in u.consents && u.consents[OWNER].status == Active && u.clock < u.consents[OWNER].expiresAt
  {
    hide Inv, CheckToken, KeyInForce, TokenLifetime, RotateKey;
    FirstIsGood(o, lib, w);
    StartFacts(o, lib, w, []);
    hide Onboarded;
    FirstText();
    assert u.consents == v.consents && u.clock == v.clock && u.handedOut == v.handedOut;
    hide Rotated;
    assert Id('4')[0] != Id('1')[0];
    GrownRefl(u.keys);
    RotationEndsJwts(o, lib, v, "acme", RotateFirst().material, u, OWNER, "first");
    OnlyOwner(o, lib, u);
  }

  lemma OnlyOwner(o: Options, lib: Library, w: World)
    requires w.consents.Keys == {OWNER} && CheckToken(o, lib, w, "first") != Honoured(OWNER)
    ensures AcceptedFor(o, lib, w, SUBMISSION) == None
  {
    hide CheckJwt, CheckOpaque;
  }
}
