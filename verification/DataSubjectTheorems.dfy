/** Deletion and export of a data subject agree with each other and leave other tenants alone, and
    the retention sweep, over reachable worlds. */
module DataSubjectTheorems {
  import opened Common
  import opened Timestamps
  import opened AuditTables
  import opened Domain
  import opened ConsentTokens
  import opened DataSubjects
  import opened Gateway
  import opened GatewayInvariant
  import Life = KeyLifetimes

  /** Who asks for what: a tenant and an address, neither blank. */
  datatype Query = Query(slug: string, kind: Option<TenantType>, email: string)

  predicate Stated(q: Query) {
    !Blank(q.slug) && !Blank(q.email)
  }

  ghost function Subject(w: World, q: Query): Option<Guid> {
    CandidateOf(w.candidates, NormalizeEmail(q.email))
  }

  // ----- What a deletion removes -----

  /** The tenant's rows of the subject: consents of the candidate, requests with the address,
      applications for one of the candidate's consents. A board owns the rows that name it as board,
      any other tenant those that name it as agent. */
  predicate OwnConsent(w: World, q: Query, candidate: Guid, c: Guid)
    requires c in w.consents
  {
    && w.consents[c].candidateId == candidate
    && (if q.kind == Some(TenantType.Board) then w.consents[c].board == q.slug else w.consents[c].agent == q.slug)
  }

  predicate OwnApplication(w: World, q: Query, candidate: Guid, a: Guid)
    requires a in w.applications && w.applications[a].consentId in w.consents
  {
    && w.consents[w.applications[a].consentId].candidateId == candidate
    && (if q.kind == Some(TenantType.Board) then w.applications[a].board == q.slug else w.applications[a].agent == q.slug)
  }

  predicate OwnRequest(w: World, q: Query, r: Guid)
    requires r in w.requests
  {
    && w.requests[r].email == NormalizeEmail(q.email)
    && (if q.kind == Some(TenantType.Board) then w.requests[r].board == q.slug else w.requests[r].agent == q.slug)
  }

  /** Exactly the tenant's rows of the subject are gone; every other row is as it was. */
  ghost predicate RowsDeleted(w: World, v: World, q: Query, candidate: Guid)
    requires forall a | a in w.applications :: w.applications[a].consentId in w.consents
  {
    && (forall c | c in w.consents :: c in v.consents <==> !OwnConsent(w, q, candidate, c))
    && (forall a | a in w.applications :: a in v.applications <==> !OwnApplication(w, q, candidate, a))
    && (forall r | r in w.requests :: r in v.requests <==> !OwnRequest(w, q, r))
    && (forall t | t in w.tokens :: t in v.tokens <==> w.tokens[t].consentId in v.consents)
    && Extended(v.consents, w.consents) && Extended(v.applications, w.applications)
    && Extended(v.requests, w.requests) && Extended(v.tokens, w.tokens)
    && v.tenants == w.tenants && v.keys == w.keys && v.handedOut == w.handedOut
  }

  lemma ApplicationInvariant(o: Options, lib: Library, w: World)
    requires Inv(o, lib, w)
    ensures ApplicationsOk(lib.hash, w) && RequestsOk(w) && UniqueEmails(w.candidates)
    ensures forall a | a in w.applications :: w.applications[a].consentId in w.consents
  {
    assert forall a | a in w.applications :: ApplicationOk(lib.hash, w.consents, w.applications[a]);
  }

  /** No request that stays names a consent that goes: an approved request shares its tenants and
      its candidate's address with its consent. */
  lemma NoneStillNamed(o: Options, lib: Library, w: World, q: Query, candidate: Guid)
    requires Inv(o, lib, w) && Subject(w, q) == Some(candidate)
    ensures !StillNamed(w.requests - RequestsOf(w.requests, q.slug, q.kind, NormalizeEmail(q.email)),
                        ConsentsOf(w.consents, q.slug, q.kind, candidate))
  {
    var email := NormalizeEmail(q.email);
    var gone, consents := RequestsOf(w.requests, q.slug, q.kind, email), ConsentsOf(w.consents, q.slug, q.kind, candidate);
    forall r | r in w.requests - gone && w.requests[r].consentId.Some? ensures w.requests[r].consentId.value !in consents {
      assert Linked(w.requests[r], w.consents, w.candidates);
    }
  }

  /** The tables that are left before the candidate is looked at. */
  ghost function Left(w: World, q: Query, candidate: Guid): World {
    Without(w, ConsentsOf(w.consents, q.slug, q.kind, candidate), RequestsOf(w.requests, q.slug, q.kind, NormalizeEmail(q.email)))
  }

  lemma LeftApplications(hash: HashFn, w: World, q: Query, candidate: Guid, a: Guid)
    requires a in w.applications && ApplicationOk(hash, w.consents, w.applications[a])
    ensures a in Left(w, q, candidate).applications <==> !OwnApplication(w, q, candidate, a)
  {
  }

  lemma LeftTokens(o: Options, w: World, q: Query, candidate: Guid, t: Guid)
    requires t in w.tokens && TokenOk(o, w, t, w.tokens[t])
    ensures t in Left(w, q, candidate).tokens <==> w.tokens[t].consentId in Left(w, q, candidate).consents
  {
  }

  lemma LeftRows(w: World, q: Query, candidate: Guid)
    ensures var v := Left(w, q, candidate);
            && (forall c | c in w.consents :: c in v.consents <==> !OwnConsent(w, q, candidate, c))
            && (forall r | r in w.requests :: r in v.requests <==> !OwnRequest(w, q, r))
            && Extended(v.consents, w.consents) && Extended(v.applications, w.applications)
            && Extended(v.requests, w.requests) && Extended(v.tokens, w.tokens)
            && v.tenants == w.tenants && v.keys == w.keys && v.handedOut == w.handedOut && v.candidates == w.candidates
  {
  }

  lemma LeftIsExact(o: Options, lib: Library, w: World, q: Query, candidate: Guid)
    requires Inv(o, lib, w)
    ensures forall a | a in w.applications :: w.applications[a].consentId in w.consents
    ensures RowsDeleted(w, Left(w, q, candidate), q, candidate)
    ensures Left(w, q, candidate).candidates == w.candidates
  {
    hide KeysOk, ConsentsOk, UniqueEmails, UniqueTokens, RequestsOk, Left, TokenOk, ApplicationOk, OwnApplication;
    ApplicationInvariant(o, lib, w);
    LeftRows(w, q, candidate);
    forall a | a in w.applications
      ensures a in Left(w, q, candidate).applications <==> !OwnApplication(w, q, candidate, a)
    {
      LeftApplications(lib.hash, w, q, candidate, a);
    }
    forall t | t in w.tokens ensures t in Left(w, q, candidate).tokens <==> w.tokens[t].consentId in Left(w, q, candidate).consents {
      LeftTokens(o, w, q, candidate, t);
    }
  }

  /** The reported counts are how many rows each table lost. */
  predicate CountsTrue(w: World, v: World, n: Counts) {
    && n.consents == |w.consents| - |v.consents|
    && n.applications == |w.applications| - |v.applications|
    && n.requests == |w.requests| - |v.requests|
  }

  lemma Lost<T>(rows: map<Guid, T>, gone: set<Guid>)
    requires gone <= rows.Keys
    ensures |rows| - |rows - gone| == |gone|
  {
    assert (rows - gone).Keys == rows.Keys - gone;
    assert |rows.Keys - gone| == |rows.Keys| - |gone|;
    assert |rows| == |rows.Keys|;
    assert |rows - gone| == |(rows - gone).Keys|;
  }

  lemma LeftCounts(w: World, q: Query, candidate: Guid)
    ensures var cs := ConsentsOf(w.consents, q.slug, q.kind, candidate);
            var rs := RequestsOf(w.requests, q.slug, q.kind, NormalizeEmail(q.email));
            forall gone: bool :: CountsTrue(w, Left(w, q, candidate), Counts(|cs|, |ApplicationsOf(w.applications, cs)|, |rs|, gone))
  {
    var cs := ConsentsOf(w.consents, q.slug, q.kind, candidate);
    Lost(w.consents, cs);
    Lost(w.applications, ApplicationsOf(w.applications, cs));
    Lost(w.requests, RequestsOf(w.requests, q.slug, q.kind, NormalizeEmail(q.email)));
  }

  /** What a deletion of a known candidate must do. */
  ghost predicate Exact(w: World, q: Query, candidate: Guid, d: Deletion)
    requires forall a | a in w.applications :: w.applications[a].consentId in w.consents
  {
    && d.Deleted?
    && var v, n := d.world, d.counts;
       && RowsDeleted(w, v, q, candidate) && CountsTrue(w, v, n)
       && (n.candidateDeleted
           <==> && (forall c | c in v.consents :: v.consents[c].candidateId != candidate)
                && (forall r | r in v.requests :: v.requests[r].email != NormalizeEmail(q.email)))
       && v.candidates == if n.candidateDeleted then w.candidates - {candidate} else w.candidates
  }

  /** Deletion removes exactly the tenant's rows with true counts, leaves every other row as it
      was, and drops the candidate exactly if no consent or request of any tenant is left. */
  lemma DeletionIsExact(o: Options, lib: Library, w: World, q: Query, candidate: Guid)
    requires Inv(o, lib, w) && Stated(q) && Subject(w, q) == Some(candidate)
    ensures forall a | a in w.applications :: w.applications[a].consentId in w.consents
    ensures Exact(w, q, candidate, Delete(w, q.slug, q.kind, q.email))
  {
    hide Inv, RowsDeleted, ConsentsOf, RequestsOf, ApplicationsOf, Forgotten, NormalizeEmail, StillNamed, Left, Delete;
    ApplicationInvariant(o, lib, w);
    NoneStillNamed(o, lib, w, q, candidate);
    LeftIsExact(o, lib, w, q, candidate);
    LeftCounts(w, q, candidate);
    DeleteIs(w, q, candidate);
    var left := Left(w, q, candidate);
    assert RowsDeleted(w, left.(candidates := left.candidates - {candidate}), q, candidate) by { OtherCandidates(w, left, q, candidate); }
    ForgottenMeans(left, candidate, NormalizeEmail(q.email));
  }

  lemma DeleteIs(w: World, q: Query, candidate: Guid)
    requires Stated(q) && Subject(w, q) == Some(candidate)
    requires !StillNamed(w.requests - RequestsOf(w.requests, q.slug, q.kind, NormalizeEmail(q.email)),
                         ConsentsOf(w.consents, q.slug, q.kind, candidate))
    ensures var cs := ConsentsOf(w.consents, q.slug, q.kind, candidate);
            var rs := RequestsOf(w.requests, q.slug, q.kind, NormalizeEmail(q.email));
            var left := Left(w, q, candidate);
            var gone := Forgotten(left, candidate, NormalizeEmail(q.email));
            Delete(w, q.slug, q.kind, q.email) == Deleted(
              if gone then left.(candidates := left.candidates - {candidate}) else left,
              Counts(|cs|, |ApplicationsOf(w.applications, cs)|, |rs|, gone))
  {
    hide ConsentsOf, RequestsOf, ApplicationsOf, Forgotten, NormalizeEmail, StillNamed, TokensWithout, Blank;
  }

  lemma OtherCandidates(w: World, left: World, q: Query, candidate: Guid)
    requires forall a | a in w.applications :: w.applications[a].consentId in w.consents
    requires RowsDeleted(w, left, q, candidate)
    ensures RowsDeleted(w, left.(candidates := left.candidates - {candidate}), q, candidate)
  {
  }

  lemma ForgottenMeans(left: World, candidate: Guid, email: string)
    ensures Forgotten(left, candidate, email)
       <==> && (forall c | c in left.consents :: left.consents[c].candidateId != candidate)
            && (forall r | r in left.requests :: left.requests[r].email != email)
  {
  }

  // ----- Afterwards -----

  ghost function DeleteFor(w: World, q: Query): Deletion {
    Delete(w, q.slug, q.kind, q.email)
  }

  ghost function ExportFor(w: World, q: Query): Option<Exported> {
    Export(w, q.slug, q.kind, q.email)
  }

  predicate EmptyExport(e: Exported) {
    e.consents == map[] && e.applications == map[] && e.requests == map[]
  }

  lemma ExactIsDeleted(w: World, q: Query, candidate: Guid, d: Deletion)
    requires forall a | a in w.applications :: w.applications[a].consentId in w.consents
    requires Exact(w, q, candidate, d)
    ensures d.Deleted?
  {
  }

  lemma DeletedTables(w: World, q: Query, candidate: Guid)
    requires Stated(q) && Subject(w, q) == Some(candidate) && DeleteFor(w, q).Deleted?
    ensures var v, cs := DeleteFor(w, q).world, ConsentsOf(w.consents, q.slug, q.kind, candidate);
            && v.consents == w.consents - cs
            && v.applications == w.applications - ApplicationsOf(w.applications, cs)
            && v.requests == w.requests - RequestsOf(w.requests, q.slug, q.kind, NormalizeEmail(q.email))
  {
    hide ConsentsOf, RequestsOf, ApplicationsOf, Forgotten, NormalizeEmail, StillNamed, TokensWithout, Blank;
  }

  lemma Complement<T>(rows: map<Guid, T>, ids: set<Guid>)
    ensures Only(rows, ids) == rows - (rows - ids).Keys
  {
  }

  lemma NoConsentLeft(w: World, v: World, q: Query, candidate: Guid)
    requires Extended(v.consents, w.consents)
    requires forall c | c in w.consents :: c in v.consents <==> !OwnConsent(w, q, candidate, c)
    ensures ConsentsOf(v.consents, q.slug, q.kind, candidate) == {}
  {
    forall c | c in v.consents ensures c !in ConsentsOf(v.consents, q.slug, q.kind, candidate) {
      assert c in w.consents && !OwnConsent(w, q, candidate, c);
    }
  }

  lemma NoRequestLeft(w: World, v: World, q: Query)
    requires Extended(v.requests, w.requests)
    requires forall r | r in w.requests :: r in v.requests <==> !OwnRequest(w, q, r)
    ensures RequestsOf(v.requests, q.slug, q.kind, NormalizeEmail(q.email)) == {}
  {
    hide NormalizeEmail;
    forall r | r in v.requests ensures r !in RequestsOf(v.requests, q.slug, q.kind, NormalizeEmail(q.email)) {
      assert r in w.requests && !OwnRequest(w, q, r);
    }
  }

  lemma SubjectAfter(w: World, v: World, q: Query, candidate: Guid, gone: bool)
    requires UniqueEmails(w.candidates) && Subject(w, q) == Some(candidate)
    requires v.candidates == if gone then w.candidates - {candidate} else w.candidates
    ensures Subject(v, q) == if gone then None else Some(candidate)
  {
    hide NormalizeEmail;
    var email := NormalizeEmail(q.email);
    forall c | c in w.candidates && HasEmail(w.candidates, email, c) ensures c == candidate {
      assert OneCandidate(w.candidates, c, candidate);
    }
    assert !gone ==> HasEmail(v.candidates, email, candidate);
  }

  /** No candidate carries the address any more, or none of the tenant's rows of the subject is left. */
  lemma NothingLeft(o: Options, lib: Library, w: World, q: Query, candidate: Guid)
    requires Inv(o, lib, w) && Stated(q) && Subject(w, q) == Some(candidate)
    ensures DeleteFor(w, q).Deleted?
    ensures var v := DeleteFor(w, q).world;
            && (Subject(v, q) == if DeleteFor(w, q).counts.candidateDeleted then None else Some(candidate))
            && ConsentsOf(v.consents, q.slug, q.kind, candidate) == {}
            && RequestsOf(v.requests, q.slug, q.kind, NormalizeEmail(q.email)) == {}
  {
    hide Inv, Delete, Forgotten, NormalizeEmail, CountsTrue, UniqueEmails, ApplicationsOk, RequestsOk, OwnConsent, OwnRequest,
         OwnApplication, Subject, ConsentsOf, RequestsOf, Stated;
    DeletionIsExact(o, lib, w, q, candidate);
    ApplicationInvariant(o, lib, w);
    var v := DeleteFor(w, q).world;
    NoConsentLeft(w, v, q, candidate);
    NoRequestLeft(w, v, q);
    SubjectAfter(w, v, q, candidate, DeleteFor(w, q).counts.candidateDeleted);
  }

  lemma EmptyIfNothingLeft(v: World, q: Query, candidate: Guid)
    requires Subject(v, q) == None || Subject(v, q) == Some(candidate)
    requires ConsentsOf(v.consents, q.slug, q.kind, candidate) == {} && RequestsOf(v.requests, q.slug, q.kind, NormalizeEmail(q.email)) == {}
    requires Stated(q)
    ensures ExportFor(v, q).None? <==> Subject(v, q).None?
    ensures ExportFor(v, q).Some? ==> EmptyExport(ExportFor(v, q).value)
  {
    hide NormalizeEmail, ConsentsOf, RequestsOf;
  }

  lemma SecondTime(v: World, q: Query, candidate: Guid, gone: bool)
    requires Subject(v, q) == if gone then None else Some(candidate)
    requires gone <==> Forgotten(v, candidate, NormalizeEmail(q.email))
    requires ConsentsOf(v.consents, q.slug, q.kind, candidate) == {} && RequestsOf(v.requests, q.slug, q.kind, NormalizeEmail(q.email)) == {}
    ensures DeleteFor(v, q) == Deleted(v, Counts(0, 0, 0, false))
  {
    hide Forgotten, NormalizeEmail, ConsentsOf, RequestsOf, Without;
    WithoutNothing(v);
    assert !StillNamed(v.requests, {});
    assert ApplicationsOf(v.applications, {}) == {};
  }

  lemma WithoutNothing(v: World)
    ensures Without(v, {}, {}) == v
  {
    assert ApplicationsOf(v.applications, {}) == {};
    assert TokensWithout(v.tokens, {}) == v.tokens;
  }

  /** Every reference between tables names a row that is there. */
  predicate NothingDangles(w: World) {
    && (forall r | r in w.requests && w.requests[r].consentId.Some? :: w.requests[r].consentId.value in w.consents)
    && (forall a | a in w.applications :: w.applications[a].consentId in w.consents)
    && (forall t | t in w.tokens :: w.tokens[t].consentId in w.consents)
    && (forall c | c in w.consents :: w.consents[c].candidateId in w.candidates)
  }

  lemma InvHasNoDangles(o: Options, lib: Library, w: World)
    requires Inv(o, lib, w)
    ensures NothingDangles(w)
  {
    hide KeysOk, Carries, Ledger, Dated, UniqueEmails, UniqueTokens;
    forall r | r in w.requests && w.requests[r].consentId.Some? ensures w.requests[r].consentId.value in w.consents {
      assert Linked(w.requests[r], w.consents, w.candidates);
    }
    assert forall a | a in w.applications :: ApplicationOk(lib.hash, w.consents, w.applications[a]);
    assert forall t | t in w.tokens :: TokenOk(o, w, t, w.tokens[t]);
    assert forall c | c in w.consents :: ConsentOk(o, lib, w, c, w.consents[c]);
  }

  // ----- Where deletion falls short -----

  /** None of the tenant's requests with the address is left. */
  predicate RequestsGone(w: World, q: Query) {
    forall r | r in w.requests && w.requests[r].email == NormalizeEmail(q.email) ::
      if q.kind == Some(TenantType.Board) then w.requests[r].board != q.slug else w.requests[r].agent != q.slug
  }

  lemma RequestsGoneMeans(w: World, q: Query)
    ensures RequestsGone(w, q) <==> RequestsOf(w.requests, q.slug, q.kind, NormalizeEmail(q.email)) == {}
  {
    hide NormalizeEmail;
    assert RequestsOf(w.requests, q.slug, q.kind, NormalizeEmail(q.email)) == {}
       <==> forall r | r in w.requests :: r !in RequestsOf(w.requests, q.slug, q.kind, NormalizeEmail(q.email));
  }

  /** A subject who was asked but has not approved has no candidate row yet: a deletion reports
      nothing and leaves the request with the address in place. */
  lemma PendingRequestSurvives(o: Options, lib: Library) returns (w: World, q: Query)
    ensures Run(o, lib, [Life.Empty(), w], [Timed(Life.Asking(Life.FIRST), 0)])
    ensures Stated(q) && !RequestsGone(w, q) && DeleteFor(w, q) == Deleted(w, Counts(0, 0, 0, false))
  {
    assert Trim("x") == "x" && Lower("x") == "x" && !Blank("x");
    w := Life.AskingIs(o, lib, Life.Empty(), Life.FIRST, 0);
    q := Query("acme", Some(TenantType.Agent), "x");
    assert "acme"[0] == 'a' && !Blank("acme");
    assert w.requests[Life.FIRST.requestId].email == NormalizeEmail(q.email);
  }

  // ----- Other tenants -----

  /** The row does not name the tenant in the role in which it asks. */
  predicate Foreign(q: Query, agent: string, board: string) {
    if q.kind == Some(TenantType.Board) then board != q.slug else agent != q.slug
  }

  /** Rows that a deletion leaves alone and an export leaves out. */
  ghost predicate LeftOut(w: World, v: World, e: Option<Exported>, q: Query) {
    && (forall c | c in w.consents && Foreign(q, w.consents[c].agent, w.consents[c].board) ::
          c in v.consents && v.consents[c] == w.consents[c] && (e.Some? ==> c !in e.value.consents))
    && (forall a | a in w.applications && Foreign(q, w.applications[a].agent, w.applications[a].board) ::
          a in v.applications && v.applications[a] == w.applications[a] && (e.Some? ==> a !in e.value.applications))
    && (forall r | r in w.requests && Foreign(q, w.requests[r].agent, w.requests[r].board) ::
          r in v.requests && v.requests[r] == w.requests[r] && (e.Some? ==> r !in e.value.requests))
  }

  /** A set of consents that all name the tenant, and a set of such requests. */
  predicate Own(w: World, q: Query, cs: set<Guid>, rs: set<Guid>) {
    && (forall c | c in w.consents && c in cs :: !Foreign(q, w.consents[c].agent, w.consents[c].board))
    && (forall r | r in w.requests && r in rs :: !Foreign(q, w.requests[r].agent, w.requests[r].board))
  }

  lemma OwnAre(w: World, q: Query, candidate: Guid)
    ensures Own(w, q, ConsentsOf(w.consents, q.slug, q.kind, candidate), RequestsOf(w.requests, q.slug, q.kind, NormalizeEmail(q.email)))
  {
    hide NormalizeEmail;
  }

  /** What a deletion takes and an export lists, whether there is a candidate or not. */
  lemma TakenAre(w: World, q: Query) returns (cs: set<Guid>, rs: set<Guid>)
    ensures Own(w, q, cs, rs)
    ensures var v := Erased(w, q.slug, q.kind, q.email);
            && (v.consents == w.consents || v.consents == w.consents - cs)
            && (v.applications == w.applications || v.applications == w.applications - ApplicationsOf(w.applications, cs))
            && (v.requests == w.requests || v.requests == w.requests - rs)
    ensures var e := ExportFor(w, q);
            e.Some? ==> && e.value.consents == Only(w.consents, cs) && e.value.requests == Only(w.requests, rs)
                        && e.value.applications == Only(w.applications, ApplicationsOf(w.applications, cs))
  {
    hide Erased, Export, NormalizeEmail, ApplicationsOf, ConsentsOf, RequestsOf, Own, Only;
    cs, rs := {}, {};
    NoneOwn(w, q);
    var candidate := Subject(w, q);
    if candidate.Some? {
      cs, rs := ConsentsOf(w.consents, q.slug, q.kind, candidate.value), RequestsOf(w.requests, q.slug, q.kind, NormalizeEmail(q.email));
      OwnAre(w, q, candidate.value);
    }
    ErasedTables(w, q);
    ExportedTables(w, q);
  }

  lemma ErasedTables(w: World, q: Query)
    ensures var v := Erased(w, q.slug, q.kind, q.email);
            if Subject(w, q).None? then v == w
            else
              var cs := ConsentsOf(w.consents, q.slug, q.kind, Subject(w, q).value);
              var rs := RequestsOf(w.requests, q.slug, q.kind, NormalizeEmail(q.email));
              && (v.consents == w.consents || v.consents == w.consents - cs)
              && (v.applications == w.applications || v.applications == w.applications - ApplicationsOf(w.applications, cs))
              && (v.requests == w.requests || v.requests == w.requests - rs)
  {
    hide NormalizeEmail, StillNamed, Forgotten, TokensWithout, Blank, ApplicationsOf, ConsentsOf, RequestsOf;
  }

  lemma ExportedTables(w: World, q: Query)
    ensures var e := ExportFor(w, q);
            e.Some? ==>
              Subject(w, q).Some?
              && var cs := ConsentsOf(w.consents, q.slug, q.kind, Subject(w, q).value);
                 && e.value.consents == Only(w.consents, cs)
                 && e.value.requests == Only(w.requests, RequestsOf(w.requests, q.slug, q.kind, NormalizeEmail(q.email)))
                 && e.value.applications == Only(w.applications, ApplicationsOf(w.applications, cs))
  {
    hide NormalizeEmail, Blank, ApplicationsOf, ConsentsOf, RequestsOf, Only;
  }

  lemma NoneOwn(w: World, q: Query)
    ensures Own(w, q, {}, {})
  {
  }

  /** An application's parties are those of its consent. */
  lemma ForeignApplication(hash: HashFn, w: World, q: Query, cs: set<Guid>, rs: set<Guid>, a: Guid)
    requires Own(w, q, cs, rs) && a in w.applications && ApplicationOk(hash, w.consents, w.applications[a])
    requires Foreign(q, w.applications[a].agent, w.applications[a].board)
    ensures a !in ApplicationsOf(w.applications, cs)
  {
  }

  lemma ForeignLeftOut(hash: HashFn, w: World, q: Query)
    requires forall a | a in w.applications :: ApplicationOk(hash, w.consents, w.applications[a])
    ensures LeftOut(w, Erased(w, q.slug, q.kind, q.email), ExportFor(w, q), q)
  {
    hide Erased, Export, ApplicationsOf, Foreign, ApplicationOk;
    var cs, rs := TakenAre(w, q);
    forall a | a in w.applications && Foreign(q, w.applications[a].agent, w.applications[a].board)
      ensures a !in ApplicationsOf(w.applications, cs)
    {
      ForeignApplication(hash, w, q, cs, rs, a);
    }
  }

  /** With a blank slug or address, or no candidate with it, nothing is exported or deleted. */
  lemma UnknownSubject(w: World, q: Query)
    requires !Stated(q) || forall c | c in w.candidates :: w.candidates[c].email != NormalizeEmail(q.email)
    ensures ExportFor(w, q) == None && DeleteFor(w, q) == Deleted(w, Counts(0, 0, 0, false))
  {
    hide NormalizeEmail;
  }

  // ----- Retention -----

  /** A sweep makes every earlier sweep superfluous; at the same instant the second one changes
      nothing. */
  lemma SweepsMerge(w: World, r: RetentionOptions, earlier: int, later: int)
    requires earlier <= later
    ensures Retain(At(Retain(At(w, earlier), r), later), r) == Retain(At(w, later), r)
    ensures var v := Retain(At(w, later), r);
            && Retain(v, r) == v
            && ReceiptsDue(v.applications, ReceiptCutoff(r, later)) == {}
            && RequestsDue(v.requests, RequestCutoff(r, later)) == {}
  {
    MergedTables(w, ReceiptCutoff(r, earlier), ReceiptCutoff(r, later), RequestCutoff(r, earlier), RequestCutoff(r, later));
    MergedTables(w, ReceiptCutoff(r, later), ReceiptCutoff(r, later), RequestCutoff(r, later), RequestCutoff(r, later));
  }

  lemma MergedTables(w: World, a: int, b: int, c: int, d: int)
    requires a <= b && c <= d
    ensures ClearReceipts(ClearReceipts(w.applications, a), b) == ClearReceipts(w.applications, b)
    ensures var requests := w.requests - RequestsDue(w.requests, c);
            requests - RequestsDue(requests, d) == w.requests - RequestsDue(w.requests, d)
  {
  }
}
