/** Data-subject export and deletion for one tenant, and the retention sweep: what each computes
    on the tables. */
module DataSubjects {
  import opened Common
  import opened Timestamps
  import opened Domain

  type Candidates = map<Guid, Candidate>
  type Consents = map<Guid, Consent>
  type Requests = map<Guid, Request>
  type Applications = map<Guid, Application>

  predicate HasEmail(candidates: Candidates, email: string, c: Guid) {
    c in candidates && candidates[c].email == email
  }

  ghost function CandidateOf(candidates: Candidates, email: string): (r: Option<Guid>)
    ensures r.Some? ==> HasEmail(candidates, email, r.value)
    ensures r.None? ==> forall c :: !HasEmail(candidates, email, c)
  {
    if c :| HasEmail(candidates, email, c) then Some(c) else None
  }

  /** A board sees the rows that name it as board, any other caller those that name it as agent. */
  predicate Visible(slug: string, kind: Option<TenantType>, agent: string, board: string) {
    if kind == Some(TenantType.Board) then board == slug else agent == slug
  }

  /** The tenant's consents of a candidate. */
  function ConsentsOf(consents: Consents, slug: string, kind: Option<TenantType>, candidate: Guid): set<Guid> {
    set c | c in consents && consents[c].candidateId == candidate && Visible(slug, kind, consents[c].agent, consents[c].board)
  }

  function ApplicationsOf(applications: Applications, consents: set<Guid>): set<Guid> {
    set a | a in applications && applications[a].consentId in consents
  }

  function RequestsOf(requests: Requests, slug: string, kind: Option<TenantType>, email: string): set<Guid> {
    set r | r in requests && requests[r].email == email && Visible(slug, kind, requests[r].agent, requests[r].board)
  }

  // ----- Export -----

  datatype Exported = Exported(
    email: string,
    createdAt: int,
    consents: map<Guid, Consent>,
    applications: map<Guid, Application>,
    requests: map<Guid, Request>)

  function Only<T>(rows: map<Guid, T>, ids: set<Guid>): map<Guid, T> {
    map k | k in rows && k in ids :: rows[k]
  }

  ghost function Export(w: World, slug: string, kind: Option<TenantType>, email: string): Option<Exported> {
    if Blank(slug) || Blank(email) then None
    else
      var normalized := NormalizeEmail(email);
      var candidate := CandidateOf(w.candidates, normalized);
      if candidate.None? then None
      else
        var consents := ConsentsOf(w.consents, slug, kind, candidate.value);
        Some(Exported(normalized, w.candidates[candidate.value].createdAt,
                      Only(w.consents, consents),
                      Only(w.applications, ApplicationsOf(w.applications, consents)),
                      Only(w.requests, RequestsOf(w.requests, slug, kind, normalized))))
  }

  // ----- Deletion -----

  datatype Counts = Counts(consents: nat, applications: nat, requests: nat, candidateDeleted: bool)

  /** Saving fails when a request that stays names a consent that goes. */
  datatype Deletion = Deleted(world: World, counts: Counts) | ForeignKeyViolation

  function TokensWithout(tokens: map<Guid, TokenRecord>, consents: set<Guid>): map<Guid, TokenRecord> {
    map t | t in tokens && tokens[t].consentId !in consents :: tokens[t]
  }

  predicate StillNamed(requests: Requests, consents: set<Guid>) {
    exists r :: r in requests && requests[r].consentId.Some? && requests[r].consentId.value in consents
  }

  /** The tables after the first save: token records go with their consents. */
  function Without(w: World, consents: set<Guid>, requests: set<Guid>): World {
    w.(consents := w.consents - consents,
       applications := w.applications - ApplicationsOf(w.applications, consents),
       requests := w.requests - requests,
       tokens := TokensWithout(w.tokens, consents))
  }

  /** Nothing of any tenant is left of the candidate. */
  predicate Forgotten(w: World, candidate: Guid, email: string) {
    (forall c | c in w.consents :: w.consents[c].candidateId != candidate)
    && (forall r | r in w.requests :: w.requests[r].email != email)
  }

  ghost function Delete(w: World, slug: string, kind: Option<TenantType>, email: string): Deletion {
    var normalized := NormalizeEmail(email);
    var candidate := CandidateOf(w.candidates, normalized);
    if Blank(slug) || Blank(email) || candidate.None? then Deleted(w, Counts(0, 0, 0, false))
    else
      var consents := ConsentsOf(w.consents, slug, kind, candidate.value);
      var requests := RequestsOf(w.requests, slug, kind, normalized);
      var left := Without(w, consents, requests);
      if StillNamed(left.requests, consents) then ForeignKeyViolation
      else
        var gone := Forgotten(left, candidate.value, normalized);
        Deleted(if gone then left.(candidates := left.candidates - {candidate.value}) else left,
                Counts(|consents|, |ApplicationsOf(w.applications, consents)|, |requests|, gone))
  }

  // ----- Retention -----

  datatype RetentionOptions = RetentionOptions(applicationReceiptDays: int, consentRequestDays: int)

  predicate ReceiptDue(a: Application, cutoff: int) {
    a.submittedAt <= cutoff && a.receipt.Some?
  }

  function ReceiptsDue(applications: Applications, cutoff: int): set<Guid> {
    set a | a in applications && ReceiptDue(applications[a], cutoff)
  }

  function RequestsDue(requests: Requests, cutoff: int): set<Guid> {
    set r | r in requests && requests[r].createdAt <= cutoff
  }

  function ClearReceipts(applications: Applications, cutoff: int): Applications {
    map a | a in applications :: if ReceiptDue(applications[a], cutoff) then applications[a].(receipt := None) else applications[a]
  }

  function ReceiptCutoff(o: RetentionOptions, now: int): int {
    now - o.applicationReceiptDays * DAY
  }

  function RequestCutoff(o: RetentionOptions, now: int): int {
    now - o.consentRequestDays * DAY
  }

  function Retain(w: World, o: RetentionOptions): World {
    w.(applications := ClearReceipts(w.applications, ReceiptCutoff(o, w.clock)),
       requests := w.requests - RequestsDue(w.requests, RequestCutoff(o, w.clock)))
  }
}
