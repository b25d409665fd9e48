/** The gateway as a state machine over its tables: one step for each handler that writes them,
    with one instant per step. */
module Gateway {
  import opened Common
  import opened Timestamps
  import opened Canonical
  import opened AuditTables
  import opened Domain
  import opened ConsentTokens
  import opened DataSubjects
  import Req = ConsentRequests

  /** Who the access token names. */
  datatype Caller = Caller(slug: Option<string>, kind: Option<TenantType>)

  predicate IsAgent(caller: Caller) {
    caller.slug.Some? && caller.kind == Some(TenantType.Agent)
  }

  /** What comes with an application; the signature check depends on the agent it is made for. */
  datatype Submission = Submission(
    development: bool,
    jws: Option<string>,
    detached: string -> bool,
    token: string,
    payloadHash: string)

  datatype BoardReply = NoReceipt | Receipt(text: string, signature: string, valid: bool)

  datatype Step =
    | CreateRequest(caller: Caller, agent: Option<string>, board: string, email: string, scopes: seq<string>, hash: string, id: Guid)
    | ViewRequest(id: Guid)
    | PostCode(id: Guid, code: Option<string>)
    | ResendCode(id: Guid, hash: string)
    | Decide(id: Guid, approve: bool, candidateId: Guid, consentId: Guid, material: Material)
    | CancelRequest(caller: Caller, id: Guid)
    | Renew(caller: Caller, id: Guid, material: Material)
    | Rotate(slug: string, material: Material)
    | Revoke(id: Guid)
    | Submit(submission: Submission, id: Guid)
    | Settle(id: Guid, reply: BoardReply)
    | DeleteSubject(slug: string, kind: Option<TenantType>, email: string)
    | Sweep(retention: RetentionOptions)

  // ----- Creating and cancelling requests -----

  function ScopesText(scopes: seq<string>): string {
    if scopes == [] then ""
    else if Blank(scopes[0]) then ScopesText(scopes[1..])
    else
      var rest := ScopesText(scopes[1..]);
      if rest == "" then scopes[0] else scopes[0] + " " + rest
  }

  function ScopesOrDefault(scopes: seq<string>): string {
    var text := ScopesText(scopes);
    if text == "" then "apply:submit" else text
  }

  predicate MayCreate(caller: Caller, agent: Option<string>, email: string) {
    && IsAgent(caller)
    && (agent.Some? && !Blank(agent.value) ==> agent.value == caller.slug.value)
    && !Blank(NormalizeEmail(email))
  }

  predicate MayCancel(caller: Caller, r: Request) {
    IsAgent(caller) && r.agent == caller.slug.value
  }

  // ----- Approving -----

  /** The row that Approve builds before it asks for a token. */
  function Draft(r: Request, candidateId: Guid, now: int): Consent {
    Consent(candidateId, r.agent, r.board, r.scopes, Active, now, now, None, candidateId, now, now, candidateId, None, Lower(r.email))
  }

  /** The candidate with the request's address, or the one to be added. */
  ghost function CandidateFor(w: World, r: Request, candidateId: Guid): Guid {
    var found := CandidateOf(w.candidates, Lower(r.email));
    if found.Some? then found.value else candidateId
  }

  function WithCandidate(candidates: Candidates, id: Guid, email: string, now: int): Candidates {
    if id in candidates then candidates else candidates[id := Candidate(email, now)]
  }

  /** The consent that an issuance makes of a draft: it expires with its first token. */
  function Minted(c: Consent): Consent {
    c.(expiresAt := c.tokenExpiresAt)
  }

  // ----- Renewing -----

  /** The window for renewal is open. */
  predicate RenewalOpen(o: Options, c: Consent, now: int) {
    && c.status.Active? && now < c.expiresAt
    && c.tokenExpiresAt - RenewalLead(o) <= now <= c.tokenExpiresAt + Grace(o)
  }

  predicate MayRenew(caller: Caller, c: Consent) {
    IsAgent(caller) && c.agent == caller.slug.value
  }

  predicate Renewable(o: Options, w: World, id: Guid) {
    && id in w.consents && w.consents[id].candidateId in w.candidates
    && RenewalOpen(o, w.consents[id], w.clock)
  }

  // ----- Issuing steps -----

  /** The consent that a step issues a token for, before the token. */
  datatype Order = Order(consentId: Guid, consent: Consent, material: Material)

  ghost function OrderOf(o: Options, w: World, step: Step): Option<Order> {
    match step
    case Decide(id, approve, candidateId, consentId, m) =>
      if approve && id in w.requests && Req.Decidable(w.requests[id], w.clock)
      then Some(Order(consentId, Draft(w.requests[id], CandidateFor(w, w.requests[id], candidateId), w.clock), m))
      else None
    case Renew(caller, id, m) =>
      if Renewable(o, w, id) && MayRenew(caller, w.consents[id]) then Some(Order(id, w.consents[id], m)) else None
    case _ => None
  }

  ghost function IssuanceOf(o: Options, lib: Library, w: World, step: Step): Option<Issuance> {
    var order := OrderOf(o, w, step);
    if order.None? then None else IssueToken(o, lib.hash, w, order.value.consentId, order.value.consent, order.value.material)
  }

  /** The tables with an issuance stored: the consent's row, the keys and the token record. */
  function Stored(w: World, consentId: Guid, c: Consent, i: Issuance, m: Material): World {
    w.(consents := w.consents[consentId := c], keys := i.keys, tokens := i.tokens,
       handedOut := w.handedOut[m.tokenId := m.token])
  }

  /** The request step of an approval that issued a consent. */
  ghost function Approval(w: World, r: Request, step: Step, i: Issuance): World
    requires step.Decide?
  {
    Stored(w.(requests := w.requests[step.id := Req.ApprovedAs(r, step.consentId, w.clock)],
              candidates := WithCandidate(w.candidates, i.consent.candidateId, Lower(r.email), w.clock)),
           step.consentId, Minted(i.consent), i, step.material)
  }

  // ----- Submitting -----

  predicate Signed(s: Submission, agent: string) {
    (s.development && s.jws == Some("DEMO")) || s.detached(agent)
  }

  predicate HasSignature(s: Submission) {
    s.development || (s.jws.Some? && !Blank(s.jws.value))
  }

  /** The consent that a submission is accepted for. */
  ghost function AcceptedFor(o: Options, lib: Library, w: World, s: Submission): Option<Guid> {
    var presented := CheckToken(o, lib, w, s.token);
    if HasSignature(s) && presented.Honoured? && Signed(s, w.consents[presented.consentId].agent)
    then Some(presented.consentId) else None
  }

  function NewApplication(consentId: Guid, c: Consent, payloadHash: string, now: int): Application {
    Application(consentId, c.agent, c.board, Submitted, now, None, None, None, payloadHash)
  }

  function Settled(hash: HashFn, a: Application, reply: BoardReply): Application {
    if reply.Receipt? && reply.valid && !Blank(reply.signature) then
      a.(status := Accepted, receipt := Some(reply.text), receiptSignature := Some(reply.signature), receiptHash := Some(hash(reply.text)))
    else a.(status := Failed)
  }

  // ----- Steps -----

  function SetRequest(w: World, id: Guid, r: Request): World {
    w.(requests := w.requests[id := r])
  }

  function Created(w: World, caller: Caller, agent: Option<string>, board: string, email: string, scopes: seq<string>,
                   hash: string, id: Guid): World
  {
    if MayCreate(caller, agent, email)
    then SetRequest(w, id, Req.NewRequest(caller.slug.value, board, email, ScopesOrDefault(scopes), hash, w.clock))
    else w
  }

  /** A step of a stored request's own. */
  function Stepped(verify: Req.CodeCheck, w: World, id: Guid, event: Req.Event): World {
    if id in w.requests then SetRequest(w, id, Req.After(verify, w.requests[id], event, w.clock)) else w
  }

  function Cancelled(verify: Req.CodeCheck, w: World, caller: Caller, id: Guid): World {
    if id in w.requests && MayCancel(caller, w.requests[id]) then Stepped(verify, w, id, Req.Cancel) else w
  }

  ghost function Decided(o: Options, lib: Library, w: World, step: Step): World
    requires step.Decide?
  {
    if step.id !in w.requests then w
    else if !step.approve || !Req.Decidable(w.requests[step.id], w.clock) then Stepped(lib.verifyCode, w, step.id, Req.Deny)
    else
      var i := IssuanceOf(o, lib, w, step);
      if i.None? then w else Approval(w, w.requests[step.id], step, i.value)
  }

  ghost function Renewed(o: Options, lib: Library, w: World, step: Step): World
    requires step.Renew?
  {
    var i := IssuanceOf(o, lib, w, step);
    if i.None? then w else Stored(w, step.id, i.value.consent, i.value, step.material)
  }

  ghost function Rotated(o: Options, w: World, slug: string, m: Material): World {
    var tenant := BySlug(w.tenants, slug);
    if Blank(slug) || tenant.None? then w
    else w.(keys := RotateKey(o, w.keys, tenant.value.id, ActiveKey(w.keys, tenant.value.id), m, w.clock))
  }

  function Withdrawn(w: World, id: Guid): World {
    if id in w.consents then w.(consents := w.consents[id := w.consents[id].(status := Revoked, revokedAt := Some(w.clock))])
    else w
  }

  ghost function Applied(o: Options, lib: Library, w: World, s: Submission, id: Guid): World {
    var c := AcceptedFor(o, lib, w, s);
    if c.None? then w
    else w.(applications := w.applications[id := NewApplication(c.value, w.consents[c.value], s.payloadHash, w.clock)])
  }

  function Answered(hash: HashFn, w: World, id: Guid, reply: BoardReply): World {
    if id in w.applications && w.applications[id].status.Submitted?
    then w.(applications := w.applications[id := Settled(hash, w.applications[id], reply)])
    else w
  }

  ghost function Erased(w: World, slug: string, kind: Option<TenantType>, email: string): World {
    var d := Delete(w, slug, kind, email);
    if d.Deleted? then d.world else w
  }

  /** What a step does at the world's instant. */
  ghost function Act(o: Options, lib: Library, w: World, step: Step): World {
    match step
    case CreateRequest(caller, agent, board, email, scopes, hash, id) => Created(w, caller, agent, board, email, scopes, hash, id)
    case ViewRequest(id) => Stepped(lib.verifyCode, w, id, Req.View)
    case PostCode(id, code) => Stepped(lib.verifyCode, w, id, Req.Post(code))
    case ResendCode(id, hash) => Stepped(lib.verifyCode, w, id, Req.Resend(hash))
    case CancelRequest(caller, id) => Cancelled(lib.verifyCode, w, caller, id)
    case Decide(_, _, _, _, _) => Decided(o, lib, w, step)
    case Renew(_, _, _) => Renewed(o, lib, w, step)
    case Rotate(slug, m) => Rotated(o, w, slug, m)
    case Revoke(id) => Withdrawn(w, id)
    case Submit(s, id) => Applied(o, lib, w, s, id)
    case Settle(id, reply) => Answered(lib.hash, w, id, reply)
    case DeleteSubject(slug, kind, email) => Erased(w, slug, kind, email)
    case Sweep(retention) => Retain(w, retention)
  }

  /** The token text of an issuance reads back, and validates under its key. */
  predicate Written(o: Options, lib: Library, consentId: Guid, i: Issuance, m: Material) {
    && lib.readJwt(m.token) == Some(Content(consentId, i.consent))
    && lib.parseGuid(i.consent.tokenId) == Some(i.consent.tokenId)
    && i.consent.tokenKeyId in i.keys
    && lib.validJwt(m.token, i.keys[i.consent.tokenKeyId].publicJwk, o.issuer, i.consent.board)
  }

  /** Identifiers drawn by a step are new, and issued tokens are well written. */
  ghost predicate Enabled(o: Options, lib: Library, w: World, step: Step) {
    match step
    case CreateRequest(_, _, _, _, _, _, id) => id !in w.requests
    case Submit(_, id) => id !in w.applications
    case Rotate(_, m) => m.keyId !in w.keys
    case Decide(_, _, candidateId, consentId, m) =>
      candidateId !in w.candidates && consentId !in w.consents && FreshMaterial(o, lib, w, step, m)
    case Renew(_, _, m) => FreshMaterial(o, lib, w, step, m)
    case _ => true
  }

  ghost predicate FreshMaterial(o: Options, lib: Library, w: World, step: Step, m: Material) {
    && m.tokenId !in w.handedOut && m.keyId !in w.keys
    && var i := IssuanceOf(o, lib, w, step);
       i.Some? ==> Written(o, lib, OrderOf(o, w, step).value.consentId, i.value, m)
  }

  function At(w: World, now: int): World {
    w.(clock := now)
  }

  datatype Timed = Timed(step: Step, now: int)

  /** A step at an instant that is not before the last one. */
  ghost predicate Possible(o: Options, lib: Library, w: World, s: Timed) {
    w.clock <= s.now && Enabled(o, lib, At(w, s.now), s.step)
  }

  ghost function After(o: Options, lib: Library, w: World, s: Timed): World {
    Act(o, lib, At(w, s.now), s.step)
  }

  predicate Initial(w: World) {
    && w.requests == map[] && w.candidates == map[] && w.consents == map[] && w.tokens == map[]
    && w.keys == map[] && w.applications == map[] && w.handedOut == map[]
  }

  /** Worlds reached one after the other, from empty tables. */
  ghost predicate Run(o: Options, lib: Library, trace: seq<World>, steps: seq<Timed>) {
    && |trace| == |steps| + 1 && Initial(trace[0])
    && forall i | 0 <= i < |steps| :: Possible(o, lib, trace[i], steps[i]) && trace[i + 1] == After(o, lib, trace[i], steps[i])
  }
}
