/** The gateway's rows and tables, keyed by primary key, its options, and the library
    functions it calls. Instants are ticks and may be any integer here. */
module Domain {
  import opened Common
  import opened Timestamps
  import opened Canonical
  import opened AuditTables

  // ----- E-mail addresses -----

  function LowerChar(c: char): char {
    if 'A' <= c <= 'Z' then c - 'A' + 'a' else c
  }

  /** ToLowerInvariant, on ASCII text. */
  function Lower(s: string): (r: string)
    ensures |r| == |s| && forall i | 0 <= i < |s| :: r[i] == LowerChar(s[i])
  {
    seq(|s|, i requires 0 <= i < |s| => LowerChar(s[i]))
  }

  function Trim(s: string): string {
    if s == [] then []
    else if IsWhiteSpace(s[0]) then Trim(s[1..])
    else if IsWhiteSpace(s[|s| - 1]) then Trim(s[..|s| - 1])
    else s
  }

  function NormalizeEmail(email: string): string {
    Lower(Trim(email))
  }

  lemma LowerTwice(s: string)
    ensures Lower(Lower(s)) == Lower(s)
  {
    assert forall i | 0 <= i < |s| :: Lower(Lower(s))[i] == Lower(s)[i];
  }

  // ----- Rows -----

  datatype TenantType = Agent | Board

  datatype RequestStatus = Pending | Verified | Approved | Denied | Expired

  datatype Request = Request(
    agent: string,
    board: string,
    email: string,
    scopes: string,
    status: RequestStatus,
    codeHash: Option<string>,
    attempts: int,
    createdAt: int,
    expiresAt: int,
    verifiedAt: Option<int>,
    decisionAt: Option<int>,
    consentId: Option<Guid>)

  datatype Candidate = Candidate(email: string, createdAt: int)

  datatype ConsentStatus = Active | Revoked

  datatype Consent = Consent(
    candidateId: Guid,
    agent: string,
    board: string,
    scopes: string,
    status: ConsentStatus,
    issuedAt: int,
    expiresAt: int,
    revokedAt: Option<int>,
    tokenId: Guid,
    tokenIssuedAt: int,
    tokenExpiresAt: int,
    tokenKeyId: Guid,
    tokenHash: Option<string>,
    approvedByEmail: string)

  datatype TokenRecord = TokenRecord(consentId: Guid, tokenHash: string, keyId: Guid, issuedAt: int, expiresAt: int)

  datatype KeyStatus = Current | Next | Retired

  datatype TenantKey = TenantKey(
    tenantId: Guid,
    status: KeyStatus,
    publicJwk: string,
    activatedAt: int,
    expiresAt: int,
    retiredAt: Option<int>,
    lastUsedAt: Option<int>)

  datatype ApplicationStatus = Submitted | Accepted | Failed

  datatype Application = Application(
    consentId: Guid,
    agent: string,
    board: string,
    status: ApplicationStatus,
    submittedAt: int,
    receipt: Option<string>,
    receiptSignature: Option<string>,
    receiptHash: Option<string>,
    payloadHash: string)

  /** The tables. Tokens are keyed by token id and keys by key id. Besides the tables: the
      instant of the last step, and every token string handed out so far by token id. */
  datatype World = World(
    clock: int,
    tenants: seq<Tenant>,
    requests: map<Guid, Request>,
    candidates: map<Guid, Candidate>,
    consents: map<Guid, Consent>,
    tokens: map<Guid, TokenRecord>,
    keys: map<Guid, TenantKey>,
    applications: map<Guid, Application>,
    handedOut: map<Guid, string>)

  // ----- Options -----

  datatype Options = Options(
    issuer: string,
    tokenLifetimeDays: int,
    keyLifetimeDays: int,
    rotationLeadDays: int,
    renewalLeadDays: int,
    expiryGraceDays: int)

  function TokenLifetime(o: Options): int {
    Max(1, o.tokenLifetimeDays) * DAY
  }

  function KeyLifetime(o: Options): int {
    Max(30, o.keyLifetimeDays) * DAY
  }

  /** Math.Clamp throws when its upper bound lies below its lower bound. */
  predicate Constructible(o: Options) {
    0 <= o.keyLifetimeDays
  }

  function RotationLead(o: Options): int {
    (if o.rotationLeadDays < 0 then 0 else if o.rotationLeadDays > o.keyLifetimeDays then o.keyLifetimeDays else o.rotationLeadDays) * DAY
  }

  function RenewalLead(o: Options): int {
    Max(0, o.renewalLeadDays) * DAY
  }

  function Grace(o: Options): int {
    Max(0, o.expiryGraceDays) * DAY
  }

  // ----- Libraries -----

  /** What a consent token's header and claims say; expiry in whole seconds. */
  datatype Jwt = Jwt(
    kid: string,
    jti: string,
    expires: int,
    consentId: Option<string>,
    agent: Option<string>,
    board: Option<string>,
    subject: Option<string>)

  /** Code hashing, JWT reading and validation, GUID parsing and SHA-256. */
  datatype Library = Library(
    verifyCode: (string, string) -> bool,
    readJwt: string -> Option<Jwt>,
    validJwt: (string, string, string, string) -> bool,
    parseGuid: string -> Option<Guid>,
    hash: HashFn)
}
