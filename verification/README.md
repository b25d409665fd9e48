# ConsentBridge: a verified model

ConsentBridge lets a candidate give a recruiting agent consent to apply to a job board. A request is
verified by a one-time code and approved; approval mints a consent and a signed token; submissions
present the token and are signed; boards answer with signed receipts; everything leaves a trail in a
per-tenant hash chain. This project models the gateway's logic in Dafny and proves what it promises.
`dafny verify dfyconfig.toml` checks all of it.

## How the model is built

- **Audit chain** (`Timestamps`, `Canonical`, `AuditTables`, `AuditChain`, `AuditRuns`,
  `AuditTheorems`, `AuditPromises`, `AuditStorage`, `AuditServices`, `AuditSweeps`). An emission is three steps, read
  the head, save the event, save the link, and may stop between any two; emissions of different tenants
  interleave freely. The verifier's walk is a function of the tables, and its class computes that
  function in a loop. The sink's and the verifier's copies of `Canonicalize` are the same, so they are one
  function here.
- **Consents, tokens, keys** (`Domain`, `ConsentRequests`, `ConsentTokens`, `Gateway`, `GatewayInvariant`,
  `TokenTheorems`, `KeyTheorems`, `KeyLifetimes`, `RequestTheorems`, `SubmissionTheorems`,
  `ReceiptTheorems`, `Promises`, `GatewaySteps`, `TokenRuns`, `GatewayServices`). The gateway is a state
  machine over its tables with one step for each handler that writes them. One invariant ties the tables
  together; the theorems follow from it or from how steps change rows, and `Promises` states them for every
  world of every run. `GatewaySteps` says of each step, column by column, when it takes place and what it
  writes. `GatewayServices` holds the handlers as the source writes them, each proved to leave exactly the
  tables of its step.
- **Data subjects and retention** (`DataSubjects`, `DataSubjectTheorems`, `DataSubjectServices`).
- **Signatures and keys in use** (`Base64Url`, `Coordinates`, `Jws`, `KeyStore`).

## What is assumed, and where

- A run's clock does not go back, and each step has one instant. A step that asks for the time more than
  once gets the same answer.
- A submission brings the answer of its signature check along as a function of the agent, and any answer but
  acceptance refuses it; `SubmissionTheorems` puts the endpoint's check and the verifier in its place.
- GUIDs drawn by a step are new to the table they key; token ids are new for ever.
- The audit theorems assume that a tenant's emissions are serial and carry strictly increasing instants
  (`AuditRuns.Enabled`). A real hash is not injective, so each theorem names the finite set of texts on
  which the hash must not collide (`Separates`, `Apart`).
- The tables of the model keep instants as they are given. `AuditStorage` says what becomes of a
  verification when storage keeps only microseconds, as PostgreSQL does.
- Libraries are functions the model knows nothing about beyond what a theorem states: the code hasher,
  JWT reading and validation, GUID parsing, SHA-256, ECDSA, JSON headers. A step that issues a token
  is possible only if the token's text reads back and validates under its key (`Gateway.Written`).
- The tables are maps by primary key, so a lookup by another column finds whichever row fits; unique
  indexes and the invariant leave only one. Foreign keys and cascades are those the deletion meets.

## Where the code and its documents differ

- ADR 0002 promises overlapping keys and a grace period for tokens signed by the old one. The code retires
  the old key in the same step, so outstanding JWTs die at once (`Promises.RotationEndsTokens`). The `ctok:`
  form does not look at keys and goes on working (`Promises.OpaqueTokens`).
- ADR 0007 promises a grace period after token expiry. A consent never outlives its token, so the period has
  no effect on renewal and the `ctok:` form, and on JWTs only within the last second
  (`Promises.GraceInert`, `Promises.GraceLastSecond`).
- With the defaults, token lifetime 180 days and rotation lead 30 days, tokens can outlive their keys
  (`KeyLifetimes.LongTokensOutliveKeys`); exactly token lifetime within rotation lead prevents it.
- A deletion finds a subject by the candidate row, which exists only after a first approval; pending requests
  with the address stay before that (`DataSubjectTheorems.PendingRequestSurvives`).
- A window that starts exactly on an event reports it as a mismatch although nothing was altered
  (`AuditTheorems.Completeness`), and an untouched window fails when an instant in it is not a whole
  number of microseconds, because the hash covers 100 ns ticks and storage does not
  (`AuditStorage.StorageMustKeepInstants`).
- The chain is meant to make alterations evident. It does for the fields of an event exactly if none of the
  event's hashed columns holds a pipe (`Canonical.CanonicalDetermines`, `AuditPromises.AlterationsAreCaught`,
  `AuditPromises.PipesAreForgeable`). Metadata carries the correlation id that a client sends, and a pipe in
  it can be turned into a payload hash unseen (`Canonical.MetadataShiftGoesUnseen`).
- A signature part that does not decode makes verification throw where it would otherwise reject
  (`Jws.ThrowsOnBadSignature`).
- A one-time code may be sent to a request that is already verified, and approval does not ask for it: a
  verified request holds an unanswered code exactly if one was sent after its verification
  (`ConsentRequests.UnansweredCode`), and it is minted all the same (`ConsentRequests.MintedUnanswered`).

## Model

| member | source | states |
|---|---|---|
| `Timestamps.StampInjective` | src/Gateway.Infrastructure/Audit/AuditVerifierService.cs:107 | two instants that print alike in the round-trip form are the same instant, to the 100 ns tick |
| `Timestamps.CalendarIsGregorian` | src/Gateway.Infrastructure/Audit/AuditVerifierService.cs:107 | the printed date and time are the instant's in the Gregorian calendar, counted from year and month lengths |
| `Timestamps.StampSpells` | src/Gateway.Infrastructure/Audit/AuditVerifierService.cs:107 | the text spells those fields with leading zeros as yyyy-MM-ddTHH:mm:ss.fffffffZ |
| `Canonical.CanonicalSpells` | src/Gateway.Infrastructure/Audit/AuditVerifierService.cs:96-111 | which column stands where in the text, and that an absent one is empty |
| `Canonical.CanonicalInjective` | src/Gateway.Infrastructure/Audit/AuditVerifierService.cs:96-111 | among events that hold no pipe outside Metadata, two canonical texts are equal if and only if the previous hashes and all hashed fields agree (absent reads as empty) |
| `Canonical.CanonicalDetermines` | src/Gateway.Infrastructure/Audit/AuditVerifierService.cs:96-111 | an event's text determines the previous hash and all hashed fields, whatever it is compared with, if and only if none of its hashed columns, Metadata included, holds a pipe |
| `Canonical.CanonicalHead` | src/Gateway.Infrastructure/Audit/PersistentAuditEventSink.cs:66-82 | with no restriction on the fields, the previous hash and the tenant can still be read back from the text |
| `Canonical.PipeShiftGoesUnseen` | src/Gateway.Infrastructure/Audit/PersistentAuditEventSink.cs:69-81 | an event with a pipe in any hashed column shares its text, behind every previous hash, with an event of the same id, tenant and instant but other fields |
| `Canonical.MetadataShiftGoesUnseen` | src/Gateway.Api/Program.cs:743-751 | the input a client reaches: a correlation id with a pipe lets part of Metadata pass for the payload hash |
| `AuditTables.SortByTimeSorts` | src/Gateway.Infrastructure/Audit/AuditVerifierService.cs:35-38 | the rows of a window come in order of instant (that they are the same rows is the sort's own contract) |
| `AuditChain.WindowWalk` | src/Gateway.Infrastructure/Audit/AuditVerifierService.cs:40-54 | on increasing, linear histories with no event on the window start, the walk goes from the anchor to the last link in the window, or stops at the first event without a link |
| `AuditRuns.OtherTenantsUntouched` | src/Gateway.Infrastructure/Audit/PersistentAuditEventSink.cs:39-63 | a step of one tenant's emission leaves every other tenant's events, links and emission in flight alone |
| `AuditRuns.ChainHead` | src/Gateway.Infrastructure/Audit/PersistentAuditEventSink.cs:40-45 | the head found by greatest instant is the last link of the chain |
| `AuditRuns.StepKeepsInv` | src/Gateway.Infrastructure/Audit/PersistentAuditEventSink.cs:39-63 | reading the head, saving the event, saving the link and stopping in between all keep the chains intact |
| `AuditRuns.RunIsIntact` | src/Gateway.Infrastructure/Audit/PersistentAuditEventSink.cs:39-63 | every state of every interleaving with one emission in flight per tenant is intact, wherever emissions stop |
| `AuditTheorems.CanonicalHeadRecoverable` | src/Gateway.Infrastructure/Audit/PersistentAuditEventSink.cs:66-82 | the canonical text meets the one condition that the chain theorems put on it |
| `AuditTheorems.ChainsAreLinear` | src/Gateway.Infrastructure/Audit/PersistentAuditEventSink.cs:39-63 | in every reachable state each tenant's links are one GENESIS-rooted chain, each link the hash of its event behind its predecessor, no two hashes alike |
| `AuditTheorems.EventOnStartFails` | src/Gateway.Infrastructure/Audit/AuditVerifierService.cs:28-49 | an event exactly on the window start is hashed behind its own hash, so it never matches |
| `AuditTheorems.Completeness` | src/Gateway.Infrastructure/Audit/AuditVerifierService.cs:28-56 | an untouched window verifies if and only if each of its events is linked and none lies on its start; the computed hash is then that of the last link up to the end, else the earliest offender is reported |
| `AuditTheorems.TamperEvidence` | src/Gateway.Infrastructure/Audit/AuditVerifierService.cs:28-56 | against the links of any run, an arbitrarily altered event table verifies if and only if the selected rows repeat, text by text, a contiguous stretch of the emitted events from the anchor on |
| `AuditTheorems.OnlyTruncationPasses` | src/Gateway.Infrastructure/Audit/AuditVerifierService.cs:40-56 | two event tables that both verify the same window against the links of one run agree, id by id and text by text, as far as the shorter goes, and their computed hashes differ when the lengths do |
| `AuditTheorems.VerifiedFieldsAgree` | src/Gateway.Infrastructure/Audit/AuditVerifierService.cs:44-49 | a verified row has every hashed field of the event emitted under its id, if no hashed column of that event holds a pipe; the row itself may hold anything |
| `AuditPromises.WindowsAreComplete` | src/Gateway.Infrastructure/Audit/AuditVerifierService.cs:28-56 | completeness for the source's own canonical text, with no condition on the fields |
| `AuditPromises.AlterationsAreCaught` | src/Gateway.Infrastructure/Audit/AuditVerifierService.cs:28-56 | if a window of an arbitrarily altered event table verifies, its rows agree, in order and in every hashed field of each emitted event without pipes, with a contiguous stretch of the emitted events right after the anchor |
| `AuditPromises.PipesAreForgeable` | src/Gateway.Infrastructure/Audit/AuditVerifierService.cs:28-56 | the exception is exact: an event with a pipe in a hashed column can be replaced by one with other fields, and every window of every tenant verifies as before |
| `AuditStorage.KeptText` | src/Gateway.Infrastructure/Audit/AuditVerifierService.cs:107 | the text of a row as storage returns it is the emitted one if and only if its instant is a whole number of microseconds |
| `AuditStorage.StorageMustKeepInstants` | src/Gateway.Infrastructure/Audit/AuditVerifierService.cs:28-56 | on rows as they come back from storage an untouched window verifies if and only if each of its events is linked and was emitted at a whole number of microseconds |
| `AuditPromises.AnEmissionIsSound` | src/Gateway.Infrastructure/Audit/PersistentAuditEventSink.cs:39-63 | for every hash some run meets the hypotheses |
| `AuditServices.PersistentAuditEventSink.EmitAsync` | src/Gateway.Infrastructure/Audit/PersistentAuditEventSink.cs:17-64 | the tables after an emission, one that is cut short at either save, and one for an unknown tenant; each column of the new event holds what the descriptor says of it |
| `AuditServices.EmissionIsARun` | src/Gateway.Infrastructure/Audit/PersistentAuditEventSink.cs:39-63 | a whole or cut-short emission is a run of the interleaved machine |
| `AuditServices.AuditVerifierService.VerifyAsync` | src/Gateway.Infrastructure/Audit/AuditVerifierService.cs:17-73 | which arguments are refused, when the tenant is not found, and that one run row is added whose computed hash, success and error are those of walking the window's rows from the anchor |
| `AuditServices.AuditVerificationBackgroundService.RunOnceAsync` | src/Gateway.Infrastructure/Audit/AuditVerificationBackgroundService.cs:81-109 | a sweep adds, in order, one run row for every tenant whose slug is not blank, with its id, the configured window and the outcome of verifying it, and nothing else |
| `AuditPromises.StoredVerdictIsComplete` | src/Gateway.Infrastructure/Audit/AuditVerifierService.cs:56-72 | the stored row of an untouched window is a success exactly if the tenant exists, each event is linked and none lies on the start, and otherwise names the earliest offender |
| `AuditPromises.StoredVerdictCatches` | src/Gateway.Infrastructure/Audit/AuditVerifierService.cs:56-72 | if the stored row of an arbitrarily altered window is a success, its rows agree with what was emitted, as in AlterationsAreCaught |
| `AuditSweeps.ReachableIsAligned` | src/Gateway.Infrastructure/Audit/PersistentAuditEventSink.cs:49-56 | links stand at their events' instants in every reachable state |
| `AuditSweeps.RunExtends` | src/Gateway.Infrastructure/Audit/PersistentAuditEventSink.cs:58-63 | the tables only grow along a run |
| `AuditSweeps.WindowsCompose` | src/Gateway.Infrastructure/Audit/AuditVerifierService.cs:28-56 | two overlapping windows that succeed, the second after the tenant's table has grown, make one that succeeds over both with the second one's computed hash |
| `AuditSweeps.SweepsCompose` | src/Gateway.Infrastructure/Audit/AuditVerificationBackgroundService.cs:39-61 | sweeps no further apart than one window that all succeed verify everything from the first start to the last end |
| `AuditSweeps.NoGapsIfKeepingUp` | src/Gateway.Infrastructure/Audit/AuditVerificationBackgroundService.cs:45-49 | sweeps on the service's schedule leave no gap if and only if none takes longer than the window is longer than SweepHours |
| `AuditSweeps.SweepsOfARun` | src/Gateway.Infrastructure/Audit/AuditVerificationBackgroundService.cs:39-61 | over the states of one run, sweeps on schedule that keep up and all succeed verify the whole stretch they cover |
| `AuditSweeps.UncoveredEventGoesUnseen` | src/Gateway.Infrastructure/Audit/AuditVerificationBackgroundService.cs:86-87 | an event outside a window changes nothing in that window's outcome, so the spacing bound is needed |
| `ConsentRequests.StatusRises` | src/Gateway.Api/Areas/Consent/Pages/Request.cshtml.cs:46-50 | across all handlers and cancel a status changes only to one of higher rank: Pending, Verified, then Approved or Denied, then Expired |
| `ConsentRequests.EndIsSane` | src/Gateway.Api/Areas/Consent/Pages/Approve.cshtml.cs:57-75 | codes and instants are set when the status says so, an approval lies between verification and expiry, and only an approval names a consent |
| `ConsentRequests.ExpiredStays` | src/Gateway.Api/Areas/Consent/Pages/Request.cshtml.cs:92-101 | an expired row past its instant never changes again; were the clock to go back, a correct code would revive it |
| `ConsentRequests.ChangesBounded` | src/Gateway.Api/Areas/Consent/Pages/Request.cshtml.cs:92-146 | at most three status changes in any history |
| `ConsentRequests.MintedOnce` | src/Gateway.Api/Areas/Consent/Pages/Approve.cshtml.cs:103-134 | at most one consent is minted, and the row names a consent exactly if one was |
| `ConsentRequests.PendingHoldsLatestOtp` | src/Gateway.Api/Areas/Consent/Pages/Request.cshtml.cs:187-191 | while pending, the stored hash is that of the code sent last |
| `ConsentRequests.VerifiedByCode` | src/Gateway.Api/Areas/Consent/Pages/Request.cshtml.cs:114-146 | a verified or minted request was given a correct code for the one-time password sent last at that moment |
| `ConsentRequests.UnansweredCode` | src/Gateway.Api/Areas/Consent/Pages/Request.cshtml.cs:180-191 | a verified request holds an unanswered code if and only if a code was sent after its verification |
| `ConsentRequests.MintedUnanswered` | src/Gateway.Api/Areas/Consent/Pages/Approve.cshtml.cs:66-134 | a history in which such a request is minted although nobody typed the code sent last |
| `ConsentRequests.GuessBound` | src/Gateway.Api/Areas/Consent/Pages/Request.cshtml.cs:121-141 | after r effective resends at most 4r + 5 wrong codes were counted, and at most 4r + 4 while pending |
| `ConsentRequests.GuessBoundReached` | src/Gateway.Api/Areas/Consent/Pages/Request.cshtml.cs:187-191 | for every r some history counts exactly 4r + 5 |
| `ConsentRequests.TooLate` | src/Gateway.Api/Areas/Consent/Pages/Request.cshtml.cs:92-101 | what every page does to a request at or after its expiry, column by column |
| `ConsentRequests.CodeInTime` | src/Gateway.Api/Areas/Consent/Pages/Request.cshtml.cs:68-151 | what a typed code does before expiry, column by column: verified, one more attempt, or denied at the fifth |
| `ConsentRequests.OthersInTime` | src/Gateway.Api/Areas/Consent/Pages/Approve.cshtml.cs:57-134 | what looking, resending, approving and refusing do before expiry, column by column |
| `ConsentRequests.CancelDenies` | src/Gateway.Api/Program.cs:422-429 | a cancellation denies an open request at once, expired or not, and leaves any other alone |
| `ConsentRequests.ClosedForever` | src/Gateway.Api/Areas/Consent/Pages/Approve.cshtml.cs:57-134 | a request once approved, denied or expired stays closed, names the consent it named and is minted no more |
| `ConsentRequests.CancelledForGood` | src/Gateway.Api/Program.cs:422-429 | once a cancellation reaches an open request it is denied, can only expire after that, and is never minted |
| `ConsentRequests.RefusedForGood` | src/Gateway.Api/Areas/Consent/Pages/Approve.cshtml.cs:72-88 | the same of the candidate's refusal of a verified request before its expiry |
| `ConsentRequests.LockedForGood` | src/Gateway.Api/Areas/Consent/Pages/Request.cshtml.cs:121-141 | the same of the fifth wrong code in a row |
| `RequestTheorems.RequestFollows` | src/Gateway.Api/Program.cs:400-429 | each step of the whole gateway takes each stored request through its own transition or leaves it alone |
| `RequestTheorems.RunsAreHistories` | src/Gateway.Api/Areas/Consent/Pages/Request.cshtml.cs:68-151 | the rows of a request along any run of the gateway are a valid history |
| `RequestTheorems.RequestRuns` | src/Gateway.Api/Areas/Consent/Pages/Approve.cshtml.cs:49-134 | the request bounds above hold in every run of the gateway |
| `RequestTheorems.CancellationSticks` | src/Gateway.Api/Program.cs:422-429 | in every run a request that its agent cancels is denied in that step and, as long as it is stored, denied or expired without a consent |
| `RequestTheorems.RefusalSticks` | src/Gateway.Api/Areas/Consent/Pages/Approve.cshtml.cs:72-88 | in every run the same of a refusal before expiry |
| `ConsentTokens.RotationKeepsKeysOk` | src/Gateway.Infrastructure/SecurityServices.cs:180-222 | rotation leaves the tenant with one key in force, the new one; every key but the one it retires is as it was |
| `ConsentTokens.UnforcedRotationIsLate` | src/Gateway.Infrastructure/SecurityServices.cs:165-178 | a rotation for lack of a good key comes at least key lifetime minus rotation lead after every earlier activation |
| `GatewayInvariant.IssuanceKeys` | src/Gateway.Infrastructure/SecurityServices.cs:92-136 | issuing signs with a key in force of the agent, keeps the keys in order, and within the lead the token ends before its key |
| `GatewayInvariant.RenewedLedger` | src/Gateway.Infrastructure/ConsentLifecycleService.cs:46-64 | a renewal comes at least token lifetime minus renewal lead after the issuance before it, and before the consent expires |
| `GatewayInvariant.StepKeepsInv` | src/Gateway.Api/Areas/Consent/Pages/Approve.cshtml.cs:90-134 | every step keeps the invariant that ties requests, consents, tokens, keys and applications together |
| `GatewayInvariant.RunKeepsInv` | src/Gateway.Api/Program.cs:522-742 | the invariant holds in every world of every run |
| `TokenTheorems.RenewalBound` | src/Gateway.Infrastructure/ConsentLifecycleService.cs:46-64 | a consent renewed k times satisfies k(L - d) < L, so 180 and 14 days allow one renewal |
| `Promises.RenewalsToTheBound` | src/Gateway.Infrastructure/ConsentLifecycleService.cs:55-64 | whenever n(L - d) < L, renewals with n fresh, well-written materials all succeed, each as soon as its window opens |
| `TokenRuns.ManyRenewals` | src/Gateway.Infrastructure/ConsentLifecycleService.cs:46-64 | a run with n renewals of one consent, for every n with n(L - d) < L |
| `Promises.OpaqueTokens` | src/Gateway.Api/Program.cs:551-584 | the ctok form is honoured for a consent if and only if it names its current token and the consent is active and not expired, and goes unauthenticated only if it names no token id |
| `Promises.JwtTokens` | src/Gateway.Api/Program.cs:595-709 | a JWT is honoured for a consent if and only if it is the text handed out last for it, the consent is usable, its signing key is not retired and its seconds with grace are not over |
| `Promises.JwtHonoured` | src/Gateway.Api/Program.cs:586-709 | with no condition on the hash, a JWT is honoured for a consent if and only if it names its current token, the consent is usable, it verifies under a key in force of the agent, each of its five claims is the consent's, it is in time and its hash is the stored one |
| `Promises.JwtUnauthorized` | src/Gateway.Api/Program.cs:586-660 | a JWT goes unauthenticated, rather than forbidden, if and only if it is blank, does not read, names no token id, or names a usable consent's token and does not verify under a key in force of the agent |
| `TokenTheorems.SubmissionSafety` | src/Gateway.Api/Program.cs:727-742 | in every run applications are added by submissions only, each for an active consent's current token, signed by the agent or with the placeholder in development, and a JWT under the agent's only key in force |
| `TokenTheorems.SubmissionIsExact` | src/Gateway.Api/Program.cs:522-742 | a submission adds an application if and only if the consent that its token is honoured for has an agent whose signature it carries, or it carries the placeholder in development; the row names that consent and its parties, and nothing else changes |
| `TokenTheorems.ApplicationsAreSigned` | src/Gateway.Api/Program.cs:709-742 | whatever application a run adds was signed by the agent that it names, or placed with the placeholder in development |
| `SubmissionTheorems.ChecksAreAuthentic` | src/Gateway.Api/Program.cs:709-724 | the endpoint's own check and the verifier's together pass exactly what one of the agent's keys signed over the payload |
| `SubmissionTheorems.ApplicationsAreAuthentic` | src/Gateway.Api/Program.cs:522-742 | whatever application a run adds outside development, one of the keys of the agent it names signed the payload that came with it |
| `SubmissionTheorems.OneSignatureOnePayload` | src/Gateway.Api/Program.cs:709-724 | one signature text passes for at most one payload, whatever the agents |
| `TokenTheorems.DeadForever` | src/Gateway.Api/Program.cs:568-584 | a token that no usable consent carries stays so in every later world, and no submission that names it is accepted |
| `Promises.RevocationKills` | src/Gateway.Api/Program.cs:868-870 | revoking kills the consent's token |
| `Promises.RenewalKills` | src/Gateway.Infrastructure/SecurityServices.cs:131-136 | a renewal kills the token it replaces |
| `Promises.ErasureKills` | src/Gateway.Infrastructure/DsrService.cs:147-151 | deleting a data subject kills the tokens of the consents that go |
| `Promises.GraceInert` | src/Gateway.Infrastructure/ConsentLifecycleService.cs:55-61 | renewal and the ctok form give the same answer for every ExpiryGraceDays |
| `Promises.GraceLastSecond` | src/Gateway.Api/Program.cs:665-695 | for JWTs grace matters only in the last second before the token expires, and only whether there is any |
| `KeyTheorems.RetiredForever` | src/Gateway.Infrastructure/SecurityServices.cs:182-186 | in every run a retired key stays retired and keys keep their tenant, public part and dates |
| `KeyTheorems.OneKeyInForce` | src/Gateway.Infrastructure/SecurityServices.cs:180-222 | in every world of a run a tenant has at most one key that is not retired |
| `Promises.RotationSpacing` | src/Gateway.Infrastructure/SecurityServices.cs:165-178 | in every run a key that no forced rotation made comes at least key lifetime minus rotation lead after the tenant's earlier ones |
| `Promises.RotationEndsTokens` | src/Gateway.Infrastructure/SecurityServices.cs:143-163 | a rotation ends the agent's outstanding JWTs at once; none is honoured later until renewed |
| `TokenRuns.AcceptedThenRefused` | src/Gateway.Infrastructure/SecurityServices.cs:182-186 | a run in which a JWT is accepted with an application, its agent's key is rotated, and the same submission is then refused |
| `KeyTheorems.TokensWithinKeys` | src/Gateway.Infrastructure/SecurityServices.cs:78-80 | if the token lifetime is within the rotation lead, no token in any run outlives its key |
| `KeyLifetimes.LongTokensOutliveKeys` | src/Gateway.Infrastructure/SecurityServices.cs:78-80 | if it is not, a run is given in which a token outlives its key |
| `Promises.AConsentIsReached` | src/Gateway.Api/Areas/Consent/Pages/Approve.cshtml.cs:103-134 | for every configuration some run reaches a consent with a token, so the promises are not empty |
| `GatewaySteps.Durations` | src/Gateway.Infrastructure/SecurityServices.cs:78-80 | token and key lifetime, leads and grace in ticks for every configuration |
| `GatewaySteps.CreationIsExact` | src/Gateway.Api/Program.cs:298-342 | a request is created if and only if an agent asks in its own name for an address that is not blank; its columns, and nothing else changes |
| `GatewaySteps.CancellationIsExact` | src/Gateway.Api/Program.cs:400-429 | a cancellation takes effect if and only if the request's own agent cancels it pending or verified; it denies that row and nothing else changes |
| `GatewaySteps.ScopesAreJoined` | src/Gateway.Api/Program.cs:322-325 | scopes are joined by single blanks without the blank ones, with a default for none |
| `GatewaySteps.NormalizedMeans` | src/Gateway.Infrastructure/DsrService.cs:199-200 | a normalised address is the given one without the white space at its ends and in small letters |
| `GatewaySteps.ApprovalIsExact` | src/Gateway.Api/Areas/Consent/Pages/Approve.cshtml.cs:90-134 | an approval in time takes effect if and only if the agent is a known tenant; the request, the candidate found or added, the consent and its token column by column |
| `GatewaySteps.IssuanceIsExact` | src/Gateway.Infrastructure/SecurityServices.cs:83-141 | the token and its record, under the agent's key that is good for longer than the lead, or under a new one exactly if there is none |
| `GatewaySteps.RenewalIsExact` | src/Gateway.Infrastructure/ConsentLifecycleService.cs:32-68 | in reachable worlds a renewal takes place if and only if the consent's own agent asks, the consent is active and unexpired and the window has opened; it writes the token columns and no others |
| `GatewaySteps.RotationIsExact` | src/Gateway.Infrastructure/SecurityServices.cs:143-222 | a forced rotation retires the known tenant's key in use, adds a new one and touches nothing else |
| `GatewaySteps.RevocationIsExact` | src/Gateway.Api/Program.cs:860-881 | a revocation takes effect on any consent that is there and on nothing else |
| `GatewayServices.ReachableIsValid` | src/Gateway.Infrastructure/GatewayDbContext.cs:28-34 | every reachable world has unique token ids and addresses and one active key per tenant, as the handlers below need |
| `GatewayServices.JwtConsentTokenFactory.constructor` | src/Gateway.Infrastructure/SecurityServices.cs:78-80 | the three durations after clamping |
| `GatewayServices.JwtConsentTokenFactory.EnsureActiveKey` | src/Gateway.Infrastructure/SecurityServices.cs:165-178 | which key signs, and the keys afterwards |
| `GatewayServices.JwtConsentTokenFactory.RotateKey` | src/Gateway.Infrastructure/SecurityServices.cs:180-222 | the keys after a rotation |
| `GatewayServices.JwtConsentTokenFactory.RotateAsync` | src/Gateway.Infrastructure/SecurityServices.cs:143-163 | the tables after a forced rotation, and when there is none |
| `GatewayServices.JwtConsentTokenFactory.IssueToken` | src/Gateway.Infrastructure/SecurityServices.cs:83-141 | the consent's token columns, the keys and the token record after issuing, or nothing for an unknown tenant |
| `GatewayServices.ConsentLifecycleService.RenewAsync` | src/Gateway.Infrastructure/ConsentLifecycleService.cs:32-68 | renewal happens exactly when the candidate is there, the consent is active and unexpired and the window is open; the tables afterwards |
| `GatewayServices.RequestPage.OnGetAsync` | src/Gateway.Api/Areas/Consent/Pages/Request.cshtml.cs:38-66 | the request row afterwards and where the page leads |
| `GatewayServices.RequestPage.OnPostAsync` | src/Gateway.Api/Areas/Consent/Pages/Request.cshtml.cs:68-151 | the request row after a code is typed, and where the page leads |
| `GatewayServices.RequestPage.OnPostResendAsync` | src/Gateway.Api/Areas/Consent/Pages/Request.cshtml.cs:153-198 | the request row after a resend |
| `GatewayServices.ApprovePage.OnPostAsync` | src/Gateway.Api/Areas/Consent/Pages/Approve.cshtml.cs:49-181 | the tables after a decision; a refusal in time denies the request and changes nothing else |
| `GatewayServices.ApprovePage.Mint` | src/Gateway.Api/Areas/Consent/Pages/Approve.cshtml.cs:90-134 | candidate, consent, token, keys and request after an approval, or nothing when no token can be issued |
| `GatewayServices.Endpoints.CreateConsentRequest` | src/Gateway.Api/Program.cs:298-354 | who may create a request, and the row that is created |
| `GatewayServices.Endpoints.CancelConsentRequest` | src/Gateway.Api/Program.cs:400-442 | it succeeds if and only if the request's own agent cancels it pending or verified; the row is then denied at that instant, with every other column and row as before |
| `GatewayServices.Endpoints.RenewConsent` | src/Gateway.Api/Program.cs:883-917 | who may renew, and the tables afterwards |
| `GatewayServices.Endpoints.RevokeConsent` | src/Gateway.Api/Program.cs:860-881 | the consent row after a revocation |
| `GatewayServices.Endpoints.PresentOpaque` | src/Gateway.Api/Program.cs:551-584 | the answer to a token of the ctok form |
| `GatewayServices.Endpoints.PresentJwt` | src/Gateway.Api/Program.cs:586-709 | the answer to a JWT |
| `GatewayServices.Endpoints.SubmitApplication` | src/Gateway.Api/Program.cs:522-742 | the reply for each outcome by the submission's own fields and the token's answer; outside development an added application carries its agent's signature |
| `GatewayServices.Endpoints.RecordReply` | src/Gateway.Api/Program.cs:767-829 | the application after the board's reply, or no change when it was deleted in between |
| `Promises.DeletionExact` | src/Gateway.Infrastructure/DsrService.cs:116-162 | a deletion removes exactly the rows of the subject that name the tenant as board, if it is one, or else as agent, with true counts, leaves every other row alone, and drops the candidate if and only if no consent or request of any tenant is left |
| `Promises.TenantsApart` | src/Gateway.Infrastructure/DsrService.cs:164-176 | in every reached world, whatever a tenant deletes or exports, each consent, application and request that does not name it in the role in which it asks stays as it is and is not exported |
| `DataSubjectTheorems.UnknownSubject` | src/Gateway.Infrastructure/DsrService.cs:17-30 | with a blank slug or address, or no candidate with it, nothing is exported or deleted |
| `Promises.ExportMatchesDeletion` | src/Gateway.Infrastructure/DsrService.cs:15-50 | an export names the candidate's address and instant and lists exactly the rows that a deletion would remove |
| `Promises.NothingToExport` | src/Gateway.Infrastructure/DsrService.cs:15-50 | after a deletion the export is absent exactly if the candidate went, and otherwise lists nothing |
| `Promises.SecondDeletion` | src/Gateway.Infrastructure/DsrService.cs:116-162 | a second deletion changes nothing and reports nothing |
| `Promises.ReferencesHold` | src/Gateway.Infrastructure/GatewayDbContext.cs:28-29 | no reference between tables dangles after a deletion, whoever asks and for whom |
| `Promises.RequestsReached` | src/Gateway.Infrastructure/DsrService.cs:123-130 | a deletion leaves none of the tenant's requests with the address if and only if a candidate has it or there were none |
| `DataSubjectTheorems.PendingRequestSurvives` | src/Gateway.Infrastructure/DsrService.cs:123-130 | a run in which a deletion reports nothing and a request with the address stays |
| `DataSubjectTheorems.SweepsMerge` | src/Gateway.Infrastructure/DataRetentionExecutor.cs:27-69 | a sweep makes every earlier sweep superfluous; a second one with the same cutoffs changes and counts nothing |
| `ReceiptTheorems.ReceiptsMatch` | src/Gateway.Api/Program.cs:792-796 | in every run a stored receipt's hash is its own, across submission and retention |
| `ReceiptTheorems.ReceiptsAreValid` | src/Gateway.Api/Program.cs:767-829 | in every world of a run an application is accepted only on a receipt whose signature was valid, and keeps that receipt's text, signature and hash, at most without the text; any other keeps none |
| `ReceiptTheorems.SweepIsExact` | src/Gateway.Infrastructure/DataRetentionExecutor.cs:25-80 | a sweep clears the receipts that are old enough, deletes the requests that are, and leaves everything younger and every other column and table |
| `DataSubjectServices.DsrService.ExportAsync` | src/Gateway.Infrastructure/DsrService.cs:15-50 | what an export holds, and when there is none |
| `DataSubjectServices.DsrService.DeleteAsync` | src/Gateway.Infrastructure/DsrService.cs:116-162 | the tables and counts after a deletion, and no change when the save is refused |
| `DataSubjectServices.DsrService.TryDeleteCandidateAsync` | src/Gateway.Infrastructure/DsrService.cs:178-197 | when the candidate is dropped |
| `DataSubjectServices.DataRetentionExecutor.RunAsync` | src/Gateway.Infrastructure/DataRetentionExecutor.cs:25-80 | the bulk and the load-and-loop branch reach the same tables and counts for every input |
| `DataSubjectServices.DataRetentionExecutor.ClearOneByOne` | src/Gateway.Infrastructure/DataRetentionExecutor.cs:46-56 | the loop clears exactly the receipts that are due and counts them |
| `Base64Url.RoundTrip` | demo.ps1:19-31 | what is printed parses back to the same bytes |
| `Base64Url.EncodeInjective` | demo.ps1:19-21 | two byte sequences print alike if and only if they are the same |
| `Base64Url.EncodedAlphabet` | demo.ps1:19-21 | the printed form holds only letters, digits, - and _ |
| `Base64Url.Vector` | demo.ps1:19-21 | a test vector of section 10 of RFC 4648 |
| `Base64Url.UrlVector` | demo.ps1:19-21 | the two symbols of the URL form and an incomplete group |
| `Base64Url.LoneSymbolNeverDecodes` | demo.ps1:25-30 | the padding case for a length of one more than a multiple of four never parses |
| `Coordinates.NormalizedKeepsValue` | src/Gateway.Infrastructure/JwksJwsVerifier.cs:167-192 | the result has 32 bytes and the input's big-endian integer, and normalising throws if and only if that integer is 2^256 or more |
| `Coordinates.NormalizedIsCanonical` | src/MockBoard.Adapter/Services/ReceiptSigner.cs:79-107 | two inputs normalise alike if and only if they are the same integer |
| `Coordinates.ComponentIs` | src/Gateway.Infrastructure/JwksJwsVerifier.cs:160-193 | a coordinate is accepted if and only if its text is there, decodes and is below 2^256; it is then the same integer in 32 bytes |
| `Coordinates.DecodeComponent` | src/Gateway.Infrastructure/JwksJwsVerifier.cs:160-193 | the method with its loop and buffer returns that form, and throws when the text is blank, does not decode or is too large |
| `Jws.CandidatesAre` | src/Gateway.Infrastructure/JwksJwsVerifier.cs:97-129 | the candidate keys are exactly those of the tenant that pass the four filters |
| `Jws.ResolveCandidateKeys` | src/Gateway.Infrastructure/JwksJwsVerifier.cs:97-129 | the loop collects them in order |
| `Jws.JwksJwsVerifier.VerifyDetached` | src/Gateway.Infrastructure/JwksJwsVerifier.cs:27-79 | the verdict for every input, including the exception; acceptance if and only if the slug is not blank, has keys, and the signature is authentic under one of them |
| `Jws.AcceptedIsAuthentic` | src/Gateway.Infrastructure/JwksJwsVerifier.cs:27-79 | accepted if and only if there are three parts, the second the encoded payload, with a readable header, and the ECDSA check holds on the first two parts under an EC key of the tenant that fits the header and has both coordinates |
| `Jws.SplitRejoins` | src/Gateway.Infrastructure/JwksJwsVerifier.cs:34-38 | splitting at dots loses nothing and leaves no dot in a part |
| `Jws.OnePayload` | src/Gateway.Infrastructure/JwksJwsVerifier.cs:45-49 | one JWS text verifies for at most one payload, whatever the tenants and keys |
| `Jws.PrecheckAgrees` | src/Gateway.Api/Helpers/JwsHelpers.cs:14-47 | whatever the verifier does not reject, for any tenant and keys, passes the separate check before it, and the key id and algorithm then recorded are those by which the verifier chose the keys |
| `Jws.ThrowsOnBadSignature` | src/Gateway.Infrastructure/JwksJwsVerifier.cs:69-70 | verification throws if and only if all before it passed and the signature part does not decode |
| `Jws.SignedParts` | src/MockBoard.Adapter/Services/ReceiptSigner.cs:56-77 | a signed text splits into exactly the three encoded parts |
| `Jws.SignedIsAccepted` | src/MockBoard.Adapter/Services/ReceiptSigner.cs:56-77 | a signed text is accepted whenever the key's public form is among the tenant's keys |
| `KeyStore.StoredAre` | src/Gateway.Infrastructure/CompositeTenantKeyStore.cs:72-84 | a tenant's stored keys are exactly those of its rows that are not retired, whose tenant has the slug and whose text is a key |
| `KeyStore.CompositeTenantKeyStore.CloneSet` | src/Gateway.Infrastructure/CompositeTenantKeyStore.cs:93-107 | a clone is a new set with the same keys |
| `KeyStore.CompositeTenantKeyStore.BuildForTenant` | src/Gateway.Infrastructure/CompositeTenantKeyStore.cs:63-91 | a new set with the configured keys, then the stored ones; none if there are none |
| `KeyStore.CompositeTenantKeyStore.TryGetKeys` | src/Gateway.Infrastructure/CompositeTenantKeyStore.cs:19-23 | found exactly if the tenant has a key, and then all of them |
| `KeyStore.CompositeTenantKeyStore.GetAll` | src/Gateway.Infrastructure/CompositeTenantKeyStore.cs:25-61 | new sets only, and for every slug the same keys in the same order |
| `KeyStore.CompositeTenantKeyStore.CallsAgree` | src/Gateway.Infrastructure/CompositeTenantKeyStore.cs:19-61 | calls to either form agree however often they are made, because no cached set changes |

## Left out

- Concurrent emissions of one tenant: the source does not serialise them, and linearity is not claimed for them.
- Two web requests that change the same row at the same moment: each handler is one step, except that a submission is two, before and after the board's answer.
- A crash between saves outside the audit sink, and the audit sink saving pending changes of the shared database context early during a rotation.
- Non-ASCII letters and white space in addresses and in comparisons that ignore case.
- Overflow of instants near the year 9999 in the gateway; the audit chain's instants have their exact range.
- A GUID's exact layout: 36 lower-case hexadecimal digits and dashes in any arrangement stand for it, and a key's name is the GUID it is made of.
- Surrogate primary keys of token records and keys, algorithm columns, and columns that only copy request headers.
- The six-month expiry that Approve first writes and then overwrites; the draft row carries its own instant there.
- The order in which the database returns rows without an ORDER BY: both key queries are taken to see the rows in one order.
- JWT parsing and writing, ECDSA, hashing, data protection, JSON, OAuth tokens, HTTP, SSE, webhooks, metrics, logging, digests, views, seeders, migrations and configuration files.
- The resend cooldown, which holds nothing back: the field it checks is never loaded in that handler.
- The MockBoard payload parser, feed and API clients.
- GatewayServices.JwtConsentTokenFactory.constructor: is for configurations that do not throw; a negative key lifetime makes the source's constructor throw.
- Promises.JwtTokens: is for texts the hash does not confuse with the token handed out.
- DataSubjectServices.DsrService.ExportAsync: holds the consents, applications and requests of an export but not its audit events, because their identifiers are parsed as GUIDs in the query and some events carry a literal there.
- AuditStorage.StorageMustKeepInstants: is for tenants whose events fall into different microseconds and for windows of whole microseconds on whose start none of them falls.
- TokenRuns.ManyRenewals: takes as many distinct GUIDs as there are renewals, because the model's GUIDs are finitely many.
