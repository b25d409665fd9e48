/** The life of one consent request: what each page handler and the cancel endpoint do to its
    row, and what every history of such steps keeps. */
module ConsentRequests {
  import opened Common
  import opened Timestamps
  import opened Domain

  const MAX_ATTEMPTS := 5

  function NewRequest(agent: string, board: string, email: string, scopes: string, hash: string, now: int): Request {
    Request(agent, board, NormalizeEmail(email), scopes, Pending, Some(hash), 0, now, now + 24 * HOUR, None, None, None)
  }

  datatype Event =
    | Elsewhere
    | View
    | Post(code: Option<string>)
    | Resend(hash: string)
    | Approve(consentId: Guid)
    | Deny
    | Cancel

  type CodeCheck = (string, string) -> bool

  /** OnGetAsync. */
  function Viewed(r: Request, now: int): Request {
    if r.expiresAt <= now && (r.status.Pending? || r.status.Verified?) then r.(status := Expired) else r
  }

  predicate Typed(code: Option<string>) {
    code.Some? && !Blank(Trim(code.value))
  }

  predicate Correct(verify: CodeCheck, r: Request, code: Option<string>) {
    Typed(code) && r.codeHash.Some? && verify(Trim(code.value), r.codeHash.value)
  }

  /** The handler gets as far as counting an attempt. */
  predicate Attempted(r: Request, code: Option<string>, now: int) {
    now < r.expiresAt && (r.status.Pending? || r.status.Expired?) && Typed(code)
  }

  /** OnPostAsync. */
  function Posted(verify: CodeCheck, r: Request, code: Option<string>, now: int): Request {
    if r.expiresAt <= now then r.(status := Expired)
    else if !Attempted(r, code, now) then r
    else if Correct(verify, r, code) then
      r.(attempts := r.attempts + 1, status := Verified, verifiedAt := Some(now), codeHash := None)
    else if r.attempts + 1 >= MAX_ATTEMPTS then
      r.(attempts := r.attempts + 1, status := Denied, decisionAt := Some(now))
    else r.(attempts := r.attempts + 1)
  }

  predicate Sends(r: Request, now: int) {
    now < r.expiresAt && !r.status.Approved? && !r.status.Denied?
  }

  /** OnPostResendAsync. */
  function Resent(r: Request, hash: string, now: int): Request {
    if r.expiresAt <= now then r.(status := Expired)
    else if Sends(r, now) then r.(codeHash := Some(hash), attempts := 0)
    else r
  }

  predicate Decidable(r: Request, now: int) {
    now < r.expiresAt && r.status.Verified?
  }

  /** A decision that comes too late. */
  function Late(r: Request, now: int): Request {
    if r.expiresAt <= now && !r.status.Expired? then r.(status := Expired, decisionAt := Some(now)) else r
  }

  /** Approve.OnPostAsync, once a consent has been issued under the given id. */
  function ApprovedAs(r: Request, consentId: Guid, now: int): Request {
    if Decidable(r, now) then
      r.(status := Approved, decisionAt := Some(now), consentId := Some(consentId), codeHash := None)
    else Late(r, now)
  }

  function Refused(r: Request, now: int): Request {
    if Decidable(r, now) then r.(status := Denied, decisionAt := Some(now)) else Late(r, now)
  }

  function Cancelled(r: Request, now: int): Request {
    if r.status.Pending? || r.status.Verified? then r.(status := Denied, decisionAt := Some(now)) else r
  }

  function After(verify: CodeCheck, r: Request, event: Event, now: int): Request {
    match event
    case Elsewhere => r
    case View => Viewed(r, now)
    case Post(code) => Posted(verify, r, code, now)
    case Resend(hash) => Resent(r, hash, now)
    case Approve(consentId) => ApprovedAs(r, consentId, now)
    case Deny => Refused(r, now)
    case Cancel => Cancelled(r, now)
  }

  // ----- The transitions, column by column -----

  predicate Open(r: Request) {
    r.status.Pending? || r.status.Verified?
  }

  /** At or after its expiry an untouched open request expires on any page, and a page that would act
      on it expires it whatever it was; only cancelling takes no notice. */
  lemma TooLate(verify: CodeCheck, r: Request, now: int)
    requires r.expiresAt <= now
    ensures After(verify, r, View, now) == if Open(r) then r.(status := Expired) else r
    ensures forall code :: After(verify, r, Post(code), now) == r.(status := Expired)
    ensures forall hash :: After(verify, r, Resend(hash), now) == r.(status := Expired)
    ensures forall c :: After(verify, r, Approve(c), now) == After(verify, r, Deny, now)
    ensures After(verify, r, Deny, now) == if r.status == Expired then r else r.(status := Expired, decisionAt := Some(now))
  {
  }

  /** Before its expiry: what a typed code does to a request, by the code and the attempts so far. */
  lemma CodeInTime(verify: CodeCheck, r: Request, code: Option<string>, now: int)
    requires now < r.expiresAt && r.status != Expired
    ensures var s := After(verify, r, Post(code), now);
            if r.status != Pending || code == None || Blank(Trim(code.value)) then s == r
            else if r.codeHash.Some? && verify(Trim(code.value), r.codeHash.value) then
              s == r.(status := Verified, verifiedAt := Some(now), codeHash := None, attempts := r.attempts + 1)
            else if r.attempts < 4 then s == r.(attempts := r.attempts + 1)
            else s == r.(attempts := r.attempts + 1, status := Denied, decisionAt := Some(now))
  {
  }

  /** Before its expiry: looking changes nothing, a resend replaces the code of an open request and
      gives back all attempts, and a decision takes effect on a verified request and on no other. */
  lemma OthersInTime(verify: CodeCheck, r: Request, hash: string, consentId: Guid, now: int)
    requires now < r.expiresAt && r.status != Expired
    ensures After(verify, r, View, now) == r
    ensures After(verify, r, Resend(hash), now) == if Open(r) then r.(codeHash := Some(hash), attempts := 0) else r
    ensures After(verify, r, Approve(consentId), now)
         == if r.status != Verified then r
            else r.(status := Approved, decisionAt := Some(now), consentId := Some(consentId), codeHash := None)
    ensures After(verify, r, Deny, now) == if r.status != Verified then r else r.(status := Denied, decisionAt := Some(now))
  {
  }

  /** A cancellation denies an open request at once, expired or not, and leaves any other alone. */
  lemma CancelDenies(verify: CodeCheck, r: Request, now: int)
    ensures After(verify, r, Cancel, now) == if Open(r) then r.(status := Denied, decisionAt := Some(now)) else r
  {
  }

  /** What a closed request may still become: a denied or approved one may expire, and which consent
      it names does not change. */
  predicate Closes(r: Request, s: Request) {
    && s.consentId == r.consentId
    && (r.status == Denied ==> s.status == Denied || s.status == Expired)
    && (r.status == Approved ==> s.status == Approved || s.status == Expired)
    && (r.status == Expired ==> s.status == Expired)
  }

  lemma ClosedStep(verify: CodeCheck, r: Request, event: Event, now: int)
    requires !Open(r) && (r.status == Expired ==> r.expiresAt <= now)
    ensures Closes(r, After(verify, r, event, now))
    ensures event.Approve? ==> !Decidable(r, now)
  {
  }

  // ----- Histories -----

  datatype Timed = Timed(event: Event, at: int)

  /** Rows of one request, from its creation on, and what happened between them. */
  datatype History = History(rows: seq<Request>, events: seq<Timed>)

  predicate Fresh(r: Request) {
    r.status.Pending? && r.attempts == 0 && r.codeHash.Some? && r.consentId.None?
  }

  /** Each row follows from the one before by its event, and instants do not decrease. */
  predicate Valid(verify: CodeCheck, h: History)
    decreases |h.events|
  {
    && |h.rows| == |h.events| + 1
    && if h.events == [] then Fresh(h.rows[0])
       else
         && Valid(verify, Earlier(h))
         && Begun(h) <= Last(h).at
         && h.rows[|h.events|] == After(verify, Before(h), Last(h).event, Last(h).at)
  }

  function Earlier(h: History): History
    requires h.events != [] && |h.rows| == |h.events| + 1
  {
    History(h.rows[..|h.events|], h.events[..|h.events| - 1])
  }

  function Last(h: History): Timed
    requires h.events != []
  {
    h.events[|h.events| - 1]
  }

  /** The row before the last event. */
  function Before(h: History): Request
    requires h.events != [] && |h.rows| == |h.events| + 1
  {
    h.rows[|h.events| - 1]
  }

  /** The instant of the last event but one. */
  function Begun(h: History): int
    requires h.events != [] && |h.rows| == |h.events| + 1
  {
    if |h.events| == 1 then h.rows[0].createdAt else h.events[|h.events| - 2].at
  }

  function End(h: History): Request
    requires h.rows != []
  {
    h.rows[|h.rows| - 1]
  }

  /** The instant the history has reached. */
  function Reached(h: History): int
    requires h.rows != []
  {
    if h.events == [] then h.rows[0].createdAt else Last(h).at
  }

  function Rank(s: RequestStatus): nat {
    match s
    case Pending => 0
    case Verified => 1
    case Approved => 2
    case Denied => 2
    case Expired => 3
  }

  // ----- What is counted along a history -----

  function Tally(now: bool): nat {
    if now then 1 else 0
  }

  function Changes(h: History): nat
    requires |h.rows| == |h.events| + 1
    decreases |h.events|
  {
    if h.events == [] then 0
    else Changes(Earlier(h)) + Tally(Before(h).status != End(h).status)
  }

  /** How often a consent was minted for the request. */
  function Mints(h: History): nat
    requires |h.rows| == |h.events| + 1
    decreases |h.events|
  {
    if h.events == [] then 0
    else Mints(Earlier(h)) + Tally(Last(h).event.Approve? && Decidable(Before(h), Last(h).at))
  }

  function Resends(h: History): nat
    requires |h.rows| == |h.events| + 1
    decreases |h.events|
  {
    if h.events == [] then 0
    else Resends(Earlier(h)) + Tally(Last(h).event.Resend? && Sends(Before(h), Last(h).at))
  }

  /** How many wrong codes were counted against the request. */
  function WrongCodes(verify: CodeCheck, h: History): nat
    requires |h.rows| == |h.events| + 1
    decreases |h.events|
  {
    if h.events == [] then 0
    else
      var e := Last(h);
      WrongCodes(verify, Earlier(h))
      + Tally(e.event.Post? && Attempted(Before(h), e.event.code, e.at) && !Correct(verify, Before(h), e.event.code))
  }

  /** The hash of the code sent last. */
  function LatestOtp(h: History): Option<string>
    requires |h.rows| == |h.events| + 1
    decreases |h.events|
  {
    if h.events == [] then h.rows[0].codeHash
    else if Last(h).event.Resend? && Sends(Before(h), Last(h).at) then Some(Last(h).event.hash)
    else LatestOtp(Earlier(h))
  }

  // ----- What every history keeps -----

  /** A status changes only to one of higher rank, so never back. */
  lemma StatusRises(verify: CodeCheck, r: Request, event: Event, now: int)
    requires r.status.Expired? ==> r.expiresAt <= now
    ensures var s := After(verify, r, event, now);
            s.status != r.status ==> Rank(r.status) < Rank(s.status)
  {
  }

  predicate Sane(r: Request, at: int) {
    && (r.status.Expired? ==> r.expiresAt <= at)
    && (r.status.Approved? ==> r.consentId.Some?)
    && (r.consentId.Some? ==> r.status.Approved? || r.status.Expired?)
    && (r.status.Pending? ==> r.codeHash.Some? && 0 <= r.attempts < MAX_ATTEMPTS)
    && (r.status.Verified? || r.status.Approved? ==> r.verifiedAt.Some? && r.verifiedAt.value <= at && r.verifiedAt.value < r.expiresAt)
    && (r.status.Approved? ==> r.decisionAt.Some? && r.verifiedAt.value <= r.decisionAt.value < r.expiresAt)
    && (r.status.Denied? ==> r.decisionAt.Some? && r.decisionAt.value <= at)
  }

  /** What a row's columns say about its status: codes and instants are there when they should be,
      an approval lies between verification and expiry, and only an approval names a consent. */
  lemma {:induction false} EndIsSane(verify: CodeCheck, h: History)
    requires Valid(verify, h)
    ensures Sane(End(h), Reached(h))
    decreases |h.events|
  {
    if h.events != [] {
      EndIsSane(verify, Earlier(h));
      assert End(Earlier(h)) == Before(h);
      assert Reached(Earlier(h)) == Begun(h);
      hide Sane, After;
      StepIsSane(verify, Before(h), Last(h).event, Begun(h), Last(h).at);
    } else {
      FreshIsSane(End(h));
    }
  }

  lemma FreshIsSane(r: Request)
    requires Fresh(r)
    ensures Sane(r, r.createdAt)
  {
  }

  lemma StepIsSane(verify: CodeCheck, r: Request, event: Event, before: int, now: int)
    requires Sane(r, before) && before <= now
    ensures Sane(After(verify, r, event, now), now)
  {
  }

  /** Expired is absorbing, and only because the clock never goes back: the row says so. */
  lemma ExpiredStays(verify: CodeCheck, r: Request, event: Event, now: int)
    ensures r.status.Expired? && r.expiresAt <= now ==> After(verify, r, event, now) == r
    ensures var code := if event.Post? then event.code else None;
            r.status.Expired? && now < r.expiresAt && event.Post? && Correct(verify, r, code)
            ==> After(verify, r, event, now).status.Verified?
  {
  }

  /** At most three status changes; each history spends its changes on rank. */
  lemma {:induction false} ChangesBounded(verify: CodeCheck, h: History)
    requires Valid(verify, h)
    ensures Changes(h) <= Rank(End(h).status) <= 3
    decreases |h.events|
  {
    if h.events != [] {
      ChangesBounded(verify, Earlier(h));
      EndIsSane(verify, Earlier(h));
      assert End(Earlier(h)) == Before(h);
      StatusRises(verify, Before(h), Last(h).event, Last(h).at);
    }
  }

  /** A request is minted at most once, and it names a consent exactly if it was. */
  lemma {:induction false} MintedOnce(verify: CodeCheck, h: History)
    requires Valid(verify, h)
    ensures Mints(h) == (if End(h).consentId.Some? then 1 else 0)
    ensures Mints(h) > 0 ==> Rank(End(h).status) >= 2
    decreases |h.events|
  {
    if h.events != [] {
      MintedOnce(verify, Earlier(h));
      EndIsSane(verify, Earlier(h));
      assert End(Earlier(h)) == Before(h);
    }
  }

  function Prefix(h: History, n: nat): History
    requires n <= |h.events| && |h.rows| == |h.events| + 1
  {
    History(h.rows[..n + 1], h.events[..n])
  }

  /** While a request is pending its stored hash is that of the code sent last. */
  lemma {:induction false} PendingHoldsLatestOtp(verify: CodeCheck, h: History)
    requires Valid(verify, h)
    ensures End(h).status.Pending? ==> End(h).codeHash == LatestOtp(h)
    decreases |h.events|
  {
    if h.events != [] {
      PendingHoldsLatestOtp(verify, Earlier(h));
      EndIsSane(verify, Earlier(h));
      assert End(Earlier(h)) == Before(h);
    }
  }

  /** Event n of the history is a code that matches the one sent last at that moment. */
  predicate ProvedAt(verify: CodeCheck, h: History, n: nat)
    requires |h.rows| == |h.events| + 1
  {
    && n < |h.events|
    && h.events[n].event.Post? && Typed(h.events[n].event.code)
    && var otp := LatestOtp(Prefix(h, n));
       otp.Some? && verify(Trim(h.events[n].event.code.value), otp.value)
  }

  /** A consent is minted only after a correct code for the latest one-time password. */
  lemma {:induction false} VerifiedByCode(verify: CodeCheck, h: History) returns (n: nat)
    requires Valid(verify, h) && (End(h).status.Verified? || Mints(h) > 0)
    ensures ProvedAt(verify, h, n)
    decreases |h.events|
  {
    var g := Earlier(h);
    EndIsSane(verify, g);
    assert End(g) == Before(h);
    if End(g).status.Verified? || Mints(g) > 0 {
      n := VerifiedByCode(verify, g);
      assert Prefix(g, n) == Prefix(h, n);
    } else {
      n := |g.events|;
      assert Prefix(h, n) == g;
      PendingHoldsLatestOtp(verify, g);
    }
  }

  /** Wrong codes: four for each code sent, and one more locks the request. */
  lemma {:induction false} GuessBound(verify: CodeCheck, h: History)
    requires Valid(verify, h)
    ensures WrongCodes(verify, h) <= 4 * Resends(h) + 5
    ensures End(h).status.Pending? ==> WrongCodes(verify, h) <= 4 * Resends(h) + End(h).attempts
    ensures End(h).status.Pending? || End(h).status.Verified? ==> WrongCodes(verify, h) <= 4 * Resends(h) + 4
    decreases |h.events|
  {
    if h.events != [] {
      GuessBound(verify, Earlier(h));
      EndIsSane(verify, Earlier(h));
      assert End(Earlier(h)) == Before(h);
    }
  }

  // ----- Closed requests stay closed -----

  lemma {:induction false} PrefixValid(verify: CodeCheck, h: History, n: nat)
    requires Valid(verify, h) && n <= |h.events|
    ensures Valid(verify, Prefix(h, n)) && End(Prefix(h, n)) == h.rows[n]
    decreases |h.events|
  {
    if n == |h.events| {
      assert Prefix(h, n) == h;
    } else {
      assert Prefix(h, n) == Prefix(Earlier(h), n);
      PrefixValid(verify, Earlier(h), n);
    }
  }

  lemma NextRow(verify: CodeCheck, h: History, n: nat)
    requires Valid(verify, h) && n < |h.events|
    ensures h.rows[n + 1] == After(verify, h.rows[n], h.events[n].event, h.events[n].at)
  {
    PrefixValid(verify, h, n + 1);
    var g := Prefix(h, n + 1);
    assert Before(g) == h.rows[n] && Last(g) == h.events[n] && g.rows[n + 1] == h.rows[n + 1];
    hide After;
  }

  /** Once closed, a request stays closed, names the consent it named, and is minted no more. */
  lemma {:induction false} ClosedForever(verify: CodeCheck, h: History, n: nat)
    requires Valid(verify, h) && n <= |h.events| && !Open(h.rows[n])
    ensures Closes(h.rows[n], End(h)) && !Open(End(h)) && Mints(h) == Mints(Prefix(h, n))
    decreases |h.events|
  {
    if n == |h.events| {
      assert Prefix(h, n) == h;
    } else {
      var g := Earlier(h);
      assert Prefix(h, n) == Prefix(g, n) && End(g) == Before(h);
      ClosedForever(verify, g, n);
      EndIsSane(verify, g);
      ClosedStep(verify, Before(h), Last(h).event, Last(h).at);
      hide After;
    }
  }

  lemma DeniedOpen(verify: CodeCheck, h: History, n: nat)
    requires Valid(verify, h) && n < |h.events| && Open(h.rows[n]) && h.rows[n + 1].status == Denied
    requires h.rows[n + 1].consentId == h.rows[n].consentId
    ensures (End(h).status == Denied || End(h).status == Expired) && End(h).consentId == None && Mints(h) == 0
  {
    PrefixValid(verify, h, n);
    EndIsSane(verify, Prefix(h, n));
    ClosedForever(verify, h, n + 1);
    MintedOnce(verify, h);
  }

  /** A cancellation that reaches an open request is final: the request is denied, it can only expire
      after that, and no event before or after mints a consent for it. */
  lemma CancelledForGood(verify: CodeCheck, h: History, n: nat)
    requires Valid(verify, h) && n < |h.events| && h.events[n].event.Cancel? && Open(h.rows[n])
    ensures h.rows[n + 1].status == Denied && h.rows[n + 1].decisionAt == Some(h.events[n].at)
    ensures (End(h).status == Denied || End(h).status == Expired) && End(h).consentId == None && Mints(h) == 0
  {
    NextRow(verify, h, n);
    CancelDenies(verify, h.rows[n], h.events[n].at);
    DeniedOpen(verify, h, n);
  }

  /** So is the candidate's refusal of a verified request before its expiry. */
  lemma RefusedForGood(verify: CodeCheck, h: History, n: nat)
    requires Valid(verify, h) && n < |h.events| && h.events[n].event.Deny?
    requires h.rows[n].status == Verified && h.events[n].at < h.rows[n].expiresAt
    ensures h.rows[n + 1].status == Denied && h.rows[n + 1].decisionAt == Some(h.events[n].at)
    ensures (End(h).status == Denied || End(h).status == Expired) && End(h).consentId == None && Mints(h) == 0
  {
    NextRow(verify, h, n);
    OthersInTime(verify, h.rows[n], "", "00000000-0000-0000-0000-000000000000", h.events[n].at);
    DeniedOpen(verify, h, n);
  }

  /** And the fifth wrong code in a row. */
  lemma LockedForGood(verify: CodeCheck, h: History, n: nat)
    requires Valid(verify, h) && n < |h.events| && h.events[n].event.Post? && h.rows[n].status == Pending && h.rows[n].attempts == 4
    requires h.events[n].at < h.rows[n].expiresAt
    requires var code := h.events[n].event.code;
             code.Some? && !Blank(Trim(code.value))
             && (h.rows[n].codeHash.Some? ==> !verify(Trim(code.value), h.rows[n].codeHash.value))
    ensures h.rows[n + 1].status == Denied && h.rows[n + 1].decisionAt == Some(h.events[n].at)
    ensures (End(h).status == Denied || End(h).status == Expired) && End(h).consentId == None && Mints(h) == 0
  {
    NextRow(verify, h, n);
    CodeInTime(verify, h.rows[n], h.events[n].event.code, h.events[n].at);
    DeniedOpen(verify, h, n);
  }

  // ----- A new code after verification -----

  /** A code was sent although the request was verified already. */
  predicate SentAfterVerification(h: History)
    requires |h.rows| == |h.events| + 1
    decreases |h.events|
  {
    h.events != []
    && (SentAfterVerification(Earlier(h))
        || (Last(h).event.Resend? && Before(h).status.Verified? && Sends(Before(h), Last(h).at)))
  }

  lemma {:induction false} NotSentBefore(verify: CodeCheck, h: History)
    requires Valid(verify, h) && End(h).status.Pending?
    ensures !SentAfterVerification(h)
    decreases |h.events|
  {
    if h.events != [] {
      assert End(Earlier(h)) == Before(h);
      EndIsSane(verify, Earlier(h));
      NotSentBefore(verify, Earlier(h));
    }
  }

  /** A verified request holds an unanswered code exactly if one was sent after its verification. */
  lemma {:induction false} UnansweredCode(verify: CodeCheck, h: History)
    requires Valid(verify, h) && End(h).status.Verified?
    ensures End(h).codeHash.Some? <==> SentAfterVerification(h)
    decreases |h.events|
  {
    var g := Earlier(h);
    assert End(g) == Before(h);
    EndIsSane(verify, g);
    if End(g).status.Verified? {
      UnansweredCode(verify, g);
    } else {
      NotSentBefore(verify, g);
    }
  }

  /** Such a request is minted all the same: after a correct code and a resend, approval takes the
      request although nobody has typed the code that was sent last. */
  lemma MintedUnanswered(verify: CodeCheck, h: History, code: string, latest: string, consentId: Guid) returns (g: History)
    requires Valid(verify, h) && h.events == [] && h.rows[0].createdAt < h.rows[0].expiresAt
    requires Correct(verify, h.rows[0], Some(code))
    ensures Valid(verify, g) && Mints(g) == 1 && SentAfterVerification(g)
    ensures g.events == [Timed(Post(Some(code)), Begin(h)), Timed(Resend(latest), Begin(h)), Timed(Approve(consentId), Begin(h))]
    ensures Before(g).codeHash == Some(latest) && LatestOtp(g) == Some(latest)
  {
    var b := SentAgain(verify, h, code, latest);
    hide Correct, Posted, Resent;
    ThenValid(verify, b, Approve(consentId), Begin(h));
    g := Then(verify, b, Approve(consentId), Begin(h));
    MintedUnverified(verify, b);
  }

  /** A request that is verified and then sent another code. */
  lemma SentAgain(verify: CodeCheck, h: History, code: string, latest: string) returns (b: History)
    requires Valid(verify, h) && h.events == [] && h.rows[0].createdAt < h.rows[0].expiresAt
    requires Correct(verify, h.rows[0], Some(code))
    ensures Valid(verify, b) && Reached(b) == Begin(h) && SentAfterVerification(b) && LatestOtp(b) == Some(latest)
    ensures b.events == [Timed(Post(Some(code)), Begin(h)), Timed(Resend(latest), Begin(h))]
    ensures Decidable(End(b), Begin(h)) && End(b).codeHash == Some(latest)
  {
    ThenValid(verify, h, Post(Some(code)), Begin(h));
    var a := Then(verify, h, Post(Some(code)), Begin(h));
    ThenValid(verify, a, Resend(latest), Begin(h));
    b := Then(verify, a, Resend(latest), Begin(h));
  }

  lemma MintedUnverified(verify: CodeCheck, h: History)
    requires Valid(verify, h) && End(h).status.Verified?
    ensures Mints(h) == 0
  {
    EndIsSane(verify, h);
    MintedOnce(verify, h);
  }

  /** The instant at which the request was created. */
  function Begin(h: History): int
    requires h.rows != []
  {
    h.rows[0].createdAt
  }

  // ----- The bound on wrong codes is reached -----

  /** The history one event longer. */
  function Then(verify: CodeCheck, h: History, event: Event, at: int): History
    requires h.rows != []
  {
    History(h.rows + [After(verify, End(h), event, at)], h.events + [Timed(event, at)])
  }

  lemma ThenValid(verify: CodeCheck, h: History, event: Event, at: int)
    requires Valid(verify, h) && Reached(h) <= at
    ensures var g := Then(verify, h, event, at);
            && Valid(verify, g) && Earlier(g) == h && Before(g) == End(h) && Last(g) == Timed(event, at)
            && End(g) == After(verify, End(h), event, at) && Reached(g) == at
  {
    assert Earlier(Then(verify, h, event, at)) == h;
  }

  /** Types the same wrong code n times. */
  lemma {:induction false} Guesses(verify: CodeCheck, h: History, code: string, n: nat) returns (g: History)
    requires Valid(verify, h) && Reached(h) < End(h).expiresAt && End(h).status.Pending? && End(h).attempts + n <= 5
    requires Typed(Some(code)) && !Correct(verify, End(h), Some(code))
    ensures Valid(verify, g) && Reached(g) == Reached(h)
    ensures WrongCodes(verify, g) == WrongCodes(verify, h) + n && Resends(g) == Resends(h)
    ensures End(h).attempts + n < 5 ==> End(g) == End(h).(attempts := End(h).attempts + n)
    decreases n
  {
    g := h;
    if n > 0 {
      ThenValid(verify, h, Post(Some(code)), Reached(h));
      g := Then(verify, h, Post(Some(code)), Reached(h));
      if n > 1 {
        g := Guesses(verify, g, code, n - 1);
      }
    }
  }

  /** With r resends, 4r wrong codes leave the request pending and untried. */
  lemma {:induction false} Rounds(verify: CodeCheck, h: History, code: string, hash: string, r: nat) returns (g: History)
    requires Valid(verify, h) && h.events == [] && h.rows[0].createdAt < h.rows[0].expiresAt && h.rows[0].codeHash == Some(hash)
    requires Typed(Some(code)) && !verify(Trim(code), hash)
    ensures Valid(verify, g) && Reached(g) == h.rows[0].createdAt
    ensures WrongCodes(verify, g) == 4 * r && Resends(g) == r && End(g) == h.rows[0]
    decreases r
  {
    g := h;
    if r > 0 {
      g := Rounds(verify, h, code, hash, r - 1);
      g := Guesses(verify, g, code, 4);
      ThenValid(verify, g, Resend(hash), Reached(g));
      g := Then(verify, g, Resend(hash), Reached(g));
    }
  }

  /** For every number of resends some history counts exactly 4r + 5 wrong codes. */
  lemma GuessBoundReached(verify: CodeCheck, h: History, code: string, hash: string, r: nat) returns (g: History)
    requires Valid(verify, h) && h.events == [] && h.rows[0].createdAt < h.rows[0].expiresAt && h.rows[0].codeHash == Some(hash)
    requires Typed(Some(code)) && !verify(Trim(code), hash)
    ensures Valid(verify, g) && Resends(g) == r && WrongCodes(verify, g) == 4 * r + 5
  {
    g := Rounds(verify, h, code, hash, r);
    g := Guesses(verify, g, code, 5);
  }
}
