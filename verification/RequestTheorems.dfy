/** Every run of the gateway takes each request through one history, so what histories keep holds
    in every run. */
module RequestTheorems {
  import opened Common
  import opened AuditTables
  import opened Domain
  import opened ConsentTokens
  import opened DataSubjects
  import opened Gateway
  import opened GatewayInvariant
  import opened TokenTheorems
  import Req = ConsentRequests

  /** An approval that cannot issue a token throws before it saves, so it is nothing to the request. */
  ghost function Decision(o: Options, lib: Library, w: World, step: Step): Req.Event
    requires step.Decide? && step.id in w.requests
  {
    if !step.approve || !Req.Decidable(w.requests[step.id], w.clock) then Req.Deny
    else if IssuanceOf(o, lib, w, step).Some? then Req.Approve(step.consentId) else Req.Elsewhere
  }

  /** What a step is for one request. */
  ghost function EventOf(o: Options, lib: Library, w: World, step: Step, id: Guid): Req.Event
    requires id in w.requests
  {
    match step
    case ViewRequest(r) => if r == id then Req.View else Req.Elsewhere
    case PostCode(r, code) => if r == id then Req.Post(code) else Req.Elsewhere
    case ResendCode(r, hash) => if r == id then Req.Resend(hash) else Req.Elsewhere
    case CancelRequest(caller, r) => if r == id && MayCancel(caller, w.requests[id]) then Req.Cancel else Req.Elsewhere
    case Decide(r, _, _, _, _) => if r == id then Decision(o, lib, w, step) else Req.Elsewhere
    case _ => Req.Elsewhere
  }

  lemma SteppedRequest(verify: Req.CodeCheck, w: World, r: Guid, event: Req.Event, id: Guid)
    requires id in w.requests
    ensures id in Stepped(verify, w, r, event).requests
    ensures Stepped(verify, w, r, event).requests[id]
         == Req.After(verify, w.requests[id], if r == id then event else Req.Elsewhere, w.clock)
  {
    hide Req.After;
    ElsewhereStays(verify, w.requests[id], w.clock);
  }

  lemma ElsewhereStays(verify: Req.CodeCheck, r: Request, now: int)
    ensures Req.After(verify, r, Req.Elsewhere, now) == r
  {
  }

  lemma ApprovedRequest(w: World, step: Step, i: Issuance, id: Guid)
    requires step.Decide? && id in w.requests && step.id in w.requests
    ensures var v := Approval(w, w.requests[step.id], step, i);
            && id in v.requests
            && v.requests[id] == if step.id == id then Req.ApprovedAs(w.requests[id], step.consentId, w.clock) else w.requests[id]
  {
    hide Req.ApprovedAs;
  }

  lemma DecisionFollows(o: Options, lib: Library, w: World, step: Step, id: Guid)
    requires step.Decide? && id in w.requests
    ensures Decided(o, lib, w, step).requests[id] == Req.After(lib.verifyCode, w.requests[id], EventOf(o, lib, w, step, id), w.clock)
  {
    hide IssuanceOf, Approval, Stepped, Req.ApprovedAs, Req.Refused, Req.Decidable;
    if step.id in w.requests {
      SteppedRequest(lib.verifyCode, w, step.id, Req.Deny, id);
      if IssuanceOf(o, lib, w, step).Some? {
        ApprovedRequest(w, step, IssuanceOf(o, lib, w, step).value, id);
      }
    }
  }

  lemma CreatedRequest(w: World, step: Step, id: Guid)
    requires step.CreateRequest? && step.id !in w.requests && id in w.requests
    ensures Created(w, step.caller, step.agent, step.board, step.email, step.scopes, step.hash, step.id).requests[id] == w.requests[id]
  {
    hide MayCreate, ScopesOrDefault, Req.NewRequest;
  }

  /** Steps on a request of their own. */
  lemma OwnStepFollows(o: Options, lib: Library, w: World, step: Step, id: Guid)
    requires step.ViewRequest? || step.PostCode? || step.ResendCode? || step.CancelRequest?
    requires id in w.requests
    ensures Act(o, lib, w, step).requests[id] == Req.After(lib.verifyCode, w.requests[id], EventOf(o, lib, w, step, id), w.clock)
  {
    hide Stepped, Req.Posted, Req.Viewed, Req.Resent, Req.Cancelled, MayCancel;
    match step
    case ViewRequest(r) => SteppedRequest(lib.verifyCode, w, r, Req.View, id);
    case PostCode(r, code) => SteppedRequest(lib.verifyCode, w, r, Req.Post(code), id);
    case ResendCode(r, hash) => SteppedRequest(lib.verifyCode, w, r, Req.Resend(hash), id);
    case CancelRequest(caller, r) => SteppedRequest(lib.verifyCode, w, r, Req.Cancel, id);
  }

  /** Steps on other tables, and the sweep. */
  lemma OtherFollows(o: Options, lib: Library, w: World, step: Step, id: Guid)
    requires step.Rotate? || step.Revoke? || step.Submit? || step.Settle? || step.Sweep?
    requires id in w.requests && id in Act(o, lib, w, step).requests
    ensures Act(o, lib, w, step).requests[id] == w.requests[id]
  {
    hide AcceptedFor, Settled, RotateKey, Blank, ClearReceipts, ActiveKey;
  }

  lemma RenewalLeavesRequests(o: Options, lib: Library, w: World, step: Step)
    requires step.Renew?
    ensures Renewed(o, lib, w, step).requests == w.requests
  {
    hide IssuanceOf;
  }

  lemma ErasureLeavesRequests(w: World, slug: string, kind: Option<TenantType>, email: string, id: Guid)
    requires id in w.requests && id in Erased(w, slug, kind, email).requests
    ensures Erased(w, slug, kind, email).requests[id] == w.requests[id]
  {
    hide StillNamed, Forgotten, ConsentsOf, RequestsOf, NormalizeEmail;
  }

  /** A request that a step does not remove follows its own transition. */
  lemma RequestFollows(o: Options, lib: Library, w: World, step: Step, id: Guid)
    requires Enabled(o, lib, w, step) && id in w.requests && id in Act(o, lib, w, step).requests
    ensures Act(o, lib, w, step).requests[id] == Req.After(lib.verifyCode, w.requests[id], EventOf(o, lib, w, step, id), w.clock)
  {
    if step.CreateRequest? {
      assert step.id !in w.requests;
      CreatedRequest(w, step, id);
    } else if step.Decide? {
      DecisionFollows(o, lib, w, step, id);
    } else if step.Renew? {
      RenewalLeavesRequests(o, lib, w, step);
    } else if step.DeleteSubject? {
      ErasureLeavesRequests(w, step.slug, step.kind, step.email, id);
    } else if step.ViewRequest? || step.PostCode? || step.ResendCode? || step.CancelRequest? {
      OwnStepFollows(o, lib, w, step, id);
    } else {
      OtherFollows(o, lib, w, step, id);
    }
    hide Created, Stepped, Cancelled, Decided, Renewed, Rotated, Withdrawn, Applied, Answered, Erased, Retain, FreshMaterial, Decision;
  }

  /** The request is stored from the world after step a to world b, and step a created it. */
  ghost predicate Lives(o: Options, lib: Library, trace: seq<World>, steps: seq<Timed>, id: Guid, a: nat, b: nat) {
    && Run(o, lib, trace, steps) && a < b < |trace| && id !in trace[a].requests
    && forall n | a < n <= b :: id in trace[n].requests
  }

  ghost function HistoryOf(o: Options, lib: Library, trace: seq<World>, steps: seq<Timed>, id: Guid, a: nat, b: nat): (h: Req.History)
    requires Lives(o, lib, trace, steps, id, a, b)
    ensures |h.rows| == |h.events| + 1 == b - a
    decreases b
  {
    if b == a + 1 then Req.History([trace[b].requests[id]], [])
    else
      var h := HistoryOf(o, lib, trace, steps, id, a, b - 1);
      var w := At(trace[b - 1], steps[b - 1].now);
      Req.History(h.rows + [trace[b].requests[id]], h.events + [Req.Timed(EventOf(o, lib, w, steps[b - 1].step, id), w.clock)])
  }

  /** Only creation adds a request. */
  lemma OnlyCreationAdds(o: Options, lib: Library, w: World, step: Step, id: Guid)
    requires id !in w.requests && id in Act(o, lib, w, step).requests
    ensures step.CreateRequest? && step.id == id && MayCreate(step.caller, step.agent, step.email)
  {
    hide MayCreate, IssuanceOf, AcceptedFor, Settled, RotateKey, Blank, ClearReceipts, ActiveKey, Req.After, ScopesOrDefault,
         Decided, Renewed, Erased, Req.NewRequest, Req.Decidable;
    if step.Decide? {
      DecisionAddsNone(o, lib, w, step);
    } else if step.Renew? {
      RenewalLeavesRequests(o, lib, w, step);
    } else if step.DeleteSubject? {
      ErasureAddsNone(w, step.slug, step.kind, step.email);
    }
  }

  lemma DecisionAddsNone(o: Options, lib: Library, w: World, step: Step)
    requires step.Decide?
    ensures Decided(o, lib, w, step).requests.Keys == w.requests.Keys
  {
    hide IssuanceOf, Req.After, Req.ApprovedAs, Req.Decidable;
  }

  lemma ErasureAddsNone(w: World, slug: string, kind: Option<TenantType>, email: string)
    ensures Erased(w, slug, kind, email).requests.Keys <= w.requests.Keys
  {
    hide StillNamed, Forgotten, ConsentsOf, RequestsOf, NormalizeEmail;
  }

  lemma CreatedFresh(o: Options, lib: Library, w: World, step: Step, id: Guid)
    requires id !in w.requests && id in Act(o, lib, w, step).requests
    ensures Req.Fresh(Act(o, lib, w, step).requests[id]) && Act(o, lib, w, step).requests[id].createdAt == w.clock
  {
    OnlyCreationAdds(o, lib, w, step, id);
    hide MayCreate, NormalizeEmail, ScopesOrDefault;
  }

  /** A longer stretch of a request's life is a history one event longer. */
  lemma LongerLife(o: Options, lib: Library, trace: seq<World>, steps: seq<Timed>, id: Guid, a: nat, b: nat)
    requires Lives(o, lib, trace, steps, id, a, b) && a + 1 < b
    requires var g := HistoryOf(o, lib, trace, steps, id, a, b - 1);
             Req.Valid(lib.verifyCode, g) && Req.End(g) == trace[b - 1].requests[id] && Req.Reached(g) == trace[b - 1].clock
    requires var w := At(trace[b - 1], steps[b - 1].now);
             && trace[b - 1].clock <= steps[b - 1].now
             && trace[b].requests[id] == Req.After(lib.verifyCode, w.requests[id], EventOf(o, lib, w, steps[b - 1].step, id), w.clock)
    ensures var h := HistoryOf(o, lib, trace, steps, id, a, b);
            Req.Valid(lib.verifyCode, h) && Req.End(h) == trace[b].requests[id] && Req.Reached(h) == steps[b - 1].now
  {
    hide Act, Enabled, Req.After, EventOf, Run;
    var g, h := HistoryOf(o, lib, trace, steps, id, a, b - 1), HistoryOf(o, lib, trace, steps, id, a, b);
    assert Req.Earlier(h) == g;
  }

  /** The rows of a request in a run are a valid history that ends in its present row. */
  lemma {:induction false} RunsAreHistories(o: Options, lib: Library, trace: seq<World>, steps: seq<Timed>, id: Guid, a: nat, b: nat)
    requires Lives(o, lib, trace, steps, id, a, b)
    ensures var h := HistoryOf(o, lib, trace, steps, id, a, b);
            && Req.Valid(lib.verifyCode, h) && Req.End(h) == trace[b].requests[id]
            && Req.Reached(h) == steps[b - 1].now == trace[b].clock
    decreases b
  {
    hide Act, Enabled, Req.After, EventOf;
    RunStep(o, lib, trace, steps, b - 1);
    var w, s := trace[b - 1], steps[b - 1];
    ClockIs(o, lib, w, s);
    if b == a + 1 {
      CreatedFresh(o, lib, At(w, s.now), s.step, id);
    } else {
      RunsAreHistories(o, lib, trace, steps, id, a, b - 1);
      RequestFollows(o, lib, At(w, s.now), s.step, id);
      hide HistoryOf, Req.Valid, Req.End, Req.Reached;
      LongerLife(o, lib, trace, steps, id, a, b);
    }
  }

  lemma ClockIs(o: Options, lib: Library, w: World, s: Timed)
    requires Possible(o, lib, w, s)
    ensures After(o, lib, w, s).clock == s.now
  {
    hide Act, Enabled;
    StepTokensKept(o, lib, At(w, s.now), s.step);
  }

  /** The consent-request machine, over runs: at most three status changes, at most one consent,
      minted only after a correct code for the latest one-time password, and at most 4r + 5 wrong
      codes, 4r + 4 while pending, after r resends. */
  lemma RequestRuns(o: Options, lib: Library, trace: seq<World>, steps: seq<Timed>, id: Guid, a: nat, b: nat)
    requires Lives(o, lib, trace, steps, id, a, b)
    ensures var h, r := HistoryOf(o, lib, trace, steps, id, a, b), trace[b].requests[id];
            && Req.Changes(h) <= Req.Rank(r.status) <= 3
            && Req.Mints(h) == (if r.consentId.Some? then 1 else 0)
            && Req.WrongCodes(lib.verifyCode, h) <= 4 * Req.Resends(h) + 5
            && (r.status.Pending? ==> Req.WrongCodes(lib.verifyCode, h) <= 4 * Req.Resends(h) + 4)
            && (r.consentId.Some? ==> exists n :: Req.ProvedAt(lib.verifyCode, h, n))
  {
    hide Lives;
    var h := HistoryOf(o, lib, trace, steps, id, a, b);
    RunsAreHistories(o, lib, trace, steps, id, a, b);
    hide Req.Valid, HistoryOf;
    Req.ChangesBounded(lib.verifyCode, h);
    Req.MintedOnce(lib.verifyCode, h);
    Req.GuessBound(lib.verifyCode, h);
    if Req.Mints(h) > 0 {
      var n := Req.VerifiedByCode(lib.verifyCode, h);
    }
  }

  // ----- Cancelled and refused requests in runs -----

  /** Row and event n of a request's history are those of the run's world n and the step from it. */
  lemma {:induction false} HistoryAt(o: Options, lib: Library, trace: seq<World>, steps: seq<Timed>, id: Guid, a: nat, b: nat, n: nat)
    requires Lives(o, lib, trace, steps, id, a, b) && a < n < b
    ensures var h := HistoryOf(o, lib, trace, steps, id, a, b);
            && h.rows[n - a - 1] == trace[n].requests[id] && h.rows[n - a] == trace[n + 1].requests[id]
            && h.events[n - a - 1] == Req.Timed(EventOf(o, lib, At(trace[n], steps[n].now), steps[n].step, id), steps[n].now)
    decreases b
  {
    hide Run, EventOf;
    if n < b - 1 {
      HistoryAt(o, lib, trace, steps, id, a, b - 1, n);
    } else if a + 1 < n {
      HistoryAt(o, lib, trace, steps, id, a, b - 1, n - 1);
    }
  }

  lemma LifeAt(o: Options, lib: Library, trace: seq<World>, steps: seq<Timed>, id: Guid, a: nat, n: nat, b: nat)
      returns (h: Req.History, k: nat)
    requires Lives(o, lib, trace, steps, id, a, b) && a < n < b
    ensures Req.Valid(lib.verifyCode, h) && k < |h.events| && Req.End(h) == trace[b].requests[id]
    ensures h.rows[k] == trace[n].requests[id] && h.rows[k + 1] == trace[n + 1].requests[id]
    ensures h.events[k] == Req.Timed(EventOf(o, lib, At(trace[n], steps[n].now), steps[n].step, id), steps[n].now)
  {
    hide HistoryOf, Run, EventOf, Possible, Req.Valid, Req.End, Req.Reached;
    h, k := HistoryOf(o, lib, trace, steps, id, a, b), n - a - 1;
    RunsAreHistories(o, lib, trace, steps, id, a, b);
    HistoryAt(o, lib, trace, steps, id, a, b, n);
  }

  lemma CancelEvent(o: Options, lib: Library, w: World, step: Step, id: Guid)
    requires step.CancelRequest? && step.id == id && id in w.requests
    requires step.caller.kind == Some(TenantType.Agent) && step.caller.slug == Some(w.requests[id].agent)
    ensures EventOf(o, lib, w, step, id) == Req.Cancel
  {
  }

  lemma RefuseEvent(o: Options, lib: Library, w: World, step: Step, id: Guid)
    requires step.Decide? && step.id == id && !step.approve && id in w.requests
    ensures EventOf(o, lib, w, step, id) == Req.Deny
  {
  }

  /** A cancellation by the request's agent that reaches it pending or verified is final in every run:
      as long as the row is there it is denied, or expired, and names no consent. */
  lemma CancellationSticks(o: Options, lib: Library, trace: seq<World>, steps: seq<Timed>, id: Guid, a: nat, n: nat, b: nat)
    requires Lives(o, lib, trace, steps, id, a, b) && a < n < b
    requires var r, step := trace[n].requests[id], steps[n].step;
             && step.CancelRequest? && step.id == id && (r.status == Pending || r.status == Verified)
             && step.caller.kind == Some(TenantType.Agent) && step.caller.slug == Some(r.agent)
    ensures trace[n + 1].requests[id].status == Denied && trace[n + 1].requests[id].decisionAt == Some(steps[n].now)
    ensures trace[b].requests[id].status == Denied || trace[b].requests[id].status == Expired
    ensures trace[b].requests[id].consentId == None
  {
    var h, k := LifeAt(o, lib, trace, steps, id, a, n, b);
    hide Lives, Req.Valid, EventOf;
    CancelEvent(o, lib, At(trace[n], steps[n].now), steps[n].step, id);
    Req.CancelledForGood(lib.verifyCode, h, k);
  }

  /** So is the candidate's refusal of a verified request before its expiry. */
  lemma RefusalSticks(o: Options, lib: Library, trace: seq<World>, steps: seq<Timed>, id: Guid, a: nat, n: nat, b: nat)
    requires Lives(o, lib, trace, steps, id, a, b) && a < n < b
    requires steps[n].step.Decide? && steps[n].step.id == id && !steps[n].step.approve
    requires trace[n].requests[id].status == Verified && steps[n].now < trace[n].requests[id].expiresAt
    ensures trace[n + 1].requests[id].status == Denied && trace[n + 1].requests[id].decisionAt == Some(steps[n].now)
    ensures trace[b].requests[id].status == Denied || trace[b].requests[id].status == Expired
    ensures trace[b].requests[id].consentId == None
  {
    var h, k := LifeAt(o, lib, trace, steps, id, a, n, b);
    hide Lives, Req.Valid, EventOf;
    RefuseEvent(o, lib, At(trace[n], steps[n].now), steps[n].step, id);
    Req.RefusedForGood(lib.verifyCode, h, k);
  }
}
