/** What runs of the gateway promise about the board's answers: a receipt is kept only if its
    signature was valid, and for how long. */
module ReceiptTheorems {
  import opened Common
  import opened Timestamps
  import opened AuditTables
  import opened Domain
  import opened ConsentTokens
  import opened DataSubjects
  import opened Gateway
  import opened GatewayInvariant
  import opened TokenTheorems
  import Req = ConsentRequests

  /** The board's answer as it is kept: a receipt with a valid signature that is not blank, or a failure. */
  predicate Records(hash: HashFn, before: Application, reply: BoardReply, after: Application) {
    if reply.Receipt? && reply.valid && !Blank(reply.signature) then
      after == before.(status := Accepted, receipt := Some(reply.text), receiptSignature := Some(reply.signature),
                       receiptHash := Some(hash(reply.text)))
    else after == before.(status := Failed)
  }

  /** A step leaves an application alone, clears its receipt, or answers it for the first time. */
  ghost predicate Follows(hash: HashFn, before: Application, step: Step, a: Guid, after: Application) {
    || after == before
    || (step.Sweep? && after == before.(receipt := None))
    || (step.Settle? && step.id == a && before.status.Submitted? && Records(hash, before, step.reply, after))
  }

  lemma SettleRecords(hash: HashFn, w: World, id: Guid, reply: BoardReply, a: Guid)
    requires a in w.applications
    ensures a in Answered(hash, w, id, reply).applications
    ensures Follows(hash, w.applications[a], Settle(id, reply), a, Answered(hash, w, id, reply).applications[a])
  {
  }

  lemma SweepClears(w: World, r: RetentionOptions, a: Guid)
    requires a in w.applications
    ensures a in Retain(w, r).applications
    ensures Retain(w, r).applications[a] == w.applications[a] || Retain(w, r).applications[a] == w.applications[a].(receipt := None)
  {
  }

  lemma AppliedLeaves(o: Options, lib: Library, w: World, s: Submission, id: Guid)
    ensures forall a | a in w.applications && a != id ::
              a in Applied(o, lib, w, s, id).applications && Applied(o, lib, w, s, id).applications[a] == w.applications[a]
  {
    hide AcceptedFor;
  }

  lemma IssuingLeaves(o: Options, lib: Library, w: World, step: Step)
    ensures step.Decide? ==> Decided(o, lib, w, step).applications == w.applications
    ensures step.Renew? ==> Renewed(o, lib, w, step).applications == w.applications
  {
    hide IssuanceOf, Req.After, Req.ApprovedAs, Req.Decidable;
  }

  lemma ErasureTakes(w: World, slug: string, kind: Option<TenantType>, email: string)
    ensures Extended(Erased(w, slug, kind, email).applications, w.applications)
  {
    hide StillNamed, Forgotten, ConsentsOf, RequestsOf, NormalizeEmail, ApplicationsOf;
  }

  lemma OthersLeave(o: Options, lib: Library, w: World, step: Step)
    requires !step.Decide? && !step.Renew? && !step.Submit? && !step.Settle? && !step.DeleteSubject? && !step.Sweep?
    ensures Act(o, lib, w, step).applications == w.applications
  {
    hide RotateKey, MayCreate, MayCancel, ScopesOrDefault, Req.After, ActiveKey, Blank;
  }

  lemma ApplicationStep(o: Options, lib: Library, w: World, step: Step, a: Guid)
    requires Enabled(o, lib, w, step) && a in w.applications && a in Act(o, lib, w, step).applications
    ensures Follows(lib.hash, w.applications[a], step, a, Act(o, lib, w, step).applications[a])
  {
    hide Created, Stepped, Cancelled, Decided, Renewed, Rotated, Withdrawn, Applied, Answered, Erased, Retain, FreshMaterial, Records;
    if step.Submit? {
      AppliedLeaves(o, lib, w, step.submission, step.id);
    } else if step.Settle? {
      SettleRecords(lib.hash, w, step.id, step.reply, a);
    } else if step.DeleteSubject? {
      ErasureTakes(w, step.slug, step.kind, step.email);
    } else if step.Sweep? {
      SweepClears(w, step.retention, a);
    } else if step.Decide? || step.Renew? {
      IssuingLeaves(o, lib, w, step);
    } else {
      OthersLeave(o, lib, w, step);
    }
  }

  /** Step i was the answer that the row keeps: a receipt whose signature was valid. */
  predicate AnsweredAt(hash: HashFn, steps: seq<Timed>, i: nat, a: Guid, row: Application) {
    && i < |steps| && steps[i].step.Settle? && steps[i].step.id == a
    && var reply := steps[i].step.reply;
       && reply.Receipt? && reply.valid && !Blank(reply.signature)
       && row.receiptSignature == Some(reply.signature) && row.receiptHash == Some(hash(reply.text))
       && (row.receipt.Some? ==> row.receipt == Some(reply.text))
  }

  /** In every world of a run an application counts as accepted only on a receipt whose signature was
      valid, and that receipt's text, signature and hash are the ones it keeps, at most without the
      text; any other application keeps none. */
  lemma {:induction false} ReceiptsAreValid(o: Options, lib: Library, trace: seq<World>, steps: seq<Timed>, n: nat, a: Guid)
    requires Run(o, lib, trace, steps) && n < |trace| && a in trace[n].applications
    ensures var row := trace[n].applications[a];
            if row.status == Accepted then exists i | 0 <= i < n :: AnsweredAt(lib.hash, steps, i, a, row)
            else row.receipt == None && row.receiptSignature == None && row.receiptHash == None
  {
    hide Act, Enabled, AppliedFor, Entitles;
    if n > 0 {
      RunStep(o, lib, trace, steps, n - 1);
      var w, step := At(trace[n - 1], steps[n - 1].now), steps[n - 1].step;
      if a in trace[n - 1].applications {
        ReceiptsAreValid(o, lib, trace, steps, n - 1, a);
        ApplicationStep(o, lib, w, step, a);
        hide Run, Possible;
        ReceiptKept(lib.hash, steps, n - 1, a, trace[n - 1].applications[a], trace[n].applications[a]);
      } else {
        OnlySubmitAdds(o, lib, w, step, a);
        SubmissionIsExact(o, lib, w, step.submission, a);
        var c :| c in w.consents && Entitles(o, lib, w, step.submission, c);
        assert step == Submit(step.submission, a);
        UnansweredYet(w, step.submission, c, trace[n].applications[a]);
      }
    }
  }

  lemma UnansweredYet(w: World, s: Submission, c: Guid, row: Application)
    requires c in w.consents && AppliedFor(w, s, c, row)
    ensures row.status == Submitted && row.receipt == None && row.receiptSignature == None && row.receiptHash == None
  {
  }

  lemma ReceiptKept(hash: HashFn, steps: seq<Timed>, n: nat, a: Guid, before: Application, after: Application)
    requires n < |steps| && Follows(hash, before, steps[n].step, a, after)
    requires if before.status == Accepted then exists i | 0 <= i < n :: AnsweredAt(hash, steps, i, a, before)
             else before.receipt == None && before.receiptSignature == None && before.receiptHash == None
    ensures if after.status == Accepted then exists i | 0 <= i < n + 1 :: AnsweredAt(hash, steps, i, a, after)
            else after.receipt == None && after.receiptSignature == None && after.receiptHash == None
  {
    if before.status == Accepted {
      var i :| 0 <= i < n && AnsweredAt(hash, steps, i, a, before);
      assert AnsweredAt(hash, steps, i, a, after);
    } else if after.status == Accepted {
      assert AnsweredAt(hash, steps, n, a, after);
    }
  }

  /** In every world of a run a stored receipt's hash is its own, across submission and retention. */
  lemma ReceiptsMatch(o: Options, lib: Library, trace: seq<World>, steps: seq<Timed>, n: nat, a: Guid)
    requires Run(o, lib, trace, steps) && n < |trace| && a in trace[n].applications
    ensures var row := trace[n].applications[a];
            row.receipt.Some? ==> row.receiptHash == Some(lib.hash(row.receipt.value))
  {
    ReceiptsAreValid(o, lib, trace, steps, n, a);
    hide Run;
  }

  // ----- Retention -----

  /** A sweep takes exactly what is old enough: the receipts of applications, with every other column
      left, and whole requests; everything younger and every other table stays as it is. */
  lemma SweepIsExact(w: World, r: RetentionOptions)
    ensures var v := Retain(w, r);
            && v.applications.Keys == w.applications.Keys
            && (forall a | a in w.applications ::
                  v.applications[a] == if w.applications[a].submittedAt <= w.clock - r.applicationReceiptDays * DAY
                                       then w.applications[a].(receipt := None) else w.applications[a])
            && (forall q | q in w.requests :: q in v.requests <==> w.clock - r.consentRequestDays * DAY < w.requests[q].createdAt)
            && Extended(v.requests, w.requests)
            && v == w.(applications := v.applications, requests := v.requests)
    ensures ReceiptsDue(w.applications, ReceiptCutoff(r, w.clock))
         == set a | a in w.applications && w.applications[a].receipt.Some?
                    && w.applications[a].submittedAt <= w.clock - r.applicationReceiptDays * DAY
    ensures RequestsDue(w.requests, RequestCutoff(r, w.clock)) == w.requests.Keys - Retain(w, r).requests.Keys
  {
  }
}
