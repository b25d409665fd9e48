/** The data-subject and retention services as the source writes them, on the tables in place. */
module DataSubjectServices {
  import opened Common
  import opened Timestamps
  import opened Domain
  import opened DataSubjects
  import opened GatewayInvariant
  import opened GatewayServices

  class DsrService {
    const db: GatewayDbContext

    constructor (db: GatewayDbContext)
      ensures this.db == db
    {
      this.db := db;
    }

    method ExportAsync(slug: string, kind: Option<TenantType>, email: string, now: int) returns (r: Option<Exported>)
      requires UniqueEmails(db.candidates)
      ensures r == Export(db.View(now), slug, kind, email)
    {
      if Blank(slug) || Blank(email) {
        return None;
      }
      var normalizedEmail := NormalizeEmail(email);
      var candidate := db.FindByEmail(normalizedEmail);
      if candidate.None? {
        return None;
      }
      var consents := ConsentsOf(db.consents, slug, kind, candidate.value);
      var applications := if consents == {} then {} else ApplicationsOf(db.applications, consents);
      assert applications == ApplicationsOf(db.applications, consents);
      var requests := RequestsOf(db.requests, slug, kind, normalizedEmail);
      return Some(Exported(normalizedEmail, db.candidates[candidate.value].createdAt, Only(db.consents, consents),
                           Only(db.applications, applications), Only(db.requests, requests)));
    }

    /** None when the database refuses the save; then nothing has changed. */
    method DeleteAsync(slug: string, kind: Option<TenantType>, email: string, now: int) returns (r: Option<Counts>)
      requires UniqueEmails(db.candidates)
      modifies db
      ensures match Delete(old(db.View(now)), slug, kind, email)
              case ForeignKeyViolation => r.None? && db.View(now) == old(db.View(now))
              case Deleted(world, counts) => r == Some(counts) && db.View(now) == world
    {
      hide ConsentsOf, RequestsOf, TokensWithout, NormalizeEmail, Forgotten, Blank;
      if Blank(slug) || Blank(email) {
        return Some(Counts(0, 0, 0, false));
      }
      var normalizedEmail := NormalizeEmail(email);
      var candidate := db.FindByEmail(normalizedEmail);
      if candidate.None? {
        return Some(Counts(0, 0, 0, false));
      }
      var consents := ConsentsOf(db.consents, slug, kind, candidate.value);
      var applications := if consents == {} then {} else ApplicationsOf(db.applications, consents);
      assert applications == ApplicationsOf(db.applications, consents);
      var requests := RequestsOf(db.requests, slug, kind, normalizedEmail);
      if StillNamed(db.requests - requests, consents) {
        return None;
      }
      db.applications := db.applications - applications;
      db.consents := db.consents - consents;
      db.tokens := TokensWithout(db.tokens, consents);
      db.requests := db.requests - requests;
      var candidateDeleted := TryDeleteCandidateAsync(candidate.value, normalizedEmail, now);
      return Some(Counts(|consents|, |applications|, |requests|, candidateDeleted));
    }

    method TryDeleteCandidateAsync(candidate: Guid, normalizedEmail: string, now: int) returns (gone: bool)
      modifies db`candidates
      ensures gone <==> Forgotten(old(db.View(now)), candidate, normalizedEmail)
      ensures db.candidates == if gone then old(db.candidates) - {candidate} else old(db.candidates)
    {
      var hasConsents := exists c :: c in db.consents && db.consents[c].candidateId == candidate;
      if hasConsents {
        return false;
      }
      var hasConsentRequests := exists r :: r in db.requests && db.requests[r].email == normalizedEmail;
      if hasConsentRequests {
        return false;
      }
      db.candidates := db.candidates - {candidate};
      return true;
    }
  }

  /** Receipts cleared for the applications in done, and for no others. */
  function Cleared(applications: Applications, done: set<Guid>): Applications {
    map a | a in applications :: if a in done then applications[a].(receipt := None) else applications[a]
  }

  class DataRetentionExecutor {
    const db: GatewayDbContext
    const options: RetentionOptions
    /** The database provider can update and delete in bulk. */
    const supportsBulkOperations: bool

    constructor (db: GatewayDbContext, options: RetentionOptions, bulk: bool)
      ensures this.db == db && this.options == options && supportsBulkOperations == bulk
    {
      this.db := db;
      this.options := options;
      supportsBulkOperations := bulk;
    }

    /** Both branches reach the same tables and counts, for every input. */
    method RunAsync(now: int) returns (receiptsCleared: nat, consentRequestsDeleted: nat)
      modifies db
      ensures db.View(now) == Retain(old(db.View(now)), options)
      ensures receiptsCleared == |ReceiptsDue(old(db.applications), ReceiptCutoff(options, now))|
      ensures consentRequestsDeleted == |RequestsDue(old(db.requests), RequestCutoff(options, now))|
    {
      hide Cleared, ClearReceipts, OldApplications;
      var receiptCutoff := now - options.applicationReceiptDays * DAY;
      var consentRequestCutoff := now - options.consentRequestDays * DAY;
      if supportsBulkOperations {
        var due := set a | a in db.applications && db.applications[a].submittedAt <= receiptCutoff && db.applications[a].receipt.Some?;
        assert due == ReceiptsDue(db.applications, receiptCutoff);
        ClearedDue(db.applications, receiptCutoff);
        db.applications := Cleared(db.applications, due);
        receiptsCleared := |due|;
        var expiredRequests := RequestsDue(db.requests, consentRequestCutoff);
        db.requests := db.requests - expiredRequests;
        consentRequestsDeleted := |expiredRequests|;
      } else {
        var applications := db.applications;
        receiptsCleared, applications := ClearOneByOne(receiptCutoff);
        var expiredRequests := RequestsDue(db.requests, consentRequestCutoff);
        consentRequestsDeleted := |expiredRequests|;
        if receiptsCleared > 0 || consentRequestsDeleted > 0 {
          db.applications := applications;
          db.requests := db.requests - expiredRequests;
        } else {
          assert expiredRequests == {} && db.requests - expiredRequests == db.requests;
        }
      }
    }

    /** The loop over the loaded applications: what is to be saved, and how many receipts it clears. */
    method ClearOneByOne(cutoff: int) returns (receiptsCleared: nat, applications: Applications)
      ensures applications == ClearReceipts(db.applications, cutoff)
      ensures receiptsCleared == |ReceiptsDue(db.applications, cutoff)|
      ensures receiptsCleared == 0 ==> applications == db.applications
    {
      hide Cleared, ClearReceipts, ReceiptsDue, OldApplications;
      var expiredApplications := OldApplications(db.applications, cutoff);
      ghost var due := ReceiptsDue(db.applications, cutoff);
      ClearedDue(db.applications, cutoff);
      receiptsCleared, applications := 0, db.applications;
      var rest := expiredApplications;
      ghost var done := {};
      while rest != {}
        invariant rest <= expiredApplications
        invariant done <= due <= done + rest && done !! rest
        invariant applications == Cleared(db.applications, done)
        invariant receiptsCleared == |done|
      {
        var a :| a in rest;
        ClearedNext(db.applications, done, a, cutoff);
        if applications[a].receipt.Some? {
          applications := applications[a := applications[a].(receipt := None)];
          receiptsCleared := receiptsCleared + 1;
          done := done + {a};
        }
        rest := rest - {a};
      }
      assert done == due;
    }
  }

  function OldApplications(applications: Applications, cutoff: int): set<Guid> {
    set a | a in applications && applications[a].submittedAt <= cutoff
  }

  lemma ClearedNext(applications: Applications, done: set<Guid>, a: Guid, cutoff: int)
    requires a in OldApplications(applications, cutoff) && a !in done
    ensures a in Cleared(applications, done) && Cleared(applications, done)[a] == applications[a]
    ensures Cleared(applications, done + {a}) == Cleared(applications, done)[a := applications[a].(receipt := None)]
    ensures a in ReceiptsDue(applications, cutoff) <==> applications[a].receipt.Some?
  {
  }

  /** Clearing the rows that are due is what the bulk update does; with none due nothing changes. */
  lemma ClearedDue(applications: Applications, cutoff: int)
    ensures ReceiptsDue(applications, cutoff) <= OldApplications(applications, cutoff)
    ensures Cleared(applications, ReceiptsDue(applications, cutoff)) == ClearReceipts(applications, cutoff)
    ensures Cleared(applications, {}) == applications
  {
  }
}
