/** The audit services as the source writes them: a sink that saves in two steps, a verifier
    that loops over the window's rows, and the sweep over all tenants. */
module AuditServices {
  import opened Common
  import opened Timestamps
  import opened Canonical
  import opened AuditTables
  import opened AuditChain
  import opened AuditRuns

  /** The stored outcome of one verification. */
  datatype VerificationRun = VerificationRun(
    id: Guid,
    tenantId: Guid,
    windowStart: int,
    windowEnd: int,
    previousHash: Digest,
    computedHash: Digest,
    success: bool,
    error: Option<string>,
    createdAt: int)

  /** The audit side of the database. */
  class AuditDb {
    var tenants: seq<Tenant>
    var events: seq<AuditEvent>
    var links: seq<AuditLink>
    var runs: seq<VerificationRun>

    ghost function View(): Tables
      reads this
    {
      Tables(events, links)
    }
  }

  /** Which of the two saves of an emission fails, if any. */
  datatype Fault = NoFault | FirstSaveFails | SecondSaveFails

  /** The tables after one emission for a known tenant. */
  function AfterEmission(seal: Seal, db: Tables, audit: AuditEvent, fault: Fault): Tables {
    match fault
    case FirstSaveFails => db
    case SecondSaveFails => db.(events := db.events + [audit])
    case NoFault => Tables(db.events + [audit], db.links + [LinkFor(seal, db.links, audit)])
  }

  /** Each column of the event holds what the descriptor says of it. */
  predicate Describes(evt: Descriptor, tenant: Guid, id: Guid, e: AuditEvent) {
    && e.id == id && e.tenantId == tenant && e.createdAt == evt.createdAt
    && e.category == evt.category && e.action == evt.action
    && e.entityType == evt.entityType && e.entityId == evt.entityId
    && e.jti == evt.jti && e.metadata == evt.metadata
    && e.payloadHash == None && e.actorType == None && e.actorId == None
  }

  class PersistentAuditEventSink {
    const db: AuditDb
    const hash: HashFn

    constructor (db: AuditDb, hash: HashFn)
      ensures this.db == db && this.hash == hash
    {
      this.db := db;
      this.hash := hash;
    }

    method EmitAsync(evt: Descriptor, id: Guid, fault: Fault)
      modifies db
      ensures db.tenants == old(db.tenants) && db.runs == old(db.runs)
      ensures var tenant := BySlug(old(db.tenants), evt.tenant);
              db.View() == if tenant.None? then old(db.View())
                           else AfterEmission(SealOf(CanonicalScheme(hash)), old(db.View()), EventFor(evt, tenant.value.id, id), fault)
      ensures var tenant := BySlug(old(db.tenants), evt.tenant);
              tenant.Some? && !fault.FirstSaveFails? ==>
                && |db.events| == |old(db.events)| + 1
                && Describes(evt, tenant.value.id, id, db.events[|old(db.events)|])
                && (fault.NoFault? ==> |db.links| == |old(db.links)| + 1 && db.links[|old(db.links)|].eventId == id)
    {
      var tenant := BySlug(db.tenants, evt.tenant);
      if tenant.None? {
        return;
      }
      var audit := EventFor(evt, tenant.value.id, id);
      var previous := Latest(LinksOf(db.links, tenant.value.id));
      var previousHash := if previous.Some? then previous.value.currentHash else Genesis;
      var canonical := Canonicalize(audit, previousHash);
      var currentHash := Sha256(hash(canonical));
      var link := AuditLink(audit.id, tenant.value.id, previousHash, currentHash, audit.createdAt);

      if fault.FirstSaveFails? {
        return;
      }
      db.events := db.events + [audit];
      if fault.SecondSaveFails? {
        return;
      }
      db.links := db.links + [link];
    }
  }

  /** An emission that nothing interrupts is three enabled steps of the interleaved machine, and
      one that a failed save cuts short is the same run ended by a stop. */
  lemma EmissionIsARun(seal: Seal, s: State, audit: AuditEvent, fault: Fault)
    requires Enabled(s, ReadHead(audit))
    ensures var t := audit.tenantId;
            var s1 := Apply(seal, s, ReadHead(audit));
            && Enabled(s1, SaveEvent(t)) && Enabled(s1, Stop(t))
            && (fault.FirstSaveFails? ==> Apply(seal, s1, Stop(t)) == s.(db := AfterEmission(seal, s.db, audit, fault)))
            && var s2 := Apply(seal, s1, SaveEvent(t));
               && Enabled(s2, SaveLink(t)) && Enabled(s2, Stop(t))
               && (fault.SecondSaveFails? ==> Apply(seal, s2, Stop(t)) == s.(db := AfterEmission(seal, s.db, audit, fault)))
               && (fault.NoFault? ==> Apply(seal, s2, SaveLink(t)) == s.(db := AfterEmission(seal, s.db, audit, fault)))
  {
    var t := audit.tenantId;
    var f := Flight(audit, LinkFor(seal, s.db.links, audit), false);
    assert s.flights[t := f] - {t} == s.flights;
    assert s.flights[t := f][t := f.(saved := true)] - {t} == s.flights;
  }

  datatype VerifyOutcome = InvalidArgument | TenantNotFound | Verified(run: VerificationRun, firstMismatch: Option<Guid>)

  /** The row holds the outcome of verifying its tenant and window on the given tables. */
  predicate Recorded(hash: HashFn, db: Tables, run: VerificationRun) {
    var w := Verify(SealOf(CanonicalScheme(hash)), db, run.tenantId, run.windowStart, run.windowEnd);
    && run.previousHash == Anchor(db.links, run.tenantId, run.windowStart)
    && run.computedHash == w.hash
    && (run.success <==> w.mismatch.None?)
    && run.error == if w.mismatch.None? then None else Some("mismatch_at:" + w.mismatch.value)
  }

  class AuditVerifierService {
    const db: AuditDb
    const hash: HashFn

    constructor (db: AuditDb, hash: HashFn)
      ensures this.db == db && this.hash == hash
    {
      this.db := db;
      this.hash := hash;
    }

    method VerifyAsync(slug: string, start: int, end: int, runId: Guid, now: int) returns (r: VerifyOutcome)
      modifies db`runs
      ensures r.InvalidArgument? <==> Blank(slug) || end <= start
      ensures !r.InvalidArgument? ==> (r.TenantNotFound? <==> BySlug(db.tenants, slug).None?)
      ensures db.runs == old(db.runs) + if r.Verified? then [r.run] else []
      ensures r.Verified? ==>
                && r.run.id == runId && r.run.tenantId == BySlug(db.tenants, slug).value.id
                && r.run.windowStart == start && r.run.windowEnd == end && r.run.createdAt == now
                && r.run.previousHash == Anchor(db.links, r.run.tenantId, start)
                && Walked(r.run.computedHash, r.firstMismatch)
                   == Walk(SealOf(CanonicalScheme(hash)), db.links, Rows(db.events, r.run.tenantId, start, end), r.run.previousHash)
                && (r.run.success <==> r.firstMismatch.None?) && Recorded(hash, db.View(), r.run)
    {
      if Blank(slug) || end <= start {
        return InvalidArgument;
      }
      var tenant := BySlug(db.tenants, slug);
      if tenant.None? {
        return TenantNotFound;
      }
      var t := tenant.value.id;
      var prev := Latest(Until(LinksOf(db.links, t), start));
      var previousHash := if prev.Some? then prev.value.currentHash else Genesis;
      var events := SortByTime(Within(EventsOf(db.events, t), start, end));

      var firstMismatch: Option<Guid> := None;
      var computedHash := previousHash;
      ghost var seal := SealOf(CanonicalScheme(hash));
      var i := 0;
      while i < |events| && firstMismatch.None?
        invariant 0 <= i <= |events|
        invariant Walk(seal, db.links, events, previousHash)
               == if firstMismatch.None? then Walk(seal, db.links, events[i..], computedHash)
                  else Walked(computedHash, firstMismatch)
      {
        var canonical := Canonicalize(events[i], computedHash);
        var expected := Sha256(hash(canonical));
        var link := LinkOf(db.links, events[i].id);
        assert seal(events[i], computedHash) == expected;
        assert events[i..][1..] == events[i + 1..];
        if link.None? || link.value.currentHash != expected {
          firstMismatch := Some(events[i].id);
        }
        computedHash := expected;
        i := i + 1;
      }
      var success := firstMismatch.None?;
      var run := VerificationRun(runId, t, start, end, previousHash, computedHash, success,
                                 if success then None else Some("mismatch_at:" + firstMismatch.value), now);
      db.runs := db.runs + [run];
      return Verified(run, firstMismatch);
    }
  }

  // ----- The sweep -----

  datatype Options = Options(sweepHours: int, windowDays: int, overlapMinutes: int)

  function WindowLength(o: Options): int {
    Max(1, o.windowDays) * DAY + Max(0, o.overlapMinutes) * MINUTE
  }

  /** The positions among the first n tenants whose slug is not blank. */
  function NonBlank(tenants: seq<Tenant>, n: nat): seq<nat>
    requires n <= |tenants|
  {
    if n == 0 then [] else NonBlank(tenants, n - 1) + if Blank(tenants[n - 1].slug) then [] else [n - 1]
  }

  lemma {:induction false} NonBlankAre(tenants: seq<Tenant>, n: nat)
    requires n <= |tenants|
    ensures forall k: nat :: k in NonBlank(tenants, n) <==> k < n && !Blank(tenants[k].slug)
    ensures forall i, j | 0 <= i < j < |NonBlank(tenants, n)| :: NonBlank(tenants, n)[i] < NonBlank(tenants, n)[j]
  {
    if n > 0 {
      NonBlankAre(tenants, n - 1);
      var before := NonBlank(tenants, n - 1);
      assert forall i | 0 <= i < |before| :: before[i] in before;
    }
  }

  /** The row of a sweep for one tenant. */
  predicate SweepRow(hash: HashFn, db: Tables, tenant: Guid, start: int, end: int, id: Guid, run: VerificationRun) {
    && run.id == id && run.tenantId == tenant && run.windowStart == start && run.windowEnd == end && run.createdAt == end
    && Recorded(hash, db, run)
  }

  class AuditVerificationBackgroundService {
    const verifier: AuditVerifierService
    const options: Options

    constructor (verifier: AuditVerifierService, options: Options)
      ensures this.verifier == verifier && this.options == options
    {
      this.verifier := verifier;
      this.options := options;
    }

    /** One sweep at instant now; ids are the identifiers of the rows it adds: one row for each
        tenant whose slug is not blank, in order, for the configured window and with its outcome. */
    method RunOnceAsync(now: int, ids: seq<Guid>)
      requires |ids| == |verifier.db.tenants|
      modifies verifier.db`runs
      ensures var db := verifier.db;
              var named := NonBlank(db.tenants, |db.tenants|);
              var start := now - Max(1, options.windowDays) * DAY - Max(0, options.overlapMinutes) * MINUTE;
              && |db.runs| == |old(db.runs)| + |named| && db.runs[..|old(db.runs)|] == old(db.runs)
              && forall k | 0 <= k < |named| ::
                   && named[k] < |db.tenants| && BySlug(db.tenants, db.tenants[named[k]].slug).Some?
                   && SweepRow(verifier.hash, db.View(), BySlug(db.tenants, db.tenants[named[k]].slug).value.id, start, now,
                               ids[named[k]], db.runs[|old(db.runs)| + k])
    {
      hide Recorded;
      var db := verifier.db;
      var end := now;
      var start := end - Max(1, options.windowDays) * DAY - Max(0, options.overlapMinutes) * MINUTE;
      for k := 0 to |db.tenants|
        invariant db.View() == old(db.View()) && db.tenants == old(db.tenants)
        invariant |db.runs| == |old(db.runs)| + |NonBlank(db.tenants, k)| && db.runs[..|old(db.runs)|] == old(db.runs)
        invariant forall j | 0 <= j < |NonBlank(db.tenants, k)| ::
                    var i := NonBlank(db.tenants, k)[j];
                    && i < |db.tenants| && BySlug(db.tenants, db.tenants[i].slug).Some?
                    && SweepRow(verifier.hash, db.View(), BySlug(db.tenants, db.tenants[i].slug).value.id, start, end, ids[i],
                                db.runs[|old(db.runs)| + j])
      {
        ghost var before := db.runs;
        var outcome := verifier.VerifyAsync(db.tenants[k].slug, start, end, ids[k], now);
        assert db.runs[..|before|] == before;
        assert WindowLength(options) > 0;
      }
    }
  }
}
