/** What the audit chain promises with the canonical text that the source hashes, for every run of
    emissions. */
module AuditPromises {
  import opened Common
  import opened Canonical
  import opened AuditTables
  import opened AuditChain
  import opened AuditRuns
  import opened AuditTheorems
  import opened AuditServices

  /** A run of emissions with the source's text. */
  ghost predicate Emits(hash: HashFn, trace: seq<State>, steps: seq<Step>) {
    Run(SealOf(CanonicalScheme(hash)), trace, steps)
  }

  /** The texts hashed by the emissions behind the stored links. */
  ghost function Hashed(hash: HashFn, db: Tables): set<string> {
    Emitted(CanonicalScheme(hash), db.events, db.links)
  }

  function VerifyText(hash: HashFn, db: Tables, t: Guid, start: int, end: int): Walked {
    Verify(SealOf(CanonicalScheme(hash)), db, t, start, end)
  }

  /** An untouched window verifies exactly when it should, with the hash it should. */
  lemma WindowsAreComplete(hash: HashFn, trace: seq<State>, steps: seq<Step>, n: nat, t: Guid, start: int, end: int)
    requires Emits(hash, trace, steps) && n < |trace| && start <= end
    requires Separates(hash, Hashed(hash, trace[n].db) + RestartTexts(CanonicalScheme(hash), trace[n].db, t, start))
    ensures Complete(VerifyText(hash, trace[n].db, t, start, end), trace[n].db, t, start, end)
  {
    hide HeadRecoverable, Complete, Emitted, RestartTexts;
    CanonicalHeadRecoverable(hash);
    Completeness(CanonicalScheme(hash), trace, steps, n, t, start, end);
  }

  /** The row has the id of the event behind link i of the chain and, if that event's hashed columns
      hold no pipe, all of its hashed fields. The row's own columns may hold anything. */
  predicate FieldsAgree(db: Tables, chain: seq<AuditLink>, i: nat, row: AuditEvent) {
    && i < |chain|
    && var e := EventOf(db.events, chain[i].eventId);
       && e.Some? && e.value.id == row.id
       && (Clear(e.value) ==> SameHashedFields(row, e.value))
  }

  /** What a verification of an altered event table that succeeds has shown. */
  ghost predicate Genuine(hash: HashFn, db: Tables, forged: seq<AuditEvent>, t: Guid, start: int, end: int) {
    var rows, a, w := Rows(forged, t, start, end), AnchorPosition(db, t, start), VerifyText(hash, db.(events := forged), t, start, end);
    w.mismatch.None? ==>
      && a + |rows| <= |Chain(db, t)| && w.hash == HashBefore(Chain(db, t), a + |rows|)
      && forall k | 0 <= k < |rows| :: FieldsAgree(db, Chain(db, t), a + k, rows[k])
  }

  /** If a window of an arbitrarily altered event table verifies against the stored links, the rows
      it selects agree, in order and in every hashed field, with a contiguous stretch of the
      emitted events that starts right after the anchor. Only the fields of emitted events with a
      pipe are excepted, and PipesAreForgeable says that they must be. */
  lemma AlterationsAreCaught(hash: HashFn, trace: seq<State>, steps: seq<Step>, n: nat, forged: seq<AuditEvent>, t: Guid, start: int, end: int)
    requires Emits(hash, trace, steps) && n < |trace|
    requires Separates(hash, Hashed(hash, trace[n].db) + ForgedTexts(CanonicalScheme(hash), trace[n].db, forged, t, start, end))
    ensures Genuine(hash, trace[n].db, forged, t, start, end)
  {
    hide HeadRecoverable, Emitted, ForgedTexts, Rows, SameRecord, FieldsAgree, AnchorPosition, LinksOf, Walk, Run, Repeats;
    var c, db := CanonicalScheme(hash), trace[n].db;
    CanonicalHeadRecoverable(hash);
    TamperEvidence(c, trace, steps, n, forged, t, start, end);
    RunIsIntact(SealOf(c), trace, steps, n);
    var rows, a := Rows(forged, t, start, end), AnchorPosition(db, t, start);
    if VerifyText(hash, db.(events := forged), t, start, end).mismatch.None? {
      RepeatsEach(c, db, Chain(db, t), a, rows);
      forall k | 0 <= k < |rows| ensures FieldsAgree(db, Chain(db, t), a + k, rows[k]) {
        RecordAgrees(hash, db, t, a + k, rows[k]);
      }
    }
  }

  lemma RecordAgrees(hash: HashFn, db: Tables, t: Guid, i: nat, row: AuditEvent)
    requires Intact(SealOf(CanonicalScheme(hash)), db) && i < |Chain(db, t)|
    requires SameRecord(CanonicalScheme(hash), db, Chain(db, t), i, row)
    ensures FieldsAgree(db, Chain(db, t), i, row)
  {
    hide Clear, SameHashedFields, LinksOf;
    VerifiedFieldsAgree(hash, db, t, i, row);
    EventOfPresent(db.events, EventOf(db.events, Chain(db, t)[i].eventId).value);
  }

  // ----- The stored verdict -----

  /** Some event of the window is what the row reports. */
  predicate Reports(run: VerificationRun, e: AuditEvent) {
    run.error == Some("mismatch_at:" + e.id)
  }

  /** The tenant's events that the row's window covers. */
  predicate Covers(run: VerificationRun, e: AuditEvent) {
    e.tenantId == run.tenantId && run.windowStart <= e.createdAt <= run.windowEnd
  }

  lemma SortedMember(es: seq<AuditEvent>, e: AuditEvent)
    ensures e in SortByTime(es) <==> e in es
  {
    assert e in multiset(SortByTime(es)) <==> e in multiset(es);
  }

  lemma CoveredIsRow(events: seq<AuditEvent>, run: VerificationRun, e: AuditEvent)
    ensures e in Rows(events, run.tenantId, run.windowStart, run.windowEnd) <==> e in events && Covers(run, e)
  {
    hide EventsOf, Within, SortByTime;
    var ev := EventsOf(events, run.tenantId);
    assert e in ev <==> e in events && e.tenantId == run.tenantId by { EventsOfMembers(events, run.tenantId); }
    var w := Within(ev, run.windowStart, run.windowEnd);
    assert e in w <==> e in ev && run.windowStart <= e.createdAt <= run.windowEnd by { WithinMembers(ev, run.windowStart, run.windowEnd); }
    SortedMember(w, e);
  }

  /** What a verification stores of an untouched history: a success exactly if every event that its
      window covers is linked and later than its start, with the hash that stood at its end;
      otherwise it names an event of the window that is not. */
  lemma StoredVerdictIsComplete(hash: HashFn, trace: seq<State>, steps: seq<Step>, n: nat, run: VerificationRun)
    requires Emits(hash, trace, steps) && n < |trace| && Recorded(hash, trace[n].db, run) && run.windowStart <= run.windowEnd
    requires Separates(hash, Hashed(hash, trace[n].db)
                             + RestartTexts(CanonicalScheme(hash), trace[n].db, run.tenantId, run.windowStart))
    ensures var db := trace[n].db;
            && (run.success <==> forall e | e in db.events && Covers(run, e) ::
                                   LinkOf(db.links, e.id).Some? && e.createdAt != run.windowStart)
            && (run.success ==> run.computedHash == Anchor(db.links, run.tenantId, run.windowEnd) && run.error == None)
            && (!run.success ==> exists e :: e in db.events && Covers(run, e) && Reports(run, e)
                                             && (LinkOf(db.links, e.id).None? || e.createdAt == run.windowStart))
  {
    hide Separates, RestartTexts, Emitted, Walk, Anchor, Run;
    var db, t := trace[n].db, run.tenantId;
    WindowsAreComplete(hash, trace, steps, n, t, run.windowStart, run.windowEnd);
    var w := VerifyText(hash, db, t, run.windowStart, run.windowEnd);
    forall e ensures e in Rows(db.events, t, run.windowStart, run.windowEnd) <==> e in db.events && Covers(run, e) {
      CoveredIsRow(db.events, run, e);
    }
    EventsOfMembers(db.events, t);
    hide Rows, EventsOf;
    if !run.success {
      Offender(w, db, run);
    }
  }

  lemma Offender(w: Walked, db: Tables, run: VerificationRun)
    requires Complete(w, db, run.tenantId, run.windowStart, run.windowEnd) && w.mismatch.Some? && run.windowStart <= run.windowEnd
    requires run.error == Some("mismatch_at:" + w.mismatch.value)
    ensures exists e :: e in db.events && Covers(run, e) && Reports(run, e)
                        && (LinkOf(db.links, e.id).None? || e.createdAt == run.windowStart)
  {
    var t := run.tenantId;
    EventsOfMembers(db.events, t);
    if EventAt(db, t, run.windowStart) {
      var e :| e in EventsOf(db.events, t) && e.createdAt == run.windowStart;
      assert e in db.events && Covers(run, e) && Reports(run, e);
    } else {
      var e := FirstUnlinked(Rows(db.events, t, run.windowStart, run.windowEnd), db.links).value;
      CoveredIsRow(db.events, run, e);
      assert Reports(run, e);
    }
  }

  /** What a verification stores of an altered event table: if it stores a success, the rows it
      selected are the emitted events from its anchor on, field by field as far as no pipe is in
      them, and the stored hash is that of the last one's link. */
  lemma StoredVerdictCatches(hash: HashFn, trace: seq<State>, steps: seq<Step>, n: nat, forged: seq<AuditEvent>, run: VerificationRun)
    requires Emits(hash, trace, steps) && n < |trace| && Recorded(hash, trace[n].db.(events := forged), run)
    requires Separates(hash, Hashed(hash, trace[n].db)
                             + ForgedTexts(CanonicalScheme(hash), trace[n].db, forged, run.tenantId, run.windowStart, run.windowEnd))
    ensures run.success ==>
              var db := trace[n].db;
              var rows := Rows(forged, run.tenantId, run.windowStart, run.windowEnd);
              var a, chain := AnchorPosition(db, run.tenantId, run.windowStart), Chain(db, run.tenantId);
              && a + |rows| <= |chain| && run.computedHash == HashBefore(chain, a + |rows|)
              && forall k | 0 <= k < |rows| :: FieldsAgree(db, chain, a + k, rows[k])
  {
    hide Separates, ForgedTexts, Emitted, Walk, Rows, AnchorPosition, LinksOf, FieldsAgree, Run;
    AlterationsAreCaught(hash, trace, steps, n, forged, run.tenantId, run.windowStart, run.windowEnd);
  }

  // ----- What goes unseen -----

  /** Two events that no verification can tell apart. */
  ghost predicate Alike(seal: Seal, e: AuditEvent, f: AuditEvent) {
    e.id == f.id && e.tenantId == f.tenantId && e.createdAt == f.createdAt && forall prev :: seal(e, prev) == seal(f, prev)
  }

  ghost predicate AllAlike(seal: Seal, a: seq<AuditEvent>, b: seq<AuditEvent>) {
    |a| == |b| && forall i | 0 <= i < |a| :: Alike(seal, a[i], b[i])
  }

  lemma AlikeConcat(seal: Seal, a: seq<AuditEvent>, b: seq<AuditEvent>, x: seq<AuditEvent>, y: seq<AuditEvent>)
    requires AllAlike(seal, a, b) && AllAlike(seal, x, y)
    ensures AllAlike(seal, a + x, b + y)
  {
    hide Alike;
  }

  lemma {:induction false} AlikeSelected(seal: Seal, a: seq<AuditEvent>, b: seq<AuditEvent>, t: Guid, lo: int, hi: int)
    requires AllAlike(seal, a, b)
    ensures AllAlike(seal, EventsOf(a, t), EventsOf(b, t)) && AllAlike(seal, Within(a, lo, hi), Within(b, lo, hi))
  {
    if a != [] {
      var n := |a| - 1;
      AlikeSelected(seal, a[..n], b[..n], t, lo, hi);
      assert Alike(seal, a[n], b[n]);
      AlikeConcat(seal, EventsOf(a[..n], t), EventsOf(b[..n], t), [a[n]], [b[n]]);
      AlikeConcat(seal, Within(a[..n], lo, hi), Within(b[..n], lo, hi), [a[n]], [b[n]]);
    }
  }

  lemma {:induction false} AlikeInserted(seal: Seal, a: seq<AuditEvent>, b: seq<AuditEvent>, e: AuditEvent, f: AuditEvent)
    requires AllAlike(seal, a, b) && Alike(seal, e, f)
    ensures AllAlike(seal, InsertByTime(a, e), InsertByTime(b, f))
  {
    var n := |a| - 1;
    if a == [] || a[n].createdAt <= e.createdAt {
      assert a != [] ==> Alike(seal, a[n], b[n]);
      AlikeConcat(seal, a, b, [e], [f]);
    } else {
      assert Alike(seal, a[n], b[n]);
      AlikeInserted(seal, a[..n], b[..n], e, f);
      AlikeConcat(seal, InsertByTime(a[..n], e), InsertByTime(b[..n], f), [a[n]], [b[n]]);
    }
  }

  lemma {:induction false} AlikeSorted(seal: Seal, a: seq<AuditEvent>, b: seq<AuditEvent>)
    requires AllAlike(seal, a, b)
    ensures AllAlike(seal, SortByTime(a), SortByTime(b))
  {
    if a != [] {
      var n := |a| - 1;
      AlikeSorted(seal, a[..n], b[..n]);
      assert Alike(seal, a[n], b[n]);
      AlikeInserted(seal, SortByTime(a[..n]), SortByTime(b[..n]), a[n], b[n]);
    }
  }

  lemma {:induction false} AlikeWalked(seal: Seal, links: seq<AuditLink>, a: seq<AuditEvent>, b: seq<AuditEvent>, from: Digest)
    requires AllAlike(seal, a, b)
    ensures Walk(seal, links, a, from) == Walk(seal, links, b, from)
    decreases |a|
  {
    if a != [] {
      assert Alike(seal, a[0], b[0]);
      AlikeWalked(seal, links, a[1..], b[1..], seal(a[0], from));
    }
  }

  lemma AlikeVerified(seal: Seal, db: Tables, forged: seq<AuditEvent>, t: Guid, start: int, end: int)
    requires AllAlike(seal, db.events, forged)
    ensures Verify(seal, db.(events := forged), t, start, end) == Verify(seal, db, t, start, end)
  {
    hide AllAlike;
    AlikeSelected(seal, db.events, forged, t, start, end);
    AlikeSelected(seal, EventsOf(db.events, t), EventsOf(forged, t), t, start, end);
    AlikeSorted(seal, Within(EventsOf(db.events, t), start, end), Within(EventsOf(forged, t), start, end));
    AlikeWalked(seal, db.links, Rows(db.events, t, start, end), Rows(forged, t, start, end), Anchor(db.links, t, start));
  }

  /** The exception is exact: a stored event with a pipe in some hashed column can be replaced by
      one with other fields, and every verification of every window finds what it found before. */
  lemma PipesAreForgeable(hash: HashFn, db: Tables, i: nat, t: Guid, start: int, end: int)
    requires i < |db.events| && !Clear(db.events[i])
    ensures !SameHashedFields(Shifted(db.events[i]), db.events[i])
    ensures VerifyText(hash, db.(events := db.events[i := Shifted(db.events[i])]), t, start, end) == VerifyText(hash, db, t, start, end)
  {
    hide Clear, Shifted, SameHashedFields, Canonicalize;
    var seal, e := SealOf(CanonicalScheme(hash)), db.events[i];
    var forged := db.events[i := Shifted(e)];
    PipeShiftGoesUnseen(e, Genesis);
    forall prev ensures seal(e, prev) == seal(Shifted(e), prev) { PipeShiftGoesUnseen(e, prev); }
    AlikeVerified(seal, db, forged, t, start, end);
  }

  // ----- The promises are not empty -----

  lemma OneEmission(seal: Seal, audit: AuditEvent) returns (trace: seq<State>, steps: seq<Step>, l: AuditLink)
    ensures Run(seal, trace, steps) && |trace| == 4 && trace[3].db == Tables([audit], [l])
  {
    hide LinkFor;
    var t := audit.tenantId;
    l := LinkFor(seal, [], audit);
    var s0 := State(Tables([], []), map[]);
    var s1 := Apply(seal, s0, ReadHead(audit));
    var s2 := Apply(seal, s1, SaveEvent(t));
    var s3 := Apply(seal, s2, SaveLink(t));
    trace, steps := [s0, s1, s2, s3], [ReadHead(audit), SaveEvent(t), SaveLink(t)];
  }

  /** The promises are not empty: for every hash there is a run that stores a link, with texts that
      any hash keeps apart because there is only one. */
  lemma AnEmissionIsSound(hash: HashFn, audit: AuditEvent) returns (trace: seq<State>, steps: seq<Step>)
    ensures Emits(hash, trace, steps) && |trace| == 4 && |trace[3].db.links| == 1
    ensures Separates(hash, Hashed(hash, trace[3].db))
  {
    hide Run, Emitted, Separates;
    var l: AuditLink;
    trace, steps, l := OneEmission(SealOf(CanonicalScheme(hash)), audit);
    OneText(CanonicalScheme(hash), audit, l);
  }

  lemma OneText(c: Scheme, e: AuditEvent, l: AuditLink)
    ensures exists text :: Emitted(c, [e], [l]) <= {text}
    ensures Separates(c.hash, Emitted(c, [e], [l]))
  {
    assert [l][..0] == [];
    assert Emitted(c, [e], []) == {};
    var found := EventOf([e], l.eventId);
    var text := if found.Some? then c.text(found.value, l.previousHash) else "";
    assert Emitted(c, [e], [l]) <= {text};
  }
}
