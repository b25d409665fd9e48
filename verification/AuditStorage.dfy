/** The database keeps instants to the microsecond, while the hash prints them to the 100 ns tick.
    What a verification finds on the rows as they come back from storage. */
module AuditStorage {
  import opened Common
  import opened Timestamps
  import opened Canonical
  import opened AuditTables
  import opened AuditChain
  import opened AuditRuns
  import opened AuditTheorems
  import opened AuditPromises

  const MICROSECOND := 10

  /** The instant that storage keeps. */
  function Kept(at: Instant): (r: Instant)
    ensures r <= at < r + MICROSECOND && r % MICROSECOND == 0
    ensures r == at <==> at % MICROSECOND == 0
  {
    at / MICROSECOND * MICROSECOND
  }

  function KeptEvent(e: AuditEvent): AuditEvent {
    e.(createdAt := Kept(e.createdAt))
  }

  function KeptLink(l: AuditLink): AuditLink {
    l.(createdAt := Kept(l.createdAt))
  }

  function KeptEvents(es: seq<AuditEvent>): seq<AuditEvent> {
    if es == [] then [] else KeptEvents(es[..|es| - 1]) + [KeptEvent(es[|es| - 1])]
  }

  function KeptLinks(ls: seq<AuditLink>): seq<AuditLink> {
    if ls == [] then [] else KeptLinks(ls[..|ls| - 1]) + [KeptLink(ls[|ls| - 1])]
  }

  /** The tables as they come back from storage. */
  function KeptTables(db: Tables): Tables {
    Tables(KeptEvents(db.events), KeptLinks(db.links))
  }

  lemma KeptEventsSnoc(es: seq<AuditEvent>, e: AuditEvent)
    ensures KeptEvents(es + [e]) == KeptEvents(es) + [KeptEvent(e)]
  {
    assert (es + [e])[..|es|] == es;
  }

  lemma KeptLinksSnoc(ls: seq<AuditLink>, l: AuditLink)
    ensures KeptLinks(ls + [l]) == KeptLinks(ls) + [KeptLink(l)]
  {
    assert (ls + [l])[..|ls|] == ls;
  }

  lemma {:induction false} KeptOfTenant(es: seq<AuditEvent>, t: Guid)
    ensures EventsOf(KeptEvents(es), t) == KeptEvents(EventsOf(es, t))
  {
    if es != [] {
      var n := |es| - 1;
      KeptOfTenant(es[..n], t);
      assert es == es[..n] + [es[n]];
      EventsAppended(es[..n], es[n], t);
      EventsAppended(KeptEvents(es[..n]), KeptEvent(es[n]), t);
      hide EventsOf;
      KeptEventsSnoc(EventsOf(es[..n], t), es[n]);
    }
  }

  lemma {:induction false} KeptLinksOfTenant(ls: seq<AuditLink>, t: Guid)
    ensures LinksOf(KeptLinks(ls), t) == KeptLinks(LinksOf(ls, t))
  {
    if ls != [] {
      var n := |ls| - 1;
      KeptLinksOfTenant(ls[..n], t);
      assert ls == ls[..n] + [ls[n]];
      LinksAppended(ls[..n], ls[n], t);
      LinksAppended(KeptLinks(ls[..n]), KeptLink(ls[n]), t);
      hide LinksOf;
      KeptLinksSnoc(LinksOf(ls[..n], t), ls[n]);
    }
  }

  lemma {:induction false} KeptMembers(es: seq<AuditEvent>)
    ensures |KeptEvents(es)| == |es| && forall i | 0 <= i < |es| :: KeptEvents(es)[i] == KeptEvent(es[i])
  {
    if es != [] {
      KeptMembers(es[..|es| - 1]);
    }
  }

  lemma {:induction false} KeptLinkMembers(ls: seq<AuditLink>)
    ensures |KeptLinks(ls)| == |ls| && forall i | 0 <= i < |ls| :: KeptLinks(ls)[i] == KeptLink(ls[i])
  {
    if ls != [] {
      KeptLinkMembers(ls[..|ls| - 1]);
    }
  }

  /** Storage does not change the hashes that a walk compares with. */
  lemma {:induction false} KeptLinkOf(ls: seq<AuditLink>, id: Guid)
    ensures LinkOf(KeptLinks(ls), id) == var l := LinkOf(ls, id); if l.None? then None else Some(KeptLink(l.value))
  {
    if ls != [] {
      var n := |ls| - 1;
      KeptLinkOf(ls[..n], id);
      assert (KeptLinks(ls[..n]) + [KeptLink(ls[n])])[..n] == KeptLinks(ls[..n]) by { KeptLinkMembers(ls[..n]); }
    }
  }

  lemma {:induction false} WalkKept(seal: Seal, links: seq<AuditLink>, rows: seq<AuditEvent>, from: Digest)
    ensures Walk(seal, KeptLinks(links), rows, from) == Walk(seal, links, rows, from)
    decreases |rows|
  {
    if rows != [] {
      KeptLinkOf(links, rows[0].id);
      WalkKept(seal, links, rows[1..], seal(rows[0], from));
    }
  }

  // ----- The anchor -----

  lemma SameSide(u: Instant, at: int)
    requires at % MICROSECOND == 0 && Kept(u) != at
    ensures u <= at <==> Kept(u) <= at
  {
    assert Kept(u) < at ==> Kept(u) + MICROSECOND <= at;
  }

  /** A stored instant lies up to a whole microsecond exactly if the original one does, unless it
      lies on it. */
  lemma {:induction false} UntilKept(ls: seq<AuditLink>, at: int)
    requires at % MICROSECOND == 0 && forall l | l in ls :: KeptLink(l).createdAt != at
    ensures Until(KeptLinks(ls), at) == KeptLinks(Until(ls, at))
  {
    if ls != [] {
      var n := |ls| - 1;
      assert ls == ls[..n] + [ls[n]];
      UntilKept(ls[..n], at);
      UntilSnoc(ls[..n], ls[n], at);
      UntilSnoc(KeptLinks(ls[..n]), KeptLink(ls[n]), at);
      assert ls[n] in ls;
      SameSide(ls[n].createdAt, at);
      hide Until;
      KeptLinksSnoc(Until(ls[..n], at), ls[n]);
    }
  }

  lemma KeptHead(ls: seq<AuditLink>)
    requires IncreasingLinks(ls) && IncreasingLinks(KeptLinks(ls))
    ensures HeadHash(KeptLinks(ls)) == HeadHash(ls)
  {
    LatestIsLast(ls);
    LatestIsLast(KeptLinks(ls));
    KeptLinkMembers(ls);
  }

  /** No two events of the tenant share a microsecond. */
  predicate Spread(db: Tables, t: Guid) {
    Increasing(KeptEvents(EventsOf(db.events, t)))
  }

  predicate UpTo(ls: seq<AuditLink>, hi: int) {
    forall l | l in ls :: l.createdAt <= hi
  }

  lemma LinkAfter(ls: seq<AuditLink>, l: AuditLink, before: int)
    requires IncreasingLinks(ls) && UpTo(ls, before) && before < l.createdAt
    ensures IncreasingLinks(ls + [l]) && UpTo(ls + [l], l.createdAt)
  {
  }

  lemma IncreasingAppended(es: seq<AuditEvent>, e: AuditEvent)
    requires Increasing(es + [e])
    ensures Increasing(es) && (es != [] ==> es[|es| - 1].createdAt < e.createdAt)
  {
    var all := es + [e];
    assert forall i | 0 <= i < |es| :: es[i] == all[i];
    assert all[|es|] == e;
  }

  lemma LastKept(es: seq<AuditEvent>)
    requires es != []
    ensures KeptEvents(es) == KeptEvents(es[..|es| - 1]) + [KeptEvent(es[|es| - 1])]
  {
  }

  lemma SpreadParts(ev: seq<AuditEvent>)
    requires Increasing(KeptEvents(ev)) && ev != []
    ensures Increasing(KeptEvents(ev[..|ev| - 1]))
    ensures |ev| > 1 ==> Kept(ev[|ev| - 2].createdAt) < Kept(ev[|ev| - 1].createdAt)
  {
    hide KeptEvents, Increasing, Kept;
    var n := |ev| - 1;
    LastKept(ev);
    IncreasingAppended(KeptEvents(ev[..n]), KeptEvent(ev[n]));
    if n > 0 {
      LastKept(ev[..n]);
    }
  }

  lemma {:induction false} KeptRun(seal: Seal, ev: seq<AuditEvent>, links: seq<AuditLink>)
    requires Increasing(KeptEvents(ev)) && forall e | e in ev :: Faithful(seal, links, e)
    ensures IncreasingLinks(KeptLinks(LinkedRun(ev, links)))
    ensures if ev == [] then LinkedRun(ev, links) == []
            else UpTo(KeptLinks(LinkedRun(ev, links)), Kept(ev[|ev| - 1].createdAt))
  {
    hide IncreasingLinks, Increasing, UpTo;
    if ev == [] {
      NoLinks();
    } else {
      var n := |ev| - 1;
      SpreadParts(ev);
      KeptRun(seal, ev[..n], links);
      assert ev[n] in ev && ev == ev[..n] + [ev[n]];
      var run, l := KeptLinks(LinkedRun(ev[..n], links)), LinkOf(links, ev[n].id);
      if n == 0 { NoLinks(); } else { UpToLater(run, Kept(ev[n - 1].createdAt), Kept(ev[n].createdAt)); }
      AppendEvent(ev[..n], ev[n], links, 0, 0);
      if l.Some? {
        KeptLinksSnoc(LinkedRun(ev[..n], links), l.value);
        LinkAfter(run, KeptLink(l.value), if n == 0 then -1 else Kept(ev[n - 1].createdAt));
      }
    }
  }

  lemma NoLinks()
    ensures KeptLinks([]) == [] && IncreasingLinks([]) && forall hi :: UpTo([], hi)
  {
  }

  lemma UpToLater(ls: seq<AuditLink>, lo: int, hi: int)
    requires UpTo(ls, lo) && lo <= hi
    ensures UpTo(ls, hi)
  {
  }

  lemma LinkHasEvent(seal: Seal, db: Tables, t: Guid, l: AuditLink) returns (e: AuditEvent)
    requires Intact(seal, db) && l in LinksOf(db.links, t)
    ensures e in EventsOf(db.events, t) && e.createdAt == l.createdAt
  {
    LinksOfMembers(db.links, t);
    EventsOfMembers(db.events, t);
    assert Attested(seal, db.events, l);
    e := EventOf(db.events, l.eventId).value;
  }

  lemma AnchorKept(seal: Seal, db: Tables, t: Guid, start: int)
    requires Intact(seal, db) && Spread(db, t) && start % MICROSECOND == 0 && !EventAt(KeptTables(db), t, start)
    ensures Anchor(KeptLinks(db.links), t, start) == Anchor(db.links, t, start)
  {
    var ev, chain := EventsOf(db.events, t), Chain(db, t);
    KeptOfTenant(db.events, t);
    KeptMembers(ev);
    forall l | l in chain ensures KeptLink(l).createdAt != start {
      var e := LinkHasEvent(seal, db, t, l);
      var i :| 0 <= i < |ev| && ev[i] == e;
      assert KeptEvents(ev)[i] in KeptEvents(ev);
    }
    UntilKept(chain, start);
    KeptLinksOfTenant(db.links, t);
    UntilsIncrease(seal, db, t, start);
    KeptHead(Until(chain, start));
  }

  lemma ChainKept(seal: Seal, db: Tables, t: Guid)
    requires Intact(seal, db) && Spread(db, t)
    ensures IncreasingLinks(Chain(db, t)) && IncreasingLinks(KeptLinks(Chain(db, t)))
  {
    var ev := EventsOf(db.events, t);
    assert TenantChain(db, t);
    EventsOfMembers(db.events, t);
    forall e | e in ev ensures Faithful(seal, db.links, e) { IntactIsFaithful(seal, db, e); }
    KeptRun(seal, ev, db.links);
    ChainHead(seal, db, t);
  }

  lemma PrefixIncreases(ls: seq<AuditLink>, k: nat)
    requires k <= |ls| && IncreasingLinks(ls)
    ensures IncreasingLinks(ls[..k])
  {
  }

  lemma UntilsIncrease(seal: Seal, db: Tables, t: Guid, start: int)
    requires Intact(seal, db) && Spread(db, t)
    ensures IncreasingLinks(Until(Chain(db, t), start)) && IncreasingLinks(KeptLinks(Until(Chain(db, t), start)))
  {
    var chain := Chain(db, t);
    ChainKept(seal, db, t);
    UntilIsPrefix(chain, start);
    hide Intact, Spread, Chain, IncreasingLinks, Until;
    var u := Until(chain, start);
    KeptLinkMembers(chain);
    KeptLinkMembers(u);
    assert KeptLinks(u) == KeptLinks(chain)[..|u|];
    PrefixIncreases(chain, |u|);
    PrefixIncreases(KeptLinks(chain), |u|);
  }

  // ----- Windows -----

  /** The event's instant is a whole number of microseconds. */
  predicate Whole(e: AuditEvent) {
    e.createdAt % MICROSECOND == 0
  }

  lemma {:induction false} JoinOne(p: seq<string>, q: seq<string>, i: nat)
    requires |p| == |q| && i < |p| && Join(p) == Join(q) && forall k | 0 <= k < |p| && k != i :: p[k] == q[k]
    ensures p[i] == q[i]
    decreases i
  {
    if i > 0 {
      SplitAtLength(p[0], "|" + Join(p[1..]), q[0], "|" + Join(q[1..]));
      SplitAtLength("|", Join(p[1..]), "|", Join(q[1..]));
      JoinOne(p[1..], q[1..], i - 1);
    } else if |p| > 1 {
      assert p[1..] == q[1..];
      var rest := "|" + Join(p[1..]);
      assert |p[0]| + |rest| == |Join(p)| == |Join(q)| == |q[0]| + |rest|;
      SplitAtLength(p[0], rest, q[0], rest);
    }
  }

  /** The text of the stored row is the emitted one exactly if storage kept the instant. */
  lemma KeptText(e: AuditEvent, prev: Digest)
    ensures Canonicalize(KeptEvent(e), prev) == Canonicalize(e, prev) <==> Whole(e)
  {
    var p, q := Columns(KeptEvent(e), prev), Columns(e, prev);
    if Join(p) == Join(q) {
      JoinOne(p, q, 7);
      StampInjective(Kept(e.createdAt), e.createdAt);
    }
  }

  /** The event is selected, as it is stored, by a window of the tenant. */
  predicate InWindow(db: Tables, t: Guid, start: int, end: int, e: AuditEvent) {
    e in EventsOf(db.events, t) && start <= Kept(e.createdAt) <= end
  }

  lemma {:induction false} WithinKept(ev: seq<AuditEvent>, start: int, end: int)
    requires start % MICROSECOND == 0
    requires forall e | e in ev && start <= Kept(e.createdAt) <= end :: Whole(e)
    ensures Within(KeptEvents(ev), start, end) == Within(ev, start, end)
  {
    if ev != [] {
      hide Within, Kept;
      var n := |ev| - 1;
      var e := ev[n];
      assert ev == ev[..n] + [e] && e in ev;
      WithinKept(ev[..n], start, end);
      AppendEvent(ev[..n], e, [], start, end);
      AppendEvent(KeptEvents(ev[..n]), KeptEvent(e), [], start, end);
      WindowBounds(e.createdAt, start, end);
    } else {
      assert Within(KeptEvents(ev), start, end) == [];
    }
  }

  lemma WindowBounds(at: Instant, start: int, end: int)
    requires start % MICROSECOND == 0
    ensures start <= at <= end ==> start <= Kept(at) <= end
  {
    assert Kept(at) < start ==> Kept(at) + MICROSECOND <= start;
  }

  lemma VerifyKept(seal: Seal, db: Tables, t: Guid, start: int, end: int)
    requires Intact(seal, db) && Spread(db, t) && start % MICROSECOND == 0 && !EventAt(KeptTables(db), t, start)
    ensures Verify(seal, KeptTables(db), t, start, end) == Verify(seal, db.(events := KeptEvents(db.events)), t, start, end)
  {
    AnchorKept(seal, db, t, start);
    hide Intact, Spread, EventAt, Anchor, Rows, KeptLinks, KeptEvents;
    WalkKept(seal, db.links, Rows(KeptEvents(db.events), t, start, end), Anchor(db.links, t, start));
  }

  lemma WindowRow(db: Tables, t: Guid, start: int, end: int, e: AuditEvent) returns (k: nat)
    requires InWindow(db, t, start, end, e)
    ensures k < |Rows(KeptEvents(db.events), t, start, end)| && Rows(KeptEvents(db.events), t, start, end)[k] == KeptEvent(e)
  {
    var ev := EventsOf(db.events, t);
    KeptOfTenant(db.events, t);
    KeptIn(ev, e);
    WithinMembers(KeptEvents(ev), start, end);
    var w := Within(KeptEvents(ev), start, end);
    assert KeptEvent(e) in multiset(w);
    assert KeptEvent(e) in multiset(SortByTime(w));
    k :| 0 <= k < |SortByTime(w)| && SortByTime(w)[k] == KeptEvent(e);
  }

  /** A stored row that repeats a link's text belongs to an event of whole microseconds. */
  lemma RepeatedIsWhole(hash: HashFn, db: Tables, t: Guid, i: nat, e: AuditEvent)
    requires Intact(SealOf(CanonicalScheme(hash)), db) && i < |Chain(db, t)| && e in db.events
    requires SameRecord(CanonicalScheme(hash), db, Chain(db, t), i, KeptEvent(e))
    ensures Whole(e) && LinkOf(db.links, e.id).Some?
  {
    hide Canonicalize, Columns, LinksOf, TenantChain, Attested, Whole;
    var c, prev := CanonicalScheme(hash), HashBefore(Chain(db, t), i);
    var original := EventOf(db.events, Chain(db, t)[i].eventId).value;
    assert original == e;
    assert Canonicalize(KeptEvent(e), prev) == c.text(KeptEvent(e), prev) == c.text(e, prev) == Canonicalize(e, prev);
    KeptText(e, prev);
  }

  lemma SuccessNeedsWhole(hash: HashFn, db: Tables, t: Guid, start: int, end: int, e: AuditEvent)
    requires Intact(SealOf(CanonicalScheme(hash)), db) && InWindow(db, t, start, end, e)
    requires AnchorPosition(db, t, start) <= |Chain(db, t)|
    requires Repeats(CanonicalScheme(hash), db, Chain(db, t), AnchorPosition(db, t, start), Rows(KeptEvents(db.events), t, start, end))
    ensures Whole(e) && LinkOf(db.links, e.id).Some?
  {
    hide Intact, LinksOf, EventsOf, AnchorPosition, Rows, SameRecord, Whole, Repeats, KeptEvents, KeptEvent, LinkOf;
    var a := AnchorPosition(db, t, start);
    var k := WindowRow(db, t, start, end, e);
    assert e in db.events by { EventsOfMembers(db.events, t); }
    RepeatsEach(CanonicalScheme(hash), db, Chain(db, t), a, Rows(KeptEvents(db.events), t, start, end));
    RepeatedIsWhole(hash, db, t, a + k, e);
  }

  lemma WholeSucceeds(seal: Seal, db: Tables, t: Guid, start: int, end: int)
    requires Intact(seal, db) && start <= end && start % MICROSECOND == 0 && !EventAt(KeptTables(db), t, start)
    requires forall e | InWindow(db, t, start, end, e) :: Whole(e) && LinkOf(db.links, e.id).Some?
    ensures Verify(seal, db.(events := KeptEvents(db.events)), t, start, end).mismatch.None?
  {
    var ev := EventsOf(db.events, t);
    KeptOfTenant(db.events, t);
    assert forall e | e in ev && start <= Kept(e.createdAt) <= end :: InWindow(db, t, start, end, e);
    WithinKept(ev, start, end);
    NoneAtStart(db, t, start);
    CleanStart(seal, db, t, start, end);
    forall e | e in Rows(db.events, t, start, end) ensures LinkOf(db.links, e.id).Some? {
      RowInWindow(db, t, start, end, e);
    }
    FirstUnlinkedNone(Rows(db.events, t, start, end), db.links);
  }

  lemma RowInWindow(db: Tables, t: Guid, start: int, end: int, e: AuditEvent)
    requires e in Rows(db.events, t, start, end) && start % MICROSECOND == 0
    ensures InWindow(db, t, start, end, e)
  {
    RowsMembers(db.events, t, start, end);
    EventsOfMembers(db.events, t);
    WindowBounds(e.createdAt, start, end);
  }

  lemma NoneAtStart(db: Tables, t: Guid, start: int)
    requires !EventAt(KeptTables(db), t, start) && start % MICROSECOND == 0
    ensures !EventAt(db, t, start)
  {
    var ev := EventsOf(db.events, t);
    KeptOfTenant(db.events, t);
    forall e | e in ev ensures KeptEvent(e) in KeptEvents(ev) { KeptIn(ev, e); }
  }

  lemma KeptIn(es: seq<AuditEvent>, e: AuditEvent)
    requires e in es
    ensures KeptEvent(e) in KeptEvents(es)
  {
    KeptMembers(es);
    var i :| 0 <= i < |es| && es[i] == e;
    assert KeptEvents(es)[i] == KeptEvent(e);
  }

  /** Verification on the rows as they come back from storage, for a tenant whose events fall into
      different microseconds and a window of whole microseconds on whose start none of them falls:
      an untouched window verifies if and only if each of its events is linked and was emitted at
      a whole number of microseconds. */
  lemma StorageMustKeepInstants(hash: HashFn, trace: seq<State>, steps: seq<Step>, n: nat, t: Guid, start: int, end: int)
    requires Emits(hash, trace, steps) && n < |trace| && start <= end && start % MICROSECOND == 0
    requires Spread(trace[n].db, t) && !EventAt(KeptTables(trace[n].db), t, start)
    requires Separates(hash, Hashed(hash, trace[n].db)
                             + ForgedTexts(CanonicalScheme(hash), trace[n].db, KeptEvents(trace[n].db.events), t, start, end))
    ensures VerifyText(hash, KeptTables(trace[n].db), t, start, end).mismatch.None?
       <==> forall e | InWindow(trace[n].db, t, start, end, e) :: Whole(e) && LinkOf(trace[n].db.links, e.id).Some?
  {
    hide Run, HeadRecoverable, Emitted, ForgedTexts, Spread, EventAt, KeptEvents, KeptLinks, KeptTables, Rows, InWindow, Whole,
         AnchorPosition, LinksOf, LinkOf, Repeats, Walk, Separates;
    var c, db := CanonicalScheme(hash), trace[n].db;
    var seal := SealOf(c);
    RunIsIntact(seal, trace, steps, n);
    CanonicalHeadRecoverable(hash);
    TamperEvidence(c, trace, steps, n, KeptEvents(db.events), t, start, end);
    AnchorHash(seal, db, t, start);
    VerifyKept(seal, db, t, start, end);
    if VerifyText(hash, KeptTables(db), t, start, end).mismatch.None? {
      forall e | InWindow(db, t, start, end, e) ensures Whole(e) && LinkOf(db.links, e.id).Some? {
        SuccessNeedsWhole(hash, db, t, start, end, e);
      }
    }
    if forall e | InWindow(db, t, start, end, e) :: Whole(e) && LinkOf(db.links, e.id).Some? {
      WholeSucceeds(seal, db, t, start, end);
    }
  }
}
