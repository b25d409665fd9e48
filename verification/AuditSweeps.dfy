/** Overlapping sweeps add up: on append-only tables, successful windows that overlap amount to
    one successful window over all of them. Nothing is assumed of the hash here. */
module AuditSweeps {
  import opened Common
  import opened Timestamps
  import opened Canonical
  import opened AuditTables
  import opened AuditChain
  import opened AuditRuns
  import opened AuditTheorems
  import opened AuditServices

  /** Links stand at their events' instants. */
  predicate SameInstants(ev: seq<AuditEvent>, links: seq<AuditLink>) {
    forall e | e in ev && LinkOf(links, e.id).Some? :: LinkOf(links, e.id).value.createdAt == e.createdAt
  }

  /** The tenant's events carry increasing instants and its links are those of its linked
      events, each at its event's instant. The hashes may hold anything. */
  predicate Aligned(db: Tables, t: Guid) {
    var ev := EventsOf(db.events, t);
    && Increasing(ev)
    && LinkedRun(ev, db.links) == LinksOf(db.links, t)
    && SameInstants(ev, db.links)
  }

  /** The later tables hold the earlier ones and rows added after them. */
  predicate Extends(early: Tables, late: Tables) {
    && |early.events| <= |late.events| && late.events[..|early.events|] == early.events
    && |early.links| <= |late.links| && late.links[..|early.links|] == early.links
  }

  /** The tenant's rows added in between carry instants later than at. */
  predicate AddedAfter(early: Tables, late: Tables, t: Guid, at: int)
    requires Extends(early, late)
  {
    && (forall e | e in late.events[|early.events|..] && e.tenantId == t :: at < e.createdAt)
    && (forall l | l in late.links[|early.links|..] && l.tenantChainId == t :: at < l.createdAt)
  }

  lemma ReachableIsAligned(seal: Seal, trace: seq<State>, steps: seq<Step>, n: nat, t: Guid)
    requires Run(seal, trace, steps) && n < |trace|
    ensures Aligned(trace[n].db, t)
  {
    var db := trace[n].db;
    RunIsIntact(seal, trace, steps, n);
    assert TenantChain(db, t);
    EventsOfMembers(db.events, t);
    forall e | e in EventsOf(db.events, t) && LinkOf(db.links, e.id).Some?
      ensures LinkOf(db.links, e.id).value.createdAt == e.createdAt
    {
      IntactIsFaithful(seal, db, e);
    }
  }

  /** Tables only grow along a run. */
  lemma {:induction false} RunExtends(seal: Seal, trace: seq<State>, steps: seq<Step>, i: nat, j: nat)
    requires Run(seal, trace, steps) && i <= j < |trace|
    ensures Extends(trace[i].db, trace[j].db)
    decreases j - i
  {
    if i < j {
      RunExtends(seal, trace, steps, i, j - 1);
      var before, after := trace[j - 1].db, trace[j].db;
      assert after == Apply(seal, trace[j - 1], steps[j - 1]).db;
      assert Extends(before, after);
    }
  }

  // ----- Growing tables -----

  lemma EventsOfLast(ls: seq<AuditEvent>, t: Guid)
    requires ls != []
    ensures EventsOf(ls, t) == EventsOf(ls[..|ls| - 1], t) + EventsOf([ls[|ls| - 1]], t)
  {
    assert [ls[|ls| - 1]][..0] == [];
  }

  lemma {:induction false} EventsOfConcat(a: seq<AuditEvent>, b: seq<AuditEvent>, t: Guid)
    ensures EventsOf(a + b, t) == EventsOf(a, t) + EventsOf(b, t)
  {
    if b == [] {
      assert a + b == a;
    } else {
      var n := |b| - 1;
      EventsOfConcat(a, b[..n], t);
      ConcatLast(a, b);
      var last := EventsOf([b[n]], t);
      EventsOfLast(a + b, t);
      EventsOfLast(b, t);
      hide EventsOf;
      Regroup(EventsOf(a, t), EventsOf(b[..n], t), last);
    }
  }

  lemma LinksOfLast(ls: seq<AuditLink>, t: Guid)
    requires ls != []
    ensures LinksOf(ls, t) == LinksOf(ls[..|ls| - 1], t) + LinksOf([ls[|ls| - 1]], t)
  {
    assert [ls[|ls| - 1]][..0] == [];
  }

  lemma {:induction false} LinksOfConcat(a: seq<AuditLink>, b: seq<AuditLink>, t: Guid)
    ensures LinksOf(a + b, t) == LinksOf(a, t) + LinksOf(b, t)
  {
    if b == [] {
      assert a + b == a;
    } else {
      var n := |b| - 1;
      LinksOfConcat(a, b[..n], t);
      ConcatLast(a, b);
      var last := LinksOf([b[n]], t);
      LinksOfLast(a + b, t);
      LinksOfLast(b, t);
      hide LinksOf;
      Regroup(LinksOf(a, t), LinksOf(b[..n], t), last);
    }
  }

  lemma WithinLast(ls: seq<AuditEvent>, lo: int, hi: int)
    requires ls != []
    ensures Within(ls, lo, hi) == Within(ls[..|ls| - 1], lo, hi) + Within([ls[|ls| - 1]], lo, hi)
  {
    assert [ls[|ls| - 1]][..0] == [];
  }

  lemma {:induction false} WithinConcat(a: seq<AuditEvent>, b: seq<AuditEvent>, lo: int, hi: int)
    ensures Within(a + b, lo, hi) == Within(a, lo, hi) + Within(b, lo, hi)
  {
    if b == [] {
      assert a + b == a;
    } else {
      var n := |b| - 1;
      WithinConcat(a, b[..n], lo, hi);
      ConcatLast(a, b);
      var last := Within([b[n]], lo, hi);
      WithinLast(a + b, lo, hi);
      WithinLast(b, lo, hi);
      hide Within;
      Regroup(Within(a, lo, hi), Within(b[..n], lo, hi), last);
    }
  }

  lemma UntilLast(ls: seq<AuditLink>, hi: int)
    requires ls != []
    ensures Until(ls, hi) == Until(ls[..|ls| - 1], hi) + Until([ls[|ls| - 1]], hi)
  {
    assert [ls[|ls| - 1]][..0] == [];
  }

  lemma {:induction false} UntilConcat(a: seq<AuditLink>, b: seq<AuditLink>, hi: int)
    ensures Until(a + b, hi) == Until(a, hi) + Until(b, hi)
  {
    if b == [] {
      assert a + b == a;
    } else {
      var n := |b| - 1;
      UntilConcat(a, b[..n], hi);
      ConcatLast(a, b);
      var last := Until([b[n]], hi);
      UntilLast(a + b, hi);
      UntilLast(b, hi);
      hide Until;
      Regroup(Until(a, hi), Until(b[..n], hi), last);
    }
  }

  lemma {:induction false} UntilNone(ls: seq<AuditLink>, hi: int)
    requires forall l | l in ls :: hi < l.createdAt
    ensures Until(ls, hi) == []
  {
    if ls != [] {
      UntilNone(ls[..|ls| - 1], hi);
    }
  }

  lemma {:induction false} LinkOfConcat(a: seq<AuditLink>, b: seq<AuditLink>, id: Guid)
    ensures LinkOf(a, id).Some? ==> LinkOf(a + b, id) == LinkOf(a, id)
  {
    if b == [] {
      assert a + b == a;
    } else {
      var n := |b| - 1;
      LinkOfConcat(a, b[..n], id);
      assert (a + b)[..|a| + n] == a + b[..n];
    }
  }

  /** Rows before an instant are not affected by rows added after it. */
  lemma EarlierRowsKept(early: Tables, late: Tables, t: Guid, lo: int, hi: int, at: int)
    requires Extends(early, late) && AddedAfter(early, late, t, at) && hi <= at
    ensures Within(EventsOf(late.events, t), lo, hi) == Within(EventsOf(early.events, t), lo, hi)
    ensures Anchor(late.links, t, hi) == Anchor(early.links, t, hi)
  {
    var es, ls := late.events[|early.events|..], late.links[|early.links|..];
    assert late.events == early.events + es && late.links == early.links + ls;
    EventsOfConcat(early.events, es, t);
    EventsOfMembers(es, t);
    WithinConcat(EventsOf(early.events, t), EventsOf(es, t), lo, hi);
    WithinNone(EventsOf(es, t), lo, hi);
    LinksOfConcat(early.links, ls, t);
    LinksOfMembers(ls, t);
    UntilConcat(LinksOf(early.links, t), LinksOf(ls, t), hi);
    UntilNone(LinksOf(ls, t), hi);
    assert Until(LinksOf(late.links, t), hi) == Until(LinksOf(early.links, t), hi);
  }

  /** A walk that succeeds still does when links are added. */
  lemma {:induction false} WalkWithMoreLinks(seal: Seal, early: seq<AuditLink>, late: seq<AuditLink>, rows: seq<AuditEvent>, from: Digest)
    requires |early| <= |late| && late[..|early|] == early && Walk(seal, early, rows, from).mismatch.None?
    ensures Walk(seal, late, rows, from) == Walk(seal, early, rows, from)
    decreases |rows|
  {
    if rows != [] {
      assert late == early + late[|early|..];
      LinkOfConcat(early, late[|early|..], rows[0].id);
      WalkWithMoreLinks(seal, early, late, rows[1..], seal(rows[0], from));
    }
  }

  // ----- Splitting a window -----

  lemma {:induction false} SplitWindow(ev: seq<AuditEvent>, lo: int, mid: int, hi: int)
    requires Increasing(ev) && lo <= mid <= hi + 1
    ensures Within(ev, lo, hi) == Within(ev, lo, mid - 1) + Within(ev, mid, hi)
  {
    if ev != [] {
      var n := |ev| - 1;
      var ev0, e := ev[..n], ev[n];
      assert ev == ev0 + [e];
      EarlierEvents(ev);
      SplitWindow(ev0, lo, mid, hi);
      WithinOne(ev0, e, lo, hi);
      WithinOne(ev0, e, lo, mid - 1);
      WithinOne(ev0, e, mid, hi);
      if lo <= e.createdAt < mid {
        WithinNone(ev0, mid, hi);
      }
      hide Within, Increasing;
      Regroup(Within(ev0, lo, mid - 1), Within(ev0, mid, hi), [e]);
    }
  }

  lemma WithinOne(ev: seq<AuditEvent>, e: AuditEvent, lo: int, hi: int)
    ensures Within(ev + [e], lo, hi) == if lo <= e.createdAt <= hi then Within(ev, lo, hi) + [e] else Within(ev, lo, hi)
  {
    assert (ev + [e])[..|ev|] == ev;
  }

  /** A walk that succeeds from the window's anchor ends at the last link up to its end. */
  predicate EndsAtTip(seal: Seal, ev: seq<AuditEvent>, links: seq<AuditLink>, lo: int, hi: int) {
    var run := LinkedRun(ev, links);
    var w := Walk(seal, links, Within(ev, lo, hi), Tip(Until(run, lo)));
    w.mismatch.None? ==> w.hash == Tip(Until(run, hi))
  }

  lemma EndsBefore(seal: Seal, ev: seq<AuditEvent>, links: seq<AuditLink>, lo: int, hi: int)
    requires lo <= hi + 1 && forall e | e in ev :: e.createdAt < lo
    requires forall l | l in LinkedRun(ev, links) :: l.createdAt < lo
    ensures EndsAtTip(seal, ev, links, lo, hi)
  {
    WithinNone(ev, lo, hi);
    UntilAll(LinkedRun(ev, links), lo);
    UntilAll(LinkedRun(ev, links), hi);
  }

  lemma EndsInside(seal: Seal, ev0: seq<AuditEvent>, e: AuditEvent, links: seq<AuditLink>, lo: int, hi: int)
    requires lo <= e.createdAt <= hi && forall l | l in LinkedRun(ev0 + [e], links) :: l.createdAt <= hi
    ensures EndsAtTip(seal, ev0 + [e], links, lo, hi)
  {
    AppendEvent(ev0, e, links, lo, hi);
    UntilAll(LinkedRun(ev0 + [e], links), hi);
    WalkSnoc(seal, links, Within(ev0, lo, hi), e, Tip(Until(LinkedRun(ev0 + [e], links), lo)));
  }

  lemma EndsAfter(seal: Seal, ev0: seq<AuditEvent>, e: AuditEvent, links: seq<AuditLink>, lo: int, hi: int)
    requires lo <= hi + 1 && hi < e.createdAt && (lo == hi + 1 ==> e.createdAt != lo)
    requires LinkOf(links, e.id).Some? ==> LinkOf(links, e.id).value.createdAt == e.createdAt
    requires EndsAtTip(seal, ev0, links, lo, hi)
    ensures EndsAtTip(seal, ev0 + [e], links, lo, hi)
  {
    hide Walk;
    AppendEvent(ev0, e, links, lo, hi);
    var l := LinkOf(links, e.id);
    if l.Some? {
      UntilSnoc(LinkedRun(ev0, links), l.value, lo);
      UntilSnoc(LinkedRun(ev0, links), l.value, hi);
    }
  }

  lemma {:induction false} WalkEndsAtTip(seal: Seal, ev: seq<AuditEvent>, links: seq<AuditLink>, lo: int, hi: int)
    requires Increasing(ev) && lo <= hi + 1 && SameInstants(ev, links)
    requires lo == hi + 1 ==> forall e | e in ev :: e.createdAt != lo
    ensures EndsAtTip(seal, ev, links, lo, hi)
    decreases |ev|
  {
    hide EndsAtTip, LinkedRun;
    if ev == [] {
      EmptyRun(links);
      EndsBefore(seal, ev, links, lo, hi);
    } else {
      var n := |ev| - 1;
      var ev0, e := ev[..n], ev[n];
      assert ev == ev0 + [e];
      EarlierEvents(ev);
      RunBounded(ev, links);
      if e.createdAt < lo {
        EndsBefore(seal, ev, links, lo, hi);
      } else if e.createdAt <= hi {
        EndsInside(seal, ev0, e, links, lo, hi);
      } else {
        WalkEndsAtTip(seal, ev0, links, lo, hi);
        EndsAfter(seal, ev0, e, links, lo, hi);
      }
    }
  }

  lemma {:induction false} RunBounded(ev: seq<AuditEvent>, links: seq<AuditLink>)
    requires Increasing(ev)
    requires SameInstants(ev, links)
    ensures IncreasingLinks(LinkedRun(ev, links))
    ensures forall l | l in LinkedRun(ev, links) :: l.createdAt <= ev[|ev| - 1].createdAt
  {
    if ev != [] {
      RunBounded(ev[..|ev| - 1], links);
      assert ev[|ev| - 1] in ev;
    }
  }

  lemma AlignedAnchor(db: Tables, t: Guid, at: int)
    requires Aligned(db, t)
    ensures Anchor(db.links, t, at) == Tip(Until(LinkedRun(EventsOf(db.events, t), db.links), at))
  {
    var run := LinkedRun(EventsOf(db.events, t), db.links);
    RunBounded(EventsOf(db.events, t), db.links);
    UntilIsPrefix(run, at);
    TipIsHead(Until(run, at));
  }

  /** Without an event at an instant the anchor there is the anchor just before it. */
  lemma AnchorBetween(db: Tables, t: Guid, at: int)
    requires Aligned(db, t) && !EventAt(db, t, at)
    ensures Until(LinkedRun(EventsOf(db.events, t), db.links), at) == Until(LinkedRun(EventsOf(db.events, t), db.links), at - 1)
  {
    var ev := EventsOf(db.events, t);
    forall l | l in LinkedRun(ev, db.links) ensures l.createdAt != at {
      var e := RunMembers(ev, db.links, l);
    }
    SameUntil(LinkedRun(ev, db.links), at);
  }

  lemma {:induction false} SameUntil(ls: seq<AuditLink>, at: int)
    requires forall l | l in ls :: l.createdAt != at
    ensures Until(ls, at) == Until(ls, at - 1)
  {
    if ls != [] {
      SameUntil(ls[..|ls| - 1], at);
      assert ls[|ls| - 1] in ls;
    }
  }

  // ----- Composition -----

  predicate Succeeds(seal: Seal, db: Tables, t: Guid, start: int, end: int) {
    Verify(seal, db, t, start, end).mismatch.None?
  }

  /** The first window's part before the second one starts, walked on the later tables, ends
      at the second window's anchor. */
  lemma FirstPart(seal: Seal, early: Tables, late: Tables, t: Guid, s1: int, e1: int, s2: int)
    requires Extends(early, late) && Aligned(early, t) && Aligned(late, t) && s1 <= s2 <= e1
    requires AddedAfter(early, late, t, s2) && !EventAt(late, t, s2)
    requires Succeeds(seal, early, t, s1, e1)
    ensures Walk(seal, late.links, Within(EventsOf(late.events, t), s1, s2 - 1), Anchor(late.links, t, s1))
         == Walked(Anchor(late.links, t, s2), None)
  {
    var ev1, ev2 := EventsOf(early.events, t), EventsOf(late.events, t);
    var first := Within(ev1, s1, s2 - 1);
    WindowRows(early, t, s1, e1);
    SplitWindow(ev1, s1, s2, e1);
    WalkAppend(seal, early.links, first, Within(ev1, s2, e1), Anchor(early.links, t, s1));
    EarlierRowsKept(early, late, t, s1, s2 - 1, s2);
    EarlierRowsKept(early, late, t, s1, s1, s2);
    WalkWithMoreLinks(seal, early.links, late.links, first, Anchor(late.links, t, s1));
    AlignedAnchor(late, t, s1);
    AlignedAnchor(late, t, s2);
    AnchorBetween(late, t, s2);
    WalkEndsAtTip(seal, ev2, late.links, s1, s2 - 1);
  }

  /** Two overlapping successful windows, the second on grown tables, amount to one successful
      window over both on the grown tables, with the second one's computed hash. */
  lemma WindowsCompose(seal: Seal, early: Tables, late: Tables, t: Guid, s1: int, e1: int, s2: int, e2: int)
    requires Extends(early, late) && Aligned(early, t) && Aligned(late, t)
    requires s1 <= s2 <= e1 <= e2
    requires AddedAfter(early, late, t, s2) && !EventAt(late, t, s2)
    requires Succeeds(seal, early, t, s1, e1) && Succeeds(seal, late, t, s2, e2)
    ensures Verify(seal, late, t, s1, e2) == Verify(seal, late, t, s2, e2)
    ensures Anchor(late.links, t, s1) == Anchor(early.links, t, s1)
  {
    var ev := EventsOf(late.events, t);
    EarlierRowsKept(early, late, t, s1, s1, s2);
    FirstPart(seal, early, late, t, s1, e1, s2);
    WindowRows(late, t, s1, e2);
    WindowRows(late, t, s2, e2);
    SplitWindow(ev, s1, s2, e2);
    WalkAppend(seal, late.links, Within(ev, s1, s2 - 1), Within(ev, s2, e2), Anchor(late.links, t, s1));
  }

  /** A sweep of the background service: the tables it saw and the instant it ran at. */
  datatype Sweep = Sweep(db: Tables, at: int)

  /** Consecutive sweeps see growing tables and lie no further apart than one window; what was
      stored in between is later than the second one's start, on which no event lies. */
  predicate Follows(a: Sweep, b: Sweep, t: Guid, length: int) {
    && a.at <= b.at <= a.at + length
    && Extends(a.db, b.db) && AddedAfter(a.db, b.db, t, b.at - length)
    && !EventAt(b.db, t, b.at - length)
  }

  ghost predicate AllSucceed(seal: Seal, sweeps: seq<Sweep>, t: Guid, length: int) {
    && (forall i | 0 <= i < |sweeps| :: Aligned(sweeps[i].db, t) && Succeeds(seal, sweeps[i].db, t, sweeps[i].at - length, sweeps[i].at))
    && (forall i | 0 < i < |sweeps| :: Follows(sweeps[i - 1], sweeps[i], t, length))
  }

  /** A run of successful sweeps verifies the whole stretch from the first one's start to the
      last one's end, with the last one's computed hash. */
  lemma {:induction false} SweepsCompose(seal: Seal, sweeps: seq<Sweep>, t: Guid, o: Options)
    requires sweeps != [] && AllSucceed(seal, sweeps, t, WindowLength(o))
    ensures var first, last, length := sweeps[0], sweeps[|sweeps| - 1], WindowLength(o);
            && Succeeds(seal, last.db, t, first.at - length, last.at)
            && Verify(seal, last.db, t, first.at - length, last.at) == Verify(seal, last.db, t, last.at - length, last.at)
            && first.at <= last.at
    decreases |sweeps|
  {
    hide Aligned, Extends, AddedAfter, EventAt, Verify, Anchor;
    var n := |sweeps| - 1;
    if n > 0 {
      SweepsCompose(seal, sweeps[..n], t, o);
      var length := WindowLength(o);
      assert Follows(sweeps[n - 1], sweeps[n], t, length);
      WindowsCompose(seal, sweeps[n - 1].db, sweeps[n].db, t, sweeps[0].at - length, sweeps[n - 1].at,
                     sweeps[n].at - length, sweeps[n].at);
    }
  }

  // ----- The service's schedule over one run -----

  /** A sweep that looks at a state of the run at an instant. */
  datatype Visit = Visit(state: nat, at: int)

  function SweepInterval(o: Options): int {
    Max(1, o.sweepHours) * HOUR
  }

  /** The service waits one interval after each sweep; took says how long the sweep and the start
      of the next one took beside that. */
  predicate OnSchedule(o: Options, visits: seq<Visit>, took: seq<int>) {
    && |visits| == |took| + 1
    && forall i | 0 <= i < |took| ::
         && took[i] >= 0 && visits[i].state <= visits[i + 1].state
         && visits[i + 1].at == visits[i].at + took[i] + SweepInterval(o)
  }

  /** No sweep takes longer than its window is longer than the interval. */
  predicate KeepsUp(o: Options, took: seq<int>) {
    forall i | 0 <= i < |took| :: took[i] <= WindowLength(o) - SweepInterval(o)
  }

  /** The window of sweep i + 1 starts no later than sweep i ran. */
  predicate NoGap(o: Options, visits: seq<Visit>, i: nat) {
    i + 1 < |visits| && visits[i + 1].at - WindowLength(o) <= visits[i].at
  }

  /** Sweeps on schedule leave no gap between their windows exactly if the service keeps up; with
      the defaults, one day and five minutes every 24 hours, if no sweep takes over five minutes. */
  lemma NoGapsIfKeepingUp(o: Options, visits: seq<Visit>, took: seq<int>)
    requires OnSchedule(o, visits, took)
    ensures KeepsUp(o, took) <==> forall i: nat | i < |took| :: NoGap(o, visits, i)
    ensures o.sweepHours == 24 && o.windowDays == 1 && o.overlapMinutes == 5
            ==> (KeepsUp(o, took) <==> forall i | 0 <= i < |took| :: took[i] <= 5 * MINUTE)
  {
    forall i | 0 <= i < |took| ensures NoGap(o, visits, i) <==> took[i] <= WindowLength(o) - SweepInterval(o) {
      assert visits[i + 1].at == visits[i].at + took[i] + SweepInterval(o);
    }
  }

  /** What has happened between two sweeps of a run, for the tenant: its new rows are later than
      the second window's start, and none of its events lies on that start. */
  ghost predicate Orderly(trace: seq<State>, a: Visit, b: Visit, t: Guid, length: int)
    requires a.state < |trace| && b.state < |trace|
  {
    && (Extends(trace[a.state].db, trace[b.state].db) ==> AddedAfter(trace[a.state].db, trace[b.state].db, t, b.at - length))
    && !EventAt(trace[b.state].db, t, b.at - length)
  }

  /** The sweeps of one run of emissions: if the service keeps up and every sweep succeeds, the whole
      stretch from the first window's start to the last sweep verifies in the last sweep's state. */
  lemma SweepsOfARun(seal: Seal, trace: seq<State>, steps: seq<Step>, visits: seq<Visit>, took: seq<int>, t: Guid, o: Options)
    requires Run(seal, trace, steps) && OnSchedule(o, visits, took) && KeepsUp(o, took)
    requires forall i | 0 <= i < |visits| :: visits[i].state < |trace|
    requires forall i | 0 <= i < |visits| ::
               Succeeds(seal, trace[visits[i].state].db, t, visits[i].at - WindowLength(o), visits[i].at)
    requires forall i | 0 <= i < |took| :: Orderly(trace, visits[i], visits[i + 1], t, WindowLength(o))
    ensures var first, last, length := visits[0], visits[|took|], WindowLength(o);
            && Succeeds(seal, trace[last.state].db, t, first.at - length, last.at)
            && Verify(seal, trace[last.state].db, t, first.at - length, last.at)
            == Verify(seal, trace[last.state].db, t, last.at - length, last.at)
  {
    hide Run, Aligned, Succeeds, Extends, AddedAfter, EventAt, Verify, WindowLength, SweepInterval;
    var length := WindowLength(o);
    var sweeps := seq(|visits|, i requires 0 <= i < |visits| => Sweep(trace[visits[i].state].db, visits[i].at));
    forall i | 0 <= i < |sweeps| ensures Aligned(sweeps[i].db, t) {
      ReachableIsAligned(seal, trace, steps, visits[i].state, t);
    }
    forall i | 0 < i < |sweeps| ensures Follows(sweeps[i - 1], sweeps[i], t, length) {
      assert Orderly(trace, visits[i - 1], visits[i - 1 + 1], t, length);
      RunExtends(seal, trace, steps, visits[i - 1].state, visits[i].state);
      assert visits[i - 1 + 1].at == visits[i - 1].at + took[i - 1] + SweepInterval(o);
      IntervalPositive(o);
    }
    SweepsCompose(seal, sweeps, t, o);
  }

  lemma IntervalPositive(o: Options)
    ensures SweepInterval(o) > 0
  {
  }

  /** The bound on the spacing matters: an event that a window does not cover, linked or not, does
      not change what verifying the window finds, so sweeps further apart than one window miss
      what happens in between. */
  lemma UncoveredEventGoesUnseen(seal: Seal, db: Tables, t: Guid, e: AuditEvent, o: Options, at: int)
    requires !(at - WindowLength(o) <= e.createdAt <= at)
    ensures Verify(seal, db.(events := db.events + [e]), t, at - WindowLength(o), at) == Verify(seal, db, t, at - WindowLength(o), at)
  {
    hide EventsOf, Within, Walk, Anchor, WindowLength;
    EventsAppended(db.events, e, t);
    WithinOne(EventsOf(db.events, t), e, at - WindowLength(o), at);
  }
}
