/** The shape of the per-tenant hash chains, and what a verification finds on such tables. */
module AuditChain {
  import opened Common
  import opened Canonical
  import opened AuditTables

  // ----- Chains -----

  function EventOf(es: seq<AuditEvent>, id: Guid): (r: Option<AuditEvent>)
    ensures r.Some? ==> r.value in es && r.value.id == id
  {
    if es == [] then None
    else
      var n := |es| - 1;
      var r := EventOf(es[..n], id);
      if r.Some? then r else if es[n].id == id then Some(es[n]) else None
  }

  /** The links of those events that have one, in event order. */
  function LinkedRun(ev: seq<AuditEvent>, links: seq<AuditLink>): seq<AuditLink> {
    if ev == [] then []
    else
      var l := LinkOf(links, ev[|ev| - 1].id);
      LinkedRun(ev[..|ev| - 1], links) + if l.Some? then [l.value] else []
  }

  /** The hash that stands before position i of a chain. */
  function HashBefore(chain: seq<AuditLink>, i: nat): Digest
    requires i <= |chain|
  {
    if i == 0 then Genesis else chain[i - 1].currentHash
  }

  function Tip(chain: seq<AuditLink>): Digest {
    HashBefore(chain, |chain|)
  }

  /** Each link names its predecessor's hash, the first one the genesis value. */
  predicate Linear(chain: seq<AuditLink>) {
    chain == []
    || (var n := |chain| - 1; Linear(chain[..n]) && chain[n].previousHash == Tip(chain[..n]))
  }

  lemma {:induction false} LinearAt(chain: seq<AuditLink>, i: nat)
    requires Linear(chain) && i < |chain|
    ensures chain[i].previousHash == HashBefore(chain, i)
  {
    var n := |chain| - 1;
    if i < n {
      LinearAt(chain[..n], i);
    }
  }

  /** The link belongs to a stored event of its tenant and instant and holds that event's hash. */
  predicate Attested(seal: Seal, events: seq<AuditEvent>, l: AuditLink) {
    var e := EventOf(events, l.eventId);
    && e.Some? && e.value.tenantId == l.tenantChainId && e.value.createdAt == l.createdAt
    && l.currentHash == seal(e.value, l.previousHash)
  }

  predicate IdsDetermine(events: seq<AuditEvent>) {
    forall e, f | e in events && f in events && e.id == f.id :: e == f
  }

  /** The tenant's events carry strictly increasing instants, and its links are one linear
      chain through exactly its linked events, in their order. */
  predicate TenantChain(db: Tables, tenant: Guid) {
    && Increasing(EventsOf(db.events, tenant))
    && LinkedRun(EventsOf(db.events, tenant), db.links) == LinksOf(db.links, tenant)
    && Linear(LinksOf(db.links, tenant))
  }

  ghost predicate Intact(seal: Seal, db: Tables) {
    && IdsDetermine(db.events)
    && (forall l | l in db.links :: Attested(seal, db.events, l))
    && (forall tenant: Guid :: TenantChain(db, tenant))
  }

  // ----- Collisions -----

  predicate Apart(hash: HashFn, x: string, y: string) {
    hash(x) == hash(y) ==> x == y
  }

  /** The hash separates the given texts. Which texts a theorem needs separated is part of it. */
  ghost predicate Separates(hash: HashFn, texts: set<string>) {
    forall x, y {:trigger Apart(hash, x, y)} | x in texts && y in texts :: Apart(hash, x, y)
  }

  /** The texts behind the stored links. */
  ghost function Emitted(c: Scheme, events: seq<AuditEvent>, links: seq<AuditLink>): set<string> {
    if links == [] then {}
    else
      var l := links[|links| - 1];
      var e := EventOf(events, l.eventId);
      Emitted(c, events, links[..|links| - 1]) + if e.Some? then {c.text(e.value, l.previousHash)} else {}
  }

  lemma {:induction false} EmittedMember(c: Scheme, events: seq<AuditEvent>, links: seq<AuditLink>, l: AuditLink)
    requires l in links && EventOf(events, l.eventId).Some?
    ensures c.text(EventOf(events, l.eventId).value, l.previousHash) in Emitted(c, events, links)
  {
    var n := |links| - 1;
    if l != links[n] {
      assert l in links[..n];
      EmittedMember(c, events, links[..n], l);
    }
  }

  /** The texts that a verification hashes. */
  ghost function Rehashed(c: Scheme, rows: seq<AuditEvent>, from: Digest): set<string> {
    if rows == [] then {}
    else {c.text(rows[0], from)} + Rehashed(c, rows[1..], SealOf(c)(rows[0], from))
  }

  // ----- Links and their events -----

  /** The stored link of e holds e's instant and e's hash. */
  predicate Faithful(seal: Seal, links: seq<AuditLink>, e: AuditEvent) {
    var l := LinkOf(links, e.id);
    l.Some? ==> && l.value.tenantChainId == e.tenantId && l.value.createdAt == e.createdAt
                && l.value.currentHash == seal(e, l.value.previousHash)
  }

  lemma IntactIsFaithful(seal: Seal, db: Tables, e: AuditEvent)
    requires Intact(seal, db) && e in db.events
    ensures Faithful(seal, db.links, e)
  {
    var l := LinkOf(db.links, e.id);
    if l.Some? {
      assert Attested(seal, db.events, l.value);
    }
  }

  lemma {:induction false} RunMembers(ev: seq<AuditEvent>, links: seq<AuditLink>, l: AuditLink) returns (e: AuditEvent)
    requires l in LinkedRun(ev, links)
    ensures e in ev && LinkOf(links, e.id) == Some(l)
  {
    var n := |ev| - 1;
    if LinkOf(links, ev[n].id) == Some(l) {
      e := ev[n];
    } else {
      e := RunMembers(ev[..n], links, l);
    }
  }

  lemma {:induction false} RunIncreasing(seal: Seal, ev: seq<AuditEvent>, links: seq<AuditLink>)
    requires Increasing(ev) && forall e | e in ev :: Faithful(seal, links, e)
    ensures IncreasingLinks(LinkedRun(ev, links))
    ensures forall l | l in LinkedRun(ev, links) :: l.createdAt <= ev[|ev| - 1].createdAt
  {
    if ev != [] {
      var n := |ev| - 1;
      RunIncreasing(seal, ev[..n], links);
      assert ev[n] in ev;
    }
  }

  lemma UntilSnoc(ls: seq<AuditLink>, l: AuditLink, hi: int)
    ensures Until(ls + [l], hi) == if l.createdAt <= hi then Until(ls, hi) + [l] else Until(ls, hi)
  {
    assert (ls + [l])[..|ls|] == ls;
  }

  lemma WithinNone(es: seq<AuditEvent>, lo: int, hi: int)
    requires forall e | e in es :: e.createdAt < lo || hi < e.createdAt
    ensures Within(es, lo, hi) == []
  {
    if es != [] {
      WithinNone(es[..|es| - 1], lo, hi);
    }
  }

  lemma TipIsHead(ls: seq<AuditLink>)
    requires IncreasingLinks(ls)
    ensures HeadHash(ls) == Tip(ls)
  {
    LatestIsLast(ls);
  }

  // ----- Walking a window -----

  function FirstUnlinked(rows: seq<AuditEvent>, links: seq<AuditLink>): (r: Option<AuditEvent>)
    ensures r.Some? ==> r.value in rows && LinkOf(links, r.value.id).None?
  {
    if rows == [] then None
    else
      var n := |rows| - 1;
      var r := FirstUnlinked(rows[..n], links);
      if r.Some? then r else if LinkOf(links, rows[n].id).None? then Some(rows[n]) else None
  }

  lemma {:induction false} FirstUnlinkedNone(rows: seq<AuditEvent>, links: seq<AuditLink>)
    ensures FirstUnlinked(rows, links).None? <==> forall e | e in rows :: LinkOf(links, e.id).Some?
  {
    if rows != [] {
      var n := |rows| - 1;
      FirstUnlinkedNone(rows[..n], links);
      assert rows == rows[..n] + [rows[n]];
    }
  }

  /** What the walk of a window yields when no event lies exactly on its start. */
  predicate WalksTo(w: Walked, rows: seq<AuditEvent>, links: seq<AuditLink>, end: Digest) {
    var u := FirstUnlinked(rows, links);
    if u.None? then w == Walked(end, None) else w.mismatch == Some(u.value.id)
  }

  /** The links of ev up to an instant, and the window's walk, as the last event is added. */
  predicate WindowOk(seal: Seal, ev: seq<AuditEvent>, links: seq<AuditLink>, lo: int, hi: int) {
    var run := LinkedRun(ev, links);
    var rows := Within(ev, lo, hi);
    WalksTo(Walk(seal, links, rows, Tip(Until(run, lo))), rows, links, Tip(Until(run, hi)))
  }

  lemma StepBefore(seal: Seal, ev: seq<AuditEvent>, links: seq<AuditLink>, lo: int, hi: int)
    requires lo <= hi && forall e | e in ev :: e.createdAt < lo
    requires forall l | l in LinkedRun(ev, links) :: l.createdAt < lo
    ensures WindowOk(seal, ev, links, lo, hi)
  {
    WithinNone(ev, lo, hi);
    UntilAll(LinkedRun(ev, links), lo);
    UntilAll(LinkedRun(ev, links), hi);
  }

  lemma AppendEvent(ev0: seq<AuditEvent>, e: AuditEvent, links: seq<AuditLink>, lo: int, hi: int)
    ensures LinkedRun(ev0 + [e], links)
         == if LinkOf(links, e.id).Some? then LinkedRun(ev0, links) + [LinkOf(links, e.id).value] else LinkedRun(ev0, links)
    ensures Within(ev0 + [e], lo, hi) == if lo <= e.createdAt <= hi then Within(ev0, lo, hi) + [e] else Within(ev0, lo, hi)
  {
    assert (ev0 + [e])[..|ev0|] == ev0;
  }

  lemma StepAfter(seal: Seal, ev0: seq<AuditEvent>, e: AuditEvent, links: seq<AuditLink>, lo: int, hi: int)
    requires lo <= hi < e.createdAt && Faithful(seal, links, e)
    requires WindowOk(seal, ev0, links, lo, hi)
    ensures WindowOk(seal, ev0 + [e], links, lo, hi)
  {
    var l, run0, run := LinkOf(links, e.id), LinkedRun(ev0, links), LinkedRun(ev0 + [e], links);
    AppendEvent(ev0, e, links, lo, hi);
    assert Until(run, lo) == Until(run0, lo) && Until(run, hi) == Until(run0, hi) by {
      if l.Some? {
        UntilSnoc(run0, l.value, lo);
        UntilSnoc(run0, l.value, hi);
      }
    }
    assert Within(ev0 + [e], lo, hi) == Within(ev0, lo, hi);
  }

  lemma StepInside(seal: Seal, ev0: seq<AuditEvent>, e: AuditEvent, links: seq<AuditLink>, lo: int, hi: int)
    requires lo < e.createdAt <= hi && Faithful(seal, links, e)
    requires forall l | l in LinkedRun(ev0, links) :: l.createdAt <= hi
    requires Linear(LinkedRun(ev0 + [e], links))
    requires WindowOk(seal, ev0, links, lo, hi)
    ensures WindowOk(seal, ev0 + [e], links, lo, hi)
  {
    var l, run0, run := LinkOf(links, e.id), LinkedRun(ev0, links), LinkedRun(ev0 + [e], links);
    var rows0 := Within(ev0, lo, hi);
    AppendEvent(ev0, e, links, lo, hi);
    assert Until(run0, hi) == run0 by { UntilAll(run0, hi); }
    assert Until(run, lo) == Until(run0, lo) && Until(run, hi) == run by {
      if l.Some? {
        UntilSnoc(run0, l.value, lo);
        UntilSnoc(run0, l.value, hi);
      }
    }
    WalkSnoc(seal, links, rows0, e, Tip(Until(run0, lo)));
    assert FirstUnlinked(rows0 + [e], links)
        == if FirstUnlinked(rows0, links).Some? then FirstUnlinked(rows0, links) else if l.None? then Some(e) else None by {
      assert (rows0 + [e])[..|rows0|] == rows0;
    }
    if l.Some? {
      assert run[..|run0|] == run0;
    }
  }

  /** Without an event exactly on its start, a window walks from its anchor to the last link
      inside it, unless some row has no link, in which case it stops at the first such row. */
  lemma {:induction false} WindowWalk(seal: Seal, ev: seq<AuditEvent>, links: seq<AuditLink>, lo: int, hi: int)
    requires Increasing(ev) && lo <= hi && Linear(LinkedRun(ev, links))
    requires forall e | e in ev :: Faithful(seal, links, e) && e.createdAt != lo
    ensures WindowOk(seal, ev, links, lo, hi)
    decreases |ev|
  {
    hide Linear, Within, WindowOk, Walk, LinkedRun, Faithful;
    if ev == [] {
      EmptyRun(links);
      StepBefore(seal, ev, links, lo, hi);
    } else {
      var n := |ev| - 1;
      var ev0, e := ev[..n], ev[n];
      EarlierEvents(ev);
      LinearPrefix(ev, links);
      WindowWalk(seal, ev0, links, lo, hi);
      RunIncreasing(seal, ev, links);
      RunIncreasing(seal, ev0, links);
      assert e in ev && ev == ev0 + [e];
      if e.createdAt < lo {
        StepBefore(seal, ev, links, lo, hi);
      } else if e.createdAt <= hi {
        if ev0 == [] { EmptyRun(links); } else { assert ev0[n - 1] in ev0; }
        StepInside(seal, ev0, e, links, lo, hi);
      } else {
        StepAfter(seal, ev0, e, links, lo, hi);
      }
    }
  }

  lemma EmptyRun(links: seq<AuditLink>)
    ensures LinkedRun([], links) == []
  {
  }

  lemma EarlierEvents(ev: seq<AuditEvent>)
    requires ev != [] && Increasing(ev)
    ensures Increasing(ev[..|ev| - 1])
    ensures forall x | x in ev[..|ev| - 1] :: x in ev && x.createdAt < ev[|ev| - 1].createdAt
    ensures forall x | x in ev :: x.createdAt <= ev[|ev| - 1].createdAt
  {
  }

  lemma LinearPrefix(ev: seq<AuditEvent>, links: seq<AuditLink>)
    requires ev != [] && Linear(LinkedRun(ev, links))
    ensures Linear(LinkedRun(ev[..|ev| - 1], links))
  {
    var run, run0 := LinkedRun(ev, links), LinkedRun(ev[..|ev| - 1], links);
    assert run == run0 || run[..|run| - 1] == run0;
  }
}
