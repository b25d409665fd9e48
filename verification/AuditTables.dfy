/** The audit tables, the queries the services run on them, and what one emission and one
    verification compute. */
module AuditTables {
  import opened Common
  import opened Timestamps
  import opened Canonical

  /** Any function into SHA-256 texts; nothing else is assumed of the hash. */
  type HashFn = string -> HashText

  /** The value that seals an event behind a previous hash. */
  type Seal = (AuditEvent, Digest) -> Digest

  /** A hash function and the text of an event that is hashed. */
  datatype Scheme = Scheme(hash: HashFn, text: (AuditEvent, Digest) -> string)

  function SealOf(c: Scheme): Seal {
    (e: AuditEvent, prev: Digest) => Sha256(c.hash(c.text(e, prev)))
  }

  /** What both services hash: the canonical text. */
  function CanonicalScheme(hash: HashFn): Scheme {
    Scheme(hash, (e: AuditEvent, prev: Digest) => Canonicalize(e, prev))
  }

  datatype AuditLink = AuditLink(
    eventId: Guid,
    tenantChainId: Guid,
    previousHash: Digest,
    currentHash: Digest,
    createdAt: Instant)

  datatype Tables = Tables(events: seq<AuditEvent>, links: seq<AuditLink>)

  // ----- Queries -----

  /** Rows of one tenant, in table order. */
  function EventsOf(es: seq<AuditEvent>, tenant: Guid): seq<AuditEvent> {
    if es == [] then []
    else
      var n := |es| - 1;
      EventsOf(es[..n], tenant) + if es[n].tenantId == tenant then [es[n]] else []
  }

  function LinksOf(ls: seq<AuditLink>, tenant: Guid): seq<AuditLink> {
    if ls == [] then []
    else
      var n := |ls| - 1;
      LinksOf(ls[..n], tenant) + if ls[n].tenantChainId == tenant then [ls[n]] else []
  }

  /** Rows with lo <= CreatedAt <= hi. */
  function Within(es: seq<AuditEvent>, lo: int, hi: int): seq<AuditEvent> {
    if es == [] then []
    else
      var n := |es| - 1;
      Within(es[..n], lo, hi) + if lo <= es[n].createdAt <= hi then [es[n]] else []
  }

  /** Links with CreatedAt <= hi. */
  function Until(ls: seq<AuditLink>, hi: int): seq<AuditLink> {
    if ls == [] then []
    else
      var n := |ls| - 1;
      Until(ls[..n], hi) + if ls[n].createdAt <= hi then [ls[n]] else []
  }

  /** OrderByDescending(CreatedAt).FirstOrDefault(). */
  function Latest(ls: seq<AuditLink>): Option<AuditLink> {
    if ls == [] then None
    else
      var best := Latest(ls[..|ls| - 1]);
      var last := ls[|ls| - 1];
      if best.None? || best.value.createdAt < last.createdAt then Some(last) else best
  }

  function HeadHash(ls: seq<AuditLink>): Digest {
    var head := Latest(ls);
    if head.None? then Genesis else head.value.currentHash
  }

  /** FirstOrDefault(h => h.EventId == id). */
  function LinkOf(ls: seq<AuditLink>, id: Guid): (r: Option<AuditLink>)
    ensures r.Some? ==> r.value in ls && r.value.eventId == id
  {
    if ls == [] then None
    else
      var n := |ls| - 1;
      var r := LinkOf(ls[..n], id);
      if r.Some? then r else if ls[n].eventId == id then Some(ls[n]) else None
  }

  /** OrderBy(CreatedAt), a stable sort. */
  function SortByTime(es: seq<AuditEvent>): (r: seq<AuditEvent>)
    ensures multiset(r) == multiset(es)
  {
    if es == [] then []
    else
      var n := |es| - 1;
      assert es == es[..n] + [es[n]];
      InsertByTime(SortByTime(es[..n]), es[n])
  }

  function InsertByTime(es: seq<AuditEvent>, e: AuditEvent): (r: seq<AuditEvent>)
    ensures multiset(r) == multiset(es) + multiset{e}
  {
    var n := |es| - 1;
    if es == [] || es[n].createdAt <= e.createdAt then es + [e]
    else
      assert es == es[..n] + [es[n]];
      InsertByTime(es[..n], e) + [es[n]]
  }

  ghost predicate Sorted(es: seq<AuditEvent>) {
    forall i, j | 0 <= i < j < |es| :: es[i].createdAt <= es[j].createdAt
  }

  lemma SortedSnoc(es: seq<AuditEvent>, e: AuditEvent)
    requires Sorted(es) && forall x | x in es :: x.createdAt <= e.createdAt
    ensures Sorted(es + [e])
  {
  }

  lemma SortedParts(es: seq<AuditEvent>)
    requires Sorted(es) && es != []
    ensures Sorted(es[..|es| - 1]) && forall x | x in es :: x.createdAt <= es[|es| - 1].createdAt
  {
  }

  lemma InsertedMember(es: seq<AuditEvent>, e: AuditEvent, x: AuditEvent)
    requires x in InsertByTime(es, e)
    ensures x in es || x == e
  {
    assert x in multiset(InsertByTime(es, e));
  }

  lemma {:induction false} InsertSorted(es: seq<AuditEvent>, e: AuditEvent)
    requires Sorted(es)
    ensures Sorted(InsertByTime(es, e))
  {
    var n := |es| - 1;
    if es != [] {
      SortedParts(es);
    }
    if es == [] || es[n].createdAt <= e.createdAt {
      hide Sorted;
      SortedSnoc(es, e);
    } else {
      InsertSorted(es[..n], e);
      forall x | x in InsertByTime(es[..n], e) ensures x.createdAt <= es[n].createdAt {
        InsertedMember(es[..n], e, x);
      }
      hide Sorted;
      SortedSnoc(InsertByTime(es[..n], e), es[n]);
    }
  }

  lemma {:induction false} SortByTimeSorts(es: seq<AuditEvent>)
    ensures Sorted(SortByTime(es))
  {
    if es != [] {
      SortByTimeSorts(es[..|es| - 1]);
      InsertSorted(SortByTime(es[..|es| - 1]), es[|es| - 1]);
    }
  }

  // ----- Emission -----

  datatype Descriptor = Descriptor(
    category: string,
    action: string,
    entityType: string,
    entityId: string,
    tenant: string,
    createdAt: Instant,
    jti: Option<string>,
    metadata: Option<string>)

  function EventFor(evt: Descriptor, tenant: Guid, id: Guid): AuditEvent {
    AuditEvent(id, tenant, evt.category, evt.action, evt.entityType, evt.entityId, None, evt.createdAt,
               None, None, evt.jti, evt.metadata)
  }

  /** The link that a new event gets when the given links are in the table. */
  function LinkFor(seal: Seal, links: seq<AuditLink>, e: AuditEvent): AuditLink {
    var previous := HeadHash(LinksOf(links, e.tenantId));
    AuditLink(e.id, e.tenantId, previous, seal(e, previous), e.createdAt)
  }

  // ----- Verification -----

  datatype Walked = Walked(hash: Digest, mismatch: Option<Guid>)

  /** Re-hashes the rows one after the other, starting from the given hash, and stops at the
      first row whose stored link is missing or differs. */
  function Walk(seal: Seal, links: seq<AuditLink>, rows: seq<AuditEvent>, from: Digest): Walked {
    if rows == [] then Walked(from, None)
    else
      var expected := seal(rows[0], from);
      var link := LinkOf(links, rows[0].id);
      if link.None? || link.value.currentHash != expected then Walked(expected, Some(rows[0].id))
      else Walk(seal, links, rows[1..], expected)
  }

  function Anchor(links: seq<AuditLink>, tenant: Guid, start: int): Digest {
    HeadHash(Until(LinksOf(links, tenant), start))
  }

  function Rows(events: seq<AuditEvent>, tenant: Guid, start: int, end: int): seq<AuditEvent> {
    SortByTime(Within(EventsOf(events, tenant), start, end))
  }

  /** What one verification of a known tenant's window finds. */
  function Verify(seal: Seal, db: Tables, tenant: Guid, start: int, end: int): Walked {
    Walk(seal, db.links, Rows(db.events, tenant, start, end), Anchor(db.links, tenant, start))
  }

  // ----- Facts about the queries -----

  lemma {:induction false} EventsOfMembers(es: seq<AuditEvent>, tenant: Guid)
    ensures forall e :: e in EventsOf(es, tenant) <==> e in es && e.tenantId == tenant
  {
    if es != [] {
      var n := |es| - 1;
      EventsOfMembers(es[..n], tenant);
      assert es == es[..n] + [es[n]];
    }
  }

  lemma {:induction false} LinksOfMembers(ls: seq<AuditLink>, tenant: Guid)
    ensures forall l :: l in LinksOf(ls, tenant) <==> l in ls && l.tenantChainId == tenant
  {
    if ls != [] {
      var n := |ls| - 1;
      LinksOfMembers(ls[..n], tenant);
      assert ls == ls[..n] + [ls[n]];
    }
  }

  lemma {:induction false} WithinMembers(es: seq<AuditEvent>, lo: int, hi: int)
    ensures forall e :: e in Within(es, lo, hi) <==> e in es && lo <= e.createdAt <= hi
  {
    if es != [] {
      var n := |es| - 1;
      WithinMembers(es[..n], lo, hi);
      assert es == es[..n] + [es[n]];
    }
  }

  lemma Appended(events: seq<AuditEvent>, e: AuditEvent, links: seq<AuditLink>, l: AuditLink, tenant: Guid, id: Guid)
    ensures EventsOf(events + [e], tenant)
         == if e.tenantId == tenant then EventsOf(events, tenant) + [e] else EventsOf(events, tenant)
    ensures LinksOf(links + [l], tenant)
         == if l.tenantChainId == tenant then LinksOf(links, tenant) + [l] else LinksOf(links, tenant)
    ensures LinkOf(links + [l], id) == if LinkOf(links, id).Some? then LinkOf(links, id)
                                       else if l.eventId == id then Some(l) else None
  {
    assert (events + [e])[..|events|] == events;
    assert (links + [l])[..|links|] == links;
  }

  lemma {:induction false} LinkOfMissing(ls: seq<AuditLink>, id: Guid)
    ensures LinkOf(ls, id).None? <==> forall l | l in ls :: l.eventId != id
  {
    if ls != [] {
      var n := |ls| - 1;
      LinkOfMissing(ls[..n], id);
      assert ls == ls[..n] + [ls[n]];
    }
  }

  predicate Increasing(es: seq<AuditEvent>) {
    forall i, j | 0 <= i < j < |es| :: es[i].createdAt < es[j].createdAt
  }

  predicate IncreasingLinks(ls: seq<AuditLink>) {
    forall i, j | 0 <= i < j < |ls| :: ls[i].createdAt < ls[j].createdAt
  }

  lemma IncreasingParts(es: seq<AuditEvent>)
    requires Increasing(es) && es != []
    ensures Increasing(es[..|es| - 1])
    ensures |es| > 1 ==> es[|es| - 2].createdAt <= es[|es| - 1].createdAt
  {
  }

  lemma {:induction false} SortedAlready(es: seq<AuditEvent>)
    requires Increasing(es)
    ensures SortByTime(es) == es
  {
    if es != [] {
      var n := |es| - 1;
      IncreasingParts(es);
      SortedAlready(es[..n]);
      InsertLast(es[..n], es[n]);
      hide Increasing, InsertByTime;
      assert es == es[..n] + [es[n]];
    }
  }

  lemma InsertLast(es: seq<AuditEvent>, e: AuditEvent)
    requires es == [] || es[|es| - 1].createdAt <= e.createdAt
    ensures InsertByTime(es, e) == es + [e]
  {
  }

  lemma {:induction false} WithinIncreasing(es: seq<AuditEvent>, lo: int, hi: int)
    requires Increasing(es)
    ensures Increasing(Within(es, lo, hi))
  {
    if es != [] {
      var n := |es| - 1;
      WithinIncreasing(es[..n], lo, hi);
      WithinMembers(es[..n], lo, hi);
      assert forall e | e in Within(es[..n], lo, hi) :: e.createdAt < es[n].createdAt;
    }
  }

  lemma {:induction false} LatestIsLast(ls: seq<AuditLink>)
    requires IncreasingLinks(ls)
    ensures Latest(ls) == if ls == [] then None else Some(ls[|ls| - 1])
  {
    if ls != [] {
      LatestIsLast(ls[..|ls| - 1]);
    }
  }

  lemma {:induction false} UntilAll(ls: seq<AuditLink>, hi: int)
    requires forall l | l in ls :: l.createdAt <= hi
    ensures Until(ls, hi) == ls
  {
    if ls != [] {
      UntilAll(ls[..|ls| - 1], hi);
      assert ls == ls[..|ls| - 1] + [ls[|ls| - 1]];
    }
  }

  lemma IncreasingLinksParts(ls: seq<AuditLink>)
    requires IncreasingLinks(ls) && ls != []
    ensures IncreasingLinks(ls[..|ls| - 1]) && forall l | l in ls :: l.createdAt <= ls[|ls| - 1].createdAt
  {
  }

  predicate LaterFrom(ls: seq<AuditLink>, from: nat, hi: int) {
    forall i | from <= i < |ls| :: hi < ls[i].createdAt
  }

  /** On increasing links the links up to an instant are a prefix. */
  lemma {:induction false} UntilIsPrefix(ls: seq<AuditLink>, hi: int)
    requires IncreasingLinks(ls)
    ensures var u := Until(ls, hi); |u| <= |ls| && u == ls[..|u|] && LaterFrom(ls, |u|, hi)
  {
    if ls != [] {
      var n := |ls| - 1;
      IncreasingLinksParts(ls);
      if ls[n].createdAt <= hi {
        UntilAll(ls, hi);
      } else {
        UntilIsPrefix(ls[..n], hi);
        var u := Until(ls[..n], hi);
        assert Until(ls, hi) == u;
        LaterSnoc(ls, |u|, hi);
      }
    }
  }

  lemma LaterSnoc(ls: seq<AuditLink>, from: nat, hi: int)
    requires ls != [] && from < |ls| && LaterFrom(ls[..|ls| - 1], from, hi) && hi < ls[|ls| - 1].createdAt
    ensures LaterFrom(ls, from, hi) && ls[..|ls| - 1][..from] == ls[..from]
  {
    forall i | from <= i < |ls| ensures hi < ls[i].createdAt {
      assert i < |ls| - 1 ==> ls[..|ls| - 1][i] == ls[i];
    }
  }

  /** Walking two stretches of rows is walking the first and, if that succeeds, the second. */
  lemma {:induction false} WalkAppend(seal: Seal, links: seq<AuditLink>, a: seq<AuditEvent>, b: seq<AuditEvent>, from: Digest)
    ensures Walk(seal, links, a + b, from)
         == var w := Walk(seal, links, a, from); if w.mismatch.Some? then w else Walk(seal, links, b, w.hash)
    decreases |a|
  {
    if a == [] {
      assert a + b == b;
    } else {
      assert (a + b)[1..] == a[1..] + b;
      WalkAppend(seal, links, a[1..], b, seal(a[0], from));
    }
  }

  /** A row is verified from a hash when its stored link holds the re-computed value. */
  predicate Matches(seal: Seal, links: seq<AuditLink>, e: AuditEvent, from: Digest) {
    var l := LinkOf(links, e.id);
    l.Some? && l.value.currentHash == seal(e, from)
  }

  lemma WalkSnoc(seal: Seal, links: seq<AuditLink>, rows: seq<AuditEvent>, e: AuditEvent, from: Digest)
    ensures Walk(seal, links, rows + [e], from)
         == var w := Walk(seal, links, rows, from);
            if w.mismatch.Some? then w
            else Walked(seal(e, w.hash), if Matches(seal, links, e, w.hash) then None else Some(e.id))
  {
    WalkAppend(seal, links, rows, [e], from);
    WalkOne(seal, links, e, Walk(seal, links, rows, from).hash);
  }

  lemma WalkOne(seal: Seal, links: seq<AuditLink>, e: AuditEvent, from: Digest)
    ensures Walk(seal, links, [e], from)
         == Walked(seal(e, from), if Matches(seal, links, e, from) then None else Some(e.id))
  {
    assert [e][1..] == [];
  }
}
