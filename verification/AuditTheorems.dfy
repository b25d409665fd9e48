/** What verification proves about a tenant's history: the chains are linear with distinct
    hashes, an untouched history verifies exactly when it should, and a verified history is
    the one that was emitted. */
module AuditTheorems {
  import opened Common
  import opened Timestamps
  import opened Canonical
  import opened AuditTables
  import opened AuditChain
  import opened AuditRuns

  // ----- What the theorems assume of the hashed text -----

  /** Equal texts carry equal previous hashes and equal tenants. */
  predicate SameHead(c: Scheme, e: AuditEvent, p: Digest, f: AuditEvent, q: Digest) {
    c.text(e, p) == c.text(f, q) ==> p == q && e.tenantId == f.tenantId
  }

  ghost predicate HeadRecoverable(c: Scheme) {
    forall e, p, f, q :: SameHead(c, e, p, f, q)
  }

  /** The canonical text meets it without any restriction on the events. */
  lemma CanonicalHeadRecoverable(hash: HashFn)
    ensures HeadRecoverable(CanonicalScheme(hash))
  {
    forall e, p, f, q ensures SameHead(CanonicalScheme(hash), e, p, f, q) {
      if Canonicalize(e, p) == Canonicalize(f, q) {
        CanonicalHead(e, p, f, q);
      }
    }
  }

  /** An intact history whose hashed texts the hash separates. */
  ghost predicate Sound(c: Scheme, db: Tables) {
    Intact(SealOf(c), db) && HeadRecoverable(c) && Separates(c.hash, Emitted(c, db.events, db.links))
  }

  lemma SoundIsIntact(c: Scheme, db: Tables)
    requires Sound(c, db)
    ensures Intact(SealOf(c), db)
  {
  }

  // ----- Stored links -----

  function Chain(db: Tables, t: Guid): seq<AuditLink> {
    LinksOf(db.links, t)
  }

  lemma LinkText(c: Scheme, db: Tables, l: AuditLink) returns (e: AuditEvent)
    requires Intact(SealOf(c), db) && l in db.links
    ensures e in db.events && e.id == l.eventId && e.tenantId == l.tenantChainId && e.createdAt == l.createdAt
    ensures l.currentHash == SealOf(c)(e, l.previousHash) && c.text(e, l.previousHash) in Emitted(c, db.events, db.links)
  {
    assert Attested(SealOf(c), db.events, l);
    e := EventOf(db.events, l.eventId).value;
    EmittedMember(c, db.events, db.links, l);
  }

  lemma ChainLink(c: Scheme, db: Tables, t: Guid, i: nat) returns (e: AuditEvent)
    requires Intact(SealOf(c), db) && i < |Chain(db, t)|
    ensures var l := Chain(db, t)[i];
            && l in db.links && l.previousHash == HashBefore(Chain(db, t), i)
            && e in db.events && e.id == l.eventId && e.tenantId == l.tenantChainId == t && e.createdAt == l.createdAt
            && l.currentHash == SealOf(c)(e, l.previousHash) && c.text(e, l.previousHash) in Emitted(c, db.events, db.links)
  {
    LinksOfMembers(db.links, t);
    assert Chain(db, t)[i] in Chain(db, t);
    assert TenantChain(db, t);
    LinearAt(Chain(db, t), i);
    e := LinkText(c, db, Chain(db, t)[i]);
  }

  lemma LinkPosition(c: Scheme, db: Tables, l: AuditLink) returns (i: nat)
    requires Intact(SealOf(c), db) && l in db.links
    ensures i < |Chain(db, l.tenantChainId)| && Chain(db, l.tenantChainId)[i] == l
  {
    LinksOfMembers(db.links, l.tenantChainId);
    i :| 0 <= i < |Chain(db, l.tenantChainId)| && Chain(db, l.tenantChainId)[i] == l;
  }

  /** Only the start of a chain has the genesis value before it. */
  lemma GenesisFirst(c: Scheme, db: Tables, t: Guid, i: nat)
    requires Intact(SealOf(c), db) && i <= |Chain(db, t)|
    ensures HashBefore(Chain(db, t), i) == Genesis <==> i == 0
  {
    if i > 0 {
      var e := ChainLink(c, db, t, i - 1);
    }
  }

  /** Equal hashes in one tenant's chain come from equal previous hashes. */
  lemma EqualHashesStepBack(c: Scheme, db: Tables, t: Guid, i: nat, j: nat)
    requires Sound(c, db) && i < |Chain(db, t)| && j < |Chain(db, t)|
    requires Chain(db, t)[i].currentHash == Chain(db, t)[j].currentHash
    ensures HashBefore(Chain(db, t), i) == HashBefore(Chain(db, t), j)
  {
    var e := ChainLink(c, db, t, i);
    var f := ChainLink(c, db, t, j);
    GenesisFirst(c, db, t, i);
    GenesisFirst(c, db, t, j);
    assert Apart(c.hash, c.text(e, HashBefore(Chain(db, t), i)), c.text(f, HashBefore(Chain(db, t), j)));
    assert SameHead(c, e, HashBefore(Chain(db, t), i), f, HashBefore(Chain(db, t), j));
  }

  /** The hash before a position identifies the position. */
  lemma {:induction false} SamePosition(c: Scheme, db: Tables, t: Guid, i: nat, j: nat)
    requires Sound(c, db) && i <= |Chain(db, t)| && j <= |Chain(db, t)|
    requires HashBefore(Chain(db, t), i) == HashBefore(Chain(db, t), j)
    ensures i == j
    decreases i
  {
    hide Sound, LinksOf;
    assert Intact(SealOf(c), db) by { SoundIsIntact(c, db); }
    GenesisFirst(c, db, t, i);
    GenesisFirst(c, db, t, j);
    if i > 0 {
      EqualHashesStepBack(c, db, t, i - 1, j - 1);
      SamePosition(c, db, t, i - 1, j - 1);
    }
  }

  lemma HashesDiffer(c: Scheme, db: Tables, t: Guid, i: nat, j: nat)
    requires Sound(c, db) && i < j < |Chain(db, t)|
    ensures Chain(db, t)[i].currentHash != Chain(db, t)[j].currentHash
  {
    hide Sound, LinksOf;
    if Chain(db, t)[i].currentHash == Chain(db, t)[j].currentHash {
      SamePosition(c, db, t, i + 1, j + 1);
    }
  }

  /** In every reachable state each tenant's links are one genesis-rooted chain, each link
      holding the hash of its own event behind its predecessor, no two hashes alike. */
  lemma ChainsAreLinear(c: Scheme, trace: seq<State>, steps: seq<Step>, n: nat, t: Guid)
    requires Run(SealOf(c), trace, steps) && n < |trace|
    requires HeadRecoverable(c) && Separates(c.hash, Emitted(c, trace[n].db.events, trace[n].db.links))
    ensures var chain := Chain(trace[n].db, t);
            && Linear(chain)
            && (forall i | 0 <= i < |chain| :: Attested(SealOf(c), trace[n].db.events, chain[i]))
            && (forall i, j | 0 <= i < j < |chain| :: chain[i].currentHash != chain[j].currentHash)
  {
    var db := trace[n].db;
    var chain := Chain(db, t);
    RunIsIntact(SealOf(c), trace, steps, n);
    assert TenantChain(db, t);
    forall i, j | 0 <= i < j < |chain| ensures chain[i].currentHash != chain[j].currentHash {
      HashesDiffer(c, db, t, i, j);
    }
    LinksOfMembers(db.links, t);
    forall i | 0 <= i < |chain| ensures Attested(SealOf(c), db.events, chain[i]) {
      assert chain[i] in chain;
    }
  }

  // ----- Completeness on an untouched history -----

  lemma AnchorIsTip(seal: Seal, db: Tables, t: Guid, at: int)
    requires Intact(seal, db)
    ensures Anchor(db.links, t, at) == Tip(Until(Chain(db, t), at))
    ensures IncreasingLinks(Chain(db, t))
  {
    var chain := Chain(db, t);
    ChainHead(seal, db, t);
    UntilIsPrefix(chain, at);
    TipIsHead(Until(chain, at));
  }

  predicate EventAt(db: Tables, t: Guid, at: int) {
    exists e :: e in EventsOf(db.events, t) && e.createdAt == at
  }

  lemma WindowRows(db: Tables, t: Guid, start: int, end: int)
    requires Increasing(EventsOf(db.events, t))
    ensures Rows(db.events, t, start, end) == Within(EventsOf(db.events, t), start, end)
    ensures Increasing(Rows(db.events, t, start, end))
  {
    WithinIncreasing(EventsOf(db.events, t), start, end);
    SortedAlready(Within(EventsOf(db.events, t), start, end));
  }

  /** No event on the start: success exactly when every row is linked, ending at the last link
      up to the window's end; otherwise the first unlinked row is reported. */
  lemma CleanStart(seal: Seal, db: Tables, t: Guid, start: int, end: int)
    requires Intact(seal, db) && start <= end && !EventAt(db, t, start)
    ensures WalksTo(Verify(seal, db, t, start, end), Rows(db.events, t, start, end), db.links, Anchor(db.links, t, end))
  {
    var ev := EventsOf(db.events, t);
    assert TenantChain(db, t);
    EventsOfMembers(db.events, t);
    forall e | e in ev ensures Faithful(seal, db.links, e) && e.createdAt != start {
      IntactIsFaithful(seal, db, e);
    }
    WindowWalk(seal, ev, db.links, start, end);
    WindowRows(db, t, start, end);
    AnchorIsTip(seal, db, t, start);
    AnchorIsTip(seal, db, t, end);
  }

  lemma FirstRowAtStart(db: Tables, t: Guid, start: int, end: int, e: AuditEvent)
    requires TenantChain(db, t) && start <= end && e in EventsOf(db.events, t) && e.createdAt == start
    ensures var rows := Rows(db.events, t, start, end); rows != [] && rows[0] == e
  {
    var rows := Rows(db.events, t, start, end);
    WindowRows(db, t, start, end);
    WithinMembers(EventsOf(db.events, t), start, end);
    assert e in rows;
    assert rows[0] in rows;
  }

  lemma {:induction false} UntilMembers(ls: seq<AuditLink>, hi: int)
    ensures forall l :: l in Until(ls, hi) <==> l in ls && l.createdAt <= hi
  {
    if ls != [] {
      var n := |ls| - 1;
      UntilMembers(ls[..n], hi);
      assert ls == ls[..n] + [ls[n]];
    }
  }

  /** A linked event on the start is its own anchor. */
  lemma AnchorAtStart(c: Scheme, db: Tables, t: Guid, start: int, e: AuditEvent) returns (i: nat)
    requires Intact(SealOf(c), db) && e in db.events && e.tenantId == t && e.createdAt == start
    requires LinkOf(db.links, e.id).Some?
    ensures i < |Chain(db, t)| && Chain(db, t)[i] == LinkOf(db.links, e.id).value
    ensures Anchor(db.links, t, start) == HashBefore(Chain(db, t), i + 1)
  {
    var chain, l := Chain(db, t), LinkOf(db.links, e.id).value;
    IntactIsFaithful(SealOf(c), db, e);
    i := LinkPosition(c, db, l);
    AnchorIsTip(SealOf(c), db, t, start);
    UntilIsPrefix(chain, start);
    UntilMembers(chain, start);
    assert forall k | 0 <= k < |Until(chain, start)| :: Until(chain, start)[k] in Until(chain, start) && chain[k] == Until(chain, start)[k];
    assert |Until(chain, start)| == i + 1;
  }

  /** The text a verification hashes first for an event on its window's start. */
  ghost function RestartTexts(c: Scheme, db: Tables, t: Guid, start: int): set<string> {
    set e | e in db.events && e.tenantId == t && e.createdAt == start :: c.text(e, Anchor(db.links, t, start))
  }

  /** An event on the start is hashed behind its own hash, so it is reported. */
  lemma EventOnStartFails(c: Scheme, db: Tables, t: Guid, start: int, e: AuditEvent)
    requires Sound(c, db) && Separates(c.hash, Emitted(c, db.events, db.links) + RestartTexts(c, db, t, start))
    requires e in db.events && e.tenantId == t && e.createdAt == start
    ensures !Matches(SealOf(c), db.links, e, Anchor(db.links, t, start))
  {
    if LinkOf(db.links, e.id).Some? {
      var i := AnchorAtStart(c, db, t, start, e);
      OwnHashDiffers(c, db, t, i, e, RestartTexts(c, db, t, start));
    }
  }

  /** Hashing a linked event behind its own hash does not give its own hash. */
  lemma OwnHashDiffers(c: Scheme, db: Tables, t: Guid, i: nat, e: AuditEvent, texts: set<string>)
    requires Sound(c, db) && i < |Chain(db, t)| && Chain(db, t)[i].eventId == e.id && e in db.events
    requires c.text(e, HashBefore(Chain(db, t), i + 1)) in texts
    requires Separates(c.hash, Emitted(c, db.events, db.links) + texts)
    ensures SealOf(c)(e, HashBefore(Chain(db, t), i + 1)) != HashBefore(Chain(db, t), i + 1)
  {
    var p, q := HashBefore(Chain(db, t), i), HashBefore(Chain(db, t), i + 1);
    if SealOf(c)(e, q) == q {
      var f := ChainLink(c, db, t, i);
      assert f == e;
      assert Apart(c.hash, c.text(e, q), c.text(e, p));
      assert SameHead(c, e, q, e, p);
      SamePosition(c, db, t, i, i + 1);
    }
  }

  lemma WalkFailsAtFirst(seal: Seal, links: seq<AuditLink>, rows: seq<AuditEvent>, from: Digest)
    requires rows != [] && !Matches(seal, links, rows[0], from)
    ensures Walk(seal, links, rows, from).mismatch == Some(rows[0].id)
  {
  }

  lemma StartFails(c: Scheme, db: Tables, t: Guid, start: int, end: int, e: AuditEvent)
    requires Sound(c, db) && start <= end
    requires Separates(c.hash, Emitted(c, db.events, db.links) + RestartTexts(c, db, t, start))
    requires e in EventsOf(db.events, t) && e.createdAt == start
    ensures Verify(SealOf(c), db, t, start, end).mismatch == Some(e.id)
  {
    assert TenantChain(db, t);
    EventsOfMembers(db.events, t);
    FirstRowAtStart(db, t, start, end, e);
    EventOnStartFails(c, db, t, start, e);
    WalkFailsAtFirst(SealOf(c), db.links, Rows(db.events, t, start, end), Anchor(db.links, t, start));
  }

  /** What verifying an untouched window must find: success if and only if each of its events
      has a link and none lies exactly on its start. On success the computed hash is that of the
      last link up to the end; on failure the reported event is the earliest offender. */
  ghost predicate Complete(w: Walked, db: Tables, t: Guid, start: int, end: int) {
    var rows := Rows(db.events, t, start, end);
    var unlinked := FirstUnlinked(rows, db.links);
    && (w.mismatch.None? <==> !EventAt(db, t, start) && forall e | e in rows :: LinkOf(db.links, e.id).Some?)
    && (w.mismatch.None? ==> w.hash == Anchor(db.links, t, end))
    && (w.mismatch.Some? && !EventAt(db, t, start) ==> unlinked.Some? && w.mismatch.value == unlinked.value.id)
    && (forall e | e in EventsOf(db.events, t) && e.createdAt == start :: w.mismatch == Some(e.id))
  }

  /** Completeness, on every state of every run, with emissions that may have stopped between
      their two saves. */
  lemma Completeness(c: Scheme, trace: seq<State>, steps: seq<Step>, n: nat, t: Guid, start: int, end: int)
    requires Run(SealOf(c), trace, steps) && n < |trace| && start <= end && HeadRecoverable(c)
    requires Separates(c.hash, Emitted(c, trace[n].db.events, trace[n].db.links) + RestartTexts(c, trace[n].db, t, start))
    ensures Complete(Verify(SealOf(c), trace[n].db, t, start, end), trace[n].db, t, start, end)
  {
    var db := trace[n].db;
    RunIsIntact(SealOf(c), trace, steps, n);
    FirstUnlinkedNone(Rows(db.events, t, start, end), db.links);
    assert Sound(c, db);
    if EventAt(db, t, start) {
      forall e | e in EventsOf(db.events, t) && e.createdAt == start
        ensures Verify(SealOf(c), db, t, start, end).mismatch == Some(e.id)
      {
        StartFails(c, db, t, start, end, e);
      }
    } else {
      CleanStart(SealOf(c), db, t, start, end);
    }
  }

  // ----- Tamper evidence -----

  /** The stored link of a row is link number i of the chain, and the row's text is the one that
      link was made from. */
  predicate SameRecord(c: Scheme, db: Tables, chain: seq<AuditLink>, i: nat, row: AuditEvent)
    requires i < |chain|
  {
    var original := EventOf(db.events, chain[i].eventId);
    && LinkOf(db.links, row.id) == Some(chain[i])
    && original.Some? && original.value.id == row.id
    && c.text(row, HashBefore(chain, i)) == c.text(original.value, HashBefore(chain, i))
  }

  /** The rows repeat the emitted history from chain position a on. */
  predicate Repeats(c: Scheme, db: Tables, chain: seq<AuditLink>, a: nat, rows: seq<AuditEvent>)
    decreases |rows|
  {
    rows == [] || (a < |chain| && SameRecord(c, db, chain, a, rows[0]) && Repeats(c, db, chain, a + 1, rows[1..]))
  }

  lemma {:induction false} RepeatsEach(c: Scheme, db: Tables, chain: seq<AuditLink>, a: nat, rows: seq<AuditEvent>)
    requires a <= |chain| && Repeats(c, db, chain, a, rows)
    ensures a + |rows| <= |chain|
    ensures forall k | 0 <= k < |rows| :: SameRecord(c, db, chain, a + k, rows[k])
    decreases |rows|
  {
    hide SameRecord;
    if rows != [] {
      RepeatsEach(c, db, chain, a + 1, rows[1..]);
      forall k | 0 <= k < |rows| ensures SameRecord(c, db, chain, a + k, rows[k]) {
        if k > 0 { assert SameRecord(c, db, chain, a + 1 + (k - 1), rows[1..][k - 1]); }
      }
    }
  }

  /** A row that matches behind chain position a is the record of that position. */
  lemma MatchedRow(c: Scheme, db: Tables, t: Guid, a: nat, row: AuditEvent)
    requires Sound(c, db) && a <= |Chain(db, t)| && row.tenantId == t
    requires Separates(c.hash, Emitted(c, db.events, db.links) + {c.text(row, HashBefore(Chain(db, t), a))})
    requires Matches(SealOf(c), db.links, row, HashBefore(Chain(db, t), a))
    ensures a < |Chain(db, t)| && SameRecord(c, db, Chain(db, t), a, row)
  {
    var from := HashBefore(Chain(db, t), a);
    var l := LinkOf(db.links, row.id).value;
    var j := LinkPosition(c, db, l);
    var e := ChainLink(c, db, l.tenantChainId, j);
    assert Apart(c.hash, c.text(row, from), c.text(e, l.previousHash));
    GenesisFirst(c, db, l.tenantChainId, j);
    GenesisFirst(c, db, t, a);
    assert SameHead(c, row, from, e, l.previousHash);
    SamePosition(c, db, t, j, a);
    EventOfPresent(db.events, e);
  }

  lemma RecordMatches(c: Scheme, db: Tables, t: Guid, i: nat, row: AuditEvent)
    requires Sound(c, db) && i < |Chain(db, t)| && SameRecord(c, db, Chain(db, t), i, row)
    ensures Matches(SealOf(c), db.links, row, HashBefore(Chain(db, t), i))
    ensures SealOf(c)(row, HashBefore(Chain(db, t), i)) == HashBefore(Chain(db, t), i + 1)
  {
    var e := ChainLink(c, db, t, i);
    EventOfPresent(db.events, e);
  }

  lemma SeparatesRows(c: Scheme, texts: set<string>, rows: seq<AuditEvent>, from: Digest)
    requires rows != [] && Separates(c.hash, texts + Rehashed(c, rows, from))
    ensures Separates(c.hash, texts + {c.text(rows[0], from)})
    ensures Separates(c.hash, texts + Rehashed(c, rows[1..], SealOf(c)(rows[0], from)))
  {
    var first := {c.text(rows[0], from)};
    var rest := Rehashed(c, rows[1..], SealOf(c)(rows[0], from));
    assert Rehashed(c, rows, from) == first + rest;
    assert texts + first <= texts + (first + rest) && texts + rest <= texts + (first + rest);
  }

  /** Walking any rows against the stored links of an intact history succeeds if and only if
      the rows repeat that history. */
  lemma {:induction false} WalkRepeats(c: Scheme, db: Tables, t: Guid, a: nat, rows: seq<AuditEvent>)
    requires Sound(c, db) && a <= |Chain(db, t)| && forall r | r in rows :: r.tenantId == t
    requires Separates(c.hash, Emitted(c, db.events, db.links) + Rehashed(c, rows, HashBefore(Chain(db, t), a)))
    ensures Walk(SealOf(c), db.links, rows, HashBefore(Chain(db, t), a)).mismatch.None?
       <==> Repeats(c, db, Chain(db, t), a, rows)
    decreases |rows|
  {
    hide Sound, SameRecord, LinksOf, Separates, Emitted, Rehashed;
    if rows != [] {
      var chain := Chain(db, t);
      var from := HashBefore(chain, a);
      assert rows[0] in rows;
      SeparatesRows(c, Emitted(c, db.events, db.links), rows, from);
      if Matches(SealOf(c), db.links, rows[0], from) {
        MatchedRow(c, db, t, a, rows[0]);
        RecordMatches(c, db, t, a, rows[0]);
        WalkRepeats(c, db, t, a + 1, rows[1..]);
      } else if Repeats(c, db, chain, a, rows) {
        RecordMatches(c, db, t, a, rows[0]);
      }
    }
  }

  lemma WalkMatch(seal: Seal, links: seq<AuditLink>, rows: seq<AuditEvent>, from: Digest)
    requires rows != [] && Matches(seal, links, rows[0], from)
    ensures Walk(seal, links, rows, from) == Walk(seal, links, rows[1..], seal(rows[0], from))
  {
  }

  /** Walking a stretch of the history ends at the hash of its last link. */
  lemma {:induction false} RepeatsHash(c: Scheme, db: Tables, t: Guid, a: nat, rows: seq<AuditEvent>)
    requires Sound(c, db) && a + |rows| <= |Chain(db, t)| && Repeats(c, db, Chain(db, t), a, rows)
    ensures Walk(SealOf(c), db.links, rows, HashBefore(Chain(db, t), a)).hash == HashBefore(Chain(db, t), a + |rows|)
    decreases |rows|
  {
    hide Sound, SameRecord, LinksOf;
    if rows != [] {
      RecordMatches(c, db, t, a, rows[0]);
      WalkMatch(SealOf(c), db.links, rows, HashBefore(Chain(db, t), a));
      hide Walk, Matches;
      RepeatsHash(c, db, t, a + 1, rows[1..]);
      assert a + 1 + |rows[1..]| == a + |rows|;
    }
  }

  lemma RowsMembers(events: seq<AuditEvent>, t: Guid, start: int, end: int)
    ensures forall r | r in Rows(events, t, start, end) :: r in events && r.tenantId == t && start <= r.createdAt <= end
  {
    var w := Within(EventsOf(events, t), start, end);
    EventsOfMembers(events, t);
    WithinMembers(EventsOf(events, t), start, end);
    forall r | r in SortByTime(w) ensures r in w {
      assert r in multiset(SortByTime(w));
    }
  }

  /** How many of the tenant's links the anchor of a window covers. */
  function AnchorPosition(db: Tables, t: Guid, start: int): nat {
    |Until(Chain(db, t), start)|
  }

  lemma AnchorHash(seal: Seal, db: Tables, t: Guid, start: int)
    requires Intact(seal, db)
    ensures AnchorPosition(db, t, start) <= |Chain(db, t)|
    ensures Anchor(db.links, t, start) == HashBefore(Chain(db, t), AnchorPosition(db, t, start))
  {
    AnchorIsTip(seal, db, t, start);
    UntilIsPrefix(Chain(db, t), start);
  }

  ghost predicate Evidence(c: Scheme, db: Tables, forged: seq<AuditEvent>, t: Guid, start: int, end: int) {
    var rows := Rows(forged, t, start, end);
    var a := AnchorPosition(db, t, start);
    var w := Verify(SealOf(c), db.(events := forged), t, start, end);
    && (w.mismatch.None? <==> Repeats(c, db, Chain(db, t), a, rows))
    && (w.mismatch.None? ==> a + |rows| <= |Chain(db, t)| && w.hash == HashBefore(Chain(db, t), a + |rows|))
  }

  /** The texts that verifying the altered table hashes. */
  ghost function ForgedTexts(c: Scheme, db: Tables, forged: seq<AuditEvent>, t: Guid, start: int, end: int): set<string> {
    Rehashed(c, Rows(forged, t, start, end), Anchor(db.links, t, start))
  }

  lemma ForgedWindow(c: Scheme, db: Tables, forged: seq<AuditEvent>, t: Guid, start: int, end: int)
    requires Sound(c, db)
    requires Separates(c.hash, Emitted(c, db.events, db.links) + ForgedTexts(c, db, forged, t, start, end))
    ensures Evidence(c, db, forged, t, start, end)
  {
    hide Sound, SameRecord, LinksOf, Rows, Separates, Emitted, Rehashed, Repeats, Walk, Until;
    var a := AnchorPosition(db, t, start);
    SoundIsIntact(c, db);
    AnchorHash(SealOf(c), db, t, start);
    RowsMembers(forged, t, start, end);
    WalkRepeats(c, db, t, a, Rows(forged, t, start, end));
    if Repeats(c, db, Chain(db, t), a, Rows(forged, t, start, end)) {
      RepeatsEach(c, db, Chain(db, t), a, Rows(forged, t, start, end));
      RepeatsHash(c, db, t, a, Rows(forged, t, start, end));
    }
  }

  /** Tamper evidence. The links come from any run; the event table is whatever someone left
      there. The window verifies if and only if the rows it selects repeat, text by text, a
      contiguous stretch of the emitted events that starts right after the anchor, and then the
      computed hash tells how far that stretch reaches. */
  lemma TamperEvidence(c: Scheme, trace: seq<State>, steps: seq<Step>, n: nat, forged: seq<AuditEvent>, t: Guid, start: int, end: int)
    requires Run(SealOf(c), trace, steps) && n < |trace| && HeadRecoverable(c)
    requires Separates(c.hash, Emitted(c, trace[n].db.events, trace[n].db.links)
                               + ForgedTexts(c, trace[n].db, forged, t, start, end))
    ensures Evidence(c, trace[n].db, forged, t, start, end)
  {
    hide Evidence, ForgedTexts, Emitted;
    var db := trace[n].db;
    RunIsIntact(SealOf(c), trace, steps, n);
    SeparatesFewer(c.hash, Emitted(c, db.events, db.links),
                   Emitted(c, db.events, db.links) + ForgedTexts(c, db, forged, t, start, end));
    ForgedWindow(c, db, forged, t, start, end);
  }

  lemma SeparatesFewer(hash: HashFn, fewer: set<string>, texts: set<string>)
    requires fewer <= texts && Separates(hash, texts)
    ensures Separates(hash, fewer)
  {
  }

  lemma RepeatsAgree(c: Scheme, db: Tables, t: Guid, a: nat, rows: seq<AuditEvent>, others: seq<AuditEvent>)
    requires Sound(c, db) && a + |rows| <= |Chain(db, t)| && a + |others| <= |Chain(db, t)|
    requires Repeats(c, db, Chain(db, t), a, rows) && Repeats(c, db, Chain(db, t), a, others)
    ensures SameStretch(c, Chain(db, t), a, rows, others)
    ensures |rows| != |others| ==> HashBefore(Chain(db, t), a + |rows|) != HashBefore(Chain(db, t), a + |others|)
  {
    hide Sound, LinksOf, Repeats;
    RepeatsEach(c, db, Chain(db, t), a, rows);
    RepeatsEach(c, db, Chain(db, t), a, others);
    if HashBefore(Chain(db, t), a + |rows|) == HashBefore(Chain(db, t), a + |others|) {
      SamePosition(c, db, t, a + |rows|, a + |others|);
    }
  }

  /** The rows agree, id by id and text by text, as far as the shorter list goes. */
  predicate SameStretch(c: Scheme, chain: seq<AuditLink>, a: nat, rows: seq<AuditEvent>, others: seq<AuditEvent>) {
    a + |rows| <= |chain| && a + |others| <= |chain|
    && forall k | 0 <= k < |rows| && k < |others| :: SameText(c, HashBefore(chain, a + k), rows[k], others[k])
  }

  predicate SameText(c: Scheme, prev: Digest, e: AuditEvent, f: AuditEvent) {
    e.id == f.id && c.text(e, prev) == c.text(f, prev)
  }

  /** Only truncation at the end can pass: two event tables that both verify the same window
      against the links of one run agree, id by id and text by text, as far as the shorter one
      goes; and if they differ in length their computed hashes differ. */
  lemma OnlyTruncationPasses(c: Scheme, trace: seq<State>, steps: seq<Step>, n: nat, one: seq<AuditEvent>, other: seq<AuditEvent>,
                             t: Guid, start: int, end: int)
    requires Run(SealOf(c), trace, steps) && n < |trace| && HeadRecoverable(c)
    requires Separates(c.hash, Emitted(c, trace[n].db.events, trace[n].db.links) + ForgedTexts(c, trace[n].db, one, t, start, end))
    requires Separates(c.hash, Emitted(c, trace[n].db.events, trace[n].db.links) + ForgedTexts(c, trace[n].db, other, t, start, end))
    requires Verify(SealOf(c), trace[n].db.(events := one), t, start, end).mismatch.None?
    requires Verify(SealOf(c), trace[n].db.(events := other), t, start, end).mismatch.None?
    ensures var db, rows, others := trace[n].db, Rows(one, t, start, end), Rows(other, t, start, end);
            && SameStretch(c, Chain(db, t), AnchorPosition(db, t, start), rows, others)
            && (|rows| != |others| ==>
                  Verify(SealOf(c), db.(events := one), t, start, end).hash != Verify(SealOf(c), db.(events := other), t, start, end).hash)
  {
    hide ForgedTexts, Emitted, Rows, Run, Intact, HeadRecoverable, Repeats, SameStretch, LinksOf, AnchorPosition, Walk, Separates;
    var db, a := trace[n].db, AnchorPosition(trace[n].db, t, start);
    TamperEvidence(c, trace, steps, n, one, t, start, end);
    TamperEvidence(c, trace, steps, n, other, t, start, end);
    RunIsIntact(SealOf(c), trace, steps, n);
    SeparatesFewer(c.hash, Emitted(c, db.events, db.links),
                   Emitted(c, db.events, db.links) + ForgedTexts(c, db, one, t, start, end));
    RepeatsAgree(c, db, t, a, Rows(one, t, start, end), Rows(other, t, start, end));
  }

  /** For the source's canonical text, a verified row has every hashed field of the event emitted
      under its id, if no hashed column of that event holds a pipe. */
  lemma VerifiedFieldsAgree(hash: HashFn, db: Tables, t: Guid, i: nat, row: AuditEvent)
    requires Intact(SealOf(CanonicalScheme(hash)), db) && i < |Chain(db, t)|
    requires SameRecord(CanonicalScheme(hash), db, Chain(db, t), i, row)
    ensures var e := EventOf(db.events, row.id);
            e.Some? && e.value in db.events && (Clear(e.value) ==> SameHashedFields(row, e.value))
  {
    hide Clear, SameHashedFields, LinksOf, Canonicalize;
    var c := CanonicalScheme(hash);
    var prev := HashBefore(Chain(db, t), i);
    var e := EventOf(db.events, Chain(db, t)[i].eventId).value;
    EventOfPresent(db.events, e);
    assert Canonicalize(row, prev) == c.text(row, prev) == c.text(e, prev) == Canonicalize(e, prev);
    if Clear(e) {
      ClearDetermines(e, prev, row, prev);
    }
  }
}
