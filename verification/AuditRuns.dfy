/** Emissions as interleaved steps: each one reads its tenant's chain head, saves its event
    and saves its link, and may stop anywhere. */
module AuditRuns {
  import opened Common
  import opened Canonical
  import opened AuditTables
  import opened AuditChain

  /** An emission between reading the head and saving its link. */
  datatype Flight = Flight(audit: AuditEvent, link: AuditLink, saved: bool)

  datatype State = State(db: Tables, flights: map<Guid, Flight>)

  datatype Step =
    | ReadHead(audit: AuditEvent)
    | SaveEvent(tenant: Guid)
    | SaveLink(tenant: Guid)
    | Stop(tenant: Guid)

  function TenantOf(step: Step): Guid {
    if step.ReadHead? then step.audit.tenantId else step.tenant
  }

  /** One emission in flight per tenant, a fresh event id, and an instant later than the
      tenant's earlier events. */
  predicate Enabled(s: State, step: Step) {
    match step
    case ReadHead(audit) =>
      && audit.tenantId !in s.flights
      && (forall e | e in s.db.events :: e.id != audit.id && (e.tenantId == audit.tenantId ==> e.createdAt < audit.createdAt))
      && (forall t | t in s.flights :: s.flights[t].audit.id != audit.id)
    case SaveEvent(t) => t in s.flights && !s.flights[t].saved
    case SaveLink(t) => t in s.flights && s.flights[t].saved
    case Stop(t) => t in s.flights
  }

  function Apply(seal: Seal, s: State, step: Step): State
    requires Enabled(s, step)
  {
    match step
    case ReadHead(audit) =>
      s.(flights := s.flights[audit.tenantId := Flight(audit, LinkFor(seal, s.db.links, audit), false)])
    case SaveEvent(t) =>
      s.(db := s.db.(events := s.db.events + [s.flights[t].audit]),
         flights := s.flights[t := s.flights[t].(saved := true)])
    case SaveLink(t) =>
      State(s.db.(links := s.db.links + [s.flights[t].link]), s.flights - {t})
    case Stop(t) =>
      s.(flights := s.flights - {t})
  }

  /** States reached one after the other by enabled steps, from empty tables. */
  ghost predicate Run(seal: Seal, trace: seq<State>, steps: seq<Step>) {
    && |trace| == |steps| + 1
    && trace[0].db.events == [] && trace[0].db.links == [] && trace[0].flights == map[]
    && forall i | 0 <= i < |steps| :: Enabled(trace[i], steps[i]) && trace[i + 1] == Apply(seal, trace[i], steps[i])
  }

  predicate FlightOk(seal: Seal, db: Tables, t: Guid, f: Flight) {
    var ev := EventsOf(db.events, t);
    && f.audit.tenantId == t
    && f.link == LinkFor(seal, db.links, f.audit)
    && LinkOf(db.links, f.audit.id).None?
    && (if f.saved then ev != [] && ev[|ev| - 1] == f.audit
        else (forall e | e in db.events :: e.id != f.audit.id) && (forall e | e in ev :: e.createdAt < f.audit.createdAt))
  }

  ghost predicate Inv(seal: Seal, s: State) {
    && Intact(seal, s.db)
    && (forall t | t in s.flights :: FlightOk(seal, s.db, t, s.flights[t]))
    && (forall t, u | t in s.flights && u in s.flights && t != u :: s.flights[t].audit.id != s.flights[u].audit.id)
  }

  // ----- Frames -----

  lemma {:induction false} EventOfAppend(events: seq<AuditEvent>, e: AuditEvent, id: Guid)
    ensures EventOf(events + [e], id) == if EventOf(events, id).Some? then EventOf(events, id)
                                         else if e.id == id then Some(e) else None
  {
    assert (events + [e])[..|events|] == events;
  }

  lemma {:induction false} EventOfPresent(events: seq<AuditEvent>, e: AuditEvent)
    requires e in events && IdsDetermine(events)
    ensures EventOf(events, e.id) == Some(e)
  {
    var n := |events| - 1;
    assert events == events[..n] + [events[n]];
    if e in events[..n] {
      EventOfPresent(events[..n], e);
    } else {
      assert EventOf(events[..n], e.id).None?;
    }
  }

  lemma {:induction false} LinkedRunFrame(ev: seq<AuditEvent>, links: seq<AuditLink>, l: AuditLink)
    requires forall e | e in ev :: e.id != l.eventId
    ensures LinkedRun(ev, links + [l]) == LinkedRun(ev, links)
  {
    if ev != [] {
      var n := |ev| - 1;
      LinkedRunFrame(ev[..n], links, l);
      assert ev[n] in ev;
      assert (links + [l])[..|links|] == links;
    }
  }

  /** A link's event is stored, so an unused event id has no link. */
  lemma UnusedIdHasNoLink(seal: Seal, db: Tables, id: Guid)
    requires forall l | l in db.links :: Attested(seal, db.events, l)
    requires forall e | e in db.events :: e.id != id
    ensures LinkOf(db.links, id).None?
  {
    LinkOfMissing(db.links, id);
  }

  /** Rows of one tenant's step leave every other tenant's rows, links and flight alone. */
  lemma OtherTenantsUntouched(seal: Seal, s: State, step: Step, u: Guid)
    requires Inv(seal, s) && Enabled(s, step) && u != TenantOf(step)
    ensures var s' := Apply(seal, s, step);
            && EventsOf(s'.db.events, u) == EventsOf(s.db.events, u)
            && LinksOf(s'.db.links, u) == LinksOf(s.db.links, u)
            && (u in s'.flights <==> u in s.flights)
            && (u in s.flights ==> s'.flights[u] == s.flights[u])
  {
    hide Intact, EventsOf, LinksOf, LinkFor;
    if step.SaveEvent? || step.SaveLink? {
      var f := s.flights[step.tenant];
      FlightTenant(seal, s.db, step.tenant, f);
      EventsAppended(s.db.events, f.audit, u);
      LinksAppended(s.db.links, f.link, u);
    }
  }

  lemma FlightTenant(seal: Seal, db: Tables, t: Guid, f: Flight)
    requires FlightOk(seal, db, t, f)
    ensures f.audit.tenantId == t && f.link.tenantChainId == t && f.link.eventId == f.audit.id
    ensures LinkOf(db.links, f.audit.id).None?
  {
  }

  // ----- The invariant is kept -----

  lemma ReadHeadKeeps(seal: Seal, s: State, step: Step)
    requires Inv(seal, s) && Enabled(s, step) && step.ReadHead?
    ensures Inv(seal, Apply(seal, s, step))
  {
    UnusedIdHasNoLink(seal, s.db, step.audit.id);
    EventsOfMembers(s.db.events, step.audit.tenantId);
  }

  lemma StopKeeps(seal: Seal, s: State, step: Step)
    requires Inv(seal, s) && Enabled(s, step) && step.Stop?
    ensures Inv(seal, Apply(seal, s, step))
  {
  }

  lemma SaveEventChain(db: Tables, a: AuditEvent, u: Guid)
    requires TenantChain(db, u) && LinkOf(db.links, a.id).None?
    requires forall e | e in EventsOf(db.events, a.tenantId) :: e.createdAt < a.createdAt
    ensures TenantChain(db.(events := db.events + [a]), u)
  {
    hide EventsOf, LinksOf, LinkedRun, Linear, LinkOf;
    EventsAppended(db.events, a, u);
    if u == a.tenantId {
      AppendEvent(EventsOf(db.events, u), a, db.links, 0, 0);
      IncreasingSnoc(EventsOf(db.events, u), a);
      hide Increasing;
    }
  }

  lemma IncreasingSnoc(es: seq<AuditEvent>, e: AuditEvent)
    requires Increasing(es) && forall x | x in es :: x.createdAt < e.createdAt
    ensures Increasing(es + [e])
  {
  }

  lemma EventsAppended(events: seq<AuditEvent>, a: AuditEvent, u: Guid)
    ensures EventsOf(events + [a], u) == if a.tenantId == u then EventsOf(events, u) + [a] else EventsOf(events, u)
  {
    assert (events + [a])[..|events|] == events;
  }

  lemma SaveEventChains(db: Tables, a: AuditEvent)
    requires (forall u: Guid :: TenantChain(db, u)) && LinkOf(db.links, a.id).None?
    requires forall e | e in EventsOf(db.events, a.tenantId) :: e.createdAt < a.createdAt
    ensures forall u: Guid :: TenantChain(db.(events := db.events + [a]), u)
  {
    hide TenantChain;
    forall u: Guid ensures TenantChain(db.(events := db.events + [a]), u) {
      assert TenantChain(db, u);
      SaveEventChain(db, a, u);
    }
  }

  lemma SaveEventAttested(seal: Seal, db: Tables, a: AuditEvent)
    requires forall l | l in db.links :: Attested(seal, db.events, l)
    ensures forall l | l in db.links :: Attested(seal, db.events + [a], l)
  {
    hide EventOf;
    forall l | l in db.links ensures Attested(seal, db.events + [a], l) {
      assert Attested(seal, db.events, l);
      EventOfAppend(db.events, a, l.eventId);
    }
  }

  /** An unsaved flight of another tenant, and a flight that has just saved its event. */
  lemma SaveEventFlight(seal: Seal, db: Tables, a: AuditEvent, u: Guid, f: Flight)
    requires FlightOk(seal, db, u, f) && f.audit.id != a.id && u != a.tenantId
    ensures FlightOk(seal, db.(events := db.events + [a]), u, f)
  {
    hide EventsOf, LinkFor, LinkOf;
    EventsAppended(db.events, a, u);
  }

  lemma SavedFlight(seal: Seal, db: Tables, u: Guid, f: Flight)
    requires FlightOk(seal, db, u, f) && !f.saved
    ensures FlightOk(seal, db.(events := db.events + [f.audit]), u, f.(saved := true))
  {
    hide EventsOf, LinkFor, LinkOf;
    EventsAppended(db.events, f.audit, u);
  }

  lemma SaveEventIntact(seal: Seal, db: Tables, t: Guid, f: Flight)
    requires Intact(seal, db) && FlightOk(seal, db, t, f) && !f.saved
    ensures Intact(seal, db.(events := db.events + [f.audit]))
  {
    hide TenantChain, Attested, EventsOf;
    FlightTenant(seal, db, t, f);
    SaveEventChains(db, f.audit);
    SaveEventAttested(seal, db, f.audit);
  }

  lemma SaveEventKeeps(seal: Seal, s: State, step: Step)
    requires Inv(seal, s) && Enabled(s, step) && step.SaveEvent?
    ensures Inv(seal, Apply(seal, s, step))
  {
    hide Intact, FlightOk, EventsOf;
    var t, f, s' := step.tenant, s.flights[step.tenant], Apply(seal, s, step);
    assert FlightOk(seal, s.db, t, f);
    SaveEventIntact(seal, s.db, t, f);
    FlightTenant(seal, s.db, t, f);
    forall u | u in s'.flights ensures FlightOk(seal, s'.db, u, s'.flights[u]) {
      assert FlightOk(seal, s.db, u, s.flights[u]);
      if u == t {
        SavedFlight(seal, s.db, t, f);
      } else {
        SaveEventFlight(seal, s.db, f.audit, u, s.flights[u]);
      }
    }
  }

  /** Appending the link of the newest event extends the run of linked events by it. */
  lemma OwnRunGrows(ev0: seq<AuditEvent>, a: AuditEvent, links: seq<AuditLink>, l: AuditLink)
    requires forall e | e in ev0 :: e.id != a.id
    requires l.eventId == a.id && LinkOf(links, a.id).None?
    ensures LinkedRun(ev0 + [a], links + [l]) == LinkedRun(ev0 + [a], links) + [l]
  {
    AppendEvent(ev0, a, links, 0, 0);
    AppendEvent(ev0, a, links + [l], 0, 0);
    LinkedRunFrame(ev0, links, l);
    assert (links + [l])[..|links|] == links;
  }

  lemma LinearGrows(chain: seq<AuditLink>, l: AuditLink)
    requires Linear(chain) && l.previousHash == Tip(chain)
    ensures Linear(chain + [l])
  {
    assert (chain + [l])[..|chain|] == chain;
  }

  /** The head found by instant is the chain's last link. */
  lemma ChainHead(seal: Seal, db: Tables, t: Guid)
    requires Intact(seal, db)
    ensures HeadHash(LinksOf(db.links, t)) == Tip(LinksOf(db.links, t))
    ensures IncreasingLinks(LinksOf(db.links, t))
  {
    var ev := EventsOf(db.events, t);
    assert TenantChain(db, t);
    EventsOfMembers(db.events, t);
    forall e | e in ev ensures Faithful(seal, db.links, e) { IntactIsFaithful(seal, db, e); }
    RunIncreasing(seal, ev, db.links);
    TipIsHead(LinksOf(db.links, t));
  }

  lemma SaveOwnLink(db: Tables, a: AuditEvent, l: AuditLink)
    requires TenantChain(db, a.tenantId) && IdsDetermine(db.events) && a in db.events
    requires l.eventId == a.id && l.tenantChainId == a.tenantId && LinkOf(db.links, a.id).None?
    requires var ev := EventsOf(db.events, a.tenantId); ev != [] && ev[|ev| - 1] == a
    requires l.previousHash == Tip(LinksOf(db.links, a.tenantId))
    ensures TenantChain(db.(links := db.links + [l]), a.tenantId)
  {
    var ev := EventsOf(db.events, a.tenantId);
    var ev0 := ev[..|ev| - 1];
    assert ev == ev0 + [a];
    EventsOfMembers(db.events, a.tenantId);
    EarlierEvents(ev);
    OwnRunGrows(ev0, a, db.links, l);
    LinksAppended(db.links, l, a.tenantId);
    hide EventsOf, LinksOf, LinkOf, LinkedRun, Tip;
    LinearGrows(LinksOf(db.links, a.tenantId), l);
  }

  lemma SaveOtherLink(db: Tables, a: AuditEvent, l: AuditLink, u: Guid)
    requires TenantChain(db, u) && IdsDetermine(db.events) && a in db.events && u != a.tenantId
    requires l.eventId == a.id && l.tenantChainId == a.tenantId
    ensures TenantChain(db.(links := db.links + [l]), u)
  {
    EventsOfMembers(db.events, u);
    LinksAppended(db.links, l, u);
    hide EventsOf, LinksOf, LinkedRun, Linear;
    LinkedRunFrame(EventsOf(db.events, u), db.links, l);
  }

  /** Saving a link extends its own tenant's chain by one and leaves the others as they are. */
  lemma SaveLinkChain(db: Tables, a: AuditEvent, l: AuditLink, u: Guid)
    requires TenantChain(db, u) && IdsDetermine(db.events) && a in db.events
    requires l.eventId == a.id && l.tenantChainId == a.tenantId && LinkOf(db.links, a.id).None?
    requires u == a.tenantId ==> var ev := EventsOf(db.events, u); ev != [] && ev[|ev| - 1] == a
    requires u == a.tenantId ==> l.previousHash == Tip(LinksOf(db.links, u))
    ensures TenantChain(db.(links := db.links + [l]), u)
  {
    hide TenantChain;
    if u == a.tenantId {
      SaveOwnLink(db, a, l);
    } else {
      SaveOtherLink(db, a, l, u);
    }
  }

  lemma LinksAppended(links: seq<AuditLink>, l: AuditLink, u: Guid)
    ensures LinksOf(links + [l], u) == if l.tenantChainId == u then LinksOf(links, u) + [l] else LinksOf(links, u)
  {
    assert (links + [l])[..|links|] == links;
  }

  lemma SaveLinkChains(db: Tables, a: AuditEvent, l: AuditLink)
    requires (forall u: Guid :: TenantChain(db, u)) && IdsDetermine(db.events) && a in db.events
    requires l.eventId == a.id && l.tenantChainId == a.tenantId && LinkOf(db.links, a.id).None?
    requires var ev := EventsOf(db.events, a.tenantId); ev != [] && ev[|ev| - 1] == a
    requires l.previousHash == Tip(LinksOf(db.links, a.tenantId))
    ensures forall u: Guid :: TenantChain(db.(links := db.links + [l]), u)
  {
    hide TenantChain, IdsDetermine, EventsOf, LinksOf, LinkOf, Tip;
    forall u: Guid ensures TenantChain(db.(links := db.links + [l]), u) {
      assert TenantChain(db, u);
      SaveLinkChain(db, a, l, u);
    }
  }

  /** What a flight that has saved its event needs for its link. */
  lemma SavedFlightLink(seal: Seal, db: Tables, t: Guid, f: Flight)
    requires Intact(seal, db) && FlightOk(seal, db, t, f) && f.saved
    ensures f.audit in db.events && f.audit.tenantId == t && LinkOf(db.links, f.audit.id).None?
    ensures var ev := EventsOf(db.events, t); ev != [] && ev[|ev| - 1] == f.audit
    ensures f.link.eventId == f.audit.id && f.link.tenantChainId == t && f.link.previousHash == Tip(LinksOf(db.links, t))
    ensures Attested(seal, db.events, f.link)
  {
    EventsOfMembers(db.events, t);
    ChainHead(seal, db, t);
    EventOfPresent(db.events, f.audit);
    hide TenantChain, EventsOf, LinksOf, EventOf, Tip, LinkOf, IdsDetermine;
  }

  lemma SaveLinkIntact(seal: Seal, db: Tables, t: Guid, f: Flight)
    requires Intact(seal, db) && FlightOk(seal, db, t, f) && f.saved
    ensures Intact(seal, db.(links := db.links + [f.link]))
  {
    SavedFlightLink(seal, db, t, f);
    hide FlightOk, TenantChain, EventsOf, LinksOf, LinkOf, Tip, Attested, IdsDetermine;
    SaveLinkChains(db, f.audit, f.link);
  }

  lemma SaveLinkFlight(seal: Seal, db: Tables, l: AuditLink, u: Guid, f: Flight)
    requires FlightOk(seal, db, u, f) && f.audit.id != l.eventId && u != l.tenantChainId
    ensures FlightOk(seal, db.(links := db.links + [l]), u, f)
  {
    hide EventsOf, LinksOf, LinkOf;
    Appended(db.events, f.audit, db.links, l, u, f.audit.id);
  }

  lemma SaveLinkKeeps(seal: Seal, s: State, step: Step)
    requires Inv(seal, s) && Enabled(s, step) && step.SaveLink?
    ensures Inv(seal, Apply(seal, s, step))
  {
    hide Intact, FlightOk;
    var t, f, s' := step.tenant, s.flights[step.tenant], Apply(seal, s, step);
    assert FlightOk(seal, s.db, t, f);
    SaveLinkIntact(seal, s.db, t, f);
    FlightTenant(seal, s.db, t, f);
    forall u | u in s'.flights ensures FlightOk(seal, s'.db, u, s'.flights[u]) {
      assert FlightOk(seal, s.db, u, s.flights[u]);
      SaveLinkFlight(seal, s.db, f.link, u, s.flights[u]);
    }
  }

  lemma StepKeepsInv(seal: Seal, s: State, step: Step)
    requires Inv(seal, s) && Enabled(s, step)
    ensures Inv(seal, Apply(seal, s, step))
  {
    match step
    case ReadHead(_) => ReadHeadKeeps(seal, s, step);
    case SaveEvent(_) => SaveEventKeeps(seal, s, step);
    case SaveLink(_) => SaveLinkKeeps(seal, s, step);
    case Stop(_) => StopKeeps(seal, s, step);
  }

  /** Whatever the interleaving and wherever emissions stop, every state of a run is intact. */
  lemma {:induction false} RunIsIntact(seal: Seal, trace: seq<State>, steps: seq<Step>, i: nat)
    requires Run(seal, trace, steps) && i < |trace|
    ensures Inv(seal, trace[i])
  {
    if i > 0 {
      RunIsIntact(seal, trace, steps, i - 1);
      StepKeepsInv(seal, trace[i - 1], steps[i - 1]);
    } else {
      forall t: Guid ensures TenantChain(trace[0].db, t) {}
    }
  }
}
