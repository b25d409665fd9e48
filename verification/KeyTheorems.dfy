/** What runs of the gateway promise about signing keys. */
module KeyTheorems {
  import opened Common
  import opened Timestamps
  import opened Canonical
  import opened AuditTables
  import opened AuditChain
  import opened Domain
  import opened ConsentTokens
  import opened DataSubjects
  import opened Gateway
  import opened GatewayInvariant
  import opened TokenTheorems
  import Req = ConsentRequests

  // ----- One key in force, and retired keys stay retired -----

  lemma IssuanceGrowsKeys(o: Options, lib: Library, w: World, step: Step)
    requires KeysOk(o, w.keys, w.clock) && Constructible(o) && (step.Decide? || step.Renew?) && step.material.keyId !in w.keys
    requires IssuanceOf(o, lib, w, step).Some?
    ensures Grown(w.keys, IssuanceOf(o, lib, w, step).value.keys)
  {
    hide KeysOk, OrderOf, IssueToken, Grown;
    OrderedMaterial(o, w, step);
    var order := OrderOf(o, w, step).value;
    IssuanceKeys(o, lib.hash, w, order.consentId, order.consent, order.material);
  }

  lemma DecisionKeys(o: Options, lib: Library, w: World, step: Step)
    requires step.Decide?
    ensures var keys := Decided(o, lib, w, step).keys;
            keys == w.keys || (IssuanceOf(o, lib, w, step).Some? && keys == IssuanceOf(o, lib, w, step).value.keys)
  {
    hide IssuanceOf;
  }

  lemma RenewalKeys(o: Options, lib: Library, w: World, step: Step)
    requires step.Renew?
    ensures var keys := Renewed(o, lib, w, step).keys;
            keys == w.keys || (IssuanceOf(o, lib, w, step).Some? && keys == IssuanceOf(o, lib, w, step).value.keys)
  {
    hide IssuanceOf;
  }

  lemma ErasureKeys(w: World, slug: string, kind: Option<TenantType>, email: string)
    ensures Erased(w, slug, kind, email).keys == w.keys
  {
    hide StillNamed, Forgotten, ConsentsOf, RequestsOf, NormalizeEmail;
  }

  /** The keys change only by issuing and rotating. */
  lemma KeysOnlyFromIssuing(o: Options, lib: Library, w: World, step: Step)
    ensures !step.Rotate? ==>
              var keys := Act(o, lib, w, step).keys;
              keys == w.keys || (IssuanceOf(o, lib, w, step).Some? && keys == IssuanceOf(o, lib, w, step).value.keys)
  {
    hide AcceptedFor, Settled, MayCreate, ScopesOrDefault, MayCancel, Req.After, OrderOf, IssuanceOf, Decided, Renewed, Erased,
         ClearReceipts, RequestsDue, Rotated;
    if step.Decide? {
      DecisionKeys(o, lib, w, step);
    } else if step.Renew? {
      RenewalKeys(o, lib, w, step);
    } else if step.DeleteSubject? {
      ErasureKeys(w, step.slug, step.kind, step.email);
    }
  }

  lemma StepGrowsKeys(o: Options, lib: Library, w: World, step: Step)
    requires KeysOk(o, w.keys, w.clock) && Constructible(o) && Enabled(o, lib, w, step)
    ensures Grown(w.keys, Act(o, lib, w, step).keys)
  {
    FreshKeyId(o, lib, w, step);
    hide Act, KeysOk, Enabled, IssuanceOf;
    if step.Rotate? {
      RotationGrowsKeys(o, lib, w, step);
    } else {
      KeysOnlyFromIssuing(o, lib, w, step);
      if IssuanceOf(o, lib, w, step).Some? {
        IssuedTokenId(o, lib, w, step);
        IssuanceGrowsKeys(o, lib, w, step);
      }
    }
  }

  lemma RotationGrowsKeys(o: Options, lib: Library, w: World, step: Step)
    requires KeysOk(o, w.keys, w.clock) && step.Rotate? && step.material.keyId !in w.keys
    ensures Grown(w.keys, Act(o, lib, w, step).keys)
  {
    hide KeysOk, RotateKey;
    var tenant := BySlug(w.tenants, step.slug);
    if tenant.Some? { RotationKeepsKeysOk(o, w.keys, w.clock, tenant.value.id, step.material); }
  }

  lemma FreshKeyId(o: Options, lib: Library, w: World, step: Step)
    requires Enabled(o, lib, w, step)
    ensures step.Decide? || step.Renew? || step.Rotate? ==> step.material.keyId !in w.keys
  {
  }

  predicate BothInForce(keys: Keys, a: Guid, b: Guid)
    requires a in keys && b in keys
  {
    keys[a].tenantId == keys[b].tenantId && !keys[a].status.Retired? && !keys[b].status.Retired?
  }

  /** A key that is retired is retired in every later world of the run, and keys keep their
      tenant, their public part and their dates. */
  lemma {:induction false} RetiredForever(o: Options, lib: Library, trace: seq<World>, steps: seq<Timed>, i: nat, j: nat)
    requires Constructible(o) && Run(o, lib, trace, steps) && i <= j < |trace|
    ensures Grown(trace[i].keys, trace[j].keys)
    decreases j - i
  {
    hide Inv, Possible, After, Grown;
    if i < j {
      RetiredForever(o, lib, trace, steps, i, j - 1);
      RunKeepsInv(o, lib, trace, steps, j - 1);
      RunStep(o, lib, trace, steps, j - 1);
      KeysAfter(o, lib, trace[j - 1], steps[j - 1]);
      GrownTwice(trace[i].keys, trace[j - 1].keys, trace[j].keys);
    } else {
      GrownRefl(trace[i].keys);
    }
  }

  lemma GrownRefl(keys: Keys)
    ensures Grown(keys, keys)
  {
  }

  /** In every world of a run a tenant has at most one key that is not retired. */
  lemma OneKeyInForce(o: Options, lib: Library, trace: seq<World>, steps: seq<Timed>, n: nat)
    requires Constructible(o) && Run(o, lib, trace, steps) && n < |trace|
    ensures forall a, b | a in trace[n].keys && b in trace[n].keys && BothInForce(trace[n].keys, a, b) :: a == b
  {
    hide Inv, Run;
    RunKeepsInv(o, lib, trace, steps, n);
    AtMostOneKey(o, lib, trace[n]);
  }

  lemma AtMostOneKey(o: Options, lib: Library, w: World)
    requires Inv(o, lib, w)
    ensures forall a, b | a in w.keys && b in w.keys && BothInForce(w.keys, a, b) :: a == b
  {
    hide ConsentsOk, TokensOk, UniqueEmails, UniqueTokens, RequestsOk, ApplicationsOk;
    forall a, b | a in w.keys && b in w.keys && BothInForce(w.keys, a, b) ensures a == b {
      assert Ordered(w.keys, a, b);
    }
  }

  lemma KeysAfter(o: Options, lib: Library, w: World, s: Timed)
    requires Inv(o, lib, w) && Constructible(o) && Possible(o, lib, w, s)
    ensures Grown(w.keys, After(o, lib, w, s).keys)
  {
    hide Act, Enabled;
    TimePasses(o, lib, w, s.now);
    StepGrowsKeys(o, lib, At(w, s.now), s.step);
  }

  lemma GrownTwice(a: Keys, b: Keys, c: Keys)
    requires Grown(a, b) && Grown(b, c)
    ensures Grown(a, c)
  {
  }

  // ----- Rotation -----

  lemma InvKeys(o: Options, lib: Library, w: World)
    requires Inv(o, lib, w)
    ensures KeysOk(o, w.keys, w.clock)
  {
  }

  lemma LateIssuance(o: Options, hash: HashFn, w: World, order: Order, k: Guid, earlier: Guid)
    requires KeysOk(o, w.keys, w.clock) && Constructible(o) && order.material.keyId !in w.keys
    requires IssueToken(o, hash, w, order.consentId, order.consent, order.material).Some?
    requires var keys := IssueToken(o, hash, w, order.consentId, order.consent, order.material).value.keys;
             k !in w.keys && k in keys && earlier in w.keys && keys[k].tenantId == w.keys[earlier].tenantId
    ensures IssueToken(o, hash, w, order.consentId, order.consent, order.material).value.keys[k].activatedAt == w.clock
    ensures w.clock - w.keys[earlier].activatedAt >= KeyLifetime(o) - RotationLead(o) >= 0
  {
    hide KeysOk, Led;
    var t := BySlug(w.tenants, order.consent.agent).value.id;
    assert EnsureActiveKey(o, w.keys, t, order.material, w.clock) != w.keys;
    UnforcedRotationIsLate(o, w.keys, w.clock, t, order.material, earlier);
  }

  /** Rotation ends every JWT of the agent at once: the key of its consents' current tokens is no
      longer in force, and no such token is honoured in any later world, until it is renewed. */
  lemma RotationEndsJwts(o: Options, lib: Library, w: World, slug: string, m: Material, later: World, id: Guid, token: string)
    requires Inv(o, lib, w) && m.keyId !in w.keys && !Blank(slug) && id in w.consents && w.consents[id].agent == slug
    requires Inv(o, lib, later) && Grown(Rotated(o, w, slug, m).keys, later.keys)
    requires id in later.consents && later.consents[id].tokenKeyId == w.consents[id].tokenKeyId
    requires !Blank(token) && !("ctok:" <= token)
    requires later.consents[id].tokenId in later.handedOut ==> Apart(lib.hash, token, later.handedOut[later.consents[id].tokenId])
    ensures !KeyInForce(later, later.consents[id]) && CheckToken(o, lib, later, token) != Honoured(id)
  {
    hide Inv;
    var v := Rotated(o, w, slug, m);
    SignerKnown(o, lib, w, id);
    InvKeys(o, lib, w);
    RotationKeepsKeysOk(o, w.keys, w.clock, BySlug(w.tenants, slug).value.id, m);
    assert Ordered(v.keys, w.consents[id].tokenKeyId, m.keyId);
    JwtAcceptance(o, lib, later, token, id);
  }

  lemma SignerKnown(o: Options, lib: Library, w: World, id: Guid)
    requires Inv(o, lib, w) && id in w.consents
    ensures BySlug(w.tenants, w.consents[id].agent).Some?
    ensures w.consents[id].tokenKeyId in w.keys
    ensures w.keys[w.consents[id].tokenKeyId].tenantId == BySlug(w.tenants, w.consents[id].agent).value.id
  {
    ConsentInvariant(o, lib, w, id);
  }

  // ----- Token and key lifetimes -----

  /** If the token lifetime is within the rotation lead, no token outlives its signing key. */
  lemma TokensWithinKeys(o: Options, lib: Library, trace: seq<World>, steps: seq<Timed>, n: nat, t: Guid)
    requires Constructible(o) && TokenLifetime(o) <= RotationLead(o)
    requires Run(o, lib, trace, steps) && n < |trace| && t in trace[n].tokens
    ensures trace[n].tokens[t].keyId in trace[n].keys
    ensures trace[n].tokens[t].expiresAt <= trace[n].keys[trace[n].tokens[t].keyId].expiresAt
  {
    RunKeepsInv(o, lib, trace, steps, n);
    hide Run, ConsentsOk, UniqueEmails, UniqueTokens, RequestsOk, ApplicationsOk, KeysOk;
    assert TokenOk(o, trace[n], t, trace[n].tokens[t]);
  }
}
