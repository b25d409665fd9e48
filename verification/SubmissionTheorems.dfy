/** The gateway's submissions together with the verifier of detached signatures: what was signed, and
    by whom, when a run adds an application. */
module SubmissionTheorems {
  import opened Common
  import opened AuditTables
  import opened Domain
  import opened Gateway
  import opened GatewayInvariant
  import opened TokenTheorems
  import opened Base64Url
  import Jws

  type KeysOf = string -> Option<seq<Jws.JsonWebKey>>

  /** The endpoint's check of a signature for an agent: first its own, then the verifier's. */
  predicate Checks(crypto: Jws.Crypto, keysOf: KeysOf, payload: Bytes, jws: Option<string>, agent: string) {
    && jws.Some? && Jws.TryParseDetachedJws(crypto, payload, jws.value).Some?
    && Jws.Verify(crypto, payload, jws.value, agent, keysOf(agent)) == Jws.Accept
  }

  /** The text is a signature over the payload by one of the agent's keys. */
  ghost predicate SignedBy(crypto: Jws.Crypto, keysOf: KeysOf, payload: Bytes, jws: Option<string>, agent: string) {
    jws.Some? && keysOf(agent).Some? && Jws.Authentic(crypto, payload, jws.value, keysOf(agent).value)
  }

  /** The two checks together pass exactly what one of the agent's keys signed. */
  lemma ChecksAreAuthentic(crypto: Jws.Crypto, keysOf: KeysOf, payload: Bytes, jws: Option<string>, agent: string)
    ensures Checks(crypto, keysOf, payload, jws, agent) <==> !Blank(agent) && SignedBy(crypto, keysOf, payload, jws, agent)
  {
    hide Jws.Authentic, Jws.TryParseDetachedJws, Jws.Verify, Blank;
    if jws.Some? {
      Jws.AcceptedIsAuthentic(crypto, payload, jws.value, agent, keysOf(agent));
      if Jws.Verify(crypto, payload, jws.value, agent, keysOf(agent)) == Jws.Accept {
        Jws.PrecheckAgrees(crypto, payload, jws.value, agent, keysOf(agent));
      }
    }
  }

  /** Whatever application a run adds outside development, one of the keys of the agent that it names
      signed the payload that came with it. */
  lemma ApplicationsAreAuthentic(o: Options, lib: Library, trace: seq<World>, steps: seq<Timed>, n: nat, a: Guid,
                                 crypto: Jws.Crypto, keysOf: KeysOf, payload: Bytes)
    requires Constructible(o) && Run(o, lib, trace, steps) && n < |steps|
    requires a !in trace[n].applications && a in trace[n + 1].applications
    requires steps[n].step.Submit? ==>
               var s := steps[n].step.submission;
               !s.development && forall agent :: s.detached(agent) == Checks(crypto, keysOf, payload, s.jws, agent)
    ensures steps[n].step.Submit?
    ensures SignedBy(crypto, keysOf, payload, steps[n].step.submission.jws, trace[n + 1].applications[a].agent)
  {
    hide Possible, After, Checks, SignedBy;
    ApplicationsAreSigned(o, lib, trace, steps, n, a);
    ChecksAreAuthentic(crypto, keysOf, payload, steps[n].step.submission.jws, trace[n + 1].applications[a].agent);
  }

  /** The same signature text never serves two applications with different payloads. */
  lemma OneSignatureOnePayload(crypto: Jws.Crypto, keysOf: KeysOf, jws: Option<string>, p: Bytes, q: Bytes, agent: string, agent': string)
    requires Checks(crypto, keysOf, p, jws, agent) && Checks(crypto, keysOf, q, jws, agent')
    ensures p == q
  {
    hide Jws.TryParseDetachedJws, Jws.Verify;
    Jws.OnePayload(crypto, jws.value, p, q, agent, agent', keysOf(agent), keysOf(agent'));
  }
}
