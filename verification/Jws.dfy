/** Detached JWS in compact form (section 7.1 of RFC 7515): signing receipts, verifying against a
    tenant's keys, and the endpoint's check before that. */
module Jws {
  import opened Common
  import opened Domain
  import opened Base64Url
  import opened Coordinates

  datatype JsonWebKey = JsonWebKey(kty: Option<string>, kid: Option<string>, alg: Option<string>, x: Option<string>, y: Option<string>)

  datatype Header = Header(alg: Option<string>, kid: Option<string>)

  /** JSON headers and ECDSA. readHeader is None when decoding throws or yields null; verify gets
      the coordinates, the signed text and the signature, and is false when it throws. */
  datatype Crypto = Crypto(
    readHeader: Bytes -> Option<Header>,
    writeHeader: Header -> Bytes,
    verify: (Bytes, Bytes, string, Bytes) -> bool)

  datatype Verdict = Accept | Reject | Throws

  // ----- Three parts -----

  /** string.Split with one character. */
  function Split(s: string, c: char): (parts: seq<string>)
    ensures parts != []
  {
    if s == [] then [""]
    else
      var rest := Split(s[1..], c);
      if s[0] == c then [""] + rest else [[s[0]] + rest[0]] + rest[1..]
  }

  function Compact(a: string, b: string, c: string): string {
    a + "." + b + "." + c
  }

  predicate Free(s: string, c: char) {
    forall i | 0 <= i < |s| :: s[i] != c
  }

  lemma {:induction false} SplitFree(s: string, c: char)
    requires Free(s, c)
    ensures Split(s, c) == [s]
  {
    if s != [] {
      SplitFree(s[1..], c);
      assert s == [s[0]] + s[1..];
    }
  }

  lemma {:induction false} SplitFirst(s: string, c: char, rest: string)
    requires Free(s, c)
    ensures Split(s + [c] + rest, c) == [s] + Split(rest, c)
    decreases |s|
  {
    if s == [] {
      assert (s + [c] + rest)[1..] == rest;
    } else {
      SplitFirst(s[1..], c, rest);
      assert (s + [c] + rest)[1..] == s[1..] + [c] + rest;
      assert s == [s[0]] + s[1..];
    }
  }

  lemma SplitThree(a: string, b: string, c: string)
    requires Free(a, '.') && Free(b, '.') && Free(c, '.')
    ensures Split(Compact(a, b, c), '.') == [a, b, c]
  {
    SplitFirst(a, '.', b + "." + c);
    assert Compact(a, b, c) == a + ['.'] + (b + "." + c);
    SplitFirst(b, '.', c);
    SplitFree(c, '.');
  }

  function Rejoin(parts: seq<string>, c: char): string
    requires parts != []
  {
    if |parts| == 1 then parts[0] else parts[0] + ([c] + Rejoin(parts[1..], c))
  }

  /** The parts hold no separator, and joined by it they are the text again. */
  lemma {:induction false} SplitRejoins(s: string, c: char)
    ensures Rejoin(Split(s, c), c) == s && forall i | 0 <= i < |Split(s, c)| :: Free(Split(s, c)[i], c)
  {
    if s != [] {
      SplitRejoins(s[1..], c);
      var rest := Split(s[1..], c);
      assert s == [s[0]] + s[1..];
      if s[0] == c {
        assert Split(s, c)[1..] == rest;
      } else {
        assert Split(s, c)[1..] == rest[1..];
        if |rest| == 1 { assert rest == [s[1..]]; }
      }
    }
  }

  lemma EncodedFree(b: Bytes)
    ensures Free(Encode(b), '.')
  {
    EncodedAlphabet(b);
    forall i | 0 <= i < |Encode(b)| ensures Encode(b)[i] != '.' { assert IsUrlSymbol(Encode(b)[i]); }
  }

  // ----- Choosing keys -----

  /** string.Equals, ordinal, ignoring case, on ASCII text. */
  predicate SameIgnoringCase(a: string, b: string) {
    Lower(a) == Lower(b)
  }

  predicate Is(a: Option<string>, b: string) {
    a.Some? && SameIgnoringCase(a.value, b)
  }

  predicate Selected(key: JsonWebKey, kid: Option<string>, alg: string) {
    && Is(key.kty, "EC")
    && SameIgnoringCase(alg, "ES256")
    && (key.alg.Some? && key.alg.value != "" ==> SameIgnoringCase(key.alg.value, alg))
    && (kid.Some? && !Blank(kid.value) ==> key.kid == kid)
  }

  /** The keys that may have signed, in order. */
  function Candidates(keys: seq<JsonWebKey>, kid: Option<string>, alg: string): seq<JsonWebKey> {
    if keys == [] then []
    else Candidates(keys[..|keys| - 1], kid, alg) + if Selected(keys[|keys| - 1], kid, alg) then [keys[|keys| - 1]] else []
  }

  lemma {:induction false} CandidatesAre(keys: seq<JsonWebKey>, kid: Option<string>, alg: string)
    ensures forall k :: k in Candidates(keys, kid, alg) <==> k in keys && Selected(k, kid, alg)
  {
    if keys != [] {
      CandidatesAre(keys[..|keys| - 1], kid, alg);
      assert keys == keys[..|keys| - 1] + [keys[|keys| - 1]];
    }
  }

  lemma NoKeysNoCandidates(kid: Option<string>, alg: string)
    ensures Candidates([], kid, alg) == []
  {
  }

  method ResolveCandidateKeys(keys: seq<JsonWebKey>, kid: Option<string>, alg: string) returns (list: seq<JsonWebKey>)
    ensures list == Candidates(keys, kid, alg)
  {
    list := [];
    for i := 0 to |keys|
      invariant list == Candidates(keys[..i], kid, alg)
    {
      var key := keys[i];
      assert keys[..i + 1][..i] == keys[..i];
      if !Is(key.kty, "EC") {
        continue;
      }
      if !SameIgnoringCase(alg, "ES256") {
        continue;
      }
      if key.alg.Some? && key.alg.value != "" && !SameIgnoringCase(key.alg.value, alg) {
        continue;
      }
      if kid.Some? && !Blank(kid.value) && key.kid != kid {
        continue;
      }
      list := list + [key];
    }
    assert keys[..|keys|] == keys;
  }

  predicate VerifiesWith(crypto: Crypto, key: JsonWebKey, text: string, signature: Bytes) {
    var x, y := Component(key.x), Component(key.y);
    |signature| == 2 * KEY_SIZE_BYTES && x.Some? && y.Some? && crypto.verify(x.value, y.value, text, signature)
  }

  // ----- Verifying -----

  /** The endpoint's check before verification: the header that will be recorded with the
      application, or None when the submission is refused. */
  function TryParseDetachedJws(crypto: Crypto, payload: Bytes, jws: string): Option<Header> {
    if Blank(jws) then None
    else
      var parts := Split(jws, '.');
      if |parts| != 3 then None
      else if parts[1] != Encode(payload) then None
      else
        var bytes := Decode(parts[0]);
        if bytes.None? then None
        else
          var header := crypto.readHeader(bytes.value);
          if header.None? || header.value.alg.None? || Blank(header.value.alg.value) then None else header
  }

  /** The verifier's own reading of the header part; None when it cannot be decoded or names no
      algorithm. */
  function TryDecodeHeader(crypto: Crypto, part: string): Option<Header> {
    var bytes := Decode(part);
    var header := if bytes.None? then None else crypto.readHeader(bytes.value);
    if header.Some? && header.value.alg.Some? && !Blank(header.value.alg.value) then header else None
  }

  predicate SomeKeyVerifies(crypto: Crypto, keys: seq<JsonWebKey>, text: string, signature: Bytes) {
    exists k | k in keys :: VerifiesWith(crypto, k, text, signature)
  }

  /** VerifyDetached; keys is None when the store has none for the tenant. */
  function Verify(crypto: Crypto, payload: Bytes, jws: string, slug: string, keys: Option<seq<JsonWebKey>>): Verdict {
    if Blank(jws) || Blank(slug) then Reject
    else
      var parts := Split(jws, '.');
      if |parts| != 3 || parts[1] != Encode(payload) then Reject
      else
        var header := TryDecodeHeader(crypto, parts[0]);
        if header.None? || keys.None? then Reject
        else
          var candidates := Candidates(keys.value, header.value.kid, header.value.alg.value);
          if candidates == [] then Reject
          else
            var signature := Decode(parts[2]);
            if signature.None? then Throws
            else if SomeKeyVerifies(crypto, candidates, parts[0] + "." + parts[1], signature.value) then Accept
            else Reject
  }

  /** The verifier; keysOf is what the key store answers for a tenant. */
  class JwksJwsVerifier {
    const crypto: Crypto
    const keysOf: string -> Option<seq<JsonWebKey>>

    constructor (crypto: Crypto, keysOf: string -> Option<seq<JsonWebKey>>)
      ensures this.crypto == crypto && this.keysOf == keysOf
    {
      this.crypto := crypto;
      this.keysOf := keysOf;
    }

    method VerifyDetached(payload: Bytes, jws: string, slug: string) returns (r: Verdict)
      ensures r == Verify(crypto, payload, jws, slug, keysOf(slug))
      ensures r == Accept <==> !Blank(slug) && keysOf(slug).Some? && Authentic(crypto, payload, jws, keysOf(slug).value)
    {
      AcceptedIsAuthentic(crypto, payload, jws, slug, keysOf(slug));
      hide Authentic, Encode, Decode, Split, Blank, VerifiesWith, Candidates;
      if Blank(jws) || Blank(slug) {
        return Reject;
      }
      var parts := Split(jws, '.');
      if |parts| != 3 {
        return Reject;
      }
      if parts[1] != Encode(payload) {
        return Reject;
      }
      var header := TryDecodeHeader(crypto, parts[0]);
      if header.None? {
        return Reject;
      }
      var jwks := keysOf(slug);
      NoKeysNoCandidates(header.value.kid, header.value.alg.value);
      if jwks.None? || |jwks.value| == 0 {
        return Reject;
      }
      var candidateKeys := ResolveCandidateKeys(jwks.value, header.value.kid, header.value.alg.value);
      if |candidateKeys| == 0 {
        return Reject;
      }
      var signingInput := parts[0] + "." + parts[1];
      var signatureBytes := Decode(parts[2]);
      if signatureBytes.None? {
        return Throws;
      }
      for i := 0 to |candidateKeys|
        invariant forall k | 0 <= k < i :: !VerifiesWith(crypto, candidateKeys[k], signingInput, signatureBytes.value)
      {
        if VerifiesWith(crypto, candidateKeys[i], signingInput, signatureBytes.value) {
          assert candidateKeys[i] in candidateKeys;
          return Accept;
        }
      }
      return Reject;
    }
  }

  // ----- Properties of verification -----

  /** The key of the tenant made the signature: it is an EC key, the header asks for ES256, the key's
      own algorithm is absent or the same, the key id is equal when the header gives one, both of its
      coordinates are given as x and y, and the signature is one of 64 bytes that ECDSA verifies. */
  predicate Made(crypto: Crypto, key: JsonWebKey, header: Header, x: Bytes, y: Bytes, text: string, signature: Bytes) {
    && key.kty.Some? && Lower(key.kty.value) == "ec"
    && header.alg.Some? && Lower(header.alg.value) == "es256"
    && (key.alg == None || key.alg == Some("") || Lower(key.alg.value) == Lower(header.alg.value))
    && (header.kid == None || Blank(header.kid.value) || key.kid == header.kid)
    && IsCoordinate(key.x, x) && IsCoordinate(key.y, y)
    && |signature| == 64 && crypto.verify(x, y, text, signature)
  }

  lemma {:induction false} PartsNeedDots(s: string, c: char)
    requires |Split(s, c)| > 1
    ensures c in s
  {
    if s[0] != c {
      PartsNeedDots(s[1..], c);
    }
  }

  lemma LowerNames()
    ensures Lower("EC") == "ec" && Lower("ES256") == "es256"
  {
  }

  lemma MadeIsSelected(crypto: Crypto, key: JsonWebKey, header: Header, text: string, signature: Bytes)
    requires header.alg.Some?
    ensures (exists x, y :: Made(crypto, key, header, x, y, text, signature))
       <==> Selected(key, header.kid, header.alg.value) && VerifiesWith(crypto, key, text, signature)
  {
    hide Lower, Blank;
    LowerNames();
    var x, y := Component(key.x), Component(key.y);
    forall c ensures Component(key.x) == Some(c) <==> IsCoordinate(key.x, c) { ComponentIs(key.x, c); }
    forall c ensures Component(key.y) == Some(c) <==> IsCoordinate(key.y, c) { ComponentIs(key.y, c); }
    hide Component, IsCoordinate;
    if x.Some? && y.Some? && Selected(key, header.kid, header.alg.value) && VerifiesWith(crypto, key, text, signature) {
      assert Made(crypto, key, header, x.value, y.value, text, signature);
    }
  }

  /** Some key among the tenant's made the signature of a text. */
  ghost predicate MadeByOne(crypto: Crypto, keys: seq<JsonWebKey>, header: Header, text: string, signature: Bytes) {
    exists k, x, y :: k in keys && Made(crypto, k, header, x, y, text, signature)
  }

  lemma SomeKeyMade(crypto: Crypto, keys: seq<JsonWebKey>, header: Header, text: string, signature: Bytes)
    requires header.alg.Some?
    ensures MadeByOne(crypto, keys, header, text, signature)
       <==> SomeKeyVerifies(crypto, Candidates(keys, header.kid, header.alg.value), text, signature)
  {
    hide Made, Selected, VerifiesWith, Candidates;
    CandidatesAre(keys, header.kid, header.alg.value);
    forall k
      ensures (exists x, y :: Made(crypto, k, header, x, y, text, signature))
         <==> Selected(k, header.kid, header.alg.value) && VerifiesWith(crypto, k, text, signature)
    {
      MadeIsSelected(crypto, k, header, text, signature);
    }
    if MadeByOne(crypto, keys, header, text, signature) {
      var k, x, y :| k in keys && Made(crypto, k, header, x, y, text, signature);
      assert k in Candidates(keys, header.kid, header.alg.value);
    }
    if SomeKeyVerifies(crypto, Candidates(keys, header.kid, header.alg.value), text, signature) {
      var k :| k in Candidates(keys, header.kid, header.alg.value) && VerifiesWith(crypto, k, text, signature);
      var x, y :| Made(crypto, k, header, x, y, text, signature);
      assert k in keys;
    }
  }

  /** What an accepted text is, part by part: its second part is the encoded payload, its first one
      decodes to a header with an algorithm, and its third one to a signature that one of the
      tenant's keys made over the first two. */
  ghost predicate Authentic(crypto: Crypto, payload: Bytes, jws: string, keys: seq<JsonWebKey>) {
    var parts := Split(jws, '.');
    && |parts| == 3 && parts[1] == Encode(payload)
    && Decode(parts[0]).Some? && Decode(parts[2]).Some?
    && var header := crypto.readHeader(Decode(parts[0]).value);
       header.Some? && MadeByOne(crypto, keys, header.value, parts[0] + "." + parts[1], Decode(parts[2]).value)
  }

  lemma HeaderNamesAlgorithm(crypto: Crypto, keys: seq<JsonWebKey>, header: Header, text: string, signature: Bytes)
    requires MadeByOne(crypto, keys, header, text, signature)
    ensures header.alg.Some? && !Blank(header.alg.value)
  {
    var k, x, y :| k in keys && Made(crypto, k, header, x, y, text, signature);
    var a := header.alg.value;
    assert Lower(a)[0] == LowerChar(a[0]) == 'e';
    assert !IsWhiteSpace(a[0]);
  }

  /** Acceptance, both ways: a text is accepted for a payload and a tenant exactly if it is authentic
      under the tenant's keys. */
  lemma AcceptedIsAuthentic(crypto: Crypto, payload: Bytes, jws: string, slug: string, keys: Option<seq<JsonWebKey>>)
    ensures Verify(crypto, payload, jws, slug, keys) == Accept
       <==> !Blank(slug) && keys.Some? && Authentic(crypto, payload, jws, keys.value)
  {
    hide Encode, Decode, Split, MadeByOne, SomeKeyVerifies, Candidates;
    var parts := Split(jws, '.');
    if |parts| == 3 {
      PartsNeedDots(jws, '.');
      assert !Blank(jws);
      hide Blank;
      if keys.Some? && Decode(parts[0]).Some? && Decode(parts[2]).Some? {
        var header := crypto.readHeader(Decode(parts[0]).value);
        var text, signature := parts[0] + "." + parts[1], Decode(parts[2]).value;
        if header.Some? {
          if MadeByOne(crypto, keys.value, header.value, text, signature) {
            HeaderNamesAlgorithm(crypto, keys.value, header.value, text, signature);
          }
          if header.value.alg.Some? {
            SomeKeyMade(crypto, keys.value, header.value, text, signature);
            NoneVerifies(crypto, text, signature);
          }
        }
      }
    }
  }

  lemma NoneVerifies(crypto: Crypto, text: string, signature: Bytes)
    ensures !SomeKeyVerifies(crypto, [], text, signature)
  {
  }

  /** One JWS text verifies for at most one payload, whatever the tenants and keys. */
  lemma OnePayload(crypto: Crypto, jws: string, p: Bytes, q: Bytes, slug: string, slug': string,
                   keys: Option<seq<JsonWebKey>>, keys': Option<seq<JsonWebKey>>)
    requires Verify(crypto, p, jws, slug, keys) == Accept && Verify(crypto, q, jws, slug', keys') == Accept
    ensures p == q
  {
    EncodeInjective(p, q);
  }

  /** The check before verification never disagrees with the verifier, whatever the tenant and its
      keys: a text that the verifier does not reject passes it, and the key id and algorithm that the
      endpoint then records are those by which the verifier chose the tenant's keys. */
  lemma PrecheckAgrees(crypto: Crypto, payload: Bytes, jws: string, slug: string, keys: Option<seq<JsonWebKey>>)
    requires Verify(crypto, payload, jws, slug, keys) != Reject
    ensures TryParseDetachedJws(crypto, payload, jws).Some? && keys.Some?
    ensures var header := TryParseDetachedJws(crypto, payload, jws).value;
            header.alg.Some? && exists k | k in keys.value :: Selected(k, header.kid, header.alg.value)
  {
    hide Split, Encode, Decode, Selected, VerifiesWith, Blank;
    var header := TryDecodeHeader(crypto, Split(jws, '.')[0]).value;
    CandidatesAre(keys.value, header.kid, header.alg.value);
    var candidates := Candidates(keys.value, header.kid, header.alg.value);
    assert candidates[0] in candidates;
  }

  /** Verification throws exactly on a signature part that does not decode, once everything before
      it has passed: that part is decoded outside any handler. */
  lemma ThrowsOnBadSignature(crypto: Crypto, payload: Bytes, jws: string, slug: string, keys: Option<seq<JsonWebKey>>)
    ensures Verify(crypto, payload, jws, slug, keys) == Throws
       <==> && !Blank(slug) && TryParseDetachedJws(crypto, payload, jws).Some? && keys.Some?
            && (exists k | k in keys.value :: Chosen(crypto, payload, jws, k))
            && Decode(Split(jws, '.')[2]).None?
  {
    hide Split, Encode, Decode, Selected, VerifiesWith, Blank;
    var header := TryParseDetachedJws(crypto, payload, jws);
    if header.Some? && keys.Some? {
      var candidates := Candidates(keys.value, header.value.kid, header.value.alg.value);
      CandidatesAre(keys.value, header.value.kid, header.value.alg.value);
      if candidates != [] {
        assert candidates[0] in candidates && Chosen(crypto, payload, jws, candidates[0]);
      }
    }
  }

  /** The key is a candidate for the text. */
  predicate Chosen(crypto: Crypto, payload: Bytes, jws: string, key: JsonWebKey) {
    var header := TryParseDetachedJws(crypto, payload, jws);
    header.Some? && header.value.alg.Some? && Selected(key, header.value.kid, header.value.alg.value)
  }

  // ----- Signing -----

  /** A signing key: its id, public coordinates, and what it signs a text with. */
  datatype SigningKey = SigningKey(kid: string, x: Bytes, y: Bytes, sign: string -> Bytes)

  function SigningInput(crypto: Crypto, key: SigningKey, payload: Bytes): string {
    Encode(crypto.writeHeader(Header(Some("ES256"), Some(key.kid)))) + "." + Encode(payload)
  }

  /** Sign; None when the signature has not the length of two coordinates. */
  function Sign(crypto: Crypto, key: SigningKey, payload: Bytes): Option<string> {
    var input := SigningInput(crypto, key, payload);
    var signature := key.sign(input);
    if |signature| != 2 * KEY_SIZE_BYTES then None else Some(input + "." + Encode(signature))
  }

  /** Headers read back, and what the key signs verifies under its coordinates. */
  predicate Genuine(crypto: Crypto, key: SigningKey, payload: Bytes) {
    var input := SigningInput(crypto, key, payload);
    && crypto.readHeader(crypto.writeHeader(Header(Some("ES256"), Some(key.kid)))) == Some(Header(Some("ES256"), Some(key.kid)))
    && crypto.verify(key.x, key.y, input, key.sign(input))
  }

  /** The public form of a signing key: an EC key for ES256 or any algorithm, with the same id and
      the same coordinates in any decodable spelling. */
  predicate PublicFormOf(jwk: JsonWebKey, key: SigningKey) {
    && Is(jwk.kty, "EC") && (jwk.alg.Some? && jwk.alg.value != "" ==> SameIgnoringCase(jwk.alg.value, "ES256"))
    && (!Blank(key.kid) ==> jwk.kid == Some(key.kid))
    && Component(jwk.x) == Some(key.x) && Component(jwk.y) == Some(key.y)
  }

  lemma SignedParts(crypto: Crypto, key: SigningKey, payload: Bytes)
    requires Sign(crypto, key, payload).Some?
    ensures var parts := Split(Sign(crypto, key, payload).value, '.');
            && |parts| == 3
            && parts[0] == Encode(crypto.writeHeader(Header(Some("ES256"), Some(key.kid))))
            && parts[1] == Encode(payload)
            && parts[2] == Encode(key.sign(SigningInput(crypto, key, payload)))
  {
    var h, s := crypto.writeHeader(Header(Some("ES256"), Some(key.kid))), key.sign(SigningInput(crypto, key, payload));
    EncodedFree(h);
    EncodedFree(payload);
    EncodedFree(s);
    SplitThree(Encode(h), Encode(payload), Encode(s));
    assert Sign(crypto, key, payload).value == Compact(Encode(h), Encode(payload), Encode(s));
  }

  /** What Sign writes has exactly three parts and is accepted whenever the key's public form is
      among the tenant's keys. */
  lemma SignedIsAccepted(crypto: Crypto, key: SigningKey, payload: Bytes, slug: string, keys: seq<JsonWebKey>, jwk: JsonWebKey)
    requires Sign(crypto, key, payload).Some? && Genuine(crypto, key, payload)
    requires !Blank(slug) && jwk in keys && PublicFormOf(jwk, key)
    ensures |Split(Sign(crypto, key, payload).value, '.')| == 3
    ensures Verify(crypto, payload, Sign(crypto, key, payload).value, slug, Some(keys)) == Accept
  {
    hide Encode, Decode, Split, Component, Lower, Candidates;
    var header := Header(Some("ES256"), Some(key.kid));
    var input := SigningInput(crypto, key, payload);
    var jws := Sign(crypto, key, payload).value;
    SignedParts(crypto, key, payload);
    RoundTrip(crypto.writeHeader(header));
    RoundTrip(key.sign(input));
    assert "ES256"[0] == 'E' && !Blank("ES256");
    assert jws[|input|] == '.' && !Blank(jws);
    assert TryDecodeHeader(crypto, Encode(crypto.writeHeader(header))) == Some(header);
    CandidatesAre(keys, header.kid, "ES256");
    assert VerifiesWith(crypto, jwk, input, key.sign(input));
    assert jwk in Candidates(keys, header.kid, "ES256");
  }
}
