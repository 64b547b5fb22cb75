/**
 Attestation tokens in JWS compact form, section 7.1 of RFC 7515 (crates/gcp-attestation/src/jwt.rs
 and crates/gcp-attestation/src/verify.rs).  UTF-8 validation, JSON parsing and the RSA check are
 functions of the environment `Env`.
 */
module Jwt {
  import opened Sequences
  import opened Words
  import opened Base64

  const DOT: Byte := 46

  datatype Header = Header(alg: string, kid: string)
  datatype Claims = Claims(iss: string, aud: string, exp: nat, nbf: nat, swname: Option<string>)
  datatype Jwk = Jwk(kid: string, key: seq<Byte>)

  datatype Env = Env(
    utf8: seq<Byte> -> bool,
    header: seq<Byte> -> Option<Header>,       // the full header
    kid: seq<Byte> -> Option<string>,          // only its key ID
    claims: seq<Byte> -> Option<Claims>,
    signed: (seq<Byte>, seq<Byte>, seq<Byte>) -> bool)   // message, signature, key

  datatype Parsed = Parsed(header: Header, claims: Claims, signature: seq<Byte>, signingInput: seq<Byte>)

  // ---------------------------------------------------------------- segments

  predicate DotFree(s: seq<Byte>) {
    forall i :: 0 <= i < |s| ==> s[i] != DOT
  }

  /** Index of the first dot, or the length. */
  function FirstDot(s: seq<Byte>): (i: nat)
    ensures i <= |s| && DotFree(s[..i]) && (i < |s| ==> s[i] == DOT)
  {
    if s == [] || s[0] == DOT then 0
    else
      var i := 1 + FirstDot(s[1..]);
      assert forall j :: 0 < j < i ==> s[j] == s[1..][j - 1] == s[1..][..i - 1][j - 1];
      i
  }

  /** `split('.')`. */
  function Split(s: seq<Byte>): (parts: seq<seq<Byte>>)
    ensures |parts| >= 1
  {
    var i := FirstDot(s);
    if i == |s| then [s] else [s[..i]] + Split(s[i + 1..])
  }

  function Join(parts: seq<seq<Byte>>): seq<Byte> {
    if parts == [] then []
    else if |parts| == 1 then parts[0]
    else parts[0] + [DOT] + Join(parts[1..])
  }

  lemma {:induction false} SplitSound(s: seq<Byte>)
    ensures Join(Split(s)) == s
    ensures forall i :: 0 <= i < |Split(s)| ==> DotFree(Split(s)[i])
  {
    var i := FirstDot(s);
    if i == |s| {
      assert s[..i] == s;
    } else {
      SplitSound(s[i + 1..]);
      assert Split(s)[1..] == Split(s[i + 1..]);
      assert s == s[..i] + [DOT] + s[i + 1..];
    }
  }

  lemma {:induction false} FirstDotAt(a: seq<Byte>, rest: seq<Byte>)
    requires DotFree(a)
    ensures FirstDot(a + [DOT] + rest) == |a|
  {
    if a == [] {
      assert a + [DOT] + rest == [DOT] + rest;
    } else {
      assert (a + [DOT] + rest)[1..] == a[1..] + [DOT] + rest;
      FirstDotAt(a[1..], rest);
    }
  }

  /** Splitting finds the segments again, however the dot-free segments were chosen. */
  lemma {:induction false} SplitComplete(parts: seq<seq<Byte>>)
    requires parts != [] && forall i :: 0 <= i < |parts| ==> DotFree(parts[i])
    ensures Split(Join(parts)) == parts
  {
    if |parts| == 1 {
      var i := FirstDot(parts[0]);
      assert i == |parts[0]|;
    } else {
      var rest := Join(parts[1..]);
      FirstDotAt(parts[0], rest);
      SplitComplete(parts[1..]);
      var s := parts[0] + [DOT] + rest;
      assert s[..|parts[0]|] == parts[0] && s[|parts[0]| + 1..] == rest;
      assert parts == [parts[0]] + parts[1..];
    }
  }

  // ---------------------------------------------------------------- parsing

  function ParseParts(env: Env, h: seq<Byte>, p: seq<Byte>, sig: seq<Byte>): Option<Parsed> {
    var hb, pb, sb := DecodeUrl(h), DecodeUrl(p), DecodeUrl(sig);
    if !hb.Ok? || env.header(hb.bytes).None? then None
    else if !pb.Ok? || env.claims(pb.bytes).None? then None
    else if !sb.Ok? then None
    else Some(Parsed(env.header(hb.bytes).value, env.claims(pb.bytes).value, sb.bytes, h + [DOT] + p))
  }

  function ParseJwt(env: Env, token: seq<Byte>): Option<Parsed> {
    if !env.utf8(token) || |Split(token)| != 3 then None
    else var parts := Split(token); ParseParts(env, parts[0], parts[1], parts[2])
  }

  /** `parse_jwt`, its buffer filled piece by piece. */
  method ParseToken(env: Env, token: seq<Byte>) returns (r: Option<Parsed>)
    ensures r == ParseJwt(env, token)
  {
    hide DecodeUrl;
    if !env.utf8(token) {
      return None;
    }
    var parts := Split(token);
    if |parts| != 3 {
      return None;
    }
    var header := DecodeUrl(parts[0]);
    if !header.Ok? || env.header(header.bytes).None? {
      return None;
    }
    var payload := DecodeUrl(parts[1]);
    if !payload.Ok? || env.claims(payload.bytes).None? {
      return None;
    }
    var signature := DecodeUrl(parts[2]);
    if !signature.Ok? {
      return None;
    }
    var input: seq<Byte> := [];
    input := input + parts[0];
    input := input + [DOT];
    input := input + parts[1];
    assert input == parts[0] + [DOT] + parts[1];
    r := Some(Parsed(env.header(header.bytes).value, env.claims(payload.bytes).value, signature.bytes, input));
  }

  /** The token is header, dot, payload, dot, signature, all three without dots. */
  predicate Segments(token: seq<Byte>, h: seq<Byte>, p: seq<Byte>, sig: seq<Byte>) {
    DotFree(h) && DotFree(p) && DotFree(sig) && token == h + [DOT] + p + [DOT] + sig
  }

  lemma SegmentsAreSplit(token: seq<Byte>, h: seq<Byte>, p: seq<Byte>, sig: seq<Byte>)
    ensures Segments(token, h, p, sig) <==> Split(token) == [h, p, sig]
  {
    assert Join([h, p, sig]) == h + [DOT] + (p + [DOT] + sig) by {
      assert [h, p, sig][1..] == [p, sig] && [p, sig][1..] == [sig];
      assert Join([p, sig]) == p + [DOT] + sig;
    }
    assert h + [DOT] + (p + [DOT] + sig) == h + [DOT] + p + [DOT] + sig;
    if Segments(token, h, p, sig) {
      SplitComplete([h, p, sig]);
    }
    if Split(token) == [h, p, sig] {
      SplitSound(token);
      assert Split(token)[0] == h && Split(token)[1] == p && Split(token)[2] == sig;
    }
  }

  /**
   Exactly the valid compact tokens are accepted, with the parts section 7.1 of RFC 7515 assigns: the
   signing input and the signature are the token before and after its last dot.
   */
  lemma ParseExact(env: Env, token: seq<Byte>, r: Parsed)
    ensures ParseJwt(env, token) == Some(r) <==>
      env.utf8(token) && exists h, p, sig ::
        Segments(token, h, p, sig) && ParseParts(env, h, p, sig) == Some(r)
    ensures ParseJwt(env, token) == Some(r) ==>
      exists sig :: DotFree(sig) && token == r.signingInput + [DOT] + sig && DecodeUrl(sig) == Ok(r.signature)
  {
    hide DecodeUrl;
    var parts := Split(token);
    if ParseJwt(env, token) == Some(r) {
      assert parts == [parts[0], parts[1], parts[2]];
      SegmentsAreSplit(token, parts[0], parts[1], parts[2]);
      assert token == r.signingInput + [DOT] + parts[2];
    }
    if h, p, sig :| Segments(token, h, p, sig) && ParseParts(env, h, p, sig) == Some(r) {
      SegmentsAreSplit(token, h, p, sig);
    }
  }

  /** Each segment is decoded on its own: the first is the header, the second the claims, the third the signature. */
  lemma PartsExact(env: Env, h: seq<Byte>, p: seq<Byte>, sig: seq<Byte>, t: Parsed)
    ensures ParseParts(env, h, p, sig) == Some(t) <==>
      && DecodeUrl(h).Ok? && env.header(DecodeUrl(h).bytes) == Some(t.header)
      && DecodeUrl(p).Ok? && env.claims(DecodeUrl(p).bytes) == Some(t.claims)
      && DecodeUrl(sig) == Ok(t.signature) && t.signingInput == h + [DOT] + p
  {
    hide DecodeUrl;
  }

  // ---------------------------------------------------------------- the key ID

  function ExtractKid(env: Env, token: seq<Byte>): Option<string> {
    var i := FirstDot(token);
    if !env.utf8(token) || i == |token| then None
    else
      var header := DecodeUrl(token[..i]);
      if !header.Ok? then None else env.kid(header.bytes)
  }

  function FindJwk(keys: seq<Jwk>, kid: string): (found: Option<Jwk>)
    ensures found.Some? ==> found.value in keys && found.value.kid == kid
    ensures found.None? ==> forall k | k in keys :: k.kid != kid
  {
    if keys == [] then None
    else if keys[0].kid == kid then Some(keys[0])
    else FindJwk(keys[1..], kid)
  }

  /** Both JSON readings of a header see the same key ID. */
  ghost predicate SameKid(env: Env) {
    forall b: seq<Byte> :: env.header(b).Some? ==> env.kid(b) == Some(env.header(b).value.kid)
  }

  datatype Verdict = Accepted | ParseError | BadAlgorithm | KeyNotFound | BadSignature | BadIssuer | BadSoftware
                   | BadAudience | Expired | NotYetValid

  function Verify(env: Env, token: seq<Byte>, jwk: Jwk, audience: Option<string>, now: Option<nat>): Verdict {
    var parsed := ParseJwt(env, token);
    if parsed.None? then ParseError
    else
      var t := parsed.value;
      if t.header.alg != "RS256" then BadAlgorithm
      else if t.header.kid != jwk.kid then KeyNotFound
      else if !env.signed(t.signingInput, t.signature, jwk.key) then BadSignature
      else if t.claims.iss != "https://confidentialcomputing.googleapis.com" then BadIssuer
      else if t.claims.swname.Some? && t.claims.swname.value != "CONFIDENTIAL_SPACE" then BadSoftware
      else if audience.Some? && t.claims.aud != audience.value then BadAudience
      else if now.Some? && now.value >= t.claims.exp then Expired
      else if now.Some? && t.claims.nbf > 0 && now.value < t.claims.nbf then NotYetValid
      else Accepted
  }

  lemma KidOfParsed(env: Env, token: seq<Byte>)
    requires SameKid(env) && ParseJwt(env, token).Some?
    ensures ExtractKid(env, token) == Some(ParseJwt(env, token).value.header.kid)
  {
    hide DecodeUrl;
    var i := FirstDot(token);
    assert Split(token)[0] == token[..i];
  }

  /**
   The key looked up with the key ID read from the token never fails the key-ID comparison, whatever
   the token; and no other key can pass it once the token parses.
   */
  lemma LookedUpKeyMatches(env: Env, token: seq<Byte>, keys: seq<Jwk>, jwk: Jwk,
                           audience: Option<string>, now: Option<nat>)
    requires SameKid(env)
    ensures ExtractKid(env, token).Some? && FindJwk(keys, ExtractKid(env, token).value) == Some(jwk) ==>
              Verify(env, token, jwk, audience, now) != KeyNotFound
    ensures Verify(env, token, jwk, audience, now) !in {ParseError, BadAlgorithm, KeyNotFound} ==>
              ExtractKid(env, token) == Some(jwk.kid)
  {
    hide DecodeUrl, ExtractKid;
    if ParseJwt(env, token).Some? {
      KidOfParsed(env, token);
    }
  }

  /** What an accepted token was signed over: every byte before its last dot. */
  lemma AcceptedCoversToken(env: Env, token: seq<Byte>, jwk: Jwk, audience: Option<string>, now: Option<nat>)
    requires Verify(env, token, jwk, audience, now) == Accepted
    ensures exists input, sig ::
              && DotFree(sig) && token == input + [DOT] + sig && DecodeUrl(sig).Ok?
              && env.signed(input, DecodeUrl(sig).bytes, jwk.key)
  {
    hide DecodeUrl;
    var t := ParseJwt(env, token).value;
    ParseExact(env, token, t);
    var sig :| DotFree(sig) && token == t.signingInput + [DOT] + sig && DecodeUrl(sig) == Ok(t.signature);
    assert env.signed(t.signingInput, DecodeUrl(sig).bytes, jwk.key);
  }

  // ---------------------------------------------------------------- acceptance

  /** Everything an accepted token must satisfy besides its times. */
  predicate Trusted(env: Env, t: Parsed, jwk: Jwk, audience: Option<string>) {
    && t.header.alg == "RS256" && t.header.kid == jwk.kid
    && env.signed(t.signingInput, t.signature, jwk.key)
    && t.claims.iss == "https://confidentialcomputing.googleapis.com"
    && t.claims.swname in {None, Some("CONFIDENTIAL_SPACE")}
    && audience in {None, Some(t.claims.aud)}
  }

  /** The validity window is half open; without a clock it is not looked at. */
  predicate Current(c: Claims, now: Option<nat>) {
    now.Some? ==> c.nbf <= now.value < c.exp
  }

  lemma AcceptedIsTrusted(env: Env, token: seq<Byte>, jwk: Jwk, audience: Option<string>, now: Option<nat>)
    ensures var parsed := ParseJwt(env, token);
            Verify(env, token, jwk, audience, now) == Accepted <==>
              parsed.Some? && Trusted(env, parsed.value, jwk, audience) && Current(parsed.value.claims, now)
  {
    hide ParseJwt;
  }

  /** The token consists of these segments, they parse to t, and t is to be accepted. */
  predicate Acceptable(env: Env, token: seq<Byte>, jwk: Jwk, audience: Option<string>, now: Option<nat>,
                       h: seq<Byte>, p: seq<Byte>, sig: seq<Byte>, t: Parsed) {
    && Segments(token, h, p, sig) && ParseParts(env, h, p, sig) == Some(t) && t.signingInput == h + [DOT] + p
    && Trusted(env, t, jwk, audience) && Current(t.claims, now)
  }

  /**
   Exactly the tokens that are accepted: three decodable segments whose header names the algorithm and
   the key, signed with that key over the first two segments, from the expected issuer and software, for
   the audience asked for, within their time.
   */
  lemma AcceptedExact(env: Env, token: seq<Byte>, jwk: Jwk, audience: Option<string>, now: Option<nat>)
    ensures Verify(env, token, jwk, audience, now) == Accepted <==>
      env.utf8(token) && exists h, p, sig, t :: Acceptable(env, token, jwk, audience, now, h, p, sig, t)
  {
    AcceptedIsTrusted(env, token, jwk, audience, now);
    hide DecodeUrl, Segments, Verify, ParseJwt, Trusted, Current;
    if Verify(env, token, jwk, audience, now) == Accepted {
      var t := ParseJwt(env, token).value;
      ParseExact(env, token, t);
      var h, p, sig :| Segments(token, h, p, sig) && ParseParts(env, h, p, sig) == Some(t);
      assert Acceptable(env, token, jwk, audience, now, h, p, sig, t);
    }
    if h, p, sig, t :| env.utf8(token) && Acceptable(env, token, jwk, audience, now, h, p, sig, t) {
      ParseExact(env, token, t);
    }
  }

  datatype Check = Check(fails: bool, verdict: Verdict)

  /** What is looked at in a parsed token, in this order. */
  function Checks(env: Env, t: Parsed, jwk: Jwk, audience: Option<string>, now: Option<nat>): (checks: seq<Check>)
    ensures |checks| == 8
  {
    [Check(t.header.alg != "RS256", BadAlgorithm),
     Check(t.header.kid != jwk.kid, KeyNotFound),
     Check(!env.signed(t.signingInput, t.signature, jwk.key), BadSignature),
     Check(t.claims.iss != "https://confidentialcomputing.googleapis.com", BadIssuer),
     Check(t.claims.swname.Some? && t.claims.swname.value != "CONFIDENTIAL_SPACE", BadSoftware),
     Check(audience.Some? && audience.value != t.claims.aud, BadAudience),
     Check(now.Some? && t.claims.exp <= now.value, Expired),
     Check(now.Some? && now.value < t.claims.nbf, NotYetValid)]
  }

  predicate PassesUpTo(checks: seq<Check>, n: nat)
    requires n <= |checks|
  {
    forall j :: 0 <= j < n ==> !checks[j].fails
  }

  /** The error reported is that of the first check that fails; a token that fails none is accepted. */
  lemma FirstFault(env: Env, token: seq<Byte>, jwk: Jwk, audience: Option<string>, now: Option<nat>)
    requires ParseJwt(env, token).Some?
    ensures var checks := Checks(env, ParseJwt(env, token).value, jwk, audience, now);
            var verdict := Verify(env, token, jwk, audience, now);
            if PassesUpTo(checks, 8) then verdict == Accepted
            else exists i :: 0 <= i < 8 && PassesUpTo(checks, i) && checks[i].fails && verdict == checks[i].verdict
  {
    hide ParseJwt;
    var checks := Checks(env, ParseJwt(env, token).value, jwk, audience, now);
    if !PassesUpTo(checks, 8) {
      var i := if checks[0].fails then 0 else if checks[1].fails then 1 else if checks[2].fails then 2
               else if checks[3].fails then 3 else if checks[4].fails then 4 else if checks[5].fails then 5
               else if checks[6].fails then 6 else 7;
      assert PassesUpTo(checks, i) && checks[i].fails;
    } else {
      assert !checks[0].fails && !checks[1].fails && !checks[2].fails && !checks[3].fails;
      assert !checks[4].fails && !checks[5].fails && !checks[6].fails && !checks[7].fails;
    }
  }

  lemma UnparsedFails(env: Env, token: seq<Byte>, jwk: Jwk, audience: Option<string>, now: Option<nat>)
    ensures Verify(env, token, jwk, audience, now) == ParseError <==> ParseJwt(env, token).None?
  {
    hide ParseJwt;
  }

  /** What giving a clock adds: acceptance without one, and the token's window. */
  lemma ClockExact(env: Env, token: seq<Byte>, jwk: Jwk, audience: Option<string>, now: nat)
    ensures var timeless := Verify(env, token, jwk, audience, None);
            var timed := Verify(env, token, jwk, audience, Some(now));
            if timeless != Accepted then timed == timeless
            else
              && ParseJwt(env, token).Some?
              && var c := ParseJwt(env, token).value.claims;
                 && (timed == Accepted <==> c.nbf <= now < c.exp)
                 && (timed == Expired <==> c.exp <= now)
                 && (timed == NotYetValid <==> now < c.nbf && now < c.exp)
  {
    hide DecodeUrl, Split;
  }

  /** What asking for an audience adds. */
  lemma AudienceExact(env: Env, token: seq<Byte>, jwk: Jwk, audience: string)
    ensures var any := Verify(env, token, jwk, None, None);
            var one := Verify(env, token, jwk, Some(audience), None);
            if any != Accepted then one == any
            else
              && ParseJwt(env, token).Some?
              && one == if ParseJwt(env, token).value.claims.aud == audience then Accepted else BadAudience
  {
    hide DecodeUrl, Split;
  }

  /** The first key with the ID wins. */
  lemma {:induction false} FirstKeyWins(before: seq<Jwk>, key: Jwk, after: seq<Jwk>)
    requires forall k | k in before :: k.kid != key.kid
    ensures FindJwk(before + [key] + after, key.kid) == Some(key)
  {
    if before == [] {
      assert before + [key] + after == [key] + after;
    } else {
      assert before[0] in before;
      assert (before + [key] + after)[1..] == before[1..] + [key] + after;
      FirstKeyWins(before[1..], key, after);
    }
  }

  /** The key ID is read from the text before the first dot, whatever follows it; without a dot there is none. */
  lemma KidExact(env: Env, h: seq<Byte>, rest: seq<Byte>)
    requires DotFree(h)
    ensures ExtractKid(env, h) == None
    ensures env.utf8(h + [DOT] + rest) ==>
              ExtractKid(env, h + [DOT] + rest)
              == if DecodeUrl(h).Ok? then env.kid(DecodeUrl(h).bytes) else None
    ensures !env.utf8(h + [DOT] + rest) ==> ExtractKid(env, h + [DOT] + rest) == None
  {
    hide DecodeUrl;
    FirstDotAt(h, rest);
    assert (h + [DOT] + rest)[..|h|] == h;
    var i := FirstDot(h);
    assert i == |h|;
  }
}
