/** Choosing a verification key from a JWK set (sections 4.2 to 4.5 of RFC 7517). */
module JwkSelection {
  import opened Domain
  import opened Text

  /** A member's JSON value, as far as selection looks at it. */
  datatype Json = JString(text: string) | JList(items: seq<Json>) | JOther

  datatype Jwk = Jwk(kid: Option<Json>, use: Option<Json>, keyOps: Option<Json>, alg: Option<Json>, material: nat)

  /** Building a key object from a JWK for an algorithm; `None` when the library refuses it. */
  type Builder = (Jwk, string) -> Option<nat>

  const KEY_OPERATIONS: set<string> :=
    {"sign", "verify", "encrypt", "decrypt", "wrapKey", "unwrapKey", "deriveKey", "deriveBits"}

  const ASYMMETRIC: set<string> :=
    {"RS256", "RS384", "RS512", "PS256", "PS384", "PS512", "ES256", "ES256K", "ES384", "ES512", "EDDSA"}

  function CanonicalAlgorithm(value: string): Option<string> {
    var name := Upper(Strip(value));
    if name !in ASYMMETRIC then None else if name == "EDDSA" then Some("EdDSA") else Some(name)
  }

  predicate UseAllows(use: Option<Json>) {
    use.None? || use.value == JString("sig")
  }

  predicate OperationsAllow(keyOps: Option<Json>) {
    keyOps.Some? ==>
      && keyOps.value.JList?
      && (forall o | o in keyOps.value.items :: o.JString? && o.text in KEY_OPERATIONS)
      && JString("verify") in keyOps.value.items
  }

  predicate AlgorithmAllows(alg: Option<Json>, algorithm: string) {
    alg.Some? ==> alg.value.JString? && CanonicalAlgorithm(alg.value.text) == Some(algorithm)
  }

  /** The key may verify this token. */
  predicate Eligible(k: Jwk, kid: string, algorithm: string) {
    && k.kid == Some(JString(kid))
    && UseAllows(k.use) && OperationsAllow(k.keyOps) && AlgorithmAllows(k.alg, algorithm)
  }

  /** Which keys may verify a token of `kid` and `algorithm`: the key id is that string; a `use` is
      "sig"; a list of operations names known ones only, "verify" among them; an `alg` is the token's
      algorithm up to outer spaces and letter case. */
  lemma EligibleExactly(k: Jwk, kid: string, algorithm: string)
    ensures Eligible(k, kid, algorithm) <==>
              && k.kid == Some(JString(kid))
              && (k.use == None || k.use == Some(JString("sig")))
              && (k.keyOps.Some? ==>
                    && k.keyOps.value.JList?
                    && (exists n :: 0 <= n < |k.keyOps.value.items| && k.keyOps.value.items[n] == JString("verify"))
                    && (forall n :: 0 <= n < |k.keyOps.value.items| ==>
                          && k.keyOps.value.items[n].JString?
                          && k.keyOps.value.items[n].text in
                               {"sign", "verify", "encrypt", "decrypt", "wrapKey", "unwrapKey", "deriveKey", "deriveBits"}))
              && (k.alg.Some? ==>
                    && k.alg.value.JString?
                    && var name := Upper(Strip(k.alg.value.text));
                       if name == "EDDSA" then algorithm == "EdDSA"
                       else
                         && name == algorithm
                         && name in {"RS256", "RS384", "RS512", "PS256", "PS384", "PS512", "ES256", "ES256K", "ES384", "ES512"})
  {
    if k.keyOps.Some? && k.keyOps.value.JList? {
      var items := k.keyOps.value.items;
      assert forall n :: 0 <= n < |items| ==> items[n] in items;
    }
  }

  predicate Yields(build: Builder, k: Jwk, kid: string, algorithm: string) {
    Eligible(k, kid, algorithm) && build(k, algorithm).Some?
  }

  /** The first key that is eligible and can be built; nothing else is ever tried. */
  method KeyForToken(build: Builder, keys: seq<Jwk>, kid: string, algorithm: string) returns (r: Option<nat>)
    ensures r.None? <==> forall k :: k in keys ==> !Yields(build, k, kid, algorithm)
    ensures r.Some? ==>
              exists n :: 0 <= n < |keys|
                && Yields(build, keys[n], kid, algorithm) && r == build(keys[n], algorithm)
                && forall m :: 0 <= m < n ==> !Yields(build, keys[m], kid, algorithm)
  {
    for n := 0 to |keys|
      invariant forall m :: 0 <= m < n ==> !Yields(build, keys[m], kid, algorithm)
    {
      var k := keys[n];
      if k.kid != Some(JString(kid)) { continue; }
      if !UseAllows(k.use) { continue; }
      if !OperationsAllow(k.keyOps) { continue; }
      if !AlgorithmAllows(k.alg, algorithm) { continue; }
      r := build(k, algorithm);
      if r.Some? {
        assert Yields(build, keys[n], kid, algorithm);
        return;
      }
    }
    r := None;
  }
}
