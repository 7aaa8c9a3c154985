// Verifiable credentials issued by outside services: the ordered checks of
// `verify_credential` and the sign/verify round trip over the canonical form.
// Ed25519, base64url and RFC 3339 parsing are parameters.

module Credentials {
  import opened Common
  import opened Canonical

  /** A `FreeqCredential/v1`, serialised with the field names of its JSON form. */
  datatype Credential = Credential(
    typeTag: string,
    issuer: string,
    subject: string,
    credentialType: string,
    claims: Json,
    issuedAt: string,
    expiresAt: Option<string>,
    signature: string)

  /**
   * The signature scheme and the encodings around it. `validKey` says which
   * 32-byte strings decode to a verifying key; `b64Decode` returns None on
   * malformed base64url.
   */
  datatype Crypto = Crypto(
    validKey: seq<byte> -> bool,
    publicOf: seq<byte> -> seq<byte>,
    sign: (seq<byte>, seq<byte>) -> seq<byte>,
    verify: (seq<byte>, seq<byte>, seq<byte>) -> bool,
    b64Encode: seq<byte> -> string,
    b64Decode: string -> Option<seq<byte>>)

  /** What the primitives guarantee: keys made by `publicOf` are valid, signatures are 64 bytes and verify, base64url round-trips. */
  ghost predicate Sound(c: Crypto)
  {
    (forall k :: c.validKey(c.publicOf(k))) &&
    (forall k, m :: |c.sign(k, m)| == 64 && c.verify(c.publicOf(k), m, c.sign(k, m))) &&
    (forall b :: c.b64Decode(c.b64Encode(b)) == Some(b))
  }

  /** An idealised signature: a signature only verifies for the key and message it was made with. */
  ghost predicate Unforgeable(c: Crypto)
  {
    forall pk, m, k, m' :: c.verify(pk, m, c.sign(k, m')) ==> pk == c.publicOf(k) && m == m'
  }

  const TYPE_TAG := "FreeqCredential/v1"

  /** The serde form: `expires_at` is skipped when absent. */
  function ToJson(cred: Credential): (r: Json)
    ensures r.JObject? && Member("signature", JString(cred.signature)) in r.members
    ensures Member("claims", cred.claims) in r.members
  {
    var head := [Member("type", JString(cred.typeTag)), Member("issuer", JString(cred.issuer)),
                 Member("subject", JString(cred.subject)), Member("credential_type", JString(cred.credentialType)),
                 Member("claims", cred.claims), Member("issued_at", JString(cred.issuedAt))];
    var exp := if cred.expiresAt.Some? then [Member("expires_at", JString(cred.expiresAt.value))] else [];
    JObject(head + exp + [Member("signature", JString(cred.signature))])
  }

  /** The bytes that are signed: the canonical form as written (keys in code-point order) with an empty signature field. */
  function SigningInput(cred: Credential): seq<byte>
  {
    Utf8(CanonicalizeAsWritten(ToJson(cred.(signature := ""))))
  }

  lemma SigningInputIgnoresSignature(cred: Credential, s: string)
    ensures SigningInput(cred.(signature := s)) == SigningInput(cred)
  {
    assert cred.(signature := s).(signature := "") == cred.(signature := "");
  }

  /** `is_expired`: an expiry that parses and lies before `now`; an unparseable one never expires. */
  predicate IsExpired(parseTime: string -> Option<int>, now: int, cred: Credential)
  {
    cred.expiresAt.Some? && parseTime(cred.expiresAt.value).Some? && parseTime(cred.expiresAt.value).value < now
  }

  /**
   * `verify_credential_signature`: Err when the key or the signature encoding
   * is malformed, otherwise whether the signature verifies.
   */
  function VerifySignature(c: Crypto, cred: Credential, pk: seq<byte>): (r: Result<bool, string>)
    ensures r.Err? <==> !c.validKey(pk) || c.b64Decode(cred.signature).None? || |c.b64Decode(cred.signature).value| != 64
    ensures r.Ok? ==> r.value == c.verify(pk, SigningInput(cred), c.b64Decode(cred.signature).value)
  {
    if !c.validKey(pk) then Err("Invalid public key")
    else match c.b64Decode(cred.signature)
      case None => Err("Invalid signature encoding")
      case Some(sig) =>
        if |sig| != 64 then Err("Invalid signature format")
        else Ok(c.verify(pk, SigningInput(cred), sig))
  }

  /** `verify_credential`: type tag, then expiry, then subject, then signature; the first failure is returned. */
  function VerifyCredential(c: Crypto, parseTime: string -> Option<int>, now: int,
                            cred: Credential, subjectDid: string, pk: seq<byte>): (r: Result<(), string>)
    ensures r.Ok? <==> cred.typeTag == TYPE_TAG && !IsExpired(parseTime, now, cred)
                       && cred.subject == subjectDid && VerifySignature(c, cred, pk) == Ok(true)
    ensures cred.typeTag != TYPE_TAG ==> r == Err("Unknown credential type: " + cred.typeTag)
    ensures cred.typeTag == TYPE_TAG && IsExpired(parseTime, now, cred) ==> r == Err("Credential has expired")
    ensures cred.typeTag == TYPE_TAG && !IsExpired(parseTime, now, cred) && cred.subject != subjectDid ==>
      r == Err("Credential subject " + cred.subject + " does not match claimed DID " + subjectDid)
  {
    if cred.typeTag != TYPE_TAG then Err("Unknown credential type: " + cred.typeTag)
    else if IsExpired(parseTime, now, cred) then Err("Credential has expired")
    else if cred.subject != subjectDid then
      Err("Credential subject " + cred.subject + " does not match claimed DID " + subjectDid)
    else match VerifySignature(c, cred, pk)
      case Err(e) => Err(e)
      case Ok(ok) => if ok then Ok(()) else Err("Signature verification failed")
  }

  /** `sign_credential`: sign the canonical form with an empty signature field and store the base64url signature. */
  function SignCredential(c: Crypto, cred: Credential, key: seq<byte>): (r: Credential)
    ensures r.(signature := cred.signature) == cred
    ensures SigningInput(r) == SigningInput(cred)
  {
    SigningInputIgnoresSignature(cred, c.b64Encode(c.sign(key, SigningInput(cred))));
    cred.(signature := c.b64Encode(c.sign(key, SigningInput(cred))))
  }

  /** Signing and then verifying with the matching public key succeeds. */
  lemma SignThenVerify(c: Crypto, cred: Credential, key: seq<byte>)
    requires Sound(c)
    ensures VerifySignature(c, SignCredential(c, cred, key), c.publicOf(key)) == Ok(true)
  {
    var m := SigningInput(cred);
    var sig := c.sign(key, m);
    assert c.b64Decode(c.b64Encode(sig)) == Some(sig);
    assert |sig| == 64 && c.verify(c.publicOf(key), m, sig);
    assert c.validKey(c.publicOf(key));
  }

  /** A signed, current credential for the right subject passes the whole check. */
  lemma SignedCredentialAccepted(c: Crypto, parseTime: string -> Option<int>, now: int,
                                 cred: Credential, key: seq<byte>)
    requires Sound(c) && cred.typeTag == TYPE_TAG && !IsExpired(parseTime, now, cred)
    ensures VerifyCredential(c, parseTime, now, SignCredential(c, cred, key), cred.subject, c.publicOf(key)) == Ok(())
  {
    SignThenVerify(c, cred, key);
  }

  /** An expired credential is rejected with a message that says so, whatever its signature. */
  lemma ExpiredRejected(c: Crypto, parseTime: string -> Option<int>, now: int,
                        cred: Credential, subjectDid: string, pk: seq<byte>)
    requires cred.typeTag == TYPE_TAG && IsExpired(parseTime, now, cred)
    ensures var r := VerifyCredential(c, parseTime, now, cred, subjectDid, pk);
      r.Err? && Contains(r.error, "expired")
  {
    var msg := "Credential has expired";
    assert msg == "Credential has " + "expired" + "";
    ContainsSelf("expired");
    ContainsWithin("Credential has ", "expired", "", "expired");
  }

  /** A credential for another subject is rejected even though its signature is valid. */
  lemma WrongSubjectRejected(c: Crypto, parseTime: string -> Option<int>, now: int,
                             cred: Credential, key: seq<byte>, claimed: string)
    requires Sound(c) && cred.typeTag == TYPE_TAG && !IsExpired(parseTime, now, cred) && claimed != cred.subject
    ensures VerifySignature(c, SignCredential(c, cred, key), c.publicOf(key)) == Ok(true)
    ensures VerifyCredential(c, parseTime, now, SignCredential(c, cred, key), claimed, c.publicOf(key)).Err?
  {
    SignThenVerify(c, cred, key);
  }

  /** Verifying with a valid key other than the signer's fails. */
  lemma WrongKeyFails(c: Crypto, cred: Credential, key: seq<byte>, pk: seq<byte>)
    requires Sound(c) && Unforgeable(c) && c.validKey(pk) && pk != c.publicOf(key)
    ensures VerifySignature(c, SignCredential(c, cred, key), pk) == Ok(false)
  {
    var sig := c.sign(key, SigningInput(cred));
    assert c.b64Decode(c.b64Encode(sig)) == Some(sig);
    assert |sig| == 64;
    assert !c.verify(pk, SigningInput(cred), sig);
  }

  /**
   * Changing a signed credential (its claims, say) so that the signed bytes
   * change makes the old signature fail under the signer's key.
   */
  lemma TamperDetected(c: Crypto, cred: Credential, key: seq<byte>, tampered: Credential)
    requires Sound(c) && Unforgeable(c)
    requires tampered.signature == SignCredential(c, cred, key).signature
    requires SigningInput(tampered) != SigningInput(cred)
    ensures VerifySignature(c, tampered, c.publicOf(key)) == Ok(false)
  {
    var sig := c.sign(key, SigningInput(cred));
    assert c.b64Decode(c.b64Encode(sig)) == Some(sig);
    assert |sig| == 64 && c.validKey(c.publicOf(key));
    assert !c.verify(c.publicOf(key), SigningInput(tampered), sig);
  }
}
