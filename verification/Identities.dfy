/** Building the signed document of a secret bundle (src/config/secrets.rs:371-460, src/identity.rs:50-97). */
module Identities {
  import opened Wrappers
  import opened Dids
  import opened Formats
  import opened Documents
  import Text

  /** The keys of a bundle that its document depends on, and when the bundle was generated. */
  datatype SecretBundle<B> = SecretBundle(ipnsSecret: B, didSigning: B, didEncryption: B, createdAt: string)

  /** The extension builder: a map from field names to data; an empty one builds null. */
  datatype MaExtension = MaExtension(entries: map<string, Ipld>) {
    function Build(): Ipld {
      if entries == map[] then Null else Map(entries)
    }
  }

  function Ipns<B>(p: Suite<B>, bundle: SecretBundle<B>): string {
    p.ipnsOf(bundle.ipnsSecret)
  }

  /** `Did::new_url` with a given fragment. */
  function NewUrl(valid: string -> bool, ipns: string, fragment: string): Result<Did, Error> {
    var bad := ValidateIdentifier(valid, ipns);
    if bad.Some? then Failure(bad.value)
    else if !Text.IsToken(fragment) then Failure(InvalidFragment)
    else Success(Did(ipns, Some(fragment)))
  }

  /** The bundle's signing key. */
  function BundleSigningKey<B>(p: Suite<B>, bundle: SecretBundle<B>): Result<SigningKey<B>, Error> {
    match NewUrl(p.validIdentifier, Ipns(p, bundle), "sign")
    case Failure(e) => Failure(e)
    case Success(did) => Success(SigningKeyFrom(p, did, bundle.didSigning))
  }

  function BundleEncryptionKey<B>(p: Suite<B>, bundle: SecretBundle<B>): Result<EncryptionKey<B>, Error> {
    match NewUrl(p.validIdentifier, Ipns(p, bundle), "enc")
    case Failure(e) => Failure(e)
    case Success(did) => Success(EncryptionKeyFrom(p, did, bundle.didEncryption))
  }

  /** What the constructors of the two key types guarantee. */
  ghost predicate ProperKeys<B>(p: Suite<B>, s: SigningKey<B>, e: EncryptionKey<B>) {
    && p.is32(s.secret) && p.is32(e.secret)
    && s == SigningKeyFrom(p, s.did, s.secret)
    && e == EncryptionKeyFrom(p, e.did, e.secret)
  }

  // ---- what the document looks like ----

  function BaseId(ipns: string): string {
    DID_PREFIX + ipns
  }

  function SignMethod<B>(ipns: string, key: Multibase<B>): VerificationMethod<B> {
    VerificationMethod(BaseId(ipns) + "#sign", MULTIKEY, BaseId(ipns), key)
  }

  function EncMethod<B>(ipns: string, key: Multibase<B>): VerificationMethod<B> {
    VerificationMethod(BaseId(ipns) + "#enc", MULTIKEY, BaseId(ipns), key)
  }

  /** The document of two keys, before signing. */
  function Unsigned<B>(
      ipns: string, s: SigningKey<B>, e: EncryptionKey<B>, createdAt: string, updatedAt: string, ma: Option<Ipld>)
    : Document<B>
  {
    var id := BaseId(ipns);
    Document(DEFAULT_DID_CONTEXT, id, [id],
             [SignMethod(ipns, s.publicKeyMultibase), EncMethod(ipns, e.publicKeyMultibase)],
             [id + "#sign"], [id + "#enc"], EmptyProof(), createdAt, updatedAt, ma)
  }

  /** `d` is `unsigned`, signed with the key of its sign method. */
  ghost predicate IsSigned<B>(p: Suite<B>, ipns: string, s: SigningKey<B>, unsigned: Document<B>, d: Document<B>) {
    && PayloadHash(p, unsigned).Success?
    && d == unsigned.(proof := ProofFor(p, s.secret, BaseId(ipns) + "#sign", PayloadHash(p, unsigned).value))
  }

  lemma UrlIsValid(valid: string -> bool, ipns: string, fragment: string)
    requires IdentifierCheck(valid) && valid(ipns) && Text.IsToken(fragment)
    ensures ValidateResource(valid, BaseId(ipns) + "#" + fragment).None?
  {
    IdParses(valid, Did(ipns, Some(fragment)));
    assert Did(ipns, Some(fragment)).Id() == BaseId(ipns) + "#" + fragment;
  }

  lemma IdsAreValid(valid: string -> bool, ipns: string)
    requires IdentifierCheck(valid) && valid(ipns)
    ensures ValidateBare(valid, BaseId(ipns)).None? && '#' !in BaseId(ipns)
    ensures ValidateResource(valid, BaseId(ipns) + "#sign").None?
    ensures ValidateResource(valid, BaseId(ipns) + "#enc").None?
  {
    BareIsValid(valid, ipns);
    UrlIsValid(valid, ipns, "sign");
    UrlIsValid(valid, ipns, "enc");
    FragmentsJoin(BaseId(ipns));
  }

  lemma BareIsValid(valid: string -> bool, ipns: string)
    requires IdentifierCheck(valid) && valid(ipns)
    ensures ValidateBare(valid, BaseId(ipns)).None? && '#' !in BaseId(ipns)
  {
    IdParses(valid, Did(ipns, None));
    assert Did(ipns, None).Id() == BaseId(ipns);
    assert '#' !in DID_PREFIX;
  }

  /** A method over a valid id, with a key that can be untagged. */
  lemma MethodIsValid<B(!new)>(p: Suite<B>, id: string, controller: string, key: Multibase<B>)
    requires ValidateResource(p.validIdentifier, id).None? && ValidateBare(p.validIdentifier, controller).None?
    requires key.Encoded? && key.payload != p.empty && controller != ""
    ensures MethodError(p, VerificationMethod(id, MULTIKEY, controller, key)).None?
  {
  }

  lemma NewMethodHasId<B>(p: Suite<B>, id: string, fragment: string, key: Multibase<B>, m: VerificationMethod<B>)
    requires '#' !in id && MethodError(p, m).None?
    requires m == VerificationMethod(id + "#" + fragment, MULTIKEY, id, key)
    ensures NewMethod(p, id, id, MULTIKEY, fragment, key) == Success(m)
  {
    assert id[..Text.Find(id, '#')] == id;
  }

  lemma MethodsAreValid<B(!new)>(p: Suite<B>, ipns: string, s: SigningKey<B>, e: EncryptionKey<B>)
    requires Lawful(p) && ProperKeys(p, s, e) && p.validIdentifier(ipns)
    ensures var id := BaseId(ipns);
            && NewMethod(p, id, id, s.keyType, "sign", s.publicKeyMultibase)
               == Success(SignMethod(ipns, s.publicKeyMultibase))
            && NewMethod(p, id, id, e.keyType, "enc", e.publicKeyMultibase)
               == Success(EncMethod(ipns, e.publicKeyMultibase))
    ensures MethodError(p, SignMethod(ipns, s.publicKeyMultibase)).None?
    ensures MethodError(p, EncMethod(ipns, e.publicKeyMultibase)).None?
  {
    IdsAreValid(p.validIdentifier, ipns);
    var id := BaseId(ipns);
    MethodIsValid(p, id + "#sign", id, s.publicKeyMultibase);
    MethodIsValid(p, id + "#enc", id, e.publicKeyMultibase);
    FragmentsJoin(id);
    NewMethodHasId(p, id, "sign", s.publicKeyMultibase, SignMethod(ipns, s.publicKeyMultibase));
    NewMethodHasId(p, id, "enc", e.publicKeyMultibase, EncMethod(ipns, e.publicKeyMultibase));
  }

  lemma FragmentsJoin(id: string)
    ensures id + "#" + "sign" == id + "#sign" && id + "#" + "enc" == id + "#enc"
    ensures id + "#sign" != id + "#enc"
  {
    assert (id + "#sign")[|id| + 1] != (id + "#enc")[|id| + 1];
  }

  lemma MethodsDiffer<B>(ipns: string, s: SigningKey<B>, e: EncryptionKey<B>)
    requires s.publicKeyMultibase != e.publicKeyMultibase
    ensures !IsKnown([], SignMethod(ipns, s.publicKeyMultibase))
    ensures !IsKnown([SignMethod(ipns, s.publicKeyMultibase)], EncMethod(ipns, e.publicKeyMultibase))
  {
    FragmentsJoin(BaseId(ipns));
  }

  /** `build_identity_from_keys`: the base document of two keys, signed. */
  method BuildIdentityFromKeys<B(==, !new)>(
      p: Suite<B>, ipns: string, s: SigningKey<B>, e: EncryptionKey<B>, now: string)
    returns (draft: Draft<B>, error: Option<Error>)
    requires Lawful(p) && ProperKeys(p, s, e)
    ensures fresh(draft)
    ensures error.None? <==> p.validIdentifier(ipns) && PayloadHash(p, Unsigned(ipns, s, e, now, now, None)).Success?
    ensures error.None? ==> IsSigned(p, ipns, s, Unsigned(ipns, s, e, now, now, None), draft.doc)
  {
    var subject := Did(ipns, None);
    draft := new Draft(subject, subject, now);
    error := ValidateIdentifier(p.validIdentifier, ipns);
    if error.Some? {
      return;
    }
    MethodsAreValid(p, ipns, s, e);
    MethodsDiffer(ipns, s, e);
    var id := subject.BaseId();
    var assertion := NewMethod(p, id, id, s.keyType, "sign", s.publicKeyMultibase).value;
    var agreement := NewMethod(p, id, id, e.keyType, "enc", e.publicKeyMultibase).value;
    AddMethods(p, draft, assertion, agreement);
    assert draft.doc == Unsigned(ipns, s, e, now, now, None);
    error := draft.Sign(p, s, assertion);
  }

  /** Adds the two methods, and the relationships they serve. */
  method AddMethods<B(==)>(
      p: Suite<B>, draft: Draft<B>, assertion: VerificationMethod<B>, agreement: VerificationMethod<B>)
    requires MethodError(p, assertion).None? && MethodError(p, agreement).None?
    requires draft.doc.verificationMethod == [] && !IsKnown([], assertion) && !IsKnown([assertion], agreement)
    modifies draft
    ensures draft.doc == old(draft.doc).(verificationMethod := [assertion, agreement],
                                         assertionMethod := [assertion.id], keyAgreement := [agreement.id])
  {
    var _ := draft.AddVerificationMethod(p, assertion);
    assert draft.doc.verificationMethod == [assertion];
    var _ := draft.AddVerificationMethod(p, agreement);
    assert draft.doc.verificationMethod == [assertion, agreement];
    draft.SetRelationships(assertion.id, agreement.id);
  }

  /** `generate_identity`: deterministic in the bundle, with the bundle's own creation time. */
  method GenerateIdentity<B(==, !new)>(p: Suite<B>, bundle: SecretBundle<B>, now: string)
    returns (draft: Draft<B>, error: Option<Error>)
    requires Lawful(p) && p.is32(bundle.didSigning) && p.is32(bundle.didEncryption)
    ensures fresh(draft)
    ensures error.None? <==> Generates(p, bundle, now)
    ensures error.None? ==>
              IsSigned(p, Ipns(p, bundle), BundleSigningKey(p, bundle).value,
                       Unsigned(Ipns(p, bundle), BundleSigningKey(p, bundle).value,
                                BundleEncryptionKey(p, bundle).value, bundle.createdAt, now, None),
                       draft.doc)
  {
    var signingKey := BundleSigningKey(p, bundle);
    var encryptionKey := BundleEncryptionKey(p, bundle);
    assert Text.IsToken("sign") && Text.IsToken("enc");
    if signingKey.Failure? || encryptionKey.Failure? {
      var nobody := Did("", None);
      draft := new Draft(nobody, nobody, now);
      error := Some(if signingKey.Failure? then signingKey.error else encryptionKey.error);
      return;
    }
    var ipns := Ipns(p, bundle);
    draft, error := BuildIdentityFromKeys(p, ipns, signingKey.value, encryptionKey.value, now);
    if error.Some? {
      return;
    }
    draft.SetCreatedAt(bundle.createdAt);
    var vm := FindMethod(draft.doc.verificationMethod, draft.doc.assertionMethod[0]);
    assert vm == Some(SignMethod(ipns, signingKey.value.publicKeyMultibase));
    var unsigned := Unsigned(ipns, signingKey.value, encryptionKey.value, bundle.createdAt, now, None);
    assert Payload(draft.doc) == Payload(unsigned);
    assert p.encodeDocument(Payload(Unsigned(ipns, signingKey.value, encryptionKey.value, now, now, None))).Some?;
    error := draft.Sign(p, signingKey.value, vm.value);
  }

  /** The bundle's identifier is well formed and its documents without extension can be encoded. */
  ghost predicate Generates<B>(p: Suite<B>, bundle: SecretBundle<B>, now: string) {
    && BundleSigningKey(p, bundle).Success? && BundleEncryptionKey(p, bundle).Success?
    && var unsigned := Unsigned(Ipns(p, bundle), BundleSigningKey(p, bundle).value,
                                BundleEncryptionKey(p, bundle).value, now, now, None);
       PayloadHash(p, unsigned).Success?
  }

  /** The document of the bundle with an extension, before signing. */
  ghost function Expected<B>(p: Suite<B>, bundle: SecretBundle<B>, ext: MaExtension, now: string): Document<B>
    requires BundleSigningKey(p, bundle).Success? && BundleEncryptionKey(p, bundle).Success?
  {
    Unsigned(Ipns(p, bundle), BundleSigningKey(p, bundle).value, BundleEncryptionKey(p, bundle).value,
             bundle.createdAt, now, if ext.entries == map[] then None else Some(Map(ext.entries)))
  }

  /** `build_document`: generate, extend, touch, sign again. `now` is read when generating, `later` when touching. */
  method BuildDocument<B(==, !new)>(p: Suite<B>, bundle: SecretBundle<B>, ext: MaExtension, now: string, later: string)
    returns (result: Result<Document<B>, Error>)
    requires Lawful(p) && p.is32(bundle.didSigning) && p.is32(bundle.didEncryption)
    ensures result.Success? <==> Generates(p, bundle, now) && PayloadHash(p, Expected(p, bundle, ext, later)).Success?
    ensures result.Success? ==>
              IsSigned(p, Ipns(p, bundle), BundleSigningKey(p, bundle).value,
                       Expected(p, bundle, ext, later), result.value)
  {
    var draft, error := GenerateIdentity(p, bundle, now);
    if error.Some? {
      return Failure(error.value);
    }
    var signingKey := BundleSigningKey(p, bundle);
    var vm := FindMethod(draft.doc.verificationMethod, draft.doc.assertionMethod[0]);
    assert vm == Some(SignMethod(Ipns(p, bundle), signingKey.value.publicKeyMultibase));
    draft.SetMa(ext.Build());
    draft.Touch(later);
    assert Payload(draft.doc) == Payload(Expected(p, bundle, ext, later));
    error := draft.Sign(p, signingKey.value, vm.value);
    result := if error.Some? then Failure(error.value) else Success(draft.doc);
  }

  /** What is in the document of a bundle, field by field. */
  lemma BundleDocumentIs<B(!new)>(
      p: Suite<B>, bundle: SecretBundle<B>, ext: MaExtension, now: string, later: string, d: Document<B>)
    requires BundleSigningKey(p, bundle).Success? && BundleEncryptionKey(p, bundle).Success?
    requires IsSigned(p, Ipns(p, bundle), BundleSigningKey(p, bundle).value, Expected(p, bundle, ext, later), d)
    ensures var id := "did:ma:" + p.ipnsOf(bundle.ipnsSecret);
      && d.context == ["https://www.w3.org/ns/did/v1.1"] && d.id == id && d.controller == [id]
      && d.verificationMethod == [
           VerificationMethod(id + "#sign", "Multikey", id, Encoded('z', 0xed, p.verifyingKey(bundle.didSigning))),
           VerificationMethod(id + "#enc", "Multikey", id, Encoded('z', 0xec, p.agreementKey(bundle.didEncryption)))]
      && d.assertionMethod == [id + "#sign"] && d.keyAgreement == [id + "#enc"]
      && d.createdAt == bundle.createdAt && d.updatedAt == later
      && d.ma == (if ext.entries == map[] then None else Some(Map(ext.entries)))
  {
  }

  /** Which bundles have a document: those with a proper identifier, if bare documents can be encoded at all. */
  lemma GeneratesIff<B(!new)>(p: Suite<B>, bundle: SecretBundle<B>, now: string)
    requires Lawful(p)
    ensures Generates(p, bundle, now) <==>
              && p.validIdentifier(p.ipnsOf(bundle.ipnsSecret))
              && exists bare: Document<B> :: bare.ma == None && p.encodeDocument(bare).Some?
  {
    assert Text.IsToken("sign") && Text.IsToken("enc");
    if p.validIdentifier(Ipns(p, bundle)) {
      var unsigned := Unsigned(Ipns(p, bundle), BundleSigningKey(p, bundle).value,
                               BundleEncryptionKey(p, bundle).value, now, now, None);
      assert Payload(unsigned).ma == None;
    }
  }

  // ---- what the document is good for ----

  lemma ExpectedMethods<B(!new)>(p: Suite<B>, ipns: string, s: SigningKey<B>, e: EncryptionKey<B>, d: Document<B>)
    requires Lawful(p) && ProperKeys(p, s, e)
    requires d.verificationMethod == [SignMethod(ipns, s.publicKeyMultibase), EncMethod(ipns, e.publicKeyMultibase)]
    ensures FindMethod(d.verificationMethod, BaseId(ipns) + "#sign") == Some(SignMethod(ipns, s.publicKeyMultibase))
    ensures FindMethod(d.verificationMethod, BaseId(ipns) + "#enc") == Some(EncMethod(ipns, e.publicKeyMultibase))
    ensures VerifyingKey(p, d, BaseId(ipns) + "#sign") == Success(p.verifyingKey(s.secret))
    ensures KeyOfMethod(p, d, BaseId(ipns) + "#enc", CODEC_X25519_PUB) == Success(p.agreementKey(e.secret))
  {
    var id := BaseId(ipns);
    FragmentsJoin(id);
    var methods := d.verificationMethod;
    assert methods[1..] == [EncMethod(ipns, e.publicKeyMultibase)];
    assert FindMethod(methods[1..], id + "#enc") == Some(methods[1]);
  }

  lemma ExpectedRelationships<B(!new)>(p: Suite<B>, ipns: string, s: SigningKey<B>, e: EncryptionKey<B>, d: Document<B>)
    requires Lawful(p) && ProperKeys(p, s, e) && p.validIdentifier(ipns)
    requires d.verificationMethod == [SignMethod(ipns, s.publicKeyMultibase), EncMethod(ipns, e.publicKeyMultibase)]
    ensures RelationshipError(p, d, BaseId(ipns) + "#sign", CODEC_ED25519_PUB).None?
    ensures RelationshipError(p, d, BaseId(ipns) + "#enc", CODEC_X25519_PUB).None?
  {
    IdsAreValid(p.validIdentifier, ipns);
    ExpectedMethods(p, ipns, s, e, d);
  }

  lemma ExpectedIsValid<B(!new)>(
      p: Suite<B>, ipns: string, s: SigningKey<B>, e: EncryptionKey<B>, d: Document<B>, proof: Proof<B>)
    requires Lawful(p) && ProperKeys(p, s, e) && p.validIdentifier(ipns)
    requires d == Unsigned(ipns, s, e, d.createdAt, d.updatedAt, d.ma).(proof := proof)
    ensures DocumentError(p, d).None? <==> p.validTimestamp(d.createdAt) && p.validTimestamp(d.updatedAt)
  {
    IdsAreValid(p.validIdentifier, ipns);
    MethodsAreValid(p, ipns, s, e);
    ExpectedRelationships(p, ipns, s, e, d);
    var id := BaseId(ipns);
    assert d.controller[0] == id;
    assert ControllersError(p.validIdentifier, d.controller).None?;
    assert MethodsError(p, d.verificationMethod).None?;
    assert RelationshipsError(p, d, d.assertionMethod, CODEC_ED25519_PUB).None?;
    assert RelationshipsError(p, d, d.keyAgreement, CODEC_X25519_PUB).None?;
  }

  /** A signed document of two keys has a proof that verifies, over itself, and answers with those keys. */
  lemma SignedDocumentChecksOut<B(!new)>(
      p: Suite<B>, ipns: string, s: SigningKey<B>, e: EncryptionKey<B>, unsigned: Document<B>, d: Document<B>)
    requires Lawful(p) && ProperKeys(p, s, e)
    requires unsigned == Unsigned(ipns, s, e, unsigned.createdAt, unsigned.updatedAt, unsigned.ma)
    requires IsSigned(p, ipns, s, unsigned, d)
    ensures ProofError(p, d).None?
    ensures PayloadHash(p, d).Success? && SignedBy(p, d, s.secret, PayloadHash(p, d).value)
    ensures AssertionKey(p, d) == Success(p.verifyingKey(s.secret))
    ensures AgreementKey(p, d) == Success(p.agreementKey(e.secret))
  {
    ExpectedMethods(p, ipns, s, e, d);
    assert Payload(d) == Payload(unsigned) && PayloadHash(p, d) == PayloadHash(p, unsigned);
    assert d.proof.verificationMethod == d.assertionMethod[0];
  }

  /**
   * The document `BuildDocument` returns survives encoding and parsing unchanged exactly when its two
   * timestamps are well formed (the later one comes from the clock, so: when the bundle's creation
   * time is); its first assertion key is the bundle's signing key, its agreement key the bundle's
   * encryption key; and no other document carrying its proof is accepted.
   */
  lemma BuiltDocumentSurvives<B(!new)>(
      p: Suite<B>, bundle: SecretBundle<B>, ext: MaExtension, now: string, d: Document<B>, bytes: B)
    requires Lawful(p) && p.is32(bundle.didSigning) && p.is32(bundle.didEncryption)
    requires BundleSigningKey(p, bundle).Success? && BundleEncryptionKey(p, bundle).Success?
    requires IsSigned(p, Ipns(p, bundle), BundleSigningKey(p, bundle).value, Expected(p, bundle, ext, now), d)
    requires p.encodeDocument(d) == Some(bytes)
    ensures ParseDocumentBytes(p, bytes) == Success(d) <==> p.validTimestamp(bundle.createdAt) && p.validTimestamp(now)
    ensures AssertionKey(p, d) == Success(p.verifyingKey(BundleSigningKey(p, bundle).value.secret))
    ensures AgreementKey(p, d) == Success(p.agreementKey(BundleEncryptionKey(p, bundle).value.secret))
    ensures forall other: Document<B>, tampered: B ::
              other.proof == d.proof && ParseDocumentBytes(p, tampered) == Success(other) ==> other == d
  {
    var ipns, s, e := Ipns(p, bundle), BundleSigningKey(p, bundle).value, BundleEncryptionKey(p, bundle).value;
    SignedDocumentChecksOut(p, ipns, s, e, Expected(p, bundle, ext, now), d);
    ExpectedIsValid(p, ipns, s, e, d, d.proof);
    var hash := PayloadHash(p, d).value;
    assert p.decodeDocument(bytes) == Some(d);
    forall other: Document<B>, tampered: B | other.proof == d.proof && ParseDocumentBytes(p, tampered) == Success(other)
      ensures other == d
    {
      ProofPinsDocument(p, d, s.secret, hash, tampered, other);
    }
  }
}
