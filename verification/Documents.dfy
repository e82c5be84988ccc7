/** DID documents: validation, signing, verification, and the mutable draft they are built on (src/doc.rs). */
module Documents {
  import opened Wrappers
  import opened Dids
  import opened Formats
  import Text

  const DEFAULT_DID_CONTEXT := ["https://www.w3.org/ns/did/v1.1"]
  const DEFAULT_PROOF_TYPE := "MultiformatSignature2023"
  const DEFAULT_PROOF_PURPOSE := "assertionMethod"
  const MULTIKEY := "Multikey"

  datatype SigningKey<B> = SigningKey(did: Did, keyType: string, secret: B, publicKeyMultibase: Multibase<B>)

  datatype EncryptionKey<B> = EncryptionKey(did: Did, keyType: string, secret: B, publicKeyMultibase: Multibase<B>)

  function SigningKeyFrom<B>(p: Suite<B>, did: Did, secret: B): SigningKey<B> {
    SigningKey(did, MULTIKEY, secret, Encoded(BASE58BTC, CODEC_ED25519_PUB, p.verifyingKey(secret)))
  }

  function EncryptionKeyFrom<B>(p: Suite<B>, did: Did, secret: B): EncryptionKey<B> {
    EncryptionKey(did, MULTIKEY, secret, Encoded(BASE58BTC, CODEC_X25519_PUB, p.agreementKey(secret)))
  }

  /** Codec and payload of multibase text; an empty payload is refused. */
  function Untag<B(==)>(p: Suite<B>, text: Multibase<B>): Result<(nat, B), Error> {
    match text
    case Encoded(_, codec, payload) =>
      if payload == p.empty then Failure(InvalidPublicKeyMultibase) else Success((codec, payload))
    case _ => Failure(InvalidPublicKeyMultibase)
  }

  // ---- verification methods ----

  function MethodError<B(==)>(p: Suite<B>, m: VerificationMethod<B>): Option<Error> {
    var badId := ValidateResource(p.validIdentifier, m.id);
    if badId.Some? then badId
    else if m.keyType == "" then Some(VerificationMethodMissingType)
    else if m.keyType != MULTIKEY then Some(InvalidVerificationMethodType)
    else if m.controller == "" then Some(EmptyController)
    else
      var badController := ValidateBare(p.validIdentifier, m.controller);
      if badController.Some? then badController
      else if m.publicKeyMultibase.Unset? then Some(EmptyPublicKeyMultibase)
      else
        match Untag(p, m.publicKeyMultibase)
        case Failure(e) => Some(e)
        case Success(_) => None
  }

  /** `VerificationMethod::new`: the fragment replaces any fragment of `id`. */
  function NewMethod<B(==)>(
      p: Suite<B>, id: string, controller: string, keyType: string, fragment: string, key: Multibase<B>)
    : Result<VerificationMethod<B>, Error>
  {
    var m := VerificationMethod(id[..Text.Find(id, '#')] + "#" + fragment, keyType, controller, key);
    match MethodError(p, m)
    case Some(e) => Failure(e)
    case None => Success(m)
  }

  /** Whether or not the id has a fragment, the method's own replaces it. */
  lemma NewMethodReplacesFragment<B>(
      p: Suite<B>, base: string, earlier: string, controller: string, keyType: string, fragment: string,
      key: Multibase<B>)
    requires '#' !in base
    ensures NewMethod(p, base + "#" + earlier, controller, keyType, fragment, key)
         == NewMethod(p, base, controller, keyType, fragment, key)
    ensures var m := NewMethod(p, base, controller, keyType, fragment, key);
      m.Success? ==> m.value == VerificationMethod(base + "#" + fragment, keyType, controller, key)
  {
    SplitAtHash(base, earlier);
    assert base[..Text.Find(base, '#')] == base;
  }

  /** One of the methods has the id of `m` or its key. */
  predicate IsKnown<B(==)>(methods: seq<VerificationMethod<B>>, m: VerificationMethod<B>) {
    exists i :: 0 <= i < |methods| && (methods[i].id == m.id || methods[i].publicKeyMultibase == m.publicKeyMultibase)
  }

  /** No two methods have the same id or the same key. */
  ghost predicate AreDistinct<B>(methods: seq<VerificationMethod<B>>) {
    forall i, j :: 0 <= i < j < |methods| ==>
      methods[i].id != methods[j].id && methods[i].publicKeyMultibase != methods[j].publicKeyMultibase
  }

  /** Distinct methods stay so with one more exactly if that is not known yet. */
  lemma AddingKeepsDistinct<B>(methods: seq<VerificationMethod<B>>, m: VerificationMethod<B>)
    requires AreDistinct(methods)
    ensures AreDistinct(methods + [m]) <==> !IsKnown(methods, m)
  {
    var more := methods + [m];
    assert more[|methods|] == m && forall i :: 0 <= i < |methods| ==> more[i] == methods[i];
    if i :| 0 <= i < |methods| && (methods[i].id == m.id || methods[i].publicKeyMultibase == m.publicKeyMultibase) {
      assert more[i].id == m.id || more[i].publicKeyMultibase == m.publicKeyMultibase;
    }
  }

  /** The first method with this id. */
  function FindMethod<B>(methods: seq<VerificationMethod<B>>, id: string): (m: Option<VerificationMethod<B>>)
    ensures m.Some? <==> exists i :: 0 <= i < |methods| && methods[i].id == id
    ensures m.Some? ==> exists i :: 0 <= i < |methods| && methods[i] == m.value && m.value.id == id
                                      && forall j :: 0 <= j < i ==> methods[j].id != id
  {
    if methods == [] then None
    else if methods[0].id == id then Some(methods[0])
    else FindMethod(methods[1..], id)
  }

  /** The public key of a method, which must be of the expected kind. */
  function KeyOfMethod<B(==)>(p: Suite<B>, d: Document<B>, id: string, codec: nat): Result<B, Error> {
    match FindMethod(d.verificationMethod, id)
    case None => Failure(UnknownVerificationMethod)
    case Some(m) =>
      match Untag(p, m.publicKeyMultibase)
      case Failure(e) => Failure(e)
      case Success((c, key)) =>
        if c != codec then Failure(InvalidMulticodec)
        else if !p.is32(key) then Failure(InvalidKeyLength)
        else Success(key)
  }

  function VerifyingKey<B(==)>(p: Suite<B>, d: Document<B>, id: string): Result<B, Error> {
    match KeyOfMethod(p, d, id, CODEC_ED25519_PUB)
    case Failure(e) => Failure(e)
    case Success(key) => if p.validPoint(key) then Success(key) else Failure(Crypto)
  }

  /** The key messages of this identity are signed with. */
  function AssertionKey<B(==)>(p: Suite<B>, d: Document<B>): Result<B, Error> {
    if d.assertionMethod == [] then Failure(UnknownVerificationMethod) else VerifyingKey(p, d, d.assertionMethod[0])
  }

  /** The key messages to this identity are encrypted for. */
  function AgreementKey<B(==)>(p: Suite<B>, d: Document<B>): Result<B, Error> {
    if d.keyAgreement == [] then Failure(UnknownVerificationMethod)
    else KeyOfMethod(p, d, d.keyAgreement[0], CODEC_X25519_PUB)
  }

  /** The first method with the id holds an Ed25519 key of this multicodec. */
  ghost predicate HoldsKey<B>(p: Suite<B>, d: Document<B>, id: string, codec: nat, key: B) {
    exists i, base :: 0 <= i < |d.verificationMethod| && IsFirstWithId(d.verificationMethod, i, id)
                      && d.verificationMethod[i].publicKeyMultibase == Encoded(base, codec, key)
  }

  ghost predicate IsFirstWithId<B>(methods: seq<VerificationMethod<B>>, i: nat, id: string)
    requires i < |methods|
  {
    methods[i].id == id && forall j :: 0 <= j < i ==> methods[j].id != id
  }

  /** The key a message of this identity has to verify under. */
  ghost predicate HasAssertionKey<B>(p: Suite<B>, d: Document<B>, key: B) {
    d.assertionMethod != [] && HoldsKey(p, d, d.assertionMethod[0], 0xed, key) && p.is32(key) && p.validPoint(key)
  }

  lemma KeyOfMethodIff<B(!new)>(p: Suite<B>, d: Document<B>, id: string, codec: nat, key: B)
    requires !p.is32(p.empty)
    ensures KeyOfMethod(p, d, id, codec) == Success(key) <==> HoldsKey(p, d, id, codec, key) && p.is32(key)
  {
    var found := FindMethod(d.verificationMethod, id);
    if HoldsKey(p, d, id, codec, key) {
      var i, base :| 0 <= i < |d.verificationMethod| && IsFirstWithId(d.verificationMethod, i, id)
                     && d.verificationMethod[i].publicKeyMultibase == Encoded(base, codec, key);
      FirstIsFound(d.verificationMethod, i, id);
    }
    if found.Some? {
      var i := FoundAt(d.verificationMethod, id);
      if KeyOfMethod(p, d, id, codec) == Success(key) {
        assert d.verificationMethod[i].publicKeyMultibase == Encoded(found.value.publicKeyMultibase.base, codec, key);
      }
    }
  }

  lemma FoundAt<B>(methods: seq<VerificationMethod<B>>, id: string) returns (i: nat)
    requires FindMethod(methods, id).Some?
    ensures i < |methods| && IsFirstWithId(methods, i, id) && methods[i] == FindMethod(methods, id).value
  {
    i :| 0 <= i < |methods| && methods[i] == FindMethod(methods, id).value && methods[i].id == id
         && forall j :: 0 <= j < i ==> methods[j].id != id;
  }

  lemma FirstIsFound<B>(methods: seq<VerificationMethod<B>>, i: nat, id: string)
    requires i < |methods| && IsFirstWithId(methods, i, id)
    ensures FindMethod(methods, id) == Some(methods[i])
  {
    var j := FoundAt(methods, id);
    assert j == i;
  }

  lemma AssertionKeyIff<B(!new)>(p: Suite<B>, d: Document<B>, key: B)
    requires !p.is32(p.empty)
    ensures AssertionKey(p, d) == Success(key) <==> HasAssertionKey(p, d, key)
  {
    if d.assertionMethod != [] {
      KeyOfMethodIff(p, d, d.assertionMethod[0], 0xed, key);
    }
  }

  // ---- validation ----

  function FirstError<T>(xs: seq<T>, error: T -> Option<Error>): (e: Option<Error>)
    ensures e.None? <==> forall i :: 0 <= i < |xs| ==> error(xs[i]).None?
  {
    if xs == [] then None
    else if error(xs[0]).Some? then error(xs[0])
    else FirstError(xs[1..], error)
  }

  function RelationshipError<B(==)>(p: Suite<B>, d: Document<B>, id: string, codec: nat): Option<Error> {
    var badId := ValidateResource(p.validIdentifier, id);
    if badId.Some? then badId
    else
      match FindMethod(d.verificationMethod, id)
      case None => Some(UnknownVerificationMethod)
      case Some(m) =>
        match Untag(p, m.publicKeyMultibase)
        case Failure(e) => Some(e)
        case Success((c, _)) => if c != codec then Some(InvalidMulticodec) else None
  }

  function ControllersError(valid: string -> bool, controllers: seq<string>): (e: Option<Error>)
    ensures e.None? <==> forall i :: 0 <= i < |controllers| ==> ValidateBare(valid, controllers[i]).None?
  {
    FirstError(controllers, c => ValidateBare(valid, c))
  }

  function MethodsError<B(==)>(p: Suite<B>, methods: seq<VerificationMethod<B>>): (e: Option<Error>)
    ensures e.None? <==> forall i :: 0 <= i < |methods| ==> MethodError(p, methods[i]).None?
  {
    FirstError(methods, m => MethodError(p, m))
  }

  function RelationshipsError<B(==)>(p: Suite<B>, d: Document<B>, ids: seq<string>, codec: nat): (e: Option<Error>)
    ensures e.None? <==> forall i :: 0 <= i < |ids| ==> RelationshipError(p, d, ids[i], codec).None?
  {
    FirstError(ids, id => RelationshipError(p, d, id, codec))
  }

  /** `Document::validate`. */
  function DocumentError<B(==)>(p: Suite<B>, d: Document<B>): Option<Error> {
    if d.context != DEFAULT_DID_CONTEXT then Some(if d.context == [] then EmptyContext else InvalidContext)
    else
      var badId := ValidateBare(p.validIdentifier, d.id);
      if badId.Some? then badId
      else if d.controller == [] then Some(EmptyController)
      else
        var badController := ControllersError(p.validIdentifier, d.controller);
        if badController.Some? then badController
        else if !p.validTimestamp(d.createdAt) then Some(InvalidCreatedAt)
        else if !p.validTimestamp(d.updatedAt) then Some(InvalidUpdatedAt)
        else
          var badMethod := MethodsError(p, d.verificationMethod);
          if badMethod.Some? then badMethod
          else if d.assertionMethod == [] || d.keyAgreement == [] then Some(UnknownVerificationMethod)
          else
            var badAssertion := RelationshipsError(p, d, d.assertionMethod, CODEC_ED25519_PUB);
            if badAssertion.Some? then badAssertion
            else RelationshipsError(p, d, d.keyAgreement, CODEC_X25519_PUB)
  }

  // ---- signatures ----

  function EmptyProof<B>(): Proof<B> {
    Proof("", "", "", Unset)
  }

  /** Everything but the proof. */
  function Payload<B>(d: Document<B>): Document<B> {
    d.(proof := EmptyProof())
  }

  function PayloadHash<B>(p: Suite<B>, d: Document<B>): Result<B, Error> {
    match p.encodeDocument(Payload(d))
    case None => Failure(CborEncode)
    case Some(bytes) => Success(p.hash(bytes))
  }

  /** The proof `sign` makes. */
  function ProofFor<B>(p: Suite<B>, secret: B, methodId: string, hash: B): Proof<B> {
    Proof(DEFAULT_PROOF_TYPE, methodId, DEFAULT_PROOF_PURPOSE,
          Encoded(BASE58BTC, CODEC_EDDSA_SIG, p.sign(secret, hash)))
  }

  /** `Document::verify`. */
  function ProofError<B(==)>(p: Suite<B>, d: Document<B>): Option<Error> {
    if d.proof.proofValue.Unset? then Some(MissingProof)
    else if d.proof.proofType != DEFAULT_PROOF_TYPE then Some(InvalidProofType)
    else if d.proof.proofPurpose != DEFAULT_PROOF_PURPOSE then Some(InvalidProofPurpose)
    else
      match Untag(p, d.proof.proofValue)
      case Failure(e) => Some(e)
      case Success((codec, signature)) =>
        if codec != CODEC_EDDSA_SIG || !p.is64(signature) then Some(InvalidDocumentSignature)
        else if d.proof.verificationMethod !in d.assertionMethod then Some(UnknownVerificationMethod)
        else
          match VerifyingKey(p, d, d.proof.verificationMethod)
          case Failure(e) => Some(e)
          case Success(key) =>
            match PayloadHash(p, d)
            case Failure(e) => Some(e)
            case Success(hash) => if p.verify(key, hash, signature) then None else Some(InvalidDocumentSignature)
  }

  /** `parse_document_bytes` (src/ipfs/resolver.rs:49-59): decode, validate, verify. */
  function ParseDocumentBytes<B(==)>(p: Suite<B>, bytes: B): Result<Document<B>, Error> {
    match p.decodeDocument(bytes)
    case None => Failure(CborDecode)
    case Some(d) =>
      if DocumentError(p, d).Some? then Failure(DocumentError(p, d).value)
      else if ProofError(p, d).Some? then Failure(ProofError(p, d).value)
      else Success(d)
  }

  /** The proof's signature was made by `secret` over `hash`. */
  ghost predicate SignedBy<B>(p: Suite<B>, d: Document<B>, secret: B, hash: B) {
    d.proof.proofValue.Encoded? && d.proof.proofValue.payload == p.sign(secret, hash)
  }

  /**
   * A proof pins the document down: if a signature over `d` was made with some secret, then whatever
   * bytes parse to a document carrying the same proof parse to `d` itself. Changing any other field
   * without re-signing is rejected.
   */
  lemma ProofPinsDocument<B(!new)>(p: Suite<B>, d: Document<B>, secret: B, hash: B, bytes: B, other: Document<B>)
    requires Lawful(p) && p.is32(secret)
    requires PayloadHash(p, d) == Success(hash) && SignedBy(p, d, secret, hash) && d.ma != Some(Null)
    requires ParseDocumentBytes(p, bytes) == Success(other) && other.proof == d.proof
    ensures other == d
  {
    var signature := d.proof.proofValue.payload;
    var key := VerifyingKey(p, other, other.proof.verificationMethod).value;
    assert p.verify(key, PayloadHash(p, other).value, signature);
    assert PayloadHash(p, other).value == hash;
    HashPinsPayload(p, d, other, hash);
  }

  lemma HashPinsPayload<B(!new)>(p: Suite<B>, d: Document<B>, other: Document<B>, hash: B)
    requires Lawful(p) && PayloadHash(p, d) == Success(hash) && PayloadHash(p, other) == Success(hash)
    requires d.ma != Some(Null) && other.ma != Some(Null)
    ensures Payload(d) == Payload(other)
  {
    var a, b := p.encodeDocument(Payload(d)), p.encodeDocument(Payload(other));
    assert a.value == b.value;
    assert p.decodeDocument(a.value) == Some(Payload(d));
    assert p.decodeDocument(b.value) == Some(Payload(other));
  }

  // ---- which documents are accepted ----

  predicate IsBareDid(valid: string -> bool, s: string) {
    var did := Parse(valid, s);
    did.Success? && did.value.fragment.None?
  }

  predicate IsResource(valid: string -> bool, s: string) {
    var did := Parse(valid, s);
    did.Success? && did.value.fragment.Some?
  }

  /** A key of some kind under a DID URL. */
  ghost predicate IsProperMethod<B>(p: Suite<B>, m: VerificationMethod<B>) {
    && IsResource(p.validIdentifier, m.id) && IsBareDid(p.validIdentifier, m.controller)
    && m.keyType == "Multikey" && m.publicKeyMultibase.Encoded? && m.publicKeyMultibase.payload != p.empty
  }

  /** The relationship names a DID URL whose first method holds a key of the kind. */
  ghost predicate IsProperRelationship<B(!new)>(p: Suite<B>, d: Document<B>, id: string, codec: nat) {
    IsResource(p.validIdentifier, id) && exists key :: key != p.empty && HoldsKey(p, d, id, codec, key)
  }

  lemma MethodIsValidIff<B>(p: Suite<B>, m: VerificationMethod<B>)
    ensures MethodError(p, m).None? <==> IsProperMethod(p, m)
  {
  }

  lemma RelationshipIsValidIff<B(!new)>(p: Suite<B>, d: Document<B>, id: string, codec: nat)
    ensures RelationshipError(p, d, id, codec).None? <==> IsProperRelationship(p, d, id, codec)
  {
    var found := FindMethod(d.verificationMethod, id);
    if IsProperRelationship(p, d, id, codec) {
      var key :| key != p.empty && HoldsKey(p, d, id, codec, key);
      var i, base :| 0 <= i < |d.verificationMethod| && IsFirstWithId(d.verificationMethod, i, id)
                     && d.verificationMethod[i].publicKeyMultibase == Encoded(base, codec, key);
      FirstIsFound(d.verificationMethod, i, id);
    } else if found.Some? {
      var i := FoundAt(d.verificationMethod, id);
      if RelationshipError(p, d, id, codec).None? {
        var k := d.verificationMethod[i].publicKeyMultibase;
        assert k == Encoded(k.base, codec, k.payload) && k.payload != p.empty;
        assert HoldsKey(p, d, id, codec, k.payload);
      }
    }
  }

  ghost predicate AreProperControllers(valid: string -> bool, controllers: seq<string>) {
    controllers != [] && forall i :: 0 <= i < |controllers| ==> IsBareDid(valid, controllers[i])
  }

  ghost predicate AreProperMethods<B>(p: Suite<B>, methods: seq<VerificationMethod<B>>) {
    forall i :: 0 <= i < |methods| ==> IsProperMethod(p, methods[i])
  }

  ghost predicate AreProperRelationships<B(!new)>(p: Suite<B>, d: Document<B>, ids: seq<string>, codec: nat) {
    ids != [] && forall i :: 0 <= i < |ids| ==> IsProperRelationship(p, d, ids[i], codec)
  }

  ghost predicate IsProperDocument<B(!new)>(p: Suite<B>, d: Document<B>) {
    && d.context == ["https://www.w3.org/ns/did/v1.1"] && IsBareDid(p.validIdentifier, d.id)
    && AreProperControllers(p.validIdentifier, d.controller)
    && p.validTimestamp(d.createdAt) && p.validTimestamp(d.updatedAt)
    && AreProperMethods(p, d.verificationMethod)
    && AreProperRelationships(p, d, d.assertionMethod, 0xed)
    && AreProperRelationships(p, d, d.keyAgreement, 0xec)
  }

  lemma MethodsAreValidIff<B>(p: Suite<B>, methods: seq<VerificationMethod<B>>)
    ensures MethodsError(p, methods).None? <==> AreProperMethods(p, methods)
  {
    forall i | 0 <= i < |methods|
      ensures MethodError(p, methods[i]).None? <==> IsProperMethod(p, methods[i])
    {
      MethodIsValidIff(p, methods[i]);
    }
  }

  lemma RelationshipsAreValidIff<B(!new)>(p: Suite<B>, d: Document<B>, ids: seq<string>, codec: nat)
    ensures ids != [] && RelationshipsError(p, d, ids, codec).None? <==> AreProperRelationships(p, d, ids, codec)
  {
    forall i | 0 <= i < |ids|
      ensures RelationshipError(p, d, ids[i], codec).None? <==> IsProperRelationship(p, d, ids[i], codec)
    {
      RelationshipIsValidIff(p, d, ids[i], codec);
    }
  }

  lemma ControllersAreValidIff(valid: string -> bool, controllers: seq<string>)
    ensures controllers != [] && ControllersError(valid, controllers).None?
       <==> AreProperControllers(valid, controllers)
  {
    forall i | 0 <= i < |controllers|
      ensures ValidateBare(valid, controllers[i]).None? <==> IsBareDid(valid, controllers[i])
    {
    }
  }

  lemma DocumentIsValidIff<B(!new)>(p: Suite<B>, d: Document<B>)
    ensures DocumentError(p, d).None? <==> IsProperDocument(p, d)
  {
    ControllersAreValidIff(p.validIdentifier, d.controller);
    MethodsAreValidIff(p, d.verificationMethod);
    RelationshipsAreValidIff(p, d, d.assertionMethod, 0xed);
    RelationshipsAreValidIff(p, d, d.keyAgreement, 0xec);
  }

  /** The proof is a signature over everything else, under one of the document's assertion keys. */
  ghost predicate HasProperProof<B(!new)>(p: Suite<B>, d: Document<B>) {
    && d.proof.proofType == "MultiformatSignature2023" && d.proof.proofPurpose == "assertionMethod"
    && d.proof.verificationMethod in d.assertionMethod
    && exists base, signature, key, bytes ::
         && d.proof.proofValue == Encoded(base, 0xd0ed, signature) && p.is64(signature)
         && HoldsKey(p, d, d.proof.verificationMethod, 0xed, key) && p.is32(key) && p.validPoint(key)
         && p.encodeDocument(d.(proof := Proof("", "", "", Unset))) == Some(bytes)
         && p.verify(key, p.hash(bytes), signature)
  }

  lemma ProofVerifiesIff<B(!new)>(p: Suite<B>, d: Document<B>)
    requires !p.is32(p.empty) && !p.is64(p.empty)
    ensures ProofError(p, d).None? <==> HasProperProof(p, d)
  {
    var id := d.proof.verificationMethod;
    forall key
      ensures VerifyingKey(p, d, id) == Success(key) <==>
                HoldsKey(p, d, id, 0xed, key) && p.is32(key) && p.validPoint(key)
    {
      KeyOfMethodIff(p, d, id, 0xed, key);
    }
    if ProofError(p, d).None? {
      var value, key := d.proof.proofValue, VerifyingKey(p, d, id).value;
      assert value == Encoded(value.base, 0xd0ed, value.payload);
      assert HoldsKey(p, d, id, 0xed, key);
    }
  }

  /** Bytes are accepted as a document exactly when they decode to a proper one with a proper proof. */
  lemma DocumentIsAcceptedIff<B(!new)>(p: Suite<B>, bytes: B, d: Document<B>)
    requires !p.is32(p.empty) && !p.is64(p.empty)
    ensures ParseDocumentBytes(p, bytes) == Success(d) <==>
              p.decodeDocument(bytes) == Some(d) && IsProperDocument(p, d) && HasProperProof(p, d)
  {
    DocumentIsValidIff(p, d);
    ProofVerifiesIff(p, d);
  }

  // ---- the draft ----

  /** `set_ma`: null and the empty map clear the field. */
  function NormalizedExtension(ma: Ipld): (r: Option<Ipld>)
    ensures r.None? <==> ma == Null || ma == Map(map[])
    ensures r.Some? ==> r == Some(ma)
  {
    match ma
    case Null => None
    case Map(entries) => if entries == map[] then None else Some(ma)
    case Other(_) => Some(ma)
  }

  /** A document under construction: the `&mut self` methods of `Document`. */
  class Draft<B(==)> {
    var doc: Document<B>

    /** `Document::new`. */
    constructor (identity: Did, controller: Did, now: string)
      ensures doc == Document(DEFAULT_DID_CONTEXT, identity.BaseId(), [controller.BaseId()], [], [], [],
                              EmptyProof(), now, now, None)
    {
      doc := Document(DEFAULT_DID_CONTEXT, identity.BaseId(), [controller.BaseId()], [], [], [],
                      EmptyProof(), now, now, None);
    }

    /** A method whose id or key is already present is silently not added. */
    method AddVerificationMethod(p: Suite<B>, m: VerificationMethod<B>) returns (error: Option<Error>)
      modifies this
      ensures error == MethodError(p, m)
      ensures error.Some? ==> doc == old(doc)
      ensures error.None? ==>
                doc == if IsKnown(old(doc).verificationMethod, m) then old(doc)
                       else old(doc).(verificationMethod := old(doc).verificationMethod + [m])
      ensures AreDistinct(old(doc).verificationMethod) ==> AreDistinct(doc.verificationMethod)
    {
      error := MethodError(p, m);
      if error.Some? {
        return;
      }
      if !IsKnown(doc.verificationMethod, m) {
        if AreDistinct(doc.verificationMethod) {
          AddingKeepsDistinct(doc.verificationMethod, m);
        }
        doc := doc.(verificationMethod := doc.verificationMethod + [m]);
      }
    }

    method SetRelationships(assertionId: string, agreementId: string)
      modifies this
      ensures doc == old(doc).(assertionMethod := [assertionId], keyAgreement := [agreementId])
    {
      doc := doc.(assertionMethod := [assertionId], keyAgreement := [agreementId]);
    }

    method SetCreatedAt(createdAt: string)
      modifies this
      ensures doc == old(doc).(createdAt := createdAt)
    {
      doc := doc.(createdAt := createdAt);
    }

    method SetMa(ma: Ipld)
      modifies this
      ensures doc == old(doc).(ma := NormalizedExtension(ma))
    {
      doc := doc.(ma := NormalizedExtension(ma));
    }

    method Touch(now: string)
      modifies this
      ensures doc == old(doc).(updatedAt := now)
    {
      doc := doc.(updatedAt := now);
    }

    /** Signs everything but the proof, replacing any earlier proof. */
    method Sign(p: Suite<B>, key: SigningKey<B>, m: VerificationMethod<B>) returns (error: Option<Error>)
      modifies this
      ensures error.None? <==> key.publicKeyMultibase == m.publicKeyMultibase && PayloadHash(p, old(doc)).Success?
      ensures error.None? ==> doc == old(doc).(proof := ProofFor(p, key.secret, m.id, PayloadHash(p, old(doc)).value))
      ensures error.Some? ==> doc == old(doc)
    {
      if key.publicKeyMultibase != m.publicKeyMultibase {
        return Some(InvalidPublicKeyMultibase);
      }
      var hash := PayloadHash(p, doc);
      if hash.Failure? {
        return Some(hash.error);
      }
      doc := doc.(proof := ProofFor(p, key.secret, m.id, hash.value));
      return None;
    }
  }
}
