/**
 * The signed structures: DID documents (src/doc.rs), messages and envelopes (src/msg.rs).
 *
 * `B` stands for byte strings. The cryptographic and serialization libraries are the functions of a
 * `Suite`; what is assumed of them is spelled out in `Lawful`, and shown consistent.
 */
module Formats {
  import opened Wrappers
  import opened Dids

  type u64 = x: int | 0 <= x < 0x1_0000_0000_0000_0000

  /** Multibase text, represented by what it decodes to. */
  datatype Multibase<B> =
    | Unset                                            // the empty string
    | Encoded(base: char, codec: nat, payload: B)
    | Malformed(text: string)

  const BASE58BTC := 'z'
  const CODEC_X25519_PUB := 0xec
  const CODEC_ED25519_PUB := 0xed
  const CODEC_EDDSA_SIG := 0xd0ed

  // ---- documents ----

  /** Extension data; its contents are opaque to this library. */
  datatype Ipld = Null | Map(entries: map<string, Ipld>) | Other(repr: string)

  datatype VerificationMethod<B> = VerificationMethod(
    id: string,
    keyType: string,
    controller: string,
    publicKeyMultibase: Multibase<B>)

  datatype Proof<B> = Proof(
    proofType: string,
    verificationMethod: string,
    proofPurpose: string,
    proofValue: Multibase<B>)

  datatype Document<B> = Document(
    context: seq<string>,
    id: string,
    controller: seq<string>,
    verificationMethod: seq<VerificationMethod<B>>,
    assertionMethod: seq<string>,
    keyAgreement: seq<string>,
    proof: Proof<B>,
    createdAt: string,
    updatedAt: string,
    ma: Option<Ipld>)

  // ---- messages ----

  datatype Headers<B> = Headers(
    id: string,
    protocol: string,
    messageType: string,
    from: string,
    to: string,
    createdAt: u64,
    exp: u64,
    contentType: string,
    replyTo: Option<string>,
    contentHash: B,
    signature: B)

  datatype Message<B> = Message(
    id: string,
    protocol: string,
    messageType: string,
    from: string,
    to: string,
    createdAt: u64,
    exp: u64,
    contentType: string,
    replyTo: Option<string>,
    content: B,
    signature: B)

  datatype Envelope<B> = Envelope(ephemeralKey: B, encryptedContent: B, encryptedHeaders: B)

  // ---- the libraries ----

  datatype Suite<!B> = Suite(
    validIdentifier: string -> bool,      // CID, multibase and libp2p key parsing
    validTimestamp: string -> bool,       // RFC 3339, UTC, whole seconds
    empty: B,
    is32: B -> bool,                      // exactly 32 bytes long
    is64: B -> bool,
    hash: B -> B,                         // BLAKE3
    ipnsOf: B -> string,                  // the IPNS identifier of an Ed25519 secret
    verifyingKey: B -> B,                 // Ed25519 public key of a secret
    validPoint: B -> bool,
    sign: (B, B) -> B,
    verify: (B, B, B) -> bool,            // public key, message, signature
    agreementKey: B -> B,                 // X25519 public key of a secret
    agree: (B, B) -> B,                   // own secret, other public key
    derive: (B, string) -> B,
    seal: (B, B, B) -> B,                 // key, nonce, plaintext: nonce and ciphertext
    unseal: (B, B) -> Result<B, Error>,
    encodeDocument: Document<B> -> Option<B>,   // DAG-CBOR, fails on extension data it cannot express
    decodeDocument: B -> Option<Document<B>>,
    encodeHeaders: Headers<B> -> B,
    decodeHeaders: B -> Option<Headers<B>>,
    encodeMessage: Message<B> -> B,
    decodeMessage: B -> Option<Message<B>>,
    encodeEnvelope: Envelope<B> -> B,
    decodeEnvelope: B -> Option<Envelope<B>>)

  ghost predicate LengthLaws<B(!new)>(p: Suite<B>) {
    && !p.is32(p.empty) && !p.is64(p.empty)
    && (forall s :: p.is32(s) ==> p.is32(p.verifyingKey(s)) && p.is32(p.agreementKey(s)))
    && (forall s, m :: p.is64(p.sign(s, m)))
    && (forall k, n, m :: p.seal(k, n, m) != p.empty)
  }

  /** Perfect signatures and hashes: only the very message verifies, under the very key. */
  ghost predicate SignatureLaws<B(!new)>(p: Suite<B>) {
    && (forall x, y :: p.hash(x) == p.hash(y) ==> x == y)
    && (forall s :: p.is32(s) ==> p.validPoint(p.verifyingKey(s)))
    && (forall s, m, k, m' :: p.is32(s) ==> (p.verify(k, m', p.sign(s, m)) <==> k == p.verifyingKey(s) && m' == m))
  }

  ghost predicate EncryptionLaws<B(!new)>(p: Suite<B>) {
    && (forall a, b :: p.agree(a, p.agreementKey(b)) == p.agree(b, p.agreementKey(a)))
    && (forall k, n, m :: p.unseal(k, p.seal(k, n, m)) == Success(m))
  }

  /**
   * Decoding undoes encoding, and message bytes are no envelope. An extension that is present but
   * null is written as null and read back as absent, so it is the one document that does not survive.
   */
  ghost predicate CodecLaws<B(!new)>(p: Suite<B>) {
    && (forall d: Document<B> :: d.ma != Some(Null) && p.encodeDocument(d).Some? ==>
          p.decodeDocument(p.encodeDocument(d).value) == Some(d))
    && (forall b :: p.decodeDocument(b).Some? ==> p.decodeDocument(b).value.ma != Some(Null))
    && (forall d: Document<B>, d': Document<B> :: d.ma == d'.ma ==>
          (p.encodeDocument(d).Some? <==> p.encodeDocument(d').Some?))
    && (forall h :: p.decodeHeaders(p.encodeHeaders(h)) == Some(h))
    && (forall m :: p.decodeMessage(p.encodeMessage(m)) == Some(m))
    && (forall e :: p.decodeEnvelope(p.encodeEnvelope(e)) == Some(e))
    && (forall m :: p.decodeEnvelope(p.encodeMessage(m)) == None)
  }

  /** What the model assumes of the libraries. */
  ghost predicate Lawful<B(!new)>(p: Suite<B>) {
    && IdentifierCheck(p.validIdentifier)
    && LengthLaws(p) && SignatureLaws(p) && EncryptionLaws(p) && CodecLaws(p)
  }

  // ---- the assumptions are consistent ----

  /** Byte strings as the terms that built them. */
  datatype Term =
    | EmptyTerm
    | Secret(n: nat)
    | Public(secret: Term)
    | Signature(key: Term, signed: Term)
    | Shared(low: Term, high: Term)
    | Hashed(term: Term)
    | Derived(term: Term, name: string)
    | Sealed(key: Term, nonce: Term, plain: Term)
    | OfDocument(document: Document<Term>)
    | OfHeaders(headers: Headers<Term>)
    | OfMessage(message: Message<Term>)
    | OfEnvelope(envelope: Envelope<Term>)

  /** A Diffie-Hellman secret that does not depend on who computes it. */
  function SharedSecret(a: Term, b: Term): Term {
    match (a, b)
    case (Secret(x), Secret(y)) => if x <= y then Shared(a, b) else Shared(b, a)
    case _ => EmptyTerm
  }

  function SymbolicSuite(): Suite<Term> {
    Suite(
      (s: string) => s == "k51a" || s == "k51b",
      (s: string) => |s| == 20,
      EmptyTerm,
      (t: Term) => t.Secret? || t.Public?,
      (t: Term) => t.Signature?,
      (t: Term) => Hashed(t),
      (t: Term) => if t == Secret(0) then "k51a" else "k51b",
      (t: Term) => Public(t),
      (_: Term) => true,
      (s: Term, m: Term) => Signature(Public(s), m),
      (k: Term, m: Term, s: Term) => s == Signature(k, m),
      (t: Term) => Public(t),
      (s: Term, k: Term) => if k.Public? then SharedSecret(s, k.secret) else EmptyTerm,
      (t: Term, l: string) => Derived(t, l),
      (k: Term, n: Term, m: Term) => Sealed(k, n, m),
      (k: Term, c: Term) => if c.Sealed? && c.key == k then Success(c.plain) else Failure(Crypto),
      (d: Document<Term>) => if d.ma == Some(Null) then Some(OfDocument(d.(ma := None))) else Some(OfDocument(d)),
      (b: Term) => if b.OfDocument? && b.document.ma != Some(Null) then Some(b.document) else None,
      (h: Headers<Term>) => OfHeaders(h),
      (b: Term) => if b.OfHeaders? then Some(b.headers) else None,
      (m: Message<Term>) => OfMessage(m),
      (b: Term) => if b.OfMessage? then Some(b.message) else None,
      (e: Envelope<Term>) => OfEnvelope(e),
      (b: Term) => if b.OfEnvelope? then Some(b.envelope) else None)
  }

  lemma SymbolicCodecs()
    ensures CodecLaws(SymbolicSuite())
  {
  }

  lemma SymbolicSignatures()
    ensures SignatureLaws(SymbolicSuite()) && LengthLaws(SymbolicSuite())
  {
  }

  lemma SymbolicEncryption()
    ensures EncryptionLaws(SymbolicSuite())
  {
    var p := SymbolicSuite();
    forall a, b
      ensures p.agree(a, p.agreementKey(b)) == p.agree(b, p.agreementKey(a))
    {
      assert p.agree(a, p.agreementKey(b)) == SharedSecret(a, b);
      assert SharedSecret(a, b) == SharedSecret(b, a);
    }
  }

  /** Symbolic terms satisfy everything assumed, with two identifiers, so nothing is proved from a contradiction. */
  lemma LawsAreConsistent()
    ensures Lawful(SymbolicSuite())
    ensures SymbolicSuite().validIdentifier("k51a") && SymbolicSuite().validIdentifier("k51b")
  {
    SymbolicCodecs();
    SymbolicSignatures();
    SymbolicEncryption();
    assert IdentifierCheck(SymbolicSuite().validIdentifier) by {
      assert '#' !in "k51a" && '#' !in "k51b";
    }
  }
}
