/**
 * From secret keys to a delivered message: documents as the library builds them, a message signed by
 * one identity, sent to another, and decoded there.
 */
module EndToEnd {
  import opened Wrappers
  import opened Dids
  import opened Formats
  import opened Documents
  import opened Messages
  import opened Identities
  import opened ReplayGuards
  import opened Delivery
  import Text

  /** An identity with its keys and a document built from them. */
  datatype Identity<B> = Identity(
    ipns: string,
    signing: SigningKey<B>,
    encryption: EncryptionKey<B>,
    document: Document<B>)

  /** The document is what `Identities.BuildDocument` makes of the keys, at some times and with some extension. */
  ghost predicate IsBuilt<B(!new)>(p: Suite<B>, a: Identity<B>) {
    && ProperKeys(p, a.signing, a.encryption) && p.validIdentifier(a.ipns)
    && a.encryption.did == Did(a.ipns, Some("enc"))
    && IsSigned(p, a.ipns, a.signing, UnsignedOf(a), a.document)
  }

  /** The keys of a bundle and the document built from it are such an identity. */
  lemma BundleIsBuilt<B(!new)>(p: Suite<B>, bundle: SecretBundle<B>, ext: MaExtension, now: string, d: Document<B>)
    requires Lawful(p) && p.is32(bundle.didSigning) && p.is32(bundle.didEncryption)
    requires BundleSigningKey(p, bundle).Success? && BundleEncryptionKey(p, bundle).Success?
    requires IsSigned(p, Ipns(p, bundle), BundleSigningKey(p, bundle).value, Expected(p, bundle, ext, now), d)
    ensures IsBuilt(p, Identity(Ipns(p, bundle), BundleSigningKey(p, bundle).value,
                                BundleEncryptionKey(p, bundle).value, d))
  {
  }

  function UnsignedOf<B>(a: Identity<B>): Document<B> {
    Unsigned(a.ipns, a.signing, a.encryption, a.document.createdAt, a.document.updatedAt, a.document.ma)
  }

  /** A DID or DID URL of the identity, with whatever fragment. */
  ghost predicate Names<B>(p: Suite<B>, text: string, a: Identity<B>) {
    var did := Parse(p.validIdentifier, text);
    did.Success? && did.value.ipns == a.ipns
  }

  /** A point-to-point message between the two identities, with well-formed headers. */
  ghost predicate Connects<B>(p: Suite<B>, a: Identity<B>, b: Identity<B>, m: Message<B>) {
    && Names(p, m.from, a) && Names(p, m.to, b)
    && !IsBroadcast(m.messageType)
    && MessageIdError(m.id).None? && m.protocol == DEFAULT_PROTOCOL && m.contentType != ""
    && (m.replyTo.Some? ==> MessageIdError(m.replyTo.value).None?)
  }

  lemma DocumentChecksOut<B(!new)>(p: Suite<B>, a: Identity<B>)
    requires Lawful(p) && IsBuilt(p, a)
    ensures a.document.id == BaseId(a.ipns)
    ensures AssertionKey(p, a.document) == Success(p.verifyingKey(a.signing.secret))
    ensures AgreementKey(p, a.document) == Success(p.agreementKey(a.encryption.secret))
  {
    SignedDocumentChecksOut(p, a.ipns, a.signing, a.encryption, UnsignedOf(a), a.document);
  }

  lemma KeyParses<B(!new)>(p: Suite<B>, a: Identity<B>)
    requires Lawful(p) && IsBuilt(p, a)
    ensures Parse(p.validIdentifier, a.encryption.did.Id()) == Success(a.encryption.did)
  {
    EncIsToken();
    IdParses(p.validIdentifier, a.encryption.did);
  }

  lemma EncIsToken()
    ensures Text.IsToken("enc")
  {
  }

  /** What parses as a DID is not blank. */
  lemma NamesAreNotBlank(valid: string -> bool, text: string)
    requires Parse(valid, text).Success?
    ensures text != "" && Text.Trim(text) != ""
  {
    assert DID_PREFIX <= text && text[0] == DID_PREFIX[0] == 'd';
    Text.TrimKeepsSome(text);
  }

  /** Only freshness is left to check of the headers. */
  lemma HeadersOfConnecting<B(!new)>(p: Suite<B>, a: Identity<B>, b: Identity<B>, m: Message<B>, now: u64)
    requires Connects(p, a, b, m)
    ensures HeadersError(p, HeadersOf(p, m), now) == FreshnessError(m.createdAt, m.exp, now)
  {
    NamesAreNotBlank(p.validIdentifier, m.to);
    StaticHeadersOfConnecting(p, m);
  }

  lemma StaticHeadersOfConnecting<B>(p: Suite<B>, m: Message<B>)
    requires Parse(p.validIdentifier, m.from).Success? && Parse(p.validIdentifier, m.to).Success?
    requires Text.Trim(m.to) != "" && !IsBroadcast(m.messageType)
    requires MessageIdError(m.id).None? && m.protocol == DEFAULT_PROTOCOL && m.contentType != ""
    requires m.replyTo.Some? ==> MessageIdError(m.replyTo.value).None?
    ensures StaticHeadersError(p, HeadersOf(p, m)).None?
  {
  }

  lemma SenderVerifies<B(!new)>(p: Suite<B>, a: Identity<B>, m: Message<B>, now: u64)
    requires Lawful(p) && IsBuilt(p, a) && Names(p, m.from, a)
    ensures SignatureError(p, Signed(p, m, a.signing.secret), a.document, now) == HeadersError(p, HeadersOf(p, m), now)
  {
    DocumentChecksOut(p, a);
    SignedMessageVerifies(p, m, a.signing.secret, a.document, now);
  }

  lemma RecipientMatches<B(!new)>(p: Suite<B>, b: Identity<B>, m: Message<B>)
    requires Lawful(p) && IsBuilt(p, b) && Names(p, m.to, b)
    ensures RecipientOf(p, b.encryption, b.document) && AddressedTo(p, b.encryption, m)
  {
    DocumentChecksOut(p, b);
    KeyParses(p, b);
  }

  /** A fresh message from one identity to another is put on the wire, encrypted. */
  lemma ConnectingIsSent<B(!new)>(
      p: Suite<B>, a: Identity<B>, b: Identity<B>, m: Message<B>, random: Randomness<B>, sentAt: u64)
    requires Lawful(p) && IsBuilt(p, a) && IsBuilt(p, b) && Connects(p, a, b, m)
    requires FreshnessError(m.createdAt, m.exp, sentAt).None?
    ensures Outgoing(p, b.document, false, m, random, sentAt).Success?
    ensures p.decodeEnvelope(Outgoing(p, b.document, false, m, random, sentAt).value).Some?
  {
    HeadersOfConnecting(p, a, b, m, sentAt);
    DocumentChecksOut(p, b);
    var e := EncloseFor(p, m, b.document, random, sentAt).value;
    assert p.decodeEnvelope(p.encodeEnvelope(e)) == Some(e);
  }

  /** What becomes of a message on arrival, freshness and replay window permitting. */
  function Outcome<B>(m: Message<B>, seen: Seen, window: u64, a: Arrival<B>): Result<Message<B>, Error> {
    var onDecryption := FreshnessError(m.createdAt, m.exp, a.now);
    var atGuard := FreshnessError(m.createdAt, m.exp, a.t.validate);
    if onDecryption.Some? then Failure(onDecryption.value)
    else if atGuard.Some? then Failure(atGuard.value)
    else if m.id in Prune(seen, window, a.t.prune) then Failure(ReplayDetected)
    else Success(m)
  }

  /**
   * A message signed with the keys one document was built from, addressed to a DID or DID URL of
   * another identity and sent while fresh: whenever it arrives with the sender's document resolved,
   * it is delivered unchanged if it is still fresh and its id is not in the replay window, and
   * otherwise refused with the freshness or replay error.
   */
  lemma SignedMessageIsDelivered<B(!new)>(
      p: Suite<B>, a: Identity<B>, b: Identity<B>, m: Message<B>, random: Randomness<B>, sentAt: u64,
      seen: Seen, window: u64, arrival: Arrival<B>)
    requires Lawful(p) && IsBuilt(p, a) && IsBuilt(p, b) && Connects(p, a, b, m) && p.is32(random.ephemeral)
    requires arrival.resolved == Success(a.document)
    requires Outgoing(p, b.document, false, Signed(p, m, a.signing.secret), random, sentAt) == Success(arrival.payload)
    ensures Decoded(p, b.encryption, seen, window, arrival)
         == Outcome(Signed(p, m, a.signing.secret), seen, window, arrival)
  {
    var signed := Signed(p, m, a.signing.secret);
    SignedConnects(p, a, b, m);
    RecipientMatches(p, b, signed);
    EnvelopeArrives(p, b, signed, random, sentAt, arrival);
    HeadersOfConnecting(p, a, b, signed, arrival.now);
    if FreshnessError(m.createdAt, m.exp, arrival.now).None? {
      SignedChecksOut(p, a, b, m, arrival);
      HeadersOfConnecting(p, a, b, signed, arrival.t.validate);
      PassesToTheGuard(p, b.encryption, signed, seen, window, arrival);
    } else {
      NotUnwrapped(p, b.encryption, seen, window, arrival);
    }
  }

  lemma SignedConnects<B(!new)>(p: Suite<B>, a: Identity<B>, b: Identity<B>, m: Message<B>)
    requires Connects(p, a, b, m)
    ensures Connects(p, a, b, Signed(p, m, a.signing.secret))
  {
  }

  lemma SignedChecksOut<B(!new)>(p: Suite<B>, a: Identity<B>, b: Identity<B>, m: Message<B>, arrival: Arrival<B>)
    requires Lawful(p) && IsBuilt(p, a) && Connects(p, a, b, m) && arrival.resolved == Success(a.document)
    requires FreshnessError(m.createdAt, m.exp, arrival.now).None?
    ensures SenderChecksOut(p, Signed(p, m, a.signing.secret), arrival)
  {
    HeadersOfConnecting(p, a, b, m, arrival.now);
    SenderVerifies(p, a, m, arrival.now);
  }

  lemma NotUnwrapped<B>(p: Suite<B>, key: EncryptionKey<B>, seen: Seen, window: u64, a: Arrival<B>)
    requires Unwrap(p, key, a.payload, a.now).Failure?
    ensures Decoded(p, key, seen, window, a) == Failure(Unwrap(p, key, a.payload, a.now).error)
  {
  }

  /** What a remote outbox sends point to point unwraps to itself, as encrypted, while its headers are valid. */
  lemma EnvelopeArrives<B(!new)>(
      p: Suite<B>, b: Identity<B>, m: Message<B>, random: Randomness<B>, sentAt: u64, a: Arrival<B>)
    requires Lawful(p) && RecipientOf(p, b.encryption, b.document)
    requires p.is32(random.ephemeral) && !IsBroadcast(m.messageType)
    requires Outgoing(p, b.document, false, m, random, sentAt) == Success(a.payload)
    ensures var bad := HeadersError(p, HeadersOf(p, m), a.now);
            Unwrap(p, b.encryption, a.payload, a.now) == if bad.Some? then Failure(bad.value) else Success((m, true))
  {
    var e := EncloseFor(p, m, b.document, random, sentAt).value;
    assert p.decodeEnvelope(p.encodeEnvelope(e)) == Some(e);
    DecryptUndoesEncloseFor(p, m, b.document, b.encryption.secret, random, sentAt, a.now, e);
  }

  /** A message that passes everything before the guard is validated once more, and delivered unless it is a replay. */
  lemma PassesToTheGuard<B>(p: Suite<B>, key: EncryptionKey<B>, m: Message<B>, seen: Seen, window: u64, a: Arrival<B>)
    requires Unwrap(p, key, a.payload, a.now) == Success((m, !IsBroadcast(m.messageType)))
    requires AddressedTo(p, key, m) && SenderChecksOut(p, m, a)
    ensures var bad := HeadersError(p, HeadersOf(p, m), a.t.validate);
            Decoded(p, key, seen, window, a)
            == if bad.Some? then Failure(bad.value)
               else if m.id in Prune(seen, window, a.t.prune) then Failure(ReplayDetected) else Success(m)
  {
    AddressedIff(p, key, m);
  }

  // ---- broadcasts ----

  /** A broadcast of the identity, to nobody, with well-formed headers. */
  ghost predicate Announces<B>(p: Suite<B>, a: Identity<B>, m: Message<B>) {
    && Names(p, m.from, a) && Text.IsBlank(m.to) && m.messageType == "application/vnd.ma.broadcast"
    && Text.IsToken(m.id) && m.protocol == "/ma/0.0.1" && m.contentType != ""
    && (m.replyTo.Some? ==> Text.IsToken(m.replyTo.value))
  }

  lemma HeadersOfBroadcast<B(!new)>(p: Suite<B>, a: Identity<B>, m: Message<B>, now: u64)
    requires Announces(p, a, m)
    ensures HeadersError(p, HeadersOf(p, m), now) == FreshnessError(m.createdAt, m.exp, now)
  {
    Text.TrimOfBlank(m.to);
    BroadcastIsWellFormed(p, m);
  }

  lemma BroadcastIsWellFormed<B>(p: Suite<B>, m: Message<B>)
    requires Parse(p.validIdentifier, m.from).Success? && Text.Trim(m.to) == "" && IsBroadcast(m.messageType)
    requires Text.IsToken(m.id) && m.protocol == DEFAULT_PROTOCOL && m.contentType != ""
    requires m.replyTo.Some? ==> Text.IsToken(m.replyTo.value)
    ensures StaticHeadersError(p, HeadersOf(p, m)).None?
  {
  }

  /** A fresh broadcast leaves every outbox, as it is. */
  lemma BroadcastIsSent<B(!new)>(
      p: Suite<B>, a: Identity<B>, recipient: Document<B>, local: bool, m: Message<B>, random: Randomness<B>,
      sentAt: u64)
    requires Announces(p, a, m) && FreshnessError(m.createdAt, m.exp, sentAt).None?
    ensures Outgoing(p, recipient, local, m, random, sentAt) == Success(p.encodeMessage(m))
  {
    HeadersOfBroadcast(p, a, m, sentAt);
  }

  /**
   * A broadcast signed with the keys a document was built from is delivered unchanged by any recipient
   * for whom that document is resolved, if it is still fresh and its id is not in the replay window,
   * and otherwise refused with the freshness or replay error.
   */
  lemma SignedBroadcastIsDelivered<B(!new)>(
      p: Suite<B>, a: Identity<B>, key: EncryptionKey<B>, m: Message<B>, seen: Seen, window: u64, arrival: Arrival<B>)
    requires Lawful(p) && IsBuilt(p, a) && Announces(p, a, m) && arrival.resolved == Success(a.document)
    requires arrival.payload == p.encodeMessage(Signed(p, m, a.signing.secret))
    ensures Decoded(p, key, seen, window, arrival) == Outcome(Signed(p, m, a.signing.secret), seen, window, arrival)
  {
    var signed := Signed(p, m, a.signing.secret);
    assert Announces(p, a, signed);
    assert Unwrap(p, key, arrival.payload, arrival.now) == Success((signed, false));
    HeadersOfBroadcast(p, a, m, arrival.now);
    SenderVerifies(p, a, m, arrival.now);
    if FreshnessError(m.createdAt, m.exp, arrival.now).None? {
      HeadersOfBroadcast(p, a, signed, arrival.t.validate);
      PassesToTheGuard(p, key, signed, seen, window, arrival);
    } else {
      StaleBroadcastIsRefused(p, key, signed, seen, window, arrival);
    }
  }

  lemma StaleBroadcastIsRefused<B>(
      p: Suite<B>, key: EncryptionKey<B>, m: Message<B>, seen: Seen, window: u64, a: Arrival<B>)
    requires Unwrap(p, key, a.payload, a.now) == Success((m, false)) && IsBroadcast(m.messageType)
    requires a.resolved.Success? && SignatureError(p, m, a.resolved.value, a.now).Some?
    ensures Decoded(p, key, seen, window, a) == Failure(SignatureError(p, m, a.resolved.value, a.now).value)
  {
  }

  // ---- the assumptions can be met at once ----

  /** Two keys of the symbolic libraries, and their signed document. */
  function SymbolicIdentity(ipns: string, n: nat): Identity<Term> {
    var s := SigningKeyFrom(SymbolicSuite(), Did(ipns, Some("sign")), Secret(n));
    var e := EncryptionKeyFrom(SymbolicSuite(), Did(ipns, Some("enc")), Secret(n + 1));
    var d := Unsigned(ipns, s, e, "", "", None);
    var proof := ProofFor(SymbolicSuite(), Secret(n), BaseId(ipns) + "#sign", Hashed(OfDocument(d)));
    Identity(ipns, s, e, d.(proof := proof))
  }

  lemma SymbolicHash(d: Document<Term>)
    requires d.ma == None
    ensures PayloadHash(SymbolicSuite(), d) == Success(Hashed(OfDocument(Payload(d))))
  {
  }

  lemma SymbolicKeys(ipns: string, n: nat)
    ensures ProperKeys(SymbolicSuite(), SymbolicIdentity(ipns, n).signing, SymbolicIdentity(ipns, n).encryption)
  {
  }

  lemma SymbolicIsBuilt(ipns: string, n: nat)
    requires SymbolicSuite().validIdentifier(ipns)
    ensures IsBuilt(SymbolicSuite(), SymbolicIdentity(ipns, n))
  {
    var a := SymbolicIdentity(ipns, n);
    SymbolicKeys(ipns, n);
    assert Payload(UnsignedOf(a)) == UnsignedOf(a);
    SymbolicHash(UnsignedOf(a));
  }

  /**
   * Under the symbolic libraries every such message between two identities is sent, and delivered by
   * a guard that has seen nothing yet.
   */
  lemma SymbolicDelivery(
      ipns: string, other: string, m: Message<Term>, random: Randomness<Term>) returns (arrival: Arrival<Term>)
    requires SymbolicSuite().validIdentifier(ipns) && SymbolicSuite().validIdentifier(other)
    requires SymbolicSuite().is32(random.ephemeral)
    requires Connects(SymbolicSuite(), SymbolicIdentity(ipns, 1), SymbolicIdentity(other, 3), m)
    requires FreshnessError(m.createdAt, m.exp, 0).None?
    ensures Decoded(SymbolicSuite(), SymbolicIdentity(other, 3).encryption, map[], DEFAULT_REPLAY_WINDOW_SECS, arrival)
         == Success(Signed(SymbolicSuite(), m, SymbolicIdentity(ipns, 1).signing.secret))
  {
    LawsAreConsistent();
    SymbolicIsBuilt(ipns, 1);
    SymbolicIsBuilt(other, 3);
    arrival := DeliveredToNewGuard(SymbolicSuite(), SymbolicIdentity(ipns, 1), SymbolicIdentity(other, 3), m, random);
  }

  lemma DeliveredToNewGuard<B(!new)>(p: Suite<B>, a: Identity<B>, b: Identity<B>, m: Message<B>, random: Randomness<B>)
    returns (arrival: Arrival<B>)
    requires Lawful(p) && IsBuilt(p, a) && IsBuilt(p, b) && Connects(p, a, b, m) && p.is32(random.ephemeral)
    requires FreshnessError(m.createdAt, m.exp, 0).None?
    ensures Decoded(p, b.encryption, map[], DEFAULT_REPLAY_WINDOW_SECS, arrival)
         == Success(Signed(p, m, a.signing.secret))
  {
    var signed := Signed(p, m, a.signing.secret);
    ConnectingIsSent(p, a, b, signed, random, 0);
    arrival := Arrival(Outgoing(p, b.document, false, signed, random, 0).value, "", Success(a.document), 0, At(0));
    SignedMessageIsDelivered(p, a, b, m, random, 0, map[], DEFAULT_REPLAY_WINDOW_SECS, arrival);
  }
}
