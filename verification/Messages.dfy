/** Signed messages and their encrypted envelopes (src/msg.rs). Each operation reads the clock as `now`. */
module Messages {
  import opened Wrappers
  import opened Dids
  import opened Formats
  import opened Documents
  import Text

  const DEFAULT_REPLAY_WINDOW_SECS: u64 := 120
  const DEFAULT_MAX_CLOCK_SKEW_SECS: u64 := 30
  const DEFAULT_MESSAGE_TTL_SECS: u64 := 3600

  const DEFAULT_PROTOCOL := "/ma/0.0.1"
  const MESSAGE_TYPE_BROADCAST := "application/vnd.ma.broadcast"
  const HEADERS_LABEL := "ma"
  const CONTENT_LABEL := "/ma/0.0.1"

  /** u64 addition as a release build does it. */
  function Plus(a: u64, b: u64): u64 {
    (a + b) % 0x1_0000_0000_0000_0000
  }

  /** `validate_message_freshness`. */
  function FreshnessError(createdAt: u64, exp: u64, now: u64): Option<Error> {
    if createdAt > Plus(now, DEFAULT_MAX_CLOCK_SKEW_SECS) then Some(MessageFromFuture)
    else if exp == 0 then None
    else if now > Plus(exp, DEFAULT_MAX_CLOCK_SKEW_SECS) then Some(MessageTooOld)
    else None
  }

  function MessageIdError(id: string): Option<Error> {
    if id == "" then Some(EmptyMessageId) else if !Text.IsToken(id) then Some(InvalidMessageId) else None
  }

  function IsBroadcast(messageType: string): bool {
    messageType == MESSAGE_TYPE_BROADCAST
  }

  function RecipientError<B>(p: Suite<B>, messageType: string, to: string): Option<Error> {
    var empty := Text.Trim(to) == "";
    if IsBroadcast(messageType) then if empty then None else Some(BroadcastMustNotHaveRecipient)
    else if empty then Some(MessageRequiresRecipient)
    else if Parse(p.validIdentifier, to).Failure? then Some(InvalidRecipient)
    else None
  }

  /** The part of `Headers::validate` that does not depend on the clock. */
  function StaticHeadersError<B>(p: Suite<B>, h: Headers<B>): Option<Error> {
    if MessageIdError(h.id).Some? then MessageIdError(h.id)
    else if h.protocol != DEFAULT_PROTOCOL then Some(InvalidMessageType)
    else if h.replyTo.Some? && MessageIdError(h.replyTo.value).Some? then MessageIdError(h.replyTo.value)
    else if h.contentType == "" then Some(MissingContentType)
    else if Validate(p.validIdentifier, h.from).Some? then Validate(p.validIdentifier, h.from)
    else RecipientError(p, h.messageType, h.to)
  }

  /** `Headers::validate`. */
  function HeadersError<B>(p: Suite<B>, h: Headers<B>, now: u64): Option<Error> {
    if StaticHeadersError(p, h).Some? then StaticHeadersError(p, h)
    else FreshnessError(h.createdAt, h.exp, now)
  }

  function UnsignedHeaders<B>(p: Suite<B>, m: Message<B>): Headers<B> {
    Headers(m.id, m.protocol, m.messageType, m.from, m.to, m.createdAt, m.exp, m.contentType, m.replyTo,
            p.hash(m.content), p.empty)
  }

  function HeadersOf<B>(p: Suite<B>, m: Message<B>): Headers<B> {
    UnsignedHeaders(p, m).(signature := m.signature)
  }

  /** `Message::sign`. */
  function Signed<B>(p: Suite<B>, m: Message<B>, secret: B): Message<B> {
    m.(signature := p.sign(secret, p.encodeHeaders(UnsignedHeaders(p, m))))
  }

  /** `Message::verify_with_document`. */
  function SignatureError<B(==)>(p: Suite<B>, m: Message<B>, sender: Document<B>, now: u64): Option<Error> {
    if m.from == "" then Some(MissingSender)
    else if m.signature == p.empty then Some(MissingSignature)
    else
      match Parse(p.validIdentifier, m.from)
      case Failure(e) => Some(e)
      case Success(did) =>
        if sender.id != did.BaseId() then Some(InvalidRecipient)
        else if HeadersError(p, HeadersOf(p, m), now).Some? then HeadersError(p, HeadersOf(p, m), now)
        else if !p.is64(m.signature) then Some(InvalidMessageSignature)
        else
          match AssertionKey(p, sender)
          case Failure(e) => Some(e)
          case Success(key) =>
            if p.verify(key, p.encodeHeaders(UnsignedHeaders(p, m)), m.signature) then None
            else Some(InvalidMessageSignature)
  }

  /** The randomness one envelope takes: an ephemeral secret and two nonces. */
  datatype Randomness<B> = Randomness(ephemeral: B, headersNonce: B, contentNonce: B)

  /** `Message::enclose_for`. */
  function EncloseFor<B(==)>(p: Suite<B>, m: Message<B>, recipient: Document<B>, random: Randomness<B>, now: u64)
    : Result<Envelope<B>, Error>
  {
    var bad := HeadersError(p, HeadersOf(p, m), now);
    if bad.Some? then Failure(bad.value)
    else
      match AgreementKey(p, recipient)
      case Failure(e) => Failure(e)
      case Success(key) =>
        var shared := p.agree(random.ephemeral, key);
        Success(Envelope(
          p.agreementKey(random.ephemeral),
          p.seal(p.derive(shared, CONTENT_LABEL), random.contentNonce, m.content),
          p.seal(p.derive(shared, HEADERS_LABEL), random.headersNonce, p.encodeHeaders(HeadersOf(p, m)))))
  }

  /** `Envelope::verify`. */
  function EnvelopeError<B(==)>(p: Suite<B>, e: Envelope<B>): Option<Error> {
    if e.ephemeralKey == p.empty then Some(MissingEnvelopeField)
    else if !p.is32(e.ephemeralKey) then Some(InvalidEphemeralKeyLength)
    else if e.encryptedContent == p.empty || e.encryptedHeaders == p.empty then Some(MissingEnvelopeField)
    else None
  }

  /** The message its headers and content make up. */
  function FromParts<B>(h: Headers<B>, content: B): Message<B> {
    Message(h.id, h.protocol, h.messageType, h.from, h.to, h.createdAt, h.exp, h.contentType, h.replyTo, content,
            h.signature)
  }

  /** `Envelope::decrypt`: the signature is not checked here. */
  function Decrypt<B(==)>(p: Suite<B>, e: Envelope<B>, secret: B, now: u64): Result<Message<B>, Error> {
    if EnvelopeError(p, e).Some? then Failure(EnvelopeError(p, e).value)
    else
      var shared := p.agree(secret, e.ephemeralKey);
      match p.unseal(p.derive(shared, HEADERS_LABEL), e.encryptedHeaders)
      case Failure(error) => Failure(error)
      case Success(bytes) =>
        match p.decodeHeaders(bytes)
        case None => Failure(CborDecode)
        case Some(h) =>
          if HeadersError(p, h, now).Some? then Failure(HeadersError(p, h, now).value)
          else
            match p.unseal(p.derive(shared, CONTENT_LABEL), e.encryptedContent)
            case Failure(error) => Failure(error)
            case Success(content) => Success(FromParts(h, content))
  }

  /** `Envelope::open`: decrypts, then verifies against the sender's document. */
  function Open<B(==)>(
      p: Suite<B>, e: Envelope<B>, secret: B, sender: Document<B>, now: u64): Result<Message<B>, Error> {
    match Decrypt(p, e, secret, now)
    case Failure(error) => Failure(error)
    case Success(m) =>
      match SignatureError(p, m, sender, now)
      case Some(error) => Failure(error)
      case None => Success(m)
  }

  // ---- which envelopes decrypt ----

  /** The key and both ciphertexts are there. */
  ghost predicate IsWhole<B>(p: Suite<B>, e: Envelope<B>) {
    p.is32(e.ephemeralKey) && e.encryptedContent != p.empty && e.encryptedHeaders != p.empty
  }

  /**
   * An envelope decrypts to a message exactly when it is whole, its headers unseal under the agreed
   * key to valid ones, its content unseals, and the message is made of these; the two keys differ in
   * their labels.
   */
  lemma DecryptsIff<B(!new)>(p: Suite<B>, e: Envelope<B>, secret: B, now: u64, m: Message<B>)
    requires !p.is32(p.empty)
    ensures var shared := p.agree(secret, e.ephemeralKey);
      Decrypt(p, e, secret, now) == Success(m) <==>
        && IsWhole(p, e)
        && (exists h :: HeadersUnseal(p, p.derive(shared, "ma"), e, h)
                        && HeadersError(p, h, now).None? && IsMessageOf(m, h))
        && p.unseal(p.derive(shared, "/ma/0.0.1"), e.encryptedContent) == Success(m.content)
  {
    var shared := p.agree(secret, e.ephemeralKey);
    WholeIff(p, e);
    if IsWhole(p, e) {
      if h :| HeadersUnseal(p, p.derive(shared, "ma"), e, h) {
        DecryptsWith(p, e, secret, now, h);
        if p.unseal(p.derive(shared, "/ma/0.0.1"), e.encryptedContent).Success? && HeadersError(p, h, now).None? {
          MessageOfIff(m, h, p.unseal(p.derive(shared, "/ma/0.0.1"), e.encryptedContent).value);
        }
      } else {
        WithoutHeaders(p, e, secret, now);
      }
    }
  }

  /** The sealed headers are these. */
  ghost predicate HeadersUnseal<B>(p: Suite<B>, key: B, e: Envelope<B>, h: Headers<B>) {
    var bytes := p.unseal(key, e.encryptedHeaders);
    bytes.Success? && p.decodeHeaders(bytes.value) == Some(h)
  }

  lemma WholeIff<B>(p: Suite<B>, e: Envelope<B>)
    requires !p.is32(p.empty)
    ensures EnvelopeError(p, e).None? <==> IsWhole(p, e)
  {
  }

  lemma DecryptsWith<B>(p: Suite<B>, e: Envelope<B>, secret: B, now: u64, h: Headers<B>)
    requires EnvelopeError(p, e).None? && HeadersUnseal(p, p.derive(p.agree(secret, e.ephemeralKey), "ma"), e, h)
    ensures var content := p.unseal(p.derive(p.agree(secret, e.ephemeralKey), "/ma/0.0.1"), e.encryptedContent);
      && Decrypt(p, e, secret, now).Success? == (HeadersError(p, h, now).None? && content.Success?)
      && (Decrypt(p, e, secret, now).Success? ==> Decrypt(p, e, secret, now).value == FromParts(h, content.value))
  {
  }

  lemma WithoutHeaders<B(!new)>(p: Suite<B>, e: Envelope<B>, secret: B, now: u64)
    requires forall h :: !HeadersUnseal(p, p.derive(p.agree(secret, e.ephemeralKey), "ma"), e, h)
    ensures Decrypt(p, e, secret, now).Failure?
  {
    var bytes := p.unseal(p.derive(p.agree(secret, e.ephemeralKey), "ma"), e.encryptedHeaders);
    if bytes.Success? && p.decodeHeaders(bytes.value).Some? {
      assert HeadersUnseal(p, p.derive(p.agree(secret, e.ephemeralKey), "ma"), e, p.decodeHeaders(bytes.value).value);
    }
  }

  lemma MessageOfIff<B>(m: Message<B>, h: Headers<B>, content: B)
    ensures m == FromParts(h, content) <==> IsMessageOf(m, h) && m.content == content
  {
  }

  /** The message has these headers. Its content hash is not compared here, but when it is verified. */
  ghost predicate IsMessageOf<B>(m: Message<B>, h: Headers<B>) {
    && m.id == h.id && m.protocol == h.protocol && m.messageType == h.messageType && m.from == h.from && m.to == h.to
    && m.createdAt == h.createdAt && m.exp == h.exp && m.contentType == h.contentType && m.replyTo == h.replyTo
    && m.signature == h.signature
  }

  // ---- which headers are valid, and which messages verify ----

  /** The headers name a message, a protocol, a content type and a sender. */
  ghost predicate IsComplete<B>(p: Suite<B>, h: Headers<B>) {
    && Text.IsToken(h.id) && h.protocol == "/ma/0.0.1"
    && (h.replyTo.Some? ==> Text.IsToken(h.replyTo.value))
    && h.contentType != "" && Parse(p.validIdentifier, h.from).Success?
  }

  ghost predicate IsBroadcastHeaders<B>(h: Headers<B>) {
    h.messageType == "application/vnd.ma.broadcast"
  }

  /** A broadcast is to nobody, any other message to a DID or DID URL. */
  ghost predicate HasRightRecipient<B>(p: Suite<B>, h: Headers<B>) {
    if IsBroadcastHeaders(h) then Text.IsBlank(h.to) else !Text.IsBlank(h.to) && Parse(p.validIdentifier, h.to).Success?
  }

  /** No further in the future than 30 seconds. */
  ghost predicate IsDue(createdAt: u64, now: u64) {
    createdAt <= (now + 30) % 0x1_0000_0000_0000_0000
  }

  /** Never expires, or has not expired more than 30 seconds ago. */
  ghost predicate IsAlive(exp: u64, now: u64) {
    exp == 0 || now <= (exp + 30) % 0x1_0000_0000_0000_0000
  }

  /** The headers that are valid, and what is wrong with complete ones that are not. */
  lemma HeadersAreValidIff<B>(p: Suite<B>, h: Headers<B>, now: u64)
    ensures HeadersError(p, h, now).None? <==>
              IsComplete(p, h) && HasRightRecipient(p, h) && IsDue(h.createdAt, now) && IsAlive(h.exp, now)
    ensures IsComplete(p, h) && !HasRightRecipient(p, h) ==>
              HeadersError(p, h, now) == Some(
                if IsBroadcastHeaders(h) then BroadcastMustNotHaveRecipient
                else if Text.IsBlank(h.to) then MessageRequiresRecipient else InvalidRecipient)
    ensures IsComplete(p, h) && HasRightRecipient(p, h) ==>
              && (!IsDue(h.createdAt, now) ==> HeadersError(p, h, now) == Some(MessageFromFuture))
              && (IsDue(h.createdAt, now) && !IsAlive(h.exp, now) ==> HeadersError(p, h, now) == Some(MessageTooOld))
  {
    CompleteIff(p, h);
    RightRecipientIff(p, h);
  }

  lemma CompleteIff<B>(p: Suite<B>, h: Headers<B>)
    ensures IsComplete(p, h) ==> StaticHeadersError(p, h) == RecipientError(p, h.messageType, h.to)
    ensures !IsComplete(p, h) ==> StaticHeadersError(p, h).Some?
  {
  }

  lemma RightRecipientIff<B>(p: Suite<B>, h: Headers<B>)
    ensures HasRightRecipient(p, h) ==> RecipientError(p, h.messageType, h.to).None?
    ensures !HasRightRecipient(p, h) ==>
              RecipientError(p, h.messageType, h.to) == Some(
                if IsBroadcastHeaders(h) then BroadcastMustNotHaveRecipient
                else if Text.IsBlank(h.to) then MessageRequiresRecipient else InvalidRecipient)
  {
    Text.TrimOfBlank(h.to);
  }

  /**
   * A message verifies against a document exactly when its headers are valid, the document is that of
   * its sender, and it carries a signature over its unsigned headers under the document's first
   * assertion key.
   */
  lemma MessageVerifiesIff<B(!new)>(p: Suite<B>, m: Message<B>, sender: Document<B>, now: u64)
    requires !p.is32(p.empty) && !p.is64(p.empty)
    ensures SignatureError(p, m, sender, now).None? <==>
              && HeadersError(p, HeadersOf(p, m), now).None?
              && (exists d :: Parse(p.validIdentifier, m.from) == Success(d) && sender.id == "did:ma:" + d.ipns)
              && p.is64(m.signature)
              && (exists key :: HasAssertionKey(p, sender, key)
                                && p.verify(key, p.encodeHeaders(UnsignedHeaders(p, m)), m.signature))
  {
    if AssertionKey(p, sender).Success? {
      AssertionKeyIff(p, sender, AssertionKey(p, sender).value);
    }
    forall key | HasAssertionKey(p, sender, key)
      ensures AssertionKey(p, sender) == Success(key)
    {
      AssertionKeyIff(p, sender, key);
    }
  }

  /** What was enclosed for a key is decrypted with its secret, to the very same message, while it is fresh. */
  lemma DecryptUndoesEncloseFor<B(!new)>(
      p: Suite<B>, m: Message<B>, recipient: Document<B>, secret: B, random: Randomness<B>, sentAt: u64,
      now: u64, e: Envelope<B>)
    requires Lawful(p) && p.is32(random.ephemeral)
    requires AgreementKey(p, recipient) == Success(p.agreementKey(secret))
    requires EncloseFor(p, m, recipient, random, sentAt) == Success(e)
    ensures var bad := HeadersError(p, HeadersOf(p, m), now);
            Decrypt(p, e, secret, now) == if bad.Some? then Failure(bad.value) else Success(m)
  {
    assert p.agree(secret, e.ephemeralKey) == p.agree(random.ephemeral, p.agreementKey(secret));
    assert p.decodeHeaders(p.encodeHeaders(HeadersOf(p, m))) == Some(HeadersOf(p, m));
  }

  /**
   * A signature covers every field and the content: a message that differs from a signed one in
   * anything else fails verification with the same signature, whoever's document it is checked with.
   */
  lemma SignaturePinsMessage<B(!new)>(
      p: Suite<B>, m: Message<B>, secret: B, other: Message<B>, sender: Document<B>, now: u64)
    requires Lawful(p) && p.is32(secret)
    requires other.signature == Signed(p, m, secret).signature
    requires SignatureError(p, other, sender, now).None?
    ensures other == Signed(p, m, secret)
    ensures AssertionKey(p, sender) == Success(p.verifyingKey(secret))
  {
    var a, b := UnsignedHeaders(p, m), UnsignedHeaders(p, other);
    assert p.encodeHeaders(a) == p.encodeHeaders(b);
    assert p.decodeHeaders(p.encodeHeaders(a)) == Some(a) && p.decodeHeaders(p.encodeHeaders(b)) == Some(b);
  }

  /** And a message signed with the key of the sender's document verifies as long as its headers are valid. */
  lemma SignedMessageVerifies<B(!new)>(p: Suite<B>, m: Message<B>, secret: B, sender: Document<B>, now: u64)
    requires Lawful(p) && p.is32(secret) && AssertionKey(p, sender) == Success(p.verifyingKey(secret))
    requires Parse(p.validIdentifier, m.from).Success? && sender.id == Parse(p.validIdentifier, m.from).value.BaseId()
    ensures SignatureError(p, Signed(p, m, secret), sender, now) == HeadersError(p, HeadersOf(p, m), now)
  {
    var signed := Signed(p, m, secret);
    assert UnsignedHeaders(p, signed) == UnsignedHeaders(p, m);
    assert p.is64(signed.signature);
  }

  /** A signed message, enclosed for a recipient, opens there to itself while its headers are valid. */
  lemma OpenUndoesSignAndEnclose<B(!new)>(
      p: Suite<B>, m: Message<B>, secret: B, sender: Document<B>, recipient: Document<B>, recipientSecret: B,
      random: Randomness<B>, sentAt: u64, now: u64, e: Envelope<B>)
    requires Lawful(p) && p.is32(secret) && p.is32(random.ephemeral)
    requires AssertionKey(p, sender) == Success(p.verifyingKey(secret))
    requires Parse(p.validIdentifier, m.from).Success? && sender.id == Parse(p.validIdentifier, m.from).value.BaseId()
    requires AgreementKey(p, recipient) == Success(p.agreementKey(recipientSecret))
    requires EncloseFor(p, Signed(p, m, secret), recipient, random, sentAt) == Success(e)
    ensures var bad := HeadersError(p, HeadersOf(p, m), now);
            Open(p, e, recipientSecret, sender, now)
            == if bad.Some? then Failure(bad.value) else Success(Signed(p, m, secret))
  {
    SameHeaders(p, m, Signed(p, m, secret), now);
    DecryptUndoesEncloseFor(p, Signed(p, m, secret), recipient, recipientSecret, random, sentAt, now, e);
    SignedMessageVerifies(p, m, secret, sender, now);
  }

  /** The checks on headers ignore the signature. */
  lemma SameHeaders<B>(p: Suite<B>, m: Message<B>, signed: Message<B>, now: u64)
    requires signed == m.(signature := signed.signature)
    ensures HeadersError(p, HeadersOf(p, m), now) == HeadersError(p, HeadersOf(p, signed), now)
  {
  }
}
