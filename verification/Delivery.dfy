/**
 * A message's way from an outbox to a remote inbox: what `Outbox::send` puts on the wire
 * (src/outbox.rs:73-86) and what `InboundSecurity::decode` accepts (src/iroh/endpoint.rs:61-104).
 */
module Delivery {
  import opened Wrappers
  import opened Dids
  import opened Formats
  import opened Documents
  import opened Messages
  import opened ReplayGuards

  const IPFS_PROTOCOL_ID := "/ma/ipfs/0.0.1"
  const MESSAGE_TYPE_IDENTITY_PUBLISH_REQUEST := "application/vnd.ma.identity.publish.request"

  // ---- sending ----

  /** The payload for the wire: raw for loopback and broadcasts, an envelope otherwise. */
  function Outgoing<B(==)>(
      p: Suite<B>, recipient: Document<B>, local: bool, m: Message<B>, random: Randomness<B>, now: u64)
    : Result<B, Error>
  {
    var bad := HeadersError(p, HeadersOf(p, m), now);
    if bad.Some? then Failure(bad.value)
    else if local || IsBroadcast(m.messageType) then Success(p.encodeMessage(m))
    else
      match EncloseFor(p, m, recipient, random, now)
      case Failure(e) => Failure(e)
      case Success(e) => Success(p.encodeEnvelope(e))
  }

  /** A send handle; `wire` is what its transport has carried so far. */
  class Outbox<B(==)> {
    var inner: Option<seq<B>>
    const recipient: Document<B>
    const local: bool

    constructor (recipient: Document<B>, local: bool)
      ensures inner == Some([]) && this.recipient == recipient && this.local == local
    {
      inner, this.recipient, this.local := Some([]), recipient, local;
    }

    /**
     * Nothing reaches the wire unless the message is valid and the outbox open. A transport that
     * reports an error may have carried the payload nevertheless.
     */
    method Send(p: Suite<B>, m: Message<B>, random: Randomness<B>, now: u64) returns (error: Option<Error>)
      modifies this
      ensures var payload := Outgoing(p, recipient, local, m, random, now);
              match payload
              case Failure(e) => error == Some(e) && inner == old(inner)
              case Success(bytes) =>
                if old(inner).None? then error == Some(ConnectionClosed) && inner.None?
                else
                  && (error.None? || error == Some(Transport))
                  && (inner == Some(old(inner).value + [bytes]) || (error.Some? && inner == old(inner)))
    {
      error := HeadersError(p, HeadersOf(p, m), now);
      if error.Some? {
        return;
      }
      var payload;
      if local || IsBroadcast(m.messageType) {
        payload := p.encodeMessage(m);
      } else {
        var envelope := EncloseFor(p, m, recipient, random, now);
        if envelope.Failure? {
          return Some(envelope.error);
        }
        payload := p.encodeEnvelope(envelope.value);
      }
      if inner.None? {
        return Some(ConnectionClosed);
      }
      if * {
        return Some(Transport);
      }
      inner := Some(inner.value + [payload]);
      if * {
        error := Some(Transport);
      }
    }

    /** A closed outbox stays closed: later sends fail. */
    method Close()
      modifies this
      ensures inner.None?
    {
      inner := None;
    }
  }

  /**
   * What goes out: loopback messages and broadcasts raw, everything else in an envelope; and exactly
   * messages with valid headers, to a recipient with an agreement key if an envelope is needed.
   */
  lemma WireForm<B>(
      p: Suite<B>, recipient: Document<B>, local: bool, m: Message<B>, random: Randomness<B>, now: u64)
    ensures var raw := local || m.messageType == "application/vnd.ma.broadcast";
            var payload := Outgoing(p, recipient, local, m, random, now);
            && (payload.Success? <==>
                  HeadersError(p, HeadersOf(p, m), now).None? && (raw || AgreementKey(p, recipient).Success?))
            && (payload.Success? && raw ==> payload.value == p.encodeMessage(m))
            && (payload.Success? && !raw ==>
                  && EncloseFor(p, m, recipient, random, now).Success?
                  && payload.value == p.encodeEnvelope(EncloseFor(p, m, recipient, random, now).value))
  {
    EncloseSucceeds(p, recipient, m, random, now);
  }

  lemma EncloseSucceeds<B>(p: Suite<B>, recipient: Document<B>, m: Message<B>, random: Randomness<B>, now: u64)
    ensures EncloseFor(p, m, recipient, random, now).Success? <==>
              HeadersError(p, HeadersOf(p, m), now).None? && AgreementKey(p, recipient).Success?
  {
  }

  // ---- receiving ----

  /** An inbound payload with everything `decode` takes from elsewhere. */
  datatype Arrival<B> = Arrival(
    payload: B,
    protocol: string,
    resolved: Result<Document<B>, Error>,   // what the resolver answers for the sender
    now: u64,                               // the clock while decrypting and verifying
    t: Readings)                            // the clock inside the replay guard

  predicate SkipResolverVerification(protocol: string, messageType: string) {
    protocol == IPFS_PROTOCOL_ID && messageType == MESSAGE_TYPE_IDENTITY_PUBLISH_REQUEST
  }

  function SameBaseDid<B>(p: Suite<B>, left: string, right: string): Result<bool, Error> {
    match Parse(p.validIdentifier, left)
    case Failure(e) => Failure(e)
    case Success(l) =>
      match Parse(p.validIdentifier, right)
      case Failure(e) => Failure(e)
      case Success(r) => Success(l.ipns == r.ipns)
  }

  /** The message in a payload, and whether it was encrypted. */
  function Unwrap<B(==)>(p: Suite<B>, key: EncryptionKey<B>, payload: B, now: u64): Result<(Message<B>, bool), Error> {
    match p.decodeEnvelope(payload)
    case Some(e) =>
      (match Decrypt(p, e, key.secret, now)
       case Failure(error) => Failure(error)
       case Success(m) => Success((m, true)))
    case None =>
      match p.decodeMessage(payload)
      case None => Failure(CborDecode)
      case Some(m) => Success((m, false))
  }

  /** What is wrong with an unwrapped message, before the replay guard is asked. */
  function PolicyError<B(==)>(
      p: Suite<B>, key: EncryptionKey<B>, m: Message<B>, encrypted: bool, a: Arrival<B>): Option<Error> {
    if encrypted && IsBroadcast(m.messageType) then Some(BroadcastMustNotBeEncrypted)
    else if !encrypted && !IsBroadcast(m.messageType) then Some(EncryptionRequired)
    else
      var same := if encrypted then SameBaseDid(p, m.to, key.did.Id()) else Success(true);
      if same.Failure? then Some(same.error)
      else if !same.value then Some(InvalidRecipient)
      else if SkipResolverVerification(a.protocol, m.messageType) then None
      else if a.resolved.Failure? then Some(a.resolved.error)
      else SignatureError(p, m, a.resolved.value, a.now)
  }

  /** Everything `decode` does before the replay guard: it depends on no state. */
  function Screen<B(==)>(p: Suite<B>, key: EncryptionKey<B>, a: Arrival<B>): Result<Message<B>, Error> {
    match Unwrap(p, key, a.payload, a.now)
    case Failure(e) => Failure(e)
    case Success((m, encrypted)) =>
      match PolicyError(p, key, m, encrypted, a)
      case Some(e) => Failure(e)
      case None => Success(m)
  }

  /** The verdict of `decode` on an arrival, given what the replay guard has recorded. */
  function Decoded<B(==)>(
      p: Suite<B>, key: EncryptionKey<B>, seen: Seen, window: u64, a: Arrival<B>): Result<Message<B>, Error> {
    match Screen(p, key, a)
    case Failure(e) => Failure(e)
    case Success(m) =>
      match Verdict(seen, window, m.id, HeadersError(p, HeadersOf(p, m), a.t.validate), a.t)
      case Some(e) => Failure(e)
      case None => Success(m)
  }

  function SeenAfterDecode<B(==)>(p: Suite<B>, key: EncryptionKey<B>, seen: Seen, window: u64, a: Arrival<B>): Seen {
    match Screen(p, key, a)
    case Failure(_) => seen
    case Success(m) => SeenAfter(seen, window, m.id, HeadersError(p, HeadersOf(p, m), a.t.validate), a.t)
  }

  class InboundSecurity<B(==)> {
    const recipientKey: EncryptionKey<B>
    const replayGuard: ReplayGuard

    constructor (recipientKey: EncryptionKey<B>)
      ensures this.recipientKey == recipientKey && fresh(replayGuard)
      ensures replayGuard.seen == map[] && replayGuard.window == DEFAULT_REPLAY_WINDOW_SECS
    {
      this.recipientKey := recipientKey;
      replayGuard := new ReplayGuard(DEFAULT_REPLAY_WINDOW_SECS);
    }

    method Decode(p: Suite<B>, a: Arrival<B>) returns (result: Result<Message<B>, Error>)
      modifies replayGuard
      ensures result == Decoded(p, recipientKey, old(replayGuard.seen), replayGuard.window, a)
      ensures replayGuard.seen == SeenAfterDecode(p, recipientKey, old(replayGuard.seen), replayGuard.window, a)
    {
      var unwrapped := Unwrap(p, recipientKey, a.payload, a.now);
      if unwrapped.Failure? {
        return Failure(unwrapped.error);
      }
      var (m, encrypted) := unwrapped.value;
      var bad := PolicyError(p, recipientKey, m, encrypted, a);
      if bad.Some? {
        return Failure(bad.value);
      }
      bad := replayGuard.CheckAndInsert(p, HeadersOf(p, m), a.t);
      result := if bad.Some? then Failure(bad.value) else Success(m);
    }
  }

  // ---- end to end ----

  /** The recipient's key belongs to the document the sender used. */
  ghost predicate RecipientOf<B>(p: Suite<B>, key: EncryptionKey<B>, recipient: Document<B>) {
    AgreementKey(p, recipient) == Success(p.agreementKey(key.secret))
  }

  /** The message is a broadcast, or addressed to a DID or DID URL of the identity of the key. */
  ghost predicate AddressedTo<B>(p: Suite<B>, key: EncryptionKey<B>, m: Message<B>) {
    || m.messageType == "application/vnd.ma.broadcast"
    || exists to, own :: Parse(p.validIdentifier, m.to) == Success(to)
                         && Parse(p.validIdentifier, key.did.Id()) == Success(own) && to.ipns == own.ipns
  }

  lemma AddressedIff<B>(p: Suite<B>, key: EncryptionKey<B>, m: Message<B>)
    ensures AddressedTo(p, key, m) <==>
              IsBroadcast(m.messageType) || SameBaseDid(p, m.to, key.did.Id()) == Success(true)
  {
  }

  /** A publish request on the ipfs protocol, whose sender that service checks. */
  ghost predicate IsLeftToService<B>(a: Arrival<B>, m: Message<B>) {
    a.protocol == "/ma/ipfs/0.0.1" && m.messageType == "application/vnd.ma.identity.publish.request"
  }

  /** The sender of the message checks out at the given time, or is left to the ipfs service to check. */
  ghost predicate SenderChecksOut<B>(p: Suite<B>, m: Message<B>, a: Arrival<B>) {
    IsLeftToService(a, m) || (a.resolved.Success? && SignatureError(p, m, a.resolved.value, a.now).None?)
  }

  ghost predicate FreshOnArrival<B>(p: Suite<B>, m: Message<B>, a: Arrival<B>) {
    HeadersError(p, HeadersOf(p, m), a.now).None? && HeadersError(p, HeadersOf(p, m), a.t.validate).None?
  }

  /** A message sent raw, and one sent in an envelope for the recipient, are both unwrapped to themselves. */
  lemma UnwrapUndoesEncoding<B(!new)>(
      p: Suite<B>, key: EncryptionKey<B>, recipient: Document<B>, m: Message<B>, random: Randomness<B>,
      sentAt: u64, now: u64)
    requires Lawful(p) && p.is32(random.ephemeral) && RecipientOf(p, key, recipient)
    requires HeadersError(p, HeadersOf(p, m), now).None?
    ensures Unwrap(p, key, p.encodeMessage(m), now) == Success((m, false))
    ensures EncloseFor(p, m, recipient, random, sentAt).Success? ==>
              var e := EncloseFor(p, m, recipient, random, sentAt).value;
              Unwrap(p, key, p.encodeEnvelope(e), now) == Success((m, true))
  {
    assert p.decodeEnvelope(p.encodeMessage(m)) == None && p.decodeMessage(p.encodeMessage(m)) == Some(m);
    if EncloseFor(p, m, recipient, random, sentAt).Success? {
      var e := EncloseFor(p, m, recipient, random, sentAt).value;
      assert p.decodeEnvelope(p.encodeEnvelope(e)) == Some(e);
      DecryptUndoesEncloseFor(p, m, recipient, key.secret, random, sentAt, now, e);
    }
  }

  /** The verdict on a payload that unwraps to `m`, raw or encrypted. */
  lemma VerdictOnUnwrapped<B>(
      p: Suite<B>, key: EncryptionKey<B>, m: Message<B>, encrypted: bool, seen: Seen, window: u64, a: Arrival<B>)
    requires Unwrap(p, key, a.payload, a.now) == Success((m, encrypted))
    ensures encrypted == IsBroadcast(m.messageType) ==>
              && Decoded(p, key, seen, window, a)
                 == Failure(if encrypted then BroadcastMustNotBeEncrypted else EncryptionRequired)
              && SeenAfterDecode(p, key, seen, window, a) == seen
    ensures encrypted != IsBroadcast(m.messageType) && HeadersError(p, HeadersOf(p, m), a.t.validate).None? ==>
              (Decoded(p, key, seen, window, a) == Success(m)
               <==> AddressedTo(p, key, m) && SenderChecksOut(p, m, a) && m.id !in Prune(seen, window, a.t.prune))
    ensures Decoded(p, key, seen, window, a).Success? ==>
              Decoded(p, key, seen, window, a).value == m && AddressedTo(p, key, m) && SenderChecksOut(p, m, a)
  {
    AddressedIff(p, key, m);
  }

  /**
   * Whatever a remote outbox puts on the wire, the recipient decodes to exactly the message sent, if
   * and only if it is addressed to the recipient, its sender checks out and its id is not in the
   * replay window; provided it is still fresh on arrival.
   */
  lemma SentMessageIsDecoded<B(!new)>(
      p: Suite<B>, key: EncryptionKey<B>, recipient: Document<B>, m: Message<B>, random: Randomness<B>, sentAt: u64,
      seen: Seen, window: u64, a: Arrival<B>)
    requires Lawful(p) && p.is32(random.ephemeral) && RecipientOf(p, key, recipient)
    requires Outgoing(p, recipient, false, m, random, sentAt) == Success(a.payload)
    requires FreshOnArrival(p, m, a)
    ensures Decoded(p, key, seen, window, a) == Success(m)
       <==> AddressedTo(p, key, m) && SenderChecksOut(p, m, a) && m.id !in Prune(seen, window, a.t.prune)
    ensures Decoded(p, key, seen, window, a).Success? ==> Decoded(p, key, seen, window, a).value == m
  {
    UnwrapUndoesEncoding(p, key, recipient, m, random, sentAt, a.now);
    VerdictOnUnwrapped(p, key, m, !IsBroadcast(m.messageType), seen, window, a);
  }

  /**
   * The form the sender did not choose is refused, and leaves no trace in the replay guard: the choice
   * is always the one the receiver demands.
   */
  lemma OtherFormIsRefused<B(!new)>(
      p: Suite<B>, key: EncryptionKey<B>, recipient: Document<B>, m: Message<B>, random: Randomness<B>, sentAt: u64,
      seen: Seen, window: u64, a: Arrival<B>)
    requires Lawful(p) && p.is32(random.ephemeral) && RecipientOf(p, key, recipient)
    requires EncloseFor(p, m, recipient, random, sentAt).Success? && HeadersError(p, HeadersOf(p, m), a.now).None?
    requires a.payload == if IsBroadcast(m.messageType)
                          then p.encodeEnvelope(EncloseFor(p, m, recipient, random, sentAt).value)
                          else p.encodeMessage(m)
    ensures Decoded(p, key, seen, window, a)
         == Failure(if IsBroadcast(m.messageType) then BroadcastMustNotBeEncrypted else EncryptionRequired)
    ensures SeenAfterDecode(p, key, seen, window, a) == seen
  {
    UnwrapUndoesEncoding(p, key, recipient, m, random, sentAt, a.now);
    VerdictOnUnwrapped(p, key, m, IsBroadcast(m.messageType), seen, window, a);
  }

  /**
   * An accepted message is addressed to the recipient, and came in an envelope, or is a broadcast, and
   * came as it is; and its sender checks out.
   */
  lemma AcceptedIsForUs<B>(
      p: Suite<B>, key: EncryptionKey<B>, seen: Seen, window: u64, a: Arrival<B>, m: Message<B>)
    requires Decoded(p, key, seen, window, a) == Success(m)
    ensures AddressedTo(p, key, m) && SenderChecksOut(p, m, a) && HeadersError(p, HeadersOf(p, m), a.t.validate).None?
    ensures m.id !in Prune(seen, window, a.t.prune)
    ensures if m.messageType == "application/vnd.ma.broadcast"
            then p.decodeEnvelope(a.payload).None? && p.decodeMessage(a.payload) == Some(m)
            else p.decodeEnvelope(a.payload).Some?
                 && Decrypt(p, p.decodeEnvelope(a.payload).value, key.secret, a.now) == Success(m)
  {
    VerdictOnUnwrapped(p, key, m, Unwrap(p, key, a.payload, a.now).value.1, seen, window, a);
  }

  /**
   * Only publish requests on the ipfs protocol are accepted whatever the resolver answers about their
   * sender; every other message is refused when it answers with an error.
   */
  lemma OnlyPublishRequestsSkipResolver<B(!new)>(
      p: Suite<B>, key: EncryptionKey<B>, seen: Seen, window: u64, a: Arrival<B>, m: Message<B>)
    requires Decoded(p, key, seen, window, a) == Success(m)
    ensures (forall resolved :: Decoded(p, key, seen, window, a.(resolved := resolved)) == Success(m)) <==>
              a.protocol == "/ma/ipfs/0.0.1" && m.messageType == "application/vnd.ma.identity.publish.request"
  {
    var unresolved := a.(resolved := Failure(ResolutionFailed));
    if Decoded(p, key, seen, window, unresolved) == Success(m) {
      AcceptedIsForUs(p, key, seen, window, unresolved, m);
    }
  }

  /**
   * Nothing is accepted that its sender did not sign: an accepted message, unless it is a publish
   * request on the ipfs protocol, carries a signature under the first assertion key of the document
   * resolved for its sender, which is the document of that sender; and if that key signed another
   * message with the same signature, it is this one.
   */
  lemma AcceptedIsAuthentic<B(!new)>(
      p: Suite<B>, key: EncryptionKey<B>, seen: Seen, window: u64, a: Arrival<B>, m: Message<B>,
      signed: Message<B>, secret: B)
    requires Lawful(p) && p.is32(secret)
    requires Decoded(p, key, seen, window, a) == Success(m)
    requires !(a.protocol == "/ma/ipfs/0.0.1" && m.messageType == "application/vnd.ma.identity.publish.request")
    ensures a.resolved.Success?
    ensures exists d :: Parse(p.validIdentifier, m.from) == Success(d) && a.resolved.value.id == "did:ma:" + d.ipns
    ensures exists k :: HasAssertionKey(p, a.resolved.value, k)
                        && p.verify(k, p.encodeHeaders(UnsignedHeaders(p, m)), m.signature)
    ensures m.signature == Signed(p, signed, secret).signature ==>
              m == Signed(p, signed, secret) && AssertionKey(p, a.resolved.value) == Success(p.verifyingKey(secret))
  {
    AcceptedIsForUs(p, key, seen, window, a, m);
    MessageVerifiesIff(p, m, a.resolved.value, a.now);
    if m.signature == Signed(p, signed, secret).signature {
      SignaturePinsMessage(p, signed, secret, m, a.resolved.value, a.now);
    }
  }

  // ---- rejected payloads leave no trace ----

  function Results<B(==)>(p: Suite<B>, key: EncryptionKey<B>, seen: Seen, window: u64, arrivals: seq<Arrival<B>>)
    : (results: seq<Result<Message<B>, Error>>)
    ensures |results| == |arrivals|
    decreases |arrivals|
  {
    if arrivals == [] then []
    else [Decoded(p, key, seen, window, arrivals[0])]
         + Results(p, key, SeenAfterDecode(p, key, seen, window, arrivals[0]), window, arrivals[1..])
  }

  /** The arrivals that were accepted. */
  function AcceptedOnly<B>(arrivals: seq<Arrival<B>>, results: seq<Result<Message<B>, Error>>): seq<Arrival<B>>
    requires |arrivals| == |results|
    decreases |arrivals|
  {
    if arrivals == [] then []
    else (if results[0].Success? then [arrivals[0]] else []) + AcceptedOnly(arrivals[1..], results[1..])
  }

  function SuccessesOnly<B>(results: seq<Result<Message<B>, Error>>): seq<Result<Message<B>, Error>> {
    if results == [] then []
    else (if results[0].Success? then [results[0]] else []) + SuccessesOnly(results[1..])
  }

  /** The guard's clock does not go back from one arrival to the next. */
  ghost predicate ClockRunsOver<B>(arrivals: seq<Arrival<B>>, since: u64) {
    && (forall i :: 0 <= i < |arrivals| ==> since <= arrivals[i].t.prune && ClockOk(arrivals[i].t))
    && (forall i, j :: 0 <= i < j < |arrivals| ==> arrivals[i].t.insert <= arrivals[j].t.validate)
  }

  /** Two memories nobody can tell apart from `now` on. */
  ghost predicate Alike(a: Seen, b: Seen, window: u64, now: u64) {
    Prune(a, window, now) == Prune(b, window, now)
  }

  lemma AlikeLater(a: Seen, b: Seen, window: u64, now: u64, later: u64)
    requires Alike(a, b, window, now) && now <= later
    ensures Alike(a, b, window, later)
  {
    PrunedTwice(a, window, now, later);
    PrunedTwice(b, window, now, later);
  }

  /** Alike memories give the same verdict, and stay alike whether or not a rejected arrival is shown to one of them. */
  lemma AlikeDecode<B>(p: Suite<B>, key: EncryptionKey<B>, a: Seen, b: Seen, window: u64, x: Arrival<B>)
    requires Alike(a, b, window, x.t.prune) && ClockOk(x.t)
    ensures Decoded(p, key, a, window, x) == Decoded(p, key, b, window, x)
    ensures var a', b' := SeenAfterDecode(p, key, a, window, x), SeenAfterDecode(p, key, b, window, x);
            if Decoded(p, key, a, window, x).Success? then Alike(a', b', window, x.t.insert)
            else Alike(a', b, window, x.t.prune)
  {
    PrunedTwice(a, window, x.t.prune, x.t.prune);
    if Screen(p, key, x).Success? {
      assert Prune(a, window, x.t.prune) == Prune(b, window, x.t.prune);
    }
  }

  lemma {:induction false} RejectedLeaveNoTraceFrom<B>(
      p: Suite<B>, key: EncryptionKey<B>, a: Seen, b: Seen, window: u64, arrivals: seq<Arrival<B>>, since: u64)
    requires ClockRunsOver(arrivals, since) && Alike(a, b, window, since)
    ensures var results := Results(p, key, a, window, arrivals);
            Results(p, key, b, window, AcceptedOnly(arrivals, results)) == SuccessesOnly(results)
    decreases |arrivals|
  {
    if arrivals != [] {
      var x, rest := arrivals[0], arrivals[1..];
      AlikeLater(a, b, window, since, x.t.prune);
      AlikeDecode(p, key, a, b, window, x);
      var a' := SeenAfterDecode(p, key, a, window, x);
      var results := Results(p, key, a, window, arrivals);
      assert results[1..] == Results(p, key, a', window, rest);
      assert forall i :: 0 <= i < |rest| ==> rest[i] == arrivals[i + 1];
      var kept := AcceptedOnly(rest, results[1..]);
      if results[0].Success? {
        RejectedLeaveNoTraceFrom(p, key, a', SeenAfterDecode(p, key, b, window, x), window, rest, x.t.insert);
        assert AcceptedOnly(arrivals, results) == [x] + kept;
        assert ([x] + kept)[1..] == kept;
      } else {
        RejectedLeaveNoTraceFrom(p, key, a', b, window, rest, x.t.prune);
        assert AcceptedOnly(arrivals, results) == kept;
      }
    }
  }

  /**
   * Deleting every rejected payload from an inbound run changes no later verdict: the accepted
   * payloads alone are all accepted, to the same messages.
   */
  lemma {:induction false} RejectedLeaveNoTrace<B>(
      p: Suite<B>, key: EncryptionKey<B>, seen: Seen, window: u64, arrivals: seq<Arrival<B>>)
    requires ClockRunsOver(arrivals, 0)
    ensures var results := Results(p, key, seen, window, arrivals);
            Results(p, key, seen, window, AcceptedOnly(arrivals, results)) == SuccessesOnly(results)
  {
    RejectedLeaveNoTraceFrom(p, key, seen, seen, window, arrivals, 0);
  }

  // ---- at most once ----

  /** What the replay guard has recorded after a run from an empty memory. */
  function Recorded<B(==)>(p: Suite<B>, key: EncryptionKey<B>, window: u64, arrivals: seq<Arrival<B>>): Seen {
    if arrivals == [] then map[]
    else SeenAfterDecode(p, key, Recorded(p, key, window, arrivals[..|arrivals| - 1]), window, arrivals[|arrivals| - 1])
  }

  /** The arrival is accepted in its place in the run, as `m`. */
  ghost predicate DeliveredAs<B>(
      p: Suite<B>, key: EncryptionKey<B>, window: u64, arrivals: seq<Arrival<B>>, i: nat, m: Message<B>)
    requires i < |arrivals|
  {
    Decoded(p, key, Recorded(p, key, window, arrivals[..i]), window, arrivals[i]) == Success(m)
  }

  /** What an arrival asks of the replay guard. */
  function CallOf<B(==)>(p: Suite<B>, key: EncryptionKey<B>, a: Arrival<B>): Call {
    match Screen(p, key, a)
    case Failure(e) => Call("", 0, 0, Some(e), a.t)
    case Success(m) => Call(m.id, m.createdAt, m.exp, StaticHeadersError(p, HeadersOf(p, m)), a.t)
  }

  function CallsOf<B(==)>(p: Suite<B>, key: EncryptionKey<B>, arrivals: seq<Arrival<B>>): (calls: seq<Call>)
    ensures |calls| == |arrivals|
    ensures forall i :: 0 <= i < |arrivals| ==> calls[i] == CallOf(p, key, arrivals[i])
  {
    if arrivals == [] then []
    else CallsOf(p, key, arrivals[..|arrivals| - 1]) + [CallOf(p, key, arrivals[|arrivals| - 1])]
  }

  lemma {:induction false} RecordedIsAfter<B>(
      p: Suite<B>, key: EncryptionKey<B>, window: u64, arrivals: seq<Arrival<B>>)
    ensures Recorded(p, key, window, arrivals) == After(map[], window, CallsOf(p, key, arrivals))
  {
    if arrivals != [] {
      var n := |arrivals| - 1;
      RecordedIsAfter(p, key, window, arrivals[..n]);
      assert CallsOf(p, key, arrivals)[..n] == CallsOf(p, key, arrivals[..n]);
    }
  }

  lemma DeliveredIsAccepted<B>(
      p: Suite<B>, key: EncryptionKey<B>, window: u64, arrivals: seq<Arrival<B>>, i: nat, m: Message<B>)
    requires i < |arrivals| && DeliveredAs(p, key, window, arrivals, i, m)
    ensures var calls := CallsOf(p, key, arrivals);
            && Accepted(window, calls, i)
            && calls[i] == Call(m.id, m.createdAt, m.exp, StaticHeadersError(p, HeadersOf(p, m)), arrivals[i].t)
  {
    RecordedIsAfter(p, key, window, arrivals[..i]);
    assert CallsOf(p, key, arrivals)[..i] == CallsOf(p, key, arrivals[..i]);
  }

  lemma ClocksAgree<B>(p: Suite<B>, key: EncryptionKey<B>, arrivals: seq<Arrival<B>>)
    requires ClockRunsOver(arrivals, 0)
    ensures ClockRuns(CallsOf(p, key, arrivals))
  {
    var calls := CallsOf(p, key, arrivals);
    forall i | 0 <= i < |calls|
      ensures calls[i].t == arrivals[i].t
    {
      assert calls[i] == CallOf(p, key, arrivals[i]);
    }
  }

  /**
   * Over any inbound run, two deliveries of the same message are more than the window apart; and a
   * message whose lifetime is at most the window minus twice the clock skew (minus the time one call
   * to the guard takes) is delivered at most once.
   */
  lemma {:induction false} DeliveredAtMostOnce<B>(
      p: Suite<B>, key: EncryptionKey<B>, window: u64, arrivals: seq<Arrival<B>>, i: nat, j: nat,
      m: Message<B>, delay: nat)
    requires ClockRunsOver(arrivals, 0) && i < j < |arrivals|
    requires DeliveredAs(p, key, window, arrivals, i, m) && DeliveredAs(p, key, window, arrivals, j, m)
    requires NoOverflow(Call(m.id, m.createdAt, m.exp, None, arrivals[i].t))
    requires NoOverflow(Call(m.id, m.createdAt, m.exp, None, arrivals[j].t))
    requires arrivals[j].t.prune <= arrivals[j].t.validate + delay
    ensures arrivals[j].t.prune - arrivals[i].t.insert > window
    ensures m.exp == 0 || m.exp - m.createdAt > window - 2 * DEFAULT_MAX_CLOCK_SKEW_SECS - delay
  {
    DeliveredIsAccepted(p, key, window, arrivals, i, m);
    DeliveredIsAccepted(p, key, window, arrivals, j, m);
    var calls := CallsOf(p, key, arrivals);
    ClocksAgree(p, key, arrivals);
    AcceptancesFarApart(window, calls, i, j);
    if m.exp != 0 && m.exp - m.createdAt <= window - 2 * DEFAULT_MAX_CLOCK_SKEW_SECS - delay {
      ShortLivedAcceptedOnce(window, calls, i, j, delay);
    }
  }
}
