/** `did:ma:` identifiers (src/did.rs). */
module Dids {
  import opened Wrappers
  import Text

  /** The errors of the message and document layers (src/error.rs) that the model can produce. */
  datatype Error =
    | EmptyDid | InvalidDidPrefix | MissingIdentifier | MissingFragment | UnexpectedFragment
    | InvalidDidFormat | InvalidFragment | InvalidIdentifier
    | EmptyMessageId | InvalidMessageId | InvalidMessageType | InvalidRecipient | MissingContentType
    | MissingSender | MissingSignature | MessageTooOld | MessageFromFuture | ReplayDetected
    | BroadcastMustNotHaveRecipient | BroadcastMustNotBeEncrypted | EncryptionRequired | MessageRequiresRecipient
    | EmptyContext | InvalidContext | EmptyController | VerificationMethodMissingType
    | InvalidVerificationMethodType | UnknownVerificationMethod | EmptyPublicKeyMultibase
    | InvalidPublicKeyMultibase | InvalidMulticodec | InvalidKeyLength
    | MissingProof | InvalidProofType | InvalidProofPurpose | InvalidDocumentSignature | InvalidMessageSignature
    | InvalidCreatedAt | InvalidUpdatedAt
    | MissingEnvelopeField | InvalidEphemeralKeyLength | CiphertextTooShort | Crypto
    | CborEncode | CborDecode | ConnectionClosed | Transport | ResolutionFailed

  const DID_PREFIX := "did:ma:"

  datatype Did = Did(ipns: string, fragment: Option<string>) {
    function BaseId(): string {
      DID_PREFIX + ipns
    }

    function Id(): string {
      match fragment
      case Some(f) => BaseId() + "#" + f
      case None => BaseId()
    }
  }

  /**
   * `valid` stands for the identifier check (a base36 CIDv1 of an Ed25519 key); no identifier it
   * accepts is empty or contains '#'.
   */
  ghost predicate IdentifierCheck(valid: string -> bool) {
    forall s :: valid(s) ==> s != "" && '#' !in s
  }

  function ValidateIdentifier(valid: string -> bool, s: string): Option<Error> {
    if s == "" then Some(MissingIdentifier) else if !valid(s) then Some(InvalidIdentifier) else None
  }

  /** `Did::parse`: splits at '#', at most once. */
  function Parse(valid: string -> bool, input: string): Result<Did, Error> {
    if input == "" then Failure(EmptyDid)
    else if !(DID_PREFIX <= input) then Failure(InvalidDidPrefix)
    else
      var stripped := input[|DID_PREFIX|..];
      var i := Text.Find(stripped, '#');
      if stripped == "" then Failure(MissingIdentifier)
      else if i == |stripped| then
        var bad := ValidateIdentifier(valid, stripped);
        if bad.Some? then Failure(bad.value) else Success(Did(stripped, None))
      else
        var fragment := stripped[i + 1..];
        var bad := ValidateIdentifier(valid, stripped[..i]);
        if '#' in fragment then Failure(InvalidDidFormat)
        else if bad.Some? then Failure(bad.value)
        else if !Text.IsToken(fragment) then Failure(InvalidFragment)
        else Success(Did(stripped[..i], Some(fragment)))
  }

  /** What the constructors `new_identity` and `new_url` accept. */
  predicate WellFormed(valid: string -> bool, d: Did) {
    valid(d.ipns) && (d.fragment.Some? ==> Text.IsToken(d.fragment.value))
  }

  lemma IdParses(valid: string -> bool, d: Did)
    requires IdentifierCheck(valid) && WellFormed(valid, d)
    ensures Parse(valid, d.Id()) == Success(d)
  {
    match d.fragment
    case None => BareIdParses(valid, d.ipns);
    case Some(f) => UrlParses(valid, d.ipns, f);
  }

  lemma BareIdParses(valid: string -> bool, ipns: string)
    requires IdentifierCheck(valid) && valid(ipns)
    ensures Parse(valid, DID_PREFIX + ipns) == Success(Did(ipns, None))
  {
    PrefixStripped(ipns);
  }

  lemma UrlParses(valid: string -> bool, ipns: string, f: string)
    requires IdentifierCheck(valid) && valid(ipns) && Text.IsToken(f)
    ensures Parse(valid, DID_PREFIX + ipns + "#" + f) == Success(Did(ipns, Some(f)))
  {
    var rest := ipns + "#" + f;
    assert DID_PREFIX + ipns + "#" + f == DID_PREFIX + rest;
    PrefixStripped(rest);
    SplitAtHash(ipns, f);
    TokenHasNoHash(f);
  }

  lemma TokenHasNoHash(f: string)
    requires Text.IsToken(f)
    ensures '#' !in f && f != ""
  {
  }

  lemma PrefixStripped(rest: string)
    ensures DID_PREFIX <= DID_PREFIX + rest && (DID_PREFIX + rest)[|DID_PREFIX|..] == rest
  {
  }

  lemma SplitAtHash(head: string, tail: string)
    requires '#' !in head
    ensures var s := head + "#" + tail; var i := Text.Find(s, '#');
            i == |head| && s[..i] == head && s[i + 1..] == tail
  {
    var s := head + "#" + tail;
    assert s[|head|] == '#';
    assert forall j :: 0 <= j < |head| ==> s[j] == head[j];
  }

  lemma ParsedIdIsInput(valid: string -> bool, input: string, d: Did)
    requires Parse(valid, input) == Success(d)
    ensures WellFormed(valid, d) && d.Id() == input
  {
    var stripped := input[|DID_PREFIX|..];
    assert input == DID_PREFIX + stripped;
    var i := Text.Find(stripped, '#');
    if i < |stripped| {
      JoinedAtHash(stripped, i);
    }
  }

  lemma JoinedAtHash(s: string, i: nat)
    requires i < |s| && s[i] == '#'
    ensures DID_PREFIX + s[..i] + "#" + s[i + 1..] == DID_PREFIX + s
  {
    assert s == s[..i] + "#" + s[i + 1..];
  }

  /** Printing and parsing are inverse: a string parses to `d` exactly when `d` is well formed and prints to it. */
  lemma ParseIsInverseOfId(valid: string -> bool, input: string, d: Did)
    requires IdentifierCheck(valid)
    ensures Parse(valid, input) == Success(d) <==> WellFormed(valid, d) && d.Id() == input
  {
    if Parse(valid, input) == Success(d) {
      ParsedIdIsInput(valid, input, d);
    } else if WellFormed(valid, d) {
      IdParses(valid, d);
    }
  }

  /** `validate_resource`: a DID URL with a fragment. */
  function ValidateResource(valid: string -> bool, input: string): Option<Error> {
    match Parse(valid, input)
    case Failure(e) => Some(e)
    case Success(d) => if d.fragment.None? then Some(MissingFragment) else None
  }

  /** A DID without a fragment. */
  function ValidateBare(valid: string -> bool, input: string): Option<Error> {
    match Parse(valid, input)
    case Failure(e) => Some(e)
    case Success(d) => if d.fragment.Some? then Some(UnexpectedFragment) else None
  }

  function Validate(valid: string -> bool, input: string): Option<Error> {
    match Parse(valid, input)
    case Failure(e) => Some(e)
    case Success(_) => None
  }
}
