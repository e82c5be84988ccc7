/**
 * Service strings of the form /iroh/<endpoint-id>/<protocol>, as listed in DID documents, and the
 * search for the endpoint that serves a protocol (src/transport.rs).
 */
module Transports {
  import opened Wrappers
  import opened Text

  /** The JSON values a document's services are read from. */
  datatype Json = Str(s: string) | Array(items: seq<Json>) | Object(fields: map<string, Json>) | Other

  const PREFIX := "/iroh/"

  function StripPrefix(prefix: string, s: string): (r: Option<string>)
    ensures r.Some? <==> prefix <= s
  {
    if prefix <= s then Some(s[|prefix|..]) else None
  }

  function TrimSlashes(s: string): (t: string)
    ensures |t| <= |s| && t == s[|s| - |t|..]
    ensures t != "" ==> t[0] != '/'
  {
    if s != "" && s[0] == '/' then TrimSlashes(s[1..]) else s
  }

  function NormalizeProtocol(input: string): string {
    var protocol := Trim(input);
    if protocol == "" then "" else "/" + TrimSlashes(protocol)
  }

  predicate IsHexDigit(c: char) {
    '0' <= c <= '9' || 'a' <= c <= 'f' || 'A' <= c <= 'F'
  }

  predicate IsEndpointId(s: string) {
    |s| == 64 && forall i :: 0 <= i < |s| ==> IsHexDigit(s[i])
  }

  function Lowercase(s: string): (t: string)
    ensures |t| == |s| && forall i :: 0 <= i < |s| ==> t[i] == ToAsciiLowercase(s[i])
  {
    seq(|s|, i requires 0 <= i < |s| => ToAsciiLowercase(s[i]))
  }

  function NormalizeEndpointId(address: string): Option<string> {
    var value := Trim(address);
    var endpoint := match StripPrefix(PREFIX, value) case Some(rest) => rest case None => value;
    if IsEndpointId(endpoint) then Some(Lowercase(endpoint)) else None
  }

  function EndpointIdFromTransport(input: string): Option<string> {
    EndpointIdIn(Trim(input))
  }

  function EndpointIdIn(value: string): Option<string> {
    if value == "" then None
    else match StripPrefix(PREFIX, value)
      case Some(rest) =>
        var endpoint := Trim(Before(rest, '/'));
        if endpoint == "" then None else NormalizeEndpointId(endpoint)
      case None => NormalizeEndpointId(value)
  }

  function ProtocolFromTransport(input: string): Option<string> {
    ProtocolIn(Trim(input))
  }

  function ProtocolIn(value: string): Option<string> {
    match StripPrefix(PREFIX, value)
    case Some(rest) => From(rest, '/')
    case None => None
  }

  /** Up to the first `c`, or everything. */
  function Before(s: string, c: char): string {
    s[..Find(s, c)]
  }

  /** From the first `c` on, if there is one. */
  function From(s: string, c: char): Option<string> {
    if Find(s, c) < |s| then Some(s[Find(s, c)..]) else None
  }

  function TransportString(id: string, protocol: string): string {
    PREFIX + id + NormalizeProtocol(protocol)
  }

  /** The endpoint id in a field that is a string. */
  function IdInField(fields: map<string, Json>, key: string): Option<string> {
    if key in fields && fields[key].Str? then EndpointIdFromTransport(fields[key].s) else None
  }

  /** The first of the keys whose value is a string that holds an endpoint id. */
  function EndpointIdAmong(fields: map<string, Json>, keys: seq<string>): Option<string> {
    FirstSome(keys, key => IdInField(fields, key))
  }

  const ENDPOINT_KEYS := ["endpoint_id", "endpointId", "iroh", "address"]

  /** The first key that is present decides, even if its value is no string. */
  function ProtocolField(fields: map<string, Json>): Option<Json> {
    if "protocol" in fields then Some(fields["protocol"])
    else if "service" in fields then Some(fields["service"])
    else if "alpn" in fields then Some(fields["alpn"])
    else None
  }

  function EndpointForServiceItem(item: Json, target: string): Option<string> {
    match item
    case Str(s) =>
      (match ProtocolFromTransport(s)
       case Some(protocol) => if NormalizeProtocol(protocol) == target then EndpointIdFromTransport(s) else None
       case None => None)
    case Object(fields) =>
      (match ProtocolField(fields)
       case Some(Str(protocol)) =>
         if NormalizeProtocol(protocol) == target then EndpointIdAmong(fields, ENDPOINT_KEYS) else None
       case _ => None)
    case _ => None
  }

  /** A single value is asked itself, of a list the first item that answers. */
  lemma ResolvesIff(services: Option<Json>, targetProtocol: string, id: string)
    ensures ResolveEndpointForProtocol(services, targetProtocol) == Some(id) <==>
              var target := NormalizeProtocol(targetProtocol);
              match services
              case None => false
              case Some(Array(items)) => exists i: nat :: IsFirstService(items, target, i, id)
              case Some(value) => EndpointForServiceItem(value, target) == Some(id)
  {
    if services.Some? && services.value.Array? {
      var target := NormalizeProtocol(targetProtocol);
      FirstServiceIff(services.value.items, target, id);
    }
  }

  ghost predicate IsFirstService(items: seq<Json>, target: string, i: nat, id: string) {
    && i < |items| && EndpointForServiceItem(items[i], target) == Some(id)
    && forall j :: 0 <= j < i ==> EndpointForServiceItem(items[j], target).None?
  }

  lemma FirstServiceIff(items: seq<Json>, target: string, id: string)
    ensures FirstEndpoint(items, target) == Some(id) <==> exists i: nat :: IsFirstService(items, target, i, id)
  {
    var find := item => EndpointForServiceItem(item, target);
    FirstSomeIff(items, find, id);
    assert FirstEndpoint(items, target) == FirstSome(items, find);
    if i: nat :| IsFirstAnswer(items, find, i, id) {
      assert IsFirstService(items, target, i, id);
    }
    if i: nat :| IsFirstService(items, target, i, id) {
      assert IsFirstAnswer(items, find, i, id);
    }
  }

  /** The first answer found. */
  function FirstSome<T>(items: seq<T>, find: T -> Option<string>): Option<string> {
    if items == [] then None
    else if find(items[0]).Some? then find(items[0])
    else FirstSome(items[1..], find)
  }

  function FirstEndpoint(items: seq<Json>, target: string): Option<string> {
    FirstSome(items, item => EndpointForServiceItem(item, target))
  }

  function ResolveEndpointForProtocol(services: Option<Json>, targetProtocol: string): Option<string> {
    var target := NormalizeProtocol(targetProtocol);
    match services
    case None => None
    case Some(Array(items)) => FirstEndpoint(items, target)
    case Some(value) => EndpointForServiceItem(value, target)
  }

  // ---- normal forms ----

  /** Empty, or one slash and no other one after it, with no space at the end. */
  predicate IsNormal(p: string) {
    p == "" || (p[0] == '/' && !IsSpace(p[|p| - 1]) && (|p| > 1 ==> p[1] != '/'))
  }

  lemma {:induction false} NormalTrims(p: string)
    requires IsNormal(p)
    ensures NormalizeProtocol(p) == p
  {
    if p != "" {
      assert Trim(p) == p;
      if |p| > 1 {
        assert p[1..][0] != '/';
      }
      assert TrimSlashes(p) == p[1..];
    }
  }

  /** Normalizing yields a normal form and changes nothing exactly when given one. */
  lemma NormalizingIsFixpoint(input: string)
    ensures IsNormal(NormalizeProtocol(input))
    ensures NormalizeProtocol(input) == input <==> IsNormal(input)
    ensures NormalizeProtocol(NormalizeProtocol(input)) == NormalizeProtocol(input)
  {
    NormalizedIsNormal(input);
    NormalTrims(NormalizeProtocol(input));
    if IsNormal(input) {
      NormalTrims(input);
    }
  }

  lemma NormalizedIsNormal(input: string)
    ensures IsNormal(NormalizeProtocol(input))
  {
    var t := Trim(input);
    if t != "" {
      SlashesTrimmed(t);
    }
  }

  lemma SlashesTrimmed(t: string)
    requires t != "" && !IsSpace(t[|t| - 1])
    ensures IsNormal("/" + TrimSlashes(t))
  {
    var u := TrimSlashes(t);
    if u == "" {
      assert "/" + u == "/";
      SlashIsNormal();
    } else {
      assert u[|u| - 1] == t[|t| - 1];
      SlashedIsNormal(u);
    }
  }

  lemma SlashIsNormal()
    ensures IsNormal("/")
  {
  }

  lemma SlashedIsNormal(u: string)
    requires u != "" && u[0] != '/' && !IsSpace(u[|u| - 1])
    ensures IsNormal("/" + u)
  {
  }

  lemma {:induction false} SlashesGone(slashes: string, rest: string)
    requires (forall i :: 0 <= i < |slashes| ==> slashes[i] == '/') && (rest == "" || rest[0] != '/')
    ensures TrimSlashes(slashes + rest) == rest
  {
    if slashes == "" {
      assert slashes + rest == rest;
    } else {
      assert (slashes + rest)[1..] == slashes[1..] + rest;
      SlashesGone(slashes[1..], rest);
    }
  }

  /** Whatever space and however many slashes come first, and whatever space last, gives way to one slash. */
  lemma NormalFormOf(pre: string, slashes: string, rest: string, post: string)
    requires IsBlank(pre) && IsBlank(post) && forall i :: 0 <= i < |slashes| ==> slashes[i] == '/'
    requires slashes + rest != "" && !IsSpace((slashes + rest)[0]) && !IsSpace((slashes + rest)[|slashes + rest| - 1])
    requires rest == "" || rest[0] != '/'
    ensures NormalizeProtocol(pre + (slashes + rest) + post) == "/" + rest
  {
    SpaceAround(pre, slashes + rest, post);
    SlashesGone(slashes, rest);
  }

  /** Only blank input has the empty normal form. */
  lemma BlankNormalForm(input: string)
    ensures NormalizeProtocol(input) == "" <==> IsBlank(input)
  {
    TrimOfBlank(input);
  }

  lemma HexDigitIsInner(c: char)
    requires IsHexDigit(c)
    ensures !IsSpace(c) && c != '/'
  {
  }

  lemma IdHasNoSlashOrSpace(id: string)
    requires IsEndpointId(id)
    ensures '/' !in id && !IsSpace(id[0]) && !IsSpace(id[63])
    ensures Trim(id) == id
  {
    HexDigitIsInner(id[0]);
    HexDigitIsInner(id[63]);
    forall i | 0 <= i < |id|
      ensures id[i] != '/'
    {
      HexDigitIsInner(id[i]);
    }
  }

  lemma NormalizedId(id: string)
    requires IsEndpointId(id)
    ensures NormalizeEndpointId(id) == Some(Lowercase(id))
  {
    IdHasNoSlashOrSpace(id);
    assert PREFIX[0] == '/';
    assert !(PREFIX <= id);
  }

  lemma EndOf(a: string, b: string)
    requires a != "" && !IsSpace(a[|a| - 1]) && (b == "" || !IsSpace(b[|b| - 1]))
    ensures a + b != "" && !IsSpace((a + b)[|a + b| - 1]) && (a + b)[0] == a[0]
  {
  }

  lemma NothingToTrim(s: string)
    requires s != "" && !IsSpace(s[0]) && !IsSpace(s[|s| - 1])
    ensures Trim(s) == s
  {
  }

  lemma PrefixIsInner(rest: string)
    ensures (PREFIX + rest)[0] == '/' && !IsSpace('/') && PREFIX[|PREFIX| - 1] == '/'
  {
    assert PREFIX[0] == '/';
  }

  /** A service string is its three parts, with nothing to trim. */
  lemma TransportParts(id: string, protocol: string)
    requires IsEndpointId(id) && IsNormal(protocol)
    ensures TransportString(id, protocol) == PREFIX + (id + protocol)
    ensures Trim(PREFIX + (id + protocol)) == PREFIX + (id + protocol)
  {
    NormalTrims(protocol);
    IdHasNoSlashOrSpace(id);
    EndOf(id, protocol);
    PrefixIsInner(id + protocol);
    EndOf(PREFIX, id + protocol);
    NothingToTrim(PREFIX + (id + protocol));
    Associative(PREFIX, id, protocol);
  }

  lemma Associative(a: string, b: string, c: string)
    ensures (a + b) + c == a + (b + c)
  {
  }

  lemma SplitAtSlash(id: string, protocol: string)
    requires IsEndpointId(id) && IsNormal(protocol)
    ensures Before(id + protocol, '/') == id
    ensures From(id + protocol, '/') == if protocol == "" then None else Some(protocol)
  {
    IdHasNoSlashOrSpace(id);
    var rest := id + protocol;
    var k := Find(rest, '/');
    assert forall i :: 0 <= i < 64 ==> rest[i] == id[i];
    if protocol != "" {
      assert rest[64] == '/';
    }
    assert k == 64;
  }

  lemma StripPrefixOf(prefix: string, rest: string)
    ensures StripPrefix(prefix, prefix + rest) == Some(rest)
  {
    assert (prefix + rest)[|prefix|..] == rest;
  }

  lemma PartsAfterPrefix(rest: string)
    ensures ProtocolIn(PREFIX + rest) == From(rest, '/')
    ensures var endpoint := Trim(Before(rest, '/'));
            EndpointIdIn(PREFIX + rest) == if endpoint == "" then None else NormalizeEndpointId(endpoint)
  {
    StripPrefixOf(PREFIX, rest);
  }

  /** The endpoint id of a service string is found again, in lower case, and so is its protocol, unless empty. */
  lemma PartsOfTransport(id: string, protocol: string)
    requires IsEndpointId(id) && IsNormal(protocol)
    ensures EndpointIdFromTransport(TransportString(id, protocol)) == Some(Lowercase(id))
    ensures ProtocolFromTransport(TransportString(id, protocol)) == if protocol == "" then None else Some(protocol)
  {
    TransportParts(id, protocol);
    PartsAfterPrefix(id + protocol);
    SplitAtSlash(id, protocol);
    IdHasNoSlashOrSpace(id);
    NormalizedId(id);
  }

  /** A listed service answers exactly the targets with its own non-empty normal form. */
  lemma ServiceAnswers(id: string, protocol: string, target: string)
    requires IsEndpointId(id) && IsNormal(protocol)
    ensures EndpointForServiceItem(Str(TransportString(id, protocol)), target)
         == if protocol != "" && protocol == target then Some(Lowercase(id)) else None
  {
    PartsOfTransport(id, protocol);
    NormalTrims(protocol);
  }

  /** An endpoint id alone is accepted too, with space around it; and whatever is found is an id in lower case. */
  lemma BareIdIsFound(pre: string, id: string, post: string)
    requires IsBlank(pre) && IsBlank(post) && IsEndpointId(id)
    ensures EndpointIdFromTransport(pre + id + post) == Some(Lowercase(id))
  {
    IdHasNoSlashOrSpace(id);
    SpaceAround(pre, id, post);
    NormalizedId(id);
    assert PREFIX[0] == '/';
  }

  lemma FoundIsId(input: string)
    ensures EndpointIdFromTransport(input).Some? ==> IsLowercaseId(EndpointIdFromTransport(input).value)
  {
    forall address
      ensures NormalizeEndpointId(address).Some? ==> IsLowercaseId(NormalizeEndpointId(address).value)
    {
      NormalizedIsId(address);
    }
  }

  predicate IsLowercaseId(id: string) {
    IsEndpointId(id) && forall i :: 0 <= i < |id| ==> '0' <= id[i] <= '9' || 'a' <= id[i] <= 'f'
  }

  lemma NormalizedIsId(address: string)
    ensures NormalizeEndpointId(address).Some? ==> IsLowercaseId(NormalizeEndpointId(address).value)
  {
    var value := Trim(address);
    var endpoint := if PREFIX <= value then value[|PREFIX|..] else value;
    if IsEndpointId(endpoint) {
      LowercaseIsId(endpoint);
    }
  }

  lemma LowercaseIsId(id: string)
    requires IsEndpointId(id)
    ensures IsLowercaseId(Lowercase(id))
  {
    forall i | 0 <= i < |id|
      ensures '0' <= Lowercase(id)[i] <= '9' || 'a' <= Lowercase(id)[i] <= 'f'
    {
      assert IsHexDigit(id[i]);
    }
  }

  lemma BlankHasNoSlash(s: string)
    requires IsBlank(s)
    ensures '/' !in s
  {
  }

  /** What stands before the first slash, and what from there on. */
  lemma CutAtSlash(head: string, rest: string)
    requires '/' !in head && (rest == "" || rest[0] == '/')
    ensures Before(head + rest, '/') == head
    ensures From(head + rest, '/') == if rest == "" then None else Some(rest)
  {
    var s := head + rest;
    assert forall i :: 0 <= i < |head| ==> s[i] == head[i];
    if rest != "" {
      assert s[|head|] == '/';
    }
    assert Find(s, '/') == |head|;
  }

  /**
   * Whatever space stands around a service string and its endpoint id: it answers the targets that
   * are the normal form of what follows the id, if anything does.
   */
  lemma ServiceStringAnswers(pre: string, a: string, id: string, b: string, rest: string, post: string, target: string)
    requires IsBlank(pre) && IsBlank(a) && IsBlank(b) && IsBlank(post) && IsEndpointId(id)
    requires rest != "" && rest[0] == '/' && !IsSpace(rest[|rest| - 1])
    ensures EndpointForServiceItem(Str(pre + (PREFIX + (a + id + b + rest)) + post), target)
         == if NormalizeProtocol(rest) == target then Some(Lowercase(id)) else None
  {
    var value := PREFIX + (a + id + b + rest);
    PrefixIsInner(a + id + b + rest);
    EndOf(PREFIX, a + id + b + rest);
    SpaceAround(pre, value, post);
    ServiceStringParts(a, id, b, rest);
    AnswerOfParts(pre + value + post, target, rest, Lowercase(id));
  }

  lemma ServiceStringParts(a: string, id: string, b: string, rest: string)
    requires IsBlank(a) && IsBlank(b) && IsEndpointId(id) && rest != "" && rest[0] == '/'
    ensures EndpointIdIn(PREFIX + (a + id + b + rest)) == Some(Lowercase(id))
    ensures ProtocolIn(PREFIX + (a + id + b + rest)) == Some(rest)
  {
    var head := a + id + b;
    BlankHasNoSlash(a);
    BlankHasNoSlash(b);
    IdHasNoSlashOrSpace(id);
    PartsAfterPrefix(head + rest);
    CutAtSlash(head, rest);
    SpaceAround(a, id, b);
    NormalizedId(id);
  }

  lemma AnswerOfParts(s: string, target: string, protocol: string, id: string)
    requires ProtocolFromTransport(s) == Some(protocol) && EndpointIdFromTransport(s) == Some(id)
    ensures EndpointForServiceItem(Str(s), target) == if NormalizeProtocol(protocol) == target then Some(id) else None
  {
  }

  // ---- services given as objects ----

  /** The first of the keys that is a field. */
  ghost predicate IsFirstField(fields: map<string, Json>, keys: seq<string>, i: nat) {
    i < |keys| && keys[i] in fields && forall j :: 0 <= j < i ==> keys[j] !in fields
  }

  /** The first item that is answered is answered so. */
  ghost predicate IsFirstAnswer<T>(items: seq<T>, find: T -> Option<string>, i: nat, answer: string) {
    i < |items| && find(items[i]) == Some(answer) && forall j :: 0 <= j < i ==> find(items[j]).None?
  }

  lemma {:induction false} FirstSomeIff<T>(items: seq<T>, find: T -> Option<string>, answer: string)
    ensures FirstSome(items, find) == Some(answer) <==> exists i: nat :: IsFirstAnswer(items, find, i, answer)
  {
    if items != [] {
      FirstSomeIff(items[1..], find, answer);
      if find(items[0]).Some? {
        assert IsFirstAnswer(items, find, 0, find(items[0]).value);
      } else if i: nat :| IsFirstAnswer(items[1..], find, i, answer) {
        assert forall j :: 1 <= j <= i ==> items[j] == items[1..][j - 1];
        assert IsFirstAnswer(items, find, i + 1, answer);
      } else if i: nat :| IsFirstAnswer(items, find, i, answer) {
        assert IsFirstAnswer(items[1..], find, i - 1, answer);
      }
    }
  }

  /** The id is in this one of the four fields, and none is in those before it. */
  ghost predicate IsFirstId(fields: map<string, Json>, i: nat, id: string) {
    IsFirstAnswer(["endpoint_id", "endpointId", "iroh", "address"], key => IdInField(fields, key), i, id)
  }

  /**
   * A service given as an object answers a target exactly if the first of the fields "protocol",
   * "service" and "alpn" that it has is a string with that normal form, and then with the first
   * endpoint id in the fields "endpoint_id", "endpointId", "iroh" and "address".
   */
  lemma ObjectAnswersIff(fields: map<string, Json>, target: string, id: string)
    ensures EndpointForServiceItem(Object(fields), target) == Some(id) <==>
              var names := ["protocol", "service", "alpn"];
              && (exists i: nat :: IsFirstField(fields, names, i)
                              && fields[names[i]].Str? && NormalizeProtocol(fields[names[i]].s) == target)
              && (exists i: nat :: IsFirstId(fields, i, id))
  {
    IdAmongIff(fields, id);
    ProtocolFieldIff(fields);
  }

  lemma IdAmongIff(fields: map<string, Json>, id: string)
    ensures EndpointIdAmong(fields, ENDPOINT_KEYS) == Some(id) <==> exists i: nat :: IsFirstId(fields, i, id)
  {
    var find := key => IdInField(fields, key);
    FirstSomeIff(ENDPOINT_KEYS, find, id);
    assert EndpointIdAmong(fields, ENDPOINT_KEYS) == FirstSome(ENDPOINT_KEYS, find);
    if i: nat :| IsFirstAnswer(ENDPOINT_KEYS, find, i, id) {
      assert IsFirstId(fields, i, id);
    }
    if i: nat :| IsFirstId(fields, i, id) {
      assert IsFirstAnswer(ENDPOINT_KEYS, find, i, id);
    }
  }

  lemma ProtocolFieldIff(fields: map<string, Json>)
    ensures var names := ["protocol", "service", "alpn"];
      && (ProtocolField(fields).None? <==> forall i: nat :: !IsFirstField(fields, names, i))
      && forall i: nat :: IsFirstField(fields, names, i) ==> ProtocolField(fields) == Some(fields[names[i]])
  {
    var names := ["protocol", "service", "alpn"];
    if ProtocolField(fields).Some? {
      var i := if "protocol" in fields then 0 else if "service" in fields then 1 else 2;
      assert IsFirstField(fields, names, i);
    }
    forall i: nat | IsFirstField(fields, names, i)
      ensures ProtocolField(fields) == Some(fields[names[i]])
    {
      assert i == 0 || i == 1 || i == 2;
    }
  }

  function Listed(id: string, protocols: seq<string>): seq<Json> {
    seq(|protocols|, i requires 0 <= i < |protocols| => Str(TransportString(id, protocols[i])))
  }

  predicate AllNormal(protocols: seq<string>) {
    forall p :: p in protocols ==> IsNormal(p)
  }

  lemma {:induction false} FirstSomeIsTheAnswer(items: seq<Json>, find: Json -> Option<string>, answer: string)
    requires forall i :: 0 <= i < |items| ==> find(items[i]) == None || find(items[i]) == Some(answer)
    ensures FirstSome(items, find) ==
            if exists i :: 0 <= i < |items| && find(items[i]).Some? then Some(answer) else None
    decreases |items|
  {
    if items != [] {
      assert forall i :: 0 <= i < |items[1..]| ==> items[1..][i] == items[i + 1];
      assert forall i :: 1 <= i < |items| ==> items[i] == items[1..][i - 1];
      FirstSomeIsTheAnswer(items[1..], find, answer);
    }
  }

  lemma FirstListed(id: string, protocols: seq<string>, target: string)
    requires IsEndpointId(id) && AllNormal(protocols)
    ensures FirstEndpoint(Listed(id, protocols), target)
         == if target != "" && target in protocols then Some(Lowercase(id)) else None
  {
    var items, find := Listed(id, protocols), item => EndpointForServiceItem(item, target);
    forall i | 0 <= i < |items|
      ensures find(items[i]) == if protocols[i] != "" && protocols[i] == target then Some(Lowercase(id)) else None
    {
      ServiceAnswers(id, protocols[i], target);
    }
    FirstSomeIsTheAnswer(items, find, Lowercase(id));
    assert FirstEndpoint(items, target) == FirstSome(items, find);
  }

  /** Resolving against one endpoint's list gives its id exactly when the normalized, non-blank target is listed. */
  lemma ResolvesListed(id: string, protocols: seq<string>, target: string)
    requires IsEndpointId(id) && AllNormal(protocols)
    ensures ResolveEndpointForProtocol(Some(Array(Listed(id, protocols))), target)
         == if Trim(target) != "" && NormalizeProtocol(target) in protocols then Some(Lowercase(id)) else None
  {
    FirstListed(id, protocols, NormalizeProtocol(target));
  }
}
