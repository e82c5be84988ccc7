/**
 * The service registry of an endpoint: registered protocols, their inboxes and the running router
 * (src/iroh/endpoint.rs:489-537, 717-742).
 */
module Endpoints {
  import opened Wrappers
  import opened Text
  import opened Transports
  import opened TtlQueues

  const DEFAULT_INBOX_CAPACITY := 256

  predicate NoRepeats(s: seq<string>) {
    forall i, j :: 0 <= i < j < |s| ==> s[i] != s[j]
  }

  /** `retain`: everything but `p`, in order. */
  function Without(s: seq<string>, p: string): (r: seq<string>)
    ensures forall q :: q in r <==> q in s && q != p
    ensures p !in s ==> r == s
  {
    if s == [] then []
    else if s[0] == p then Without(s[1..], p)
    else [s[0]] + Without(s[1..], p)
  }

  lemma {:induction false} WithoutKeepsNoRepeats(s: seq<string>, p: string)
    requires NoRepeats(s)
    ensures NoRepeats(Without(s, p))
  {
    if s != [] {
      assert forall i :: 1 <= i < |s| ==> s[i] == s[1..][i - 1];
      WithoutKeepsNoRepeats(s[1..], p);
      var rest := Without(s[1..], p);
      assert s[0] !in s[1..];
      assert s[0] !in rest;
      assert forall i :: 1 <= i < |rest| + 1 ==> ([s[0]] + rest)[i] == rest[i - 1];
    }
  }

  function Registered(protocols: seq<string>, p: string): seq<string> {
    if p in protocols then protocols else protocols + [p]
  }

  /** The registered protocols, each once, are the keys of the inboxes, and no inbox serves two of them. */
  ghost predicate Agreed<T>(protocols: seq<string>, inboxes: map<string, TtlQueue<T>>) {
    && NoRepeats(protocols)
    && (forall p :: p in protocols <==> p in inboxes)
    && (forall p, q :: p in inboxes && q in inboxes && p != q ==> inboxes[p] != inboxes[q])
  }

  /** One handler for each listed protocol that has an inbox. */
  function Handlers<T>(protocols: seq<string>, inboxes: map<string, TtlQueue<T>>): (table: map<string, TtlQueue<T>>)
    ensures (forall p :: p in protocols <==> p in inboxes) ==> table == inboxes
  {
    map p | p in inboxes && p in protocols :: inboxes[p]
  }

  lemma AgreedAfterAdding<T>(protocols: seq<string>, inboxes: map<string, TtlQueue<T>>, p: string, inbox: TtlQueue<T>)
    requires Agreed(protocols, inboxes) && p !in inboxes
    requires forall q :: q in inboxes ==> inboxes[q] != inbox
    ensures Agreed(protocols + [p], inboxes[p := inbox])
  {
  }

  lemma AgreedAfterRemoving<T>(protocols: seq<string>, inboxes: map<string, TtlQueue<T>>, p: string)
    requires Agreed(protocols, inboxes)
    ensures Agreed(Without(protocols, p), inboxes - {p})
  {
    WithoutKeepsNoRepeats(protocols, p);
  }

  lemma AllNormalWithin(protocols: seq<string>, p: string, others: seq<string>)
    requires AllNormal(protocols) && IsNormal(p)
    requires forall q :: q in others ==> q in protocols || q == p
    ensures AllNormal(others)
  {
  }

  lemma AllNormalWithNormal(protocols: seq<string>, p: string)
    requires AllNormal(protocols) && IsNormal(p)
    ensures AllNormal(Registered(protocols, p)) && AllNormal(Without(protocols, p))
  {
    AllNormalWithin(protocols, p, Registered(protocols, p));
    AllNormalWithin(protocols, p, Without(protocols, p));
  }

  lemma AllNormalAfter(protocols: seq<string>, protocol: string)
    requires AllNormal(protocols)
    ensures AllNormal(Registered(protocols, NormalizeProtocol(protocol)))
    ensures AllNormal(Without(protocols, NormalizeProtocol(protocol)))
  {
    NormalizingIsFixpoint(protocol);
    AllNormalWithNormal(protocols, NormalizeProtocol(protocol));
  }

  class IrohEndpoint<Message> {
    const id: string
    var protocols: seq<string>
    var inboxes: map<string, TtlQueue<Message>>
    var router: Option<map<string, TtlQueue<Message>>>   // the handler table of a running router

    /** The list, the inboxes and a running router's table always agree. */
    ghost predicate Valid()
      reads this
    {
      && IsEndpointId(id)
      && Agreed(protocols, inboxes) && AllNormal(protocols)
      && (router.Some? ==> router.value == inboxes)
      && (inboxes != map[] ==> router.Some?)
    }

    constructor (id: string)
      requires IsEndpointId(id)
      ensures Valid() && this.id == id && protocols == [] && router == None
    {
      this.id := id;
      protocols := [];
      inboxes := map[];
      router := None;
    }

    method StartRouter()
      modifies this`router
      ensures router == if old(router).Some? then old(router) else Some(Handlers(protocols, inboxes))
    {
      if router.Some? {
        return;
      }
      var table: map<string, TtlQueue<Message>> := map[];
      for i := 0 to |protocols|
        invariant forall p :: p in table <==> p in protocols[..i] && p in inboxes
        invariant forall p :: p in table ==> table[p] == inboxes[p]
      {
        var p := protocols[i];
        assert protocols[..i + 1] == protocols[..i] + [p];
        if p in inboxes {
          table := table[p := inboxes[p]];
        }
      }
      assert protocols[..|protocols|] == protocols;
      assert table == Handlers(protocols, inboxes);
      router := Some(table);
    }

    method ReloadRouterIfRunning()
      modifies this`router
      ensures router == if old(router).Some? then Some(Handlers(protocols, inboxes)) else None
    {
      if router.None? {
        return;
      }
      router := None;
      StartRouter();
    }

    /** Registers a protocol, or returns the inbox it already has; either way the router serves it. */
    method Service(protocol: string) returns (inbox: TtlQueue<Message>)
      requires Valid()
      modifies this
      ensures Valid()
      ensures var p := NormalizeProtocol(protocol);
        && protocols == Registered(old(protocols), p)
        && inboxes == old(inboxes)[p := inbox]
        && (p in old(inboxes) ==> inbox == old(inboxes)[p] && router == old(router))
        && (p !in old(inboxes) ==>
              fresh(inbox) && inbox.Valid() && inbox.buf == [] && inbox.capacity == DEFAULT_INBOX_CAPACITY)
        && router == Some(inboxes)
    {
      var normalized := NormalizeProtocol(protocol);
      AllNormalAfter(protocols, protocol);
      ghost var before := protocols;
      if normalized !in protocols {
        protocols := protocols + [normalized];
      }
      if normalized in inboxes {
        assert inboxes == inboxes[normalized := inboxes[normalized]];
        return inboxes[normalized];
      }
      inbox := new TtlQueue<Message>(DEFAULT_INBOX_CAPACITY);
      AgreedAfterAdding(before, inboxes, normalized, inbox);
      inboxes := inboxes[normalized := inbox];
      if router.Some? {
        ReloadRouterIfRunning();
      } else {
        StartRouter();
      }
    }

    /** Forgets a protocol and its inbox, everywhere; false and no change if there was none. */
    method RemoveService(protocol: string) returns (removed: bool)
      requires Valid()
      modifies this
      ensures Valid()
      ensures var p := NormalizeProtocol(protocol);
        && removed == (p in old(inboxes))
        && protocols == Without(old(protocols), p)
        && inboxes == old(inboxes) - {p}
        && router == if old(router).Some? then Some(inboxes) else None
    {
      var normalized := NormalizeProtocol(protocol);
      removed := normalized in inboxes;
      if !removed {
        assert inboxes - {normalized} == inboxes;
        return;
      }
      AgreedAfterRemoving(protocols, inboxes, normalized);
      AllNormalAfter(protocols, protocol);
      inboxes := inboxes - {normalized};
      protocols := Without(protocols, normalized);
      assert Agreed(protocols, inboxes) && AllNormal(protocols);
      assert Handlers(protocols, inboxes) == inboxes;
      ReloadRouterIfRunning();
    }

    /** The service strings for the document. */
    function Services(): (items: seq<Json>)
      reads this
    {
      Listed(id, protocols)
    }

    /** Resolving against this endpoint's own list finds it for exactly the non-blank protocols its router serves. */
    lemma ResolvesToItself(target: string)
      requires Valid()
      ensures var found := ResolveEndpointForProtocol(Some(Array(Services())), target);
        && (found.Some? ==> found.value == Lowercase(id))
        && (found.Some? <==> Trim(target) != "" && router.Some? && NormalizeProtocol(target) in router.value)
    {
      ResolvesListed(id, protocols, target);
    }
  }

  // ---- whole runs ----

  datatype Operation = Add(protocol: string) | Remove(protocol: string)

  /** The protocol list as the two methods change it, with `normal` for the normal form of a protocol. */
  function Applied(normal: string -> string, protocols: seq<string>, op: Operation): seq<string> {
    match op
    case Add(protocol) => Registered(protocols, normal(protocol))
    case Remove(protocol) => Without(protocols, normal(protocol))
  }

  function AppliedAll(normal: string -> string, ops: seq<Operation>): seq<string> {
    if ops == [] then [] else Applied(normal, AppliedAll(normal, ops[..|ops| - 1]), ops[|ops| - 1])
  }

  function After(ops: seq<Operation>): seq<string> {
    AppliedAll(NormalizeProtocol, ops)
  }

  /** Operation i registers `p`, and no later one is about `p`. */
  ghost predicate AddsLast(normal: string -> string, ops: seq<Operation>, p: string, i: int) {
    && 0 <= i < |ops| && ops[i].Add? && normal(ops[i].protocol) == p
    && forall j :: i < j < |ops| ==> normal(ops[j].protocol) != p
  }

  ghost predicate Adds(normal: string -> string, ops: seq<Operation>, p: string) {
    exists i :: AddsLast(normal, ops, p, i)
  }

  /** The last operation about the normalized protocol registers it. */
  ghost predicate LastAdds(ops: seq<Operation>, p: string) {
    Adds(NormalizeProtocol, ops, p)
  }

  lemma AddsStep(normal: string -> string, ops: seq<Operation>, op: Operation, p: string)
    ensures Adds(normal, ops + [op], p) <==> if normal(op.protocol) == p then op.Add? else Adds(normal, ops, p)
  {
    var n, all := |ops|, ops + [op];
    assert all[n] == op && forall j :: 0 <= j < n ==> all[j] == ops[j];
    if normal(op.protocol) != p {
      forall i
        ensures AddsLast(normal, all, p, i) <==> AddsLast(normal, ops, p, i)
      {
      }
    } else if op.Add? {
      assert AddsLast(normal, all, p, n);
    }
  }

  lemma {:induction false} ListFollowsLast(normal: string -> string, ops: seq<Operation>, p: string)
    ensures p in AppliedAll(normal, ops) <==> Adds(normal, ops, p)
    decreases |ops|
  {
    if ops != [] {
      var before, op := ops[..|ops| - 1], ops[|ops| - 1];
      ListFollowsLast(normal, before, p);
      AddsStep(normal, before, op, p);
      assert ops == before + [op];
    }
  }

  lemma {:induction false} ListHasNoRepeats(normal: string -> string, ops: seq<Operation>)
    ensures NoRepeats(AppliedAll(normal, ops))
    decreases |ops|
  {
    if ops != [] {
      var before, op := ops[..|ops| - 1], ops[|ops| - 1];
      ListHasNoRepeats(normal, before);
      WithoutKeepsNoRepeats(AppliedAll(normal, before), normal(op.protocol));
    }
  }

  lemma {:induction false} ListIsNormal(ops: seq<Operation>)
    ensures AllNormal(After(ops))
    decreases |ops|
  {
    if ops != [] {
      ListIsNormal(ops[..|ops| - 1]);
      AllNormalAfter(After(ops[..|ops| - 1]), ops[|ops| - 1].protocol);
    }
  }

  /** After any run the list has no repeats and holds exactly the protocols whose last operation registered them. */
  lemma RegistryFollowsLastOperation(ops: seq<Operation>)
    ensures NoRepeats(After(ops)) && AllNormal(After(ops))
    ensures forall p :: p in After(ops) <==> LastAdds(ops, p)
  {
    ListHasNoRepeats(NormalizeProtocol, ops);
    ListIsNormal(ops);
    forall p
      ensures p in After(ops) <==> LastAdds(ops, p)
    {
      ListFollowsLast(NormalizeProtocol, ops, p);
    }
  }

  /** So a protocol resolves, to the lower-case id, exactly when it is not blank and was last registered. */
  lemma ResolvesExactlyRegistered(id: string, ops: seq<Operation>, target: string)
    requires IsEndpointId(id)
    ensures ResolveEndpointForProtocol(Some(Array(Listed(id, After(ops)))), target)
         == if Trim(target) != "" && LastAdds(ops, NormalizeProtocol(target)) then Some(Lowercase(id)) else None
  {
    RegistryFollowsLastOperation(ops);
    ResolvesListed(id, After(ops), target);
  }
}
