/**
 * The part of a Kubo node that the pin cleanup talks to (src/kubo/kubo.rs).
 *
 * Every call either reports success, and then took effect, or reports an error, and then may or
 * may not have taken effect (a response lost after the write).
 */
module Kubo {
  import opened Wrappers

  type Cid = string
  type Name = string

  /** Local recursive pins: one name per CID, so adding a pinned CID again renames its pin. */
  type LocalPins = map<Cid, Name>

  /** Records of one remote pinning service: a CID may be recorded under several names. */
  type RemotePins = set<(Cid, Name)>

  /** The suffix of the temporary name that protects a fresh pin. */
  const IN_FLIGHT_SUFFIX := "~new"

  function InFlightName(name: Name): (temp: Name)
    ensures temp != name && |temp| > |name|
  {
    name + IN_FLIGHT_SUFFIX
  }

  lemma InFlightNameInjective(a: Name, b: Name)
    requires InFlightName(a) == InFlightName(b)
    ensures a == b
  {
    assert InFlightName(a)[..|a|] == a && InFlightName(b)[..|b|] == b;
  }

  /** What a cleanup pass is told to do. */
  datatype Request = Request(
    kuboUrl: string,
    name: Name,
    protectedCid: Cid,
    cleanupLocal: bool,
    remoteService: Option<string>)

  ghost predicate Distinct<T(!new)>(s: seq<T>) {
    forall i, j :: 0 <= i < j < |s| ==> s[i] != s[j]
  }

  /** `cids` is an exact listing, in some order, of the CIDs pinned locally under `name`. */
  ghost predicate ListsLocal(pins: LocalPins, name: Name, cids: seq<Cid>) {
    && Distinct(cids)
    && forall c :: c in cids <==> c in pins && pins[c] == name
  }

  ghost predicate ListsRemote(pins: RemotePins, name: Name, cids: seq<Cid>) {
    && Distinct(cids)
    && forall c :: c in cids <==> (c, name) in pins
  }

  /** Every finite set of CIDs can be listed. */
  lemma {:induction false} SomeSequence(cids: set<Cid>) returns (xs: seq<Cid>)
    ensures Distinct(xs) && forall c :: c in xs <==> c in cids
    decreases cids
  {
    if cids == {} {
      xs := [];
    } else {
      var c :| c in cids;
      var rest := SomeSequence(cids - {c});
      xs := [c] + rest;
    }
  }

  lemma SomeListing(pins: LocalPins, name: Name) returns (cids: seq<Cid>)
    ensures ListsLocal(pins, name, cids)
  {
    cids := SomeSequence(set c | c in pins && pins[c] == name);
  }

  ghost predicate LocalRm(pins: LocalPins, cid: Cid, ok: bool, pins': LocalPins) {
    pins' == pins - {cid} || (!ok && pins' == pins)
  }

  ghost predicate LocalAdd(pins: LocalPins, cid: Cid, name: Name, ok: bool, pins': LocalPins) {
    pins' == pins[cid := name] || (!ok && pins' == pins)
  }

  /** Removing an absent record also reports success ("not found"). */
  ghost predicate RemoteRm(pins: RemotePins, cid: Cid, name: Name, ok: bool, pins': RemotePins) {
    pins' == pins - {(cid, name)} || (!ok && pins' == pins)
  }

  /** True when the service already records this CID, whatever the name. */
  ghost predicate Recorded(pins: RemotePins, cid: Cid) {
    exists n :: (cid, n) in pins
  }

  /**
   * A service that already records the CID may answer "duplicate", which the client reports as
   * success although no record under `name` was made.
   */
  ghost predicate RemoteAdd(pins: RemotePins, cid: Cid, name: Name, ok: bool, pins': RemotePins) {
    || pins' == pins + {(cid, name)}
    || (pins' == pins && (!ok || Recorded(pins, cid)))
  }

  /** The elements of a finite set, in some order, each once. */
  method Enumerate<T(==)>(s: set<T>) returns (xs: seq<T>)
    ensures forall x :: x in xs <==> x in s
    ensures forall i, j :: 0 <= i < j < |xs| ==> xs[i] != xs[j]
  {
    xs := [];
    var todo := s;
    while todo != {}
      invariant todo <= s
      invariant forall x :: x in xs <==> x in s && x !in todo
      invariant forall i, j :: 0 <= i < j < |xs| ==> xs[i] != xs[j]
      decreases todo
    {
      var x :| x in todo;
      xs, todo := xs + [x], todo - {x};
    }
  }

  /** The local pin set of a Kubo node, behind its fallible HTTP calls. */
  class LocalNode {
    var pins: LocalPins

    constructor (initial: LocalPins)
      ensures pins == initial
    {
      pins := initial;
    }

    method List(name: Name) returns (listing: Option<seq<Cid>>)
      ensures listing.Some? ==> ListsLocal(pins, name, listing.value)
    {
      if * {
        return None;
      }
      var cids := Enumerate(set c | c in pins && pins[c] == name);
      listing := Some(cids);
    }

    method Rm(cid: Cid) returns (ok: bool)
      modifies this
      ensures LocalRm(old(pins), cid, ok, pins)
    {
      if * {
        pins := pins - {cid};
        ok := *;
      } else {
        ok := false;
      }
    }

    method Add(cid: Cid, name: Name) returns (ok: bool)
      modifies this
      ensures LocalAdd(old(pins), cid, name, ok, pins)
    {
      if * {
        pins := pins[cid := name];
        ok := *;
      } else {
        ok := false;
      }
    }
  }

  /** The records of one remote pinning service, behind its fallible calls. */
  class RemoteNode {
    var pins: RemotePins

    constructor (initial: RemotePins)
      ensures pins == initial
    {
      pins := initial;
    }

    method List(name: Name) returns (listing: Option<seq<Cid>>)
      ensures listing.Some? ==> ListsRemote(pins, name, listing.value)
    {
      if * {
        return None;
      }
      var cids := Enumerate(set p | p in pins && p.1 == name :: p.0);
      listing := Some(cids);
    }

    method Rm(cid: Cid, name: Name) returns (ok: bool)
      modifies this
      ensures RemoteRm(old(pins), cid, name, ok, pins)
    {
      if * {
        pins := pins - {(cid, name)};
        ok := *;
      } else {
        ok := false;
      }
    }

    method Add(cid: Cid, name: Name) returns (ok: bool)
      modifies this
      ensures RemoteAdd(old(pins), cid, name, ok, pins)
    {
      if * {
        pins := pins + {(cid, name)};
        ok := *;
      } else {
        // Either an error, or a "duplicate" answer for a CID the service already records.
        ok := exists p :: p in pins && p.0 == cid;
        if ok {
          var p :| p in pins && p.0 == cid;
          assert (cid, p.1) in pins;
        }
      }
    }
  }
}
