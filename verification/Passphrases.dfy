/**
 * The rejection-sampled passphrase (src/config/secrets.rs:343-361), over an arbitrary stream of random bytes.
 */
module Passphrases {
  import opened Text

  type Byte = b: int | 0 <= b < 256

  const ACCEPT_BELOW := 248
  const LENGTH := 43
  const REFILL := 64

  /** Entry i of the character set: upper-case letters, lower-case letters, digits. */
  function Letter(i: nat): char
    requires i < 62
  {
    if i < 26 then 'A' + i as char else if i < 52 then 'a' + (i - 26) as char else '0' + (i - 52) as char
  }

  function CharacterOf(b: Byte): char {
    Letter(b % 62)
  }

  /** The character set, written out. */
  lemma CharacterSet(b: Byte)
    ensures var i := b % 62;
      CharacterOf(b) == if i < 26 then "ABCDEFGHIJKLMNOPQRSTUVWXYZ"[i]
                        else if i < 52 then "abcdefghijklmnopqrstuvwxyz"[i - 26] else "0123456789"[i - 52]
  {
    var i: nat := b % 62;
    if i < 26 {
      UpperCase(i);
    } else if i < 52 {
      LowerCase(i - 26);
    } else {
      Digits(i - 52);
    }
  }

  lemma UpperCase(i: nat)
    requires i < 26
    ensures "ABCDEFGHIJKLMNOPQRSTUVWXYZ"[i] == 'A' + i as char
  {
    var text := "ABCDEFGHIJKLMNOPQRSTUVWXYZ";
    assert forall j :: 0 <= j < 13 ==> text[j] == 'A' + j as char;
    assert forall j :: 13 <= j < 26 ==> text[j] == 'A' + j as char;
  }

  lemma LowerCase(i: nat)
    requires i < 26
    ensures "abcdefghijklmnopqrstuvwxyz"[i] == 'a' + i as char
  {
    var text := "abcdefghijklmnopqrstuvwxyz";
    assert forall j :: 0 <= j < 13 ==> text[j] == 'a' + j as char;
    assert forall j :: 13 <= j < 26 ==> text[j] == 'a' + j as char;
  }

  lemma Digits(i: nat)
    requires i < 10
    ensures "0123456789"[i] == '0' + i as char
  {
  }

  function Characters(bytes: seq<Byte>): (p: string)
    ensures |p| == |bytes|
    ensures forall i :: 0 <= i < |p| ==> p[i] == CharacterOf(bytes[i])
  {
    seq(|bytes|, i requires 0 <= i < |bytes| => CharacterOf(bytes[i]))
  }

  /** The accepted ones of the first n bytes of the stream. */
  function Accepted(random: nat -> Byte, n: nat): seq<Byte> {
    if n == 0 then []
    else Accepted(random, n - 1) + if random(n - 1) < ACCEPT_BELOW then [random(n - 1)] else []
  }

  lemma {:induction false} AcceptedGrows(random: nat -> Byte, m: nat, n: nat)
    requires m <= n
    ensures Accepted(random, m) <= Accepted(random, n)
  {
    if m < n {
      AcceptedGrows(random, m, n - 1);
    }
  }

  method FillBytes(random: nat -> Byte, from: nat, buf: array<Byte>)
    modifies buf
    ensures forall i :: 0 <= i < buf.Length ==> buf[i] == random(from + i)
  {
    for i := 0 to buf.Length
      invariant forall j :: 0 <= j < i ==> buf[j] == random(from + j)
    {
      buf[i] := random(from + i);
    }
  }

  /**
   * With enough acceptable bytes to come, the passphrase is the images of the first 43 of them,
   * wherever the buffer is refilled.
   */
  method GeneratePassphrase(random: nat -> Byte, ghost enough: nat) returns (result: string)
    requires |Accepted(random, enough)| >= LENGTH
    ensures result == Characters(Accepted(random, enough)[..LENGTH])
  {
    result := "";
    var buf := new Byte[REFILL];
    var used := 0;
    while true
      invariant |result| < LENGTH && result == Characters(Accepted(random, used))
      decreases enough - used
    {
      if used >= enough {
        AcceptedGrows(random, enough, used);
        assert false;
      }
      FillBytes(random, used, buf);
      for i := 0 to REFILL
        invariant |result| < LENGTH && result == Characters(Accepted(random, used + i))
      {
        var b := buf[i];
        assert Accepted(random, used + i + 1) == Accepted(random, used + i) + if b < ACCEPT_BELOW then [b] else [];
        if b < ACCEPT_BELOW {
          result := result + [CharacterOf(b)];
          if |result| == LENGTH {
            FirstAccepted(random, used + i + 1, enough);
            return;
          }
        }
      }
      used := used + REFILL;
    }
  }

  /** The first accepted bytes do not depend on how far the stream is read. */
  lemma FirstAccepted(random: nat -> Byte, m: nat, n: nat)
    requires |Accepted(random, m)| >= LENGTH && |Accepted(random, n)| >= LENGTH
    ensures Accepted(random, m)[..LENGTH] == Accepted(random, n)[..LENGTH]
  {
    if m <= n {
      AcceptedGrows(random, m, n);
    } else {
      AcceptedGrows(random, n, m);
    }
  }

  // ---- no modulo bias ----

  function IndexOf(c: char): (j: nat)
    requires IsAsciiAlphanumeric(c)
    ensures j < 62
    ensures forall k :: 0 <= k < 62 ==> (Letter(k) == c <==> k == j)
  {
    if 'A' <= c <= 'Z' then (c - 'A') as nat
    else if 'a' <= c <= 'z' then 26 + (c - 'a') as nat
    else 52 + (c - '0') as nat
  }

  function Quad(j: nat): set<Byte>
    requires j < 62
  {
    {j, j + 62, j + 124, j + 186}
  }

  /** The accepted bytes a character comes from. */
  function Sources(c: char): (s: set<Byte>)
    requires IsAsciiAlphanumeric(c)
  {
    Quad(IndexOf(c))
  }

  /** Every character of the set comes from exactly four accepted bytes. */
  lemma FourSourcesEach(c: char)
    requires IsAsciiAlphanumeric(c)
    ensures |Sources(c)| == 4
    ensures forall b: Byte :: b in Sources(c) <==> b < ACCEPT_BELOW && CharacterOf(b) == c
  {
    var j := IndexOf(c);
    forall b: Byte
      ensures b in Sources(c) <==> b < ACCEPT_BELOW && CharacterOf(b) == c
    {
      assert CharacterOf(b) == c <==> b % 62 == j;
      SameRemainder(b, j);
    }
  }

  lemma SameRemainder(b: Byte, j: nat)
    requires j < 62
    ensures b < ACCEPT_BELOW && b % 62 == j <==> b == j || b == j + 62 || b == j + 124 || b == j + 186
  {
  }

  /** The accepted byte strings that give the passphrase. */
  function Preimages(p: string): set<seq<Byte>>
    requires forall i :: 0 <= i < |p| ==> IsAsciiAlphanumeric(p[i])
  {
    if p == "" then {[]} else Extended(IndexOf(p[0]), Preimages(p[1..]))
  }

  function Extended(j: nat, rest: set<seq<Byte>>): set<seq<Byte>>
    requires j < 62
  {
    Starting(j, rest) + Starting(j + 62, rest) + Starting(j + 124, rest) + Starting(j + 186, rest)
  }

  function Starting(b: Byte, rest: set<seq<Byte>>): set<seq<Byte>> {
    set t | t in rest :: [b] + t
  }

  lemma {:induction false} StartingCount(b: Byte, rest: set<seq<Byte>>)
    ensures |Starting(b, rest)| == |rest|
    decreases |rest|
  {
    if rest != {} {
      var t :| t in rest;
      StartingCount(b, rest - {t});
      forall u | u in rest - {t}
        ensures [b] + u != [b] + t
      {
        assert ([b] + u)[1..] == u && ([b] + t)[1..] == t;
      }
      assert Starting(b, rest) == Starting(b, rest - {t}) + {[b] + t};
    }
  }

  lemma StartingApart(a: Byte, b: Byte, rest: set<seq<Byte>>)
    requires a != b
    ensures Starting(a, rest) !! Starting(b, rest)
  {
    forall s | s in Starting(a, rest)
      ensures s !in Starting(b, rest)
    {
      assert s[0] == a;
    }
  }

  function Pow4(n: nat): nat {
    if n == 0 then 1 else 4 * Pow4(n - 1)
  }

  ghost predicate AllAccepted(bytes: seq<Byte>) {
    forall i :: 0 <= i < |bytes| ==> bytes[i] < ACCEPT_BELOW
  }

  ghost predicate Gives(bytes: seq<Byte>, p: string) {
    AllAccepted(bytes) && Characters(bytes) == p
  }

  lemma ExtendedCount(j: nat, rest: set<seq<Byte>>)
    requires j < 62
    ensures |Extended(j, rest)| == 4 * |rest|
  {
    var a, b, c, d := j, j + 62, j + 124, j + 186;
    var x, y, z, w := Starting(a, rest), Starting(b, rest), Starting(c, rest), Starting(d, rest);
    assert |x| == |y| == |z| == |w| == |rest| by {
      StartingCount(a, rest);
      StartingCount(b, rest);
      StartingCount(c, rest);
      StartingCount(d, rest);
    }
    assert x !! y && x + y !! z && x + y + z !! w by {
      StartingApart(a, b, rest);
      StartingApart(a, c, rest);
      StartingApart(b, c, rest);
      StartingApart(a, d, rest);
      StartingApart(b, d, rest);
      StartingApart(c, d, rest);
    }
    assert |x + y| == |x| + |y| && |x + y + z| == |x + y| + |z|;
  }

  lemma {:induction false} PreimagesCount(p: string)
    requires forall i :: 0 <= i < |p| ==> IsAsciiAlphanumeric(p[i])
    ensures |Preimages(p)| == Pow4(|p|)
    decreases |p|
  {
    if p != "" {
      var c, rest := p[0], p[1..];
      PreimagesCount(rest);
      assert Preimages(p) == Extended(IndexOf(c), Preimages(rest));
      ExtendedCount(IndexOf(c), Preimages(rest));
      assert Pow4(|p|) == 4 * Pow4(|rest|);
    }
  }

  lemma CharactersStep(bytes: seq<Byte>)
    requires bytes != []
    ensures Characters(bytes) == [CharacterOf(bytes[0])] + Characters(bytes[1..])
  {
  }

  lemma AllAcceptedStep(bytes: seq<Byte>)
    requires bytes != []
    ensures AllAccepted(bytes) <==> bytes[0] < ACCEPT_BELOW && AllAccepted(bytes[1..])
  {
    assert bytes == [bytes[0]] + bytes[1..];
  }

  lemma EqualStep(c: char, rest: string, p: string)
    requires p != ""
    ensures [c] + rest == p <==> c == p[0] && rest == p[1..]
  {
    assert ([c] + rest)[1..] == rest;
    assert p == [p[0]] + p[1..];
  }

  lemma GivesStep(bytes: seq<Byte>, p: string)
    requires p != "" && IsAsciiAlphanumeric(p[0])
    ensures Gives(bytes, p) <==> bytes != [] && bytes[0] in Sources(p[0]) && Gives(bytes[1..], p[1..])
  {
    FourSourcesEach(p[0]);
    if bytes != [] {
      CharactersStep(bytes);
      AllAcceptedStep(bytes);
      EqualStep(CharacterOf(bytes[0]), Characters(bytes[1..]), p);
    }
  }

  lemma StartingMembers(bytes: seq<Byte>, b: Byte, rest: set<seq<Byte>>)
    ensures bytes in Starting(b, rest) <==> bytes != [] && bytes[0] == b && bytes[1..] in rest
  {
    if bytes != [] && bytes[0] == b && bytes[1..] in rest {
      assert bytes == [b] + bytes[1..];
    }
    if bytes in Starting(b, rest) {
      var t :| t in rest && bytes == [b] + t;
      assert bytes[1..] == t;
    }
  }

  lemma ExtendedMembers(bytes: seq<Byte>, j: nat, rest: set<seq<Byte>>)
    requires j < 62
    ensures bytes in Extended(j, rest) <==>
            bytes != [] && bytes[0] in Quad(j) && bytes[1..] in rest
  {
    StartingMembers(bytes, j, rest);
    StartingMembers(bytes, j + 62, rest);
    StartingMembers(bytes, j + 124, rest);
    StartingMembers(bytes, j + 186, rest);
  }

  lemma PreimagesStep(bytes: seq<Byte>, p: string)
    requires p != "" && forall i :: 0 <= i < |p| ==> IsAsciiAlphanumeric(p[i])
    ensures bytes in Preimages(p) <==> bytes != [] && bytes[0] in Sources(p[0]) && bytes[1..] in Preimages(p[1..])
  {
    var c, tail := p[0], p[1..];
    assert Preimages(p) == Extended(IndexOf(c), Preimages(tail));
    ExtendedMembers(bytes, IndexOf(c), Preimages(tail));
  }

  lemma {:induction false} PreimagesAreThose(bytes: seq<Byte>, p: string)
    requires forall i :: 0 <= i < |p| ==> IsAsciiAlphanumeric(p[i])
    ensures bytes in Preimages(p) <==> Gives(bytes, p)
    decreases |p|
  {
    if p != "" {
      PreimagesStep(bytes, p);
      GivesStep(bytes, p);
      if bytes != [] {
        PreimagesAreThose(bytes[1..], p[1..]);
      }
    }
  }

  /**
   * No passphrase is likelier than another: each one of n characters comes from exactly 4^n strings
   * of n accepted bytes.
   */
  lemma NoBias(p: string)
    requires forall i :: 0 <= i < |p| ==> IsAsciiAlphanumeric(p[i])
    ensures |Preimages(p)| == Pow4(|p|)
    ensures forall bytes :: bytes in Preimages(p) <==> Gives(bytes, p)
  {
    PreimagesCount(p);
    forall bytes
      ensures bytes in Preimages(p) <==> Gives(bytes, p)
    {
      PreimagesAreThose(bytes, p);
    }
  }
}
