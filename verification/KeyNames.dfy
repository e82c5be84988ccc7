/**
 * Kubo key names built from operator-visible parts (src/ipfs/publish.rs:56-127). The names are also
 * the default pin names, so their shape is what keeps them apart from in-flight pin names.
 */
module KeyNames {
  import opened Text
  import Kubo
  import PublishSystem

  /** A byte of a UTF-8 string, read as a character the way `byte as char` does. */
  type Byte = c: char | c <= '\U{00FF}'

  predicate IsSeparator(c: char) {
    c == '-' || c == '_'
  }

  /** What the text so far becomes after one more byte. */
  function Pushed(text: string, c: Byte): string {
    if IsAsciiAlphanumeric(c) then text + [ToAsciiLowercase(c)]
    else if text == "" || IsSeparator(text[|text| - 1]) then text
    else text + [Separator(c)]
  }

  function Separator(c: Byte): char {
    if IsSeparator(c) then c else '-'
  }

  function PushedAll(text: string, part: seq<Byte>): string
    decreases |part|
  {
    if part == [] then text else PushedAll(Pushed(text, part[0]), part[1..])
  }

  function Chopped(text: string): string {
    if text != "" && IsSeparator(text[|text| - 1]) then Chopped(text[..|text| - 1]) else text
  }

  method SanitizeKeyPart(part: seq<Byte>) returns (name: string)
    ensures name == Sanitized(part)
  {
    name := "";
    var lastWasSeparator := false;
    for i := 0 to |part|
      invariant lastWasSeparator <==> name != "" && IsSeparator(name[|name| - 1])
      invariant PushedAll(name, part[i..]) == PushedAll("", part)
    {
      var c := part[i];
      assert part[i..][1..] == part[i + 1..];
      if IsAsciiAlphanumeric(c) {
        name := name + [ToAsciiLowercase(c)];
        lastWasSeparator := false;
      } else if c == '-' || c == '_' {
        if !lastWasSeparator && name != "" {
          name := name + [c];
          lastWasSeparator := true;
        }
      } else if !lastWasSeparator && name != "" {
        name := name + ['-'];
        lastWasSeparator := true;
      }
    }
    while name != "" && IsSeparator(name[|name| - 1])
      invariant Chopped(name) == Chopped(PushedAll("", part))
      decreases |name|
    {
      name := name[..|name| - 1];
    }
    PopsAreLookahead("", part);
    SanitizedWellFormed(part);
    if name == "" {
      name := "unknown";
    }
  }

  // ---- the same text without going back: look ahead instead of popping ----

  predicate HasLetter(part: seq<Byte>) {
    exists i :: 0 <= i < |part| && IsAsciiAlphanumeric(part[i])
  }

  /** Skips to the next letter or digit. */
  function Words(part: seq<Byte>): string {
    if part == [] then ""
    else if IsAsciiAlphanumeric(part[0]) then [ToAsciiLowercase(part[0])] + Inside(part[1..])
    else Words(part[1..])
  }

  /** After a letter or digit: a gap becomes its first separator, if anything follows it. */
  function Inside(part: seq<Byte>): string {
    if !HasLetter(part) then ""
    else if IsAsciiAlphanumeric(part[0]) then [ToAsciiLowercase(part[0])] + Inside(part[1..])
    else [Separator(part[0])] + Words(part[1..])
  }

  /** Words in lower case, each gap between two of them one separator; a part without words is "unknown". */
  function Sanitized(part: seq<Byte>): string {
    if HasLetter(part) then Words(part) else "unknown"
  }

  predicate EndsOpen(text: string) {
    text == "" || IsSeparator(text[|text| - 1])
  }

  lemma HasLetterTail(part: seq<Byte>)
    requires part != []
    ensures HasLetter(part) <==> IsAsciiAlphanumeric(part[0]) || HasLetter(part[1..])
  {
    if HasLetter(part) && !IsAsciiAlphanumeric(part[0]) {
      var i :| 0 <= i < |part| && IsAsciiAlphanumeric(part[i]);
      assert part[1..][i - 1] == part[i];
    }
  }

  /** What is still to be written after `text`. */
  function Rest(text: string, part: seq<Byte>): string {
    if EndsOpen(text) then Words(part) else Inside(part)
  }

  lemma RestOfLetter(text: string, part: seq<Byte>)
    requires part != [] && IsAsciiAlphanumeric(part[0])
    ensures Rest(text, part) == [ToAsciiLowercase(part[0])] + Inside(part[1..])
  {
    HasLetterTail(part);
  }

  lemma RestOfGap(text: string, part: seq<Byte>)
    requires part != [] && !IsAsciiAlphanumeric(part[0]) && HasLetter(part[1..])
    ensures Rest(text, part) == if EndsOpen(text) then Words(part[1..]) else [Separator(part[0])] + Words(part[1..])
  {
    HasLetterTail(part);
  }

  lemma RestStep(text: string, part: seq<Byte>)
    requires part != [] && HasLetter(part[1..])
    ensures Pushed(text, part[0]) + Rest(Pushed(text, part[0]), part[1..]) == text + Rest(text, part)
  {
    var c, next := part[0], Pushed(text, part[0]);
    if IsAsciiAlphanumeric(c) {
      RestOfLetter(text, part);
      Snoc(text, ToAsciiLowercase(c), Inside(part[1..]));
    } else {
      RestOfGap(text, part);
      if !EndsOpen(text) {
        Snoc(text, Separator(c), Words(part[1..]));
      }
    }
  }

  lemma Snoc(text: string, c: char, rest: string)
    ensures (text + [c]) + rest == text + ([c] + rest)
    ensures EndsOpen(text + [c]) <==> IsSeparator(c)
  {
  }

  lemma LastStep(text: string, part: seq<Byte>)
    requires part != [] && !HasLetter(part[1..])
    ensures Chopped(Pushed(text, part[0])) == if HasLetter(part) then text + Rest(text, part) else Chopped(text)
  {
    HasLetterTail(part);
    var c, next := part[0], Pushed(text, part[0]);
    if IsAsciiAlphanumeric(c) {
      assert Inside(part[1..]) == "";
      assert Rest(text, part) == [ToAsciiLowercase(c)];
    } else if next != text {
      assert next[..|next| - 1] == text;
    }
  }

  /** Pushing with a flag and then popping separators gives the looked-ahead text. */
  lemma {:induction false} PopsAreLookahead(text: string, part: seq<Byte>)
    ensures Chopped(PushedAll(text, part)) == if HasLetter(part) then text + Rest(text, part) else Chopped(text)
    decreases |part|
  {
    if part != [] {
      PopsAreLookahead(Pushed(text, part[0]), part[1..]);
      HasLetterTail(part);
      if HasLetter(part[1..]) {
        RestStep(text, part);
      } else {
        LastStep(text, part);
      }
    }
  }

  // ---- the shape of the result ----

  predicate IsPlain(c: char) {
    'a' <= c <= 'z' || '0' <= c <= '9'
  }

  /** Letters and digits with single separators between them. */
  predicate WellFormed(name: string) {
    && name != ""
    && IsPlain(name[0]) && IsPlain(name[|name| - 1])
    && (forall i :: 0 <= i < |name| ==> IsPlain(name[i]) || IsSeparator(name[i]))
    && (forall i :: 0 < i < |name| ==> IsPlain(name[i - 1]) || IsPlain(name[i]))
  }

  lemma Prepend(c: char, name: string)
    requires WellFormed(name) && IsPlain(c)
    ensures WellFormed([c] + name)
  {
    var all := [c] + name;
    assert forall i :: 0 < i < |all| ==> all[i] == name[i - 1];
  }

  lemma PrependSeparated(c: char, s: char, name: string)
    requires WellFormed(name) && IsPlain(c) && IsSeparator(s)
    ensures WellFormed([c] + ([s] + name))
  {
    var all := [c] + ([s] + name);
    assert forall i :: 1 < i < |all| ==> all[i] == name[i - 2];
  }

  /** Two well-formed names with one separator between them, or none. */
  lemma JoinedNames(a: string, s: string, b: string)
    requires WellFormed(a) && WellFormed(b) && (s == "" || s == "-" || s == "_")
    ensures WellFormed(a + s + b)
  {
    var all := a + s + b;
    forall i | 0 < i < |all|
      ensures IsPlain(all[i - 1]) || IsPlain(all[i])
    {
      if i < |a| {
        assert all[i - 1] == a[i - 1] && all[i] == a[i];
      } else if i > |a| + |s| {
        assert all[i - 1] == b[i - 1 - |a| - |s|] && all[i] == b[i - |a| - |s|];
      } else {
        assert all[|a| - 1] == a[|a| - 1] && all[|a| + |s|] == b[0];
      }
    }
    forall i | 0 <= i < |all|
      ensures IsPlain(all[i]) || IsSeparator(all[i])
    {
      assert all[i] == if i < |a| then a[i] else if i < |a| + |s| then s[i - |a|] else b[i - |a| - |s|];
    }
    assert all[0] == a[0] && all[|all| - 1] == b[|b| - 1];
  }

  lemma {:induction false} WordsWellFormed(part: seq<Byte>)
    requires HasLetter(part)
    ensures WellFormed(Words(part))
    decreases |part|, 0
  {
    HasLetterTail(part);
    if IsAsciiAlphanumeric(part[0]) {
      InsideWellFormed(ToAsciiLowercase(part[0]), part[1..]);
    } else {
      WordsWellFormed(part[1..]);
    }
  }

  lemma {:induction false} InsideWellFormed(c: char, part: seq<Byte>)
    requires IsPlain(c)
    ensures WellFormed([c] + Inside(part))
    decreases |part|, 1
  {
    if HasLetter(part) {
      HasLetterTail(part);
      if IsAsciiAlphanumeric(part[0]) {
        var l := ToAsciiLowercase(part[0]);
        InsideWellFormed(l, part[1..]);
        Prepend(c, [l] + Inside(part[1..]));
      } else {
        WordsWellFormed(part[1..]);
        PrependSeparated(c, Separator(part[0]), Words(part[1..]));
      }
    }
  }

  lemma SanitizedWellFormed(part: seq<Byte>)
    ensures WellFormed(Sanitized(part))
  {
    if HasLetter(part) {
      WordsWellFormed(part);
    }
  }

  /** A suffix of a well-formed name, starting at a letter or digit. */
  lemma SuffixWellFormed(name: string, i: nat)
    requires WellFormed(name) && i < |name| && IsPlain(name[i])
    ensures WellFormed(name[i..])
  {
    assert forall j :: 0 <= j < |name[i..]| ==> name[i..][j] == name[i + j];
  }

  lemma PlainStays(c: Byte)
    requires IsPlain(c)
    ensures IsAsciiAlphanumeric(c) && ToAsciiLowercase(c) == c
  {
  }

  lemma WordsOfOne(c: Byte)
    requires IsPlain(c)
    ensures Words([c]) == [c] && HasLetter([c])
  {
    var part: seq<Byte> := [c];
    assert IsAsciiAlphanumeric(part[0]);
    assert !HasLetter(part[1..]);
    assert Words(part) == [c] + Inside(part[1..]);
  }

  lemma WordsAfterLetter(c: Byte, part: seq<Byte>)
    requires IsPlain(c) && HasLetter(part) && IsAsciiAlphanumeric(part[0])
    ensures Words([c] + part) == [c] + Words(part) && HasLetter([c] + part)
  {
    var all := [c] + part;
    assert all[1..] == part && IsAsciiAlphanumeric(all[0]);
    assert Words(part) == Inside(part);
  }

  lemma WordsAfterSeparator(c: Byte, s: Byte, part: seq<Byte>)
    requires IsPlain(c) && IsSeparator(s) && HasLetter(part)
    ensures Words([c, s] + part) == [c, s] + Words(part) && HasLetter([c, s] + part)
  {
    var all := [c, s] + part;
    var tail := all[1..];
    assert tail[1..] == part && tail[0] == s && IsAsciiAlphanumeric(all[0]);
    HasLetterTail(tail);
    HasLetterTail(all);
    assert Words(all) == [c] + Inside(tail);
    assert Inside(tail) == [s] + Words(part);
  }

  lemma AfterSeparator(name: string)
    requires WellFormed(name) && |name| > 1 && !IsPlain(name[1])
    ensures |name| > 2 && IsSeparator(name[1]) && IsPlain(name[2])
  {
    assert IsPlain(name[2 - 1]) || IsPlain(name[2]);
  }

  lemma LetterBefore(name: seq<Byte>)
    requires |name| > 1 && IsPlain(name[0]) && IsPlain(name[1])
    requires Words(name[1..]) == name[1..] && HasLetter(name[1..])
    ensures Words(name) == name && HasLetter(name)
  {
    PlainStays(name[1]);
    WordsAfterLetter(name[0], name[1..]);
    assert name == [name[0]] + name[1..];
  }

  lemma SeparatorBefore(name: seq<Byte>)
    requires |name| > 2 && IsPlain(name[0]) && IsSeparator(name[1])
    requires Words(name[2..]) == name[2..] && HasLetter(name[2..])
    ensures Words(name) == name && HasLetter(name)
  {
    WordsAfterSeparator(name[0], name[1], name[2..]);
    assert name == [name[0], name[1]] + name[2..];
  }

  lemma {:induction false} WellFormedWords(name: seq<Byte>)
    requires WellFormed(name)
    ensures Words(name) == name && HasLetter(name)
    decreases |name|
  {
    if |name| == 1 {
      WordsOfOne(name[0]);
      assert name == [name[0]];
    } else if IsPlain(name[1]) {
      SuffixWellFormed(name, 1);
      WellFormedWords(name[1..]);
      LetterBefore(name);
    } else {
      AfterSeparator(name);
      SuffixWellFormed(name, 2);
      WellFormedWords(name[2..]);
      SeparatorBefore(name);
    }
  }

  /**
   * Sanitizing yields a well-formed name, and changes nothing exactly when it is given one; so a
   * second time changes nothing.
   */
  lemma SanitizedIsFixpoint(part: seq<Byte>)
    ensures WellFormed(Sanitized(part))
    ensures Sanitized(part) == part <==> WellFormed(part)
    ensures Sanitized(AsBytes(Sanitized(part))) == Sanitized(part)
  {
    SanitizedWellFormed(part);
    WellFormedWords(AsBytes(Sanitized(part)));
    if WellFormed(part) {
      WellFormedWords(part);
    }
  }

  /** A well-formed name is ASCII, so its bytes are its characters. */
  function AsBytes(name: string): (part: seq<Byte>)
    requires WellFormed(name)
    ensures part == name
  {
    name
  }

  function Letters(text: string): string {
    if text == "" then ""
    else (if IsAsciiAlphanumeric(text[0]) then [ToAsciiLowercase(text[0])] else "") + Letters(text[1..])
  }

  lemma {:induction false} NoLetters(part: seq<Byte>)
    ensures !HasLetter(part) <==> Letters(part) == ""
    decreases |part|
  {
    if part != [] {
      HasLetterTail(part);
      NoLetters(part[1..]);
    }
  }

  /** No letter or digit is lost, added, moved or changed but for its case, if there is any. */
  lemma LettersKept(part: seq<Byte>)
    ensures HasLetter(part) ==> Letters(Sanitized(part)) == Letters(part)
    ensures !HasLetter(part) ==> Letters(part) == "" && Sanitized(part) == "unknown"
  {
    NoLetters(part);
    LettersOfWords(part);
  }

  lemma {:induction false} LettersOfWords(part: seq<Byte>)
    ensures Letters(Words(part)) == Letters(part) == Letters(Inside(part))
    decreases |part|
  {
    NoLetters(part);
    if part != [] {
      HasLetterTail(part);
      LettersOfWords(part[1..]);
      var w, n := Words(part), Inside(part);
      if IsAsciiAlphanumeric(part[0]) {
        assert w[1..] == Inside(part[1..]) && n[1..] == Inside(part[1..]);
      } else if HasLetter(part) {
        assert n[1..] == Words(part[1..]);
      }
    }
  }

  // ---- the text, word by word ----

  predicate IsWord(part: seq<Byte>) {
    part != [] && forall i :: 0 <= i < |part| ==> IsAsciiAlphanumeric(part[i])
  }

  function Lowered(word: seq<Byte>): (text: string)
    ensures |text| == |word| && forall i :: 0 <= i < |word| ==> text[i] == ToAsciiLowercase(word[i])
  {
    seq(|word|, i requires 0 <= i < |word| => ToAsciiLowercase(word[i]))
  }

  lemma {:induction false} GapSkipped(gap: seq<Byte>, rest: seq<Byte>)
    requires !HasLetter(gap)
    ensures Words(gap + rest) == Words(rest) && (HasLetter(gap + rest) <==> HasLetter(rest))
    decreases |gap|
  {
    if gap == [] {
      assert gap + rest == rest;
    } else {
      HasLetterTail(gap);
      assert (gap + rest)[1..] == gap[1..] + rest;
      HasLetterTail(gap + rest);
      GapSkipped(gap[1..], rest);
    }
  }

  lemma {:induction false} WordWritten(word: seq<Byte>, rest: seq<Byte>)
    requires forall i :: 0 <= i < |word| ==> IsAsciiAlphanumeric(word[i])
    ensures Inside(word + rest) == Lowered(word) + Inside(rest)
    decreases |word|
  {
    if word == [] {
      assert word + rest == rest && Lowered(word) == "";
    } else {
      var tail, c := word[1..], ToAsciiLowercase(word[0]);
      WordWritten(tail, rest);
      InsideOfLetter(word, rest);
      assert Lowered(word) == [c] + Lowered(tail);
      Associative([c], Lowered(tail), Inside(rest));
    }
  }

  lemma InsideOfLetter(word: seq<Byte>, rest: seq<Byte>)
    requires word != [] && IsAsciiAlphanumeric(word[0])
    ensures Inside(word + rest) == [ToAsciiLowercase(word[0])] + Inside(word[1..] + rest)
  {
    assert (word + rest)[0] == word[0] && (word + rest)[1..] == word[1..] + rest;
  }

  lemma Associative(a: string, b: string, c: string)
    ensures (a + b) + c == a + (b + c)
  {
  }

  lemma WordStarts(word: seq<Byte>, rest: seq<Byte>)
    requires IsWord(word)
    ensures HasLetter(word + rest) && Words(word + rest) == Lowered(word) + Inside(rest)
  {
    assert IsAsciiAlphanumeric((word + rest)[0]);
    WordWritten(word, rest);
    assert Words(word + rest) == Inside(word + rest);
  }

  /** A gap before the first word leaves no trace. */
  lemma LeadingGap(gap: seq<Byte>, rest: seq<Byte>)
    requires !HasLetter(gap)
    ensures Sanitized(gap + rest) == Sanitized(rest)
  {
    GapSkipped(gap, rest);
  }

  /** Nor does one after the last, which is written in lower case. */
  lemma TrailingGap(word: seq<Byte>, gap: seq<Byte>)
    requires IsWord(word) && !HasLetter(gap)
    ensures Sanitized(word + gap) == Lowered(word)
  {
    WordStarts(word, gap);
  }

  /**
   * A gap between two words becomes one separator: its first byte if that is '-' or '_', and '-'
   * otherwise. With the two lemmas above this determines every sanitized text.
   */
  lemma GapBetweenWords(word: seq<Byte>, gap: seq<Byte>, rest: seq<Byte>)
    requires IsWord(word) && gap != [] && !HasLetter(gap) && HasLetter(rest)
    ensures Sanitized(word + gap + rest)
         == Lowered(word) + [if gap[0] == '_' then '_' else '-'] + Sanitized(rest)
  {
    assert word + gap + rest == word + (gap + rest);
    WordStarts(word, gap + rest);
    GapSkipped(gap, rest);
    assert (gap + rest)[0] == gap[0] && !IsAsciiAlphanumeric(gap[0]);
    assert (gap + rest)[1..] == gap[1..] + rest;
    HasLetterTail(gap);
    GapSkipped(gap[1..], rest);
  }

  // ---- key names ----

  function Joined(parts: seq<seq<Byte>>): string
    requires parts != []
  {
    if |parts| == 1 then Sanitized(parts[0]) else Sanitized(parts[0]) + "-" + Joined(parts[1..])
  }

  /** The first 16 hex digits of the hash of the IPNS id. */
  predicate IsShortHash(hash: string) {
    |hash| == 16 && forall i :: 0 <= i < |hash| ==> '0' <= hash[i] <= '9' || 'a' <= hash[i] <= 'f'
  }

  function KeyName(parts: seq<seq<Byte>>, hash: string): string {
    "ma-" + (if parts == [] then "unknown" else Joined(parts)) + "-" + hash
  }

  lemma {:induction false} JoinedWellFormed(parts: seq<seq<Byte>>)
    requires parts != []
    ensures WellFormed(Joined(parts))
    decreases |parts|
  {
    SanitizedWellFormed(parts[0]);
    if |parts| > 1 {
      JoinedWellFormed(parts[1..]);
      JoinedNames(Sanitized(parts[0]), "-", Joined(parts[1..]));
    }
  }

  /**
   * A key name is itself a well-formed name, is never an in-flight pin name nor turns into one, and
   * never names two different short hashes.
   */
  lemma KeyNameIsSafe(parts: seq<seq<Byte>>, hash: string, others: seq<seq<Byte>>, other: string)
    requires IsShortHash(hash) && IsShortHash(other)
    ensures WellFormed(KeyName(parts, hash))
    ensures KeyName(parts, hash) != Kubo.InFlightName(KeyName(others, other))
    ensures KeyName(parts, hash) == KeyName(others, other) ==> hash == other
  {
    KeyNameWellFormed(parts, hash);
    var a, b := KeyName(parts, hash), KeyName(others, other);
    assert a[|a| - 16..] == hash && b[|b| - 16..] == other;
    var t := Kubo.InFlightName(b);
    assert t[|t| - 4] == '~';
  }

  /** The letters of the parts of a name, one after another; a part without any counts as "unknown". */
  function LettersOfParts(parts: seq<seq<Byte>>): string {
    if parts == [] then ""
    else (if HasLetter(parts[0]) then Letters(parts[0]) else "unknown") + LettersOfParts(parts[1..])
  }

  lemma {:induction false} LettersJoin(a: string, b: string)
    ensures Letters(a + b) == Letters(a) + Letters(b)
  {
    if a == "" {
      assert a + b == b;
    } else {
      LettersJoin(a[1..], b);
      LettersStep(a, b);
      Associative(LettersHead(a[0]), Letters(a[1..]), Letters(b));
    }
  }

  function LettersHead(c: char): string {
    if IsAsciiAlphanumeric(c) then [ToAsciiLowercase(c)] else ""
  }

  lemma LettersStep(a: string, b: string)
    requires a != ""
    ensures Letters(a) == LettersHead(a[0]) + Letters(a[1..])
    ensures Letters(a + b) == LettersHead(a[0]) + Letters(a[1..] + b)
  {
    assert (a + b)[0] == a[0] && (a + b)[1..] == a[1..] + b;
  }

  lemma LettersOfPart(part: seq<Byte>)
    ensures Letters(Sanitized(part)) == if HasLetter(part) then Letters(part) else "unknown"
  {
    LettersKept(part);
    PlainWords();
  }

  /** Lower-case letters and digits are all kept. */
  lemma {:induction false} PlainLetters(text: string)
    requires forall i :: 0 <= i < |text| ==> '0' <= text[i] <= '9' || 'a' <= text[i] <= 'z'
    ensures Letters(text) == text
  {
    if text != "" {
      PlainLetters(text[1..]);
    }
  }

  lemma {:induction false} LettersOfJoined(parts: seq<seq<Byte>>)
    requires parts != []
    ensures Letters(Joined(parts)) == LettersOfParts(parts)
    decreases |parts|
  {
    LettersOfPart(parts[0]);
    if |parts| > 1 {
      LettersOfJoined(parts[1..]);
      LettersAcross(Sanitized(parts[0]), Joined(parts[1..]));
    } else {
      assert LettersOfParts(parts[1..]) == "";
    }
  }

  lemma LettersAcross(a: string, b: string)
    ensures Letters(a + "-" + b) == Letters(a) + Letters(b)
  {
    LettersJoin(a, "-");
    LettersJoin(a + "-", b);
    assert Letters("-") == "";
  }

  lemma ThreeSpell(a: string, b: string, c: string)
    ensures Letters(a + "-" + b + "-" + c) == Letters(a) + Letters(b) + Letters(c)
  {
    LettersAcross(a, b);
    LettersAcross(a + "-" + b, c);
  }

  lemma PlainWords()
    ensures Letters("ma") == "ma" && Letters("unknown") == "unknown"
  {
    PlainLetters("ma");
    var u := "unknown";
    assert forall i :: 0 <= i < |u| ==> 'a' <= u[i] <= 'z';
    PlainLetters(u);
  }

  /** A key name spells "ma", the letters of its parts, and the short hash. */
  lemma KeyNameSpells(parts: seq<seq<Byte>>, hash: string)
    requires IsShortHash(hash)
    ensures Letters(KeyName(parts, hash)) == "ma" + (if parts == [] then "unknown" else LettersOfParts(parts)) + hash
  {
    var middle := if parts == [] then "unknown" else Joined(parts);
    PrefixJoins(middle);
    ThreeSpell("ma", middle, hash);
    PlainWords();
    PlainLetters(hash);
    if parts != [] {
      LettersOfJoined(parts);
    }
  }

  lemma KeyNameWellFormed(parts: seq<seq<Byte>>, hash: string)
    requires IsShortHash(hash)
    ensures WellFormed(KeyName(parts, hash))
  {
    var middle := if parts == [] then "unknown" else Joined(parts);
    if parts != [] {
      JoinedWellFormed(parts);
    }
    LiteralNames();
    HashWellFormed(hash);
    JoinedNames("ma", "-", middle);
    JoinedNames("ma" + "-" + middle, "-", hash);
    PrefixJoins(middle);
  }

  lemma LiteralNames()
    ensures WellFormed("ma") && WellFormed("unknown")
  {
  }

  lemma HashWellFormed(hash: string)
    requires IsShortHash(hash)
    ensures WellFormed(hash)
  {
  }

  lemma PrefixJoins(middle: string)
    ensures "ma-" + middle == "ma" + "-" + middle
  {
  }

  ghost predicate IsKeyName(name: string) {
    exists parts, hash :: IsShortHash(hash) && name == KeyName(parts, hash)
  }

  /** Publishers that pin under key names are a world the protocol is safe in. */
  lemma KeyNamesAreManageable(w: PublishSystem.World)
    requires forall n :: w.named(n) ==> IsKeyName(n)
    requires forall n :: w.guarded(n) ==> w.named(n)
    ensures PublishSystem.WellFormed(w)
  {
    forall n, m | w.named(n) && w.named(m)
      ensures Kubo.InFlightName(n) != m
    {
      var ps, h :| IsShortHash(h) && n == KeyName(ps, h);
      var qs, g :| IsShortHash(g) && m == KeyName(qs, g);
      KeyNameIsSafe(qs, g, ps, h);
    }
  }
}
