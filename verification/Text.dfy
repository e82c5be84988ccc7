/** String helpers with the meaning they have in the Rust standard library. */
module Text {
  /** Unicode White_Space. */
  predicate IsSpace(c: char) {
    || '\t' <= c <= '\r' || c == ' ' || c == '\U{0085}' || c == '\U{00A0}' || c == '\U{1680}'
    || '\U{2000}' <= c <= '\U{200A}' || c == '\U{2028}' || c == '\U{2029}' || c == '\U{202F}'
    || c == '\U{205F}' || c == '\U{3000}'
  }

  function TrimStart(s: string): (t: string)
    ensures t == "" || !IsSpace(t[0])
    ensures |t| <= |s| && t == s[|s| - |t|..]
  {
    if s != "" && IsSpace(s[0]) then TrimStart(s[1..]) else s
  }

  function TrimEnd(s: string): (t: string)
    ensures t == "" || !IsSpace(t[|t| - 1])
    ensures t <= s
  {
    if s != "" && IsSpace(s[|s| - 1]) then TrimEnd(s[..|s| - 1]) else s
  }

  function Trim(s: string): (t: string)
    ensures t == "" || (!IsSpace(t[0]) && !IsSpace(t[|t| - 1]))
    ensures (s == "" || (!IsSpace(s[0]) && !IsSpace(s[|s| - 1]))) ==> t == s
  {
    TrimEnd(TrimStart(s))
  }

  /** Trimming never empties a text that starts with something else than space. */
  lemma {:induction false} TrimKeepsSome(s: string)
    requires s != "" && !IsSpace(s[0])
    ensures TrimEnd(s) != "" && Trim(s) != ""
  {
    assert TrimStart(s) == s;
    if IsSpace(s[|s| - 1]) {
      TrimKeepsSome(s[..|s| - 1]);
    }
  }

  predicate IsBlank(s: string) {
    forall i :: 0 <= i < |s| ==> IsSpace(s[i])
  }

  /** Trimming leaves nothing exactly of texts that are all space. */
  lemma {:induction false} TrimOfBlank(s: string)
    ensures Trim(s) == "" <==> IsBlank(s)
  {
    if IsBlank(s) {
      StartOfBlank(s);
    } else if s != "" && IsSpace(s[0]) {
      TrimOfBlank(s[1..]);
      assert !IsBlank(s[1..]) by {
        var i :| 0 <= i < |s| && !IsSpace(s[i]);
        assert s[1..][i - 1] == s[i];
      }
    } else {
      TrimKeepsSome(s);
    }
  }

  lemma {:induction false} StartOfBlank(s: string)
    requires IsBlank(s)
    ensures TrimStart(s) == ""
  {
    if s != "" {
      StartOfBlank(s[1..]);
    }
  }

  lemma {:induction false} StartTrimmed(pre: string, s: string)
    requires IsBlank(pre) && s != "" && !IsSpace(s[0])
    ensures TrimStart(pre + s) == s
  {
    if pre == "" {
      assert pre + s == s;
    } else {
      assert (pre + s)[1..] == pre[1..] + s;
      StartTrimmed(pre[1..], s);
    }
  }

  lemma {:induction false} EndTrimmed(s: string, post: string)
    requires IsBlank(post) && s != "" && !IsSpace(s[|s| - 1])
    ensures TrimEnd(s + post) == s
  {
    if post == "" {
      assert s + post == s;
    } else {
      assert (s + post)[..|s + post| - 1] == s + post[..|post| - 1];
      EndTrimmed(s, post[..|post| - 1]);
    }
  }

  /** Trimming takes away the space around a text, and nothing else. */
  lemma SpaceAround(pre: string, s: string, post: string)
    requires IsBlank(pre) && IsBlank(post) && s != "" && !IsSpace(s[0]) && !IsSpace(s[|s| - 1])
    ensures Trim(pre + s + post) == s
  {
    assert pre + s + post == pre + (s + post);
    StartTrimmed(pre, s + post);
    EndTrimmed(s, post);
  }

  predicate IsAsciiAlphanumeric(c: char) {
    '0' <= c <= '9' || 'a' <= c <= 'z' || 'A' <= c <= 'Z'
  }

  function ToAsciiLowercase(c: char): (l: char)
    ensures 'A' <= c <= 'Z' ==> 'a' <= l <= 'z'
    ensures !('A' <= c <= 'Z') ==> l == c
  {
    if 'A' <= c <= 'Z' then c - 'A' + 'a' else c
  }

  /** The letters, digits, '_' and '-' that message ids and fragments are made of. */
  predicate IsToken(s: string) {
    s != "" && forall i :: 0 <= i < |s| ==> IsAsciiAlphanumeric(s[i]) || s[i] == '_' || s[i] == '-'
  }

  /** The position of the first `c`, or the length. */
  function Find(s: string, c: char): (i: nat)
    ensures i <= |s|
    ensures forall j :: 0 <= j < i ==> s[j] != c
    ensures i < |s| ==> s[i] == c
    ensures i == |s| <==> c !in s
  {
    if s == "" || s[0] == c then 0 else 1 + Find(s[1..], c)
  }
}
