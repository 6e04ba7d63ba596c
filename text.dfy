/** The JavaScript string operations the services rely on: `toLowerCase`,
    `split`, `trim`, `includes` and `indexOf`. */
module Text {
  import opened Wrappers

  /** `toLowerCase` on one character: ASCII and Latin-1 capitals. */
  function LowerChar(c: char): char
  {
    if 'A' <= c <= 'Z' then (c as int + 32) as char
    else if '\U{C0}' <= c <= '\U{DE}' && c != '\U{D7}' then (c as int + 32) as char
    else c
  }

  /** `s.toLowerCase()`. */
  function Lower(s: string): (r: string)
    ensures |r| == |s|
  {
    if s == [] then [] else [LowerChar(s[0])] + Lower(s[1..])
  }

  /** Lowering works character by character. */
  lemma {:induction false} LowerAt(s: string, k: nat)
    requires k < |s|
    ensures Lower(s)[k] == LowerChar(s[k])
  {
    if k > 0 {
      LowerAt(s[1..], k - 1);
    }
  }

  /** The case-insensitive equality `a.toLowerCase() === b.toLowerCase()`. */
  predicate SameIgnoringCase(a: string, b: string)
  {
    Lower(a) == Lower(b)
  }

  /** The characters `.` refuses to match in a regular expression. */
  predicate IsLineTerminator(c: char)
  {
    c == '\n' || c == '\r' || c == '\U{2028}' || c == '\U{2029}'
  }

  /** The characters `String.prototype.trim` removes. */
  predicate IsWhitespace(c: char)
  {
    c == '\t' || c == '\n' || c == '\U{B}' || c == '\U{C}' || c == '\r' || c == ' ' ||
    c == '\U{A0}' || c == '\U{1680}' || ('\U{2000}' <= c <= '\U{200A}') ||
    c == '\U{2028}' || c == '\U{2029}' || c == '\U{202F}' || c == '\U{205F}' ||
    c == '\U{3000}' || c == '\U{FEFF}'
  }

  function TrimStart(s: string): string
  {
    if s != [] && IsWhitespace(s[0]) then TrimStart(s[1..]) else s
  }

  function TrimEnd(s: string): string
  {
    if s != [] && IsWhitespace(s[|s| - 1]) then TrimEnd(s[..|s| - 1]) else s
  }

  /** `s.trim()`. */
  function Trim(s: string): string
  {
    TrimStart(TrimEnd(s))
  }

  /** The index of the first `c` in `s`, if any. */
  function IndexOfChar(s: string, c: char): (r: Option<nat>)
    ensures r.Some? ==> r.value < |s| && s[r.value] == c && c !in s[..r.value]
    ensures r.None? ==> c !in s
  {
    if s == [] then None
    else if s[0] == c then Some(0)
    else match IndexOfChar(s[1..], c)
      case None => None
      case Some(k) => assert s[..k + 1] == [s[0]] + s[1..][..k]; Some(k + 1)
  }

  /** The first `c` in a text whose prefix has none is the one after the prefix. */
  lemma {:induction false} IndexOfCharAfter(a: string, c: char, b: string)
    requires c !in a
    ensures IndexOfChar(a + [c] + b, c) == Some(|a|)
  {
    if a != [] {
      assert (a + [c] + b)[1..] == a[1..] + [c] + b;
      IndexOfCharAfter(a[1..], c, b);
    }
  }

  /** `s.split(sep)` for a one-character separator: the pieces between the
      separators, empty pieces included, so there is always at least one. */
  function Split(s: string, sep: char): (parts: seq<string>)
    ensures |parts| >= 1
    ensures parts[0] == (match IndexOfChar(s, sep) case Some(i) => s[..i] case None => s)
    decreases |s|
  {
    match IndexOfChar(s, sep)
    case None => [s]
    case Some(i) => [s[..i]] + Split(s[i + 1..], sep)
  }

  /** `sub` occurs in `s` starting at index `i`. */
  predicate OccursAt(s: string, sub: string, i: nat)
  {
    i + |sub| <= |s| && s[i..i + |sub|] == sub
  }

  lemma SliceOfTail(s: string, i: nat, len: nat)
    requires 1 + i + len <= |s|
    ensures s[1..][i..i + len] == s[i + 1..i + 1 + len]
  {
    var a, b := s[1..][i..i + len], s[i + 1..i + 1 + len];
    forall k | 0 <= k < len ensures a[k] == b[k] {
    }
  }

  /** `s.includes(sub)`. */
  function Includes(s: string, sub: string): (b: bool)
    ensures b <==> exists i: nat :: OccursAt(s, sub, i)
    decreases |s|
  {
    if |sub| > |s| then
      assert forall i: nat :: !OccursAt(s, sub, i);
      false
    else if s[..|sub|] == sub then
      assert OccursAt(s, sub, 0);
      true
    else
      var rest := Includes(s[1..], sub);
      assert forall i: nat :: OccursAt(s, sub, i + 1) <==> OccursAt(s[1..], sub, i) by {
        forall i: nat ensures OccursAt(s, sub, i + 1) <==> OccursAt(s[1..], sub, i) {
          if i + 1 + |sub| <= |s| {
            SliceOfTail(s, i, |sub|);
          }
        }
      }
      assert !OccursAt(s, sub, 0);
      if rest then
        var i: nat :| OccursAt(s[1..], sub, i);
        assert OccursAt(s, sub, i + 1);
        true
      else
        assert forall i: nat :: !OccursAt(s, sub, i) by {
          forall i: nat ensures !OccursAt(s, sub, i) {
            if i > 0 { assert !OccursAt(s[1..], sub, i - 1); }
          }
        }
        false
  }

  /** `words.indexOf(w)`: the first index of `w`, or -1. */
  function IndexOf(words: seq<string>, w: string): (r: int)
    ensures -1 <= r < |words|
    ensures r == -1 <==> w !in words
    ensures r >= 0 ==> words[r] == w && w !in words[..r]
  {
    if words == [] then -1
    else if words[0] == w then 0
    else
      var k := IndexOf(words[1..], w);
      if k == -1 then -1
      else assert words[..k + 1] == [words[0]] + words[1..][..k]; k + 1
  }

  /** `indexOf` finds no later occurrence than any given one. */
  lemma {:induction false} IndexOfAtMost(words: seq<string>, w: string, i: int)
    requires 0 <= i < |words| && words[i] == w
    ensures 0 <= IndexOf(words, w) <= i
  {
    if words[0] != w {
      IndexOfAtMost(words[1..], w, i - 1);
    }
  }
}
