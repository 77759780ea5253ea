/**
 * The string operations the matcher relies on: `str.lower`, `str.strip`, substring
 * search, and the whole-word regular expression `\bst\b` with its substitution.
 * Case mapping covers ASCII letters only, whitespace is ASCII whitespace, and a
 * regular-expression word character is an ASCII letter, digit or underscore.
 */
module Text {

  predicate IsUpperChar(c: char) {
    'A' <= c <= 'Z'
  }

  function LowerChar(c: char): char {
    if IsUpperChar(c) then (c as int + 32) as char else c
  }

  /** `s.lower()` */
  function Lower(s: string): (r: string)
    ensures |r| == |s|
    ensures forall i :: 0 <= i < |s| ==> r[i] == LowerChar(s[i])
  {
    seq(|s|, i requires 0 <= i < |s| => LowerChar(s[i]))
  }

  /** No upper-case letter occurs in `s`. */
  predicate IsLower(s: string) {
    forall i :: 0 <= i < |s| ==> !IsUpperChar(s[i])
  }

  lemma LowerIsLower(s: string)
    ensures IsLower(Lower(s))
  {
  }

  lemma LowerOfLower(s: string)
    requires IsLower(s)
    ensures Lower(s) == s
  {
  }

  lemma LowerIdempotent(s: string)
    ensures Lower(Lower(s)) == Lower(s)
  {
    LowerIsLower(s);
    LowerOfLower(Lower(s));
  }

  /** `str.isspace` on one character: the ASCII whitespace and separators and the Unicode spaces. */
  predicate IsSpace(c: char) {
    var n := c as int;
    (9 <= n <= 13) || (28 <= n <= 32) || n == 0x85 || n == 0xA0 || n == 0x1680
    || (0x2000 <= n <= 0x200A) || n == 0x2028 || n == 0x2029 || n == 0x202F || n == 0x205F || n == 0x3000
  }

  function StripLeft(s: string): (r: string)
    ensures |r| <= |s| && r == s[|s| - |r|..]
    ensures r == [] || !IsSpace(r[0])
    ensures forall i :: 0 <= i < |s| - |r| ==> IsSpace(s[i])
  {
    if s != [] && IsSpace(s[0]) then StripLeft(s[1..]) else s
  }

  function StripRight(s: string): (r: string)
    ensures |r| <= |s| && r == s[..|r|]
    ensures r == [] || !IsSpace(r[|r| - 1])
    ensures forall i :: |r| <= i < |s| ==> IsSpace(s[i])
  {
    if s != [] && IsSpace(s[|s| - 1]) then StripRight(s[..|s| - 1]) else s
  }

  /** `s.strip()`: the longest slice of `s` that neither starts nor ends with whitespace. */
  function Strip(s: string): (r: string)
    ensures r == [] || (!IsSpace(r[0]) && !IsSpace(r[|r| - 1]))
    ensures |r| <= |s|
  {
    StripRight(StripLeft(s))
  }

  /** What `strip` removes is whitespace only, from both ends: the result is the slice in between. */
  lemma StripIsTrimmedSlice(s: string)
    ensures exists i, j :: 0 <= i <= j <= |s| && Strip(s) == s[i..j]
                           && (forall k :: 0 <= k < i ==> IsSpace(s[k]))
                           && (forall k :: j <= k < |s| ==> IsSpace(s[k]))
  {
    var i, j := StripSpan(s);
  }

  lemma StripSpan(s: string) returns (i: nat, j: nat)
    ensures i <= j <= |s| && Strip(s) == s[i..j]
    ensures forall k :: 0 <= k < i ==> IsSpace(s[k])
    ensures forall k :: j <= k < |s| ==> IsSpace(s[k])
  {
    var l := StripLeft(s);
    i := |s| - |l|;
    j := i + |StripRight(l)|;
    forall k | j <= k < |s|
      ensures IsSpace(s[k])
    {
      assert s[k] == l[k - i];
    }
  }

  /** `sub in s` */
  predicate Contains(s: string, sub: string)
    decreases |s|
  {
    |sub| <= |s| && (s[..|sub|] == sub || (s != [] && Contains(s[1..], sub)))
  }

  predicate IsWordChar(c: char) {
    ('a' <= c <= 'z') || ('A' <= c <= 'Z') || ('0' <= c <= '9') || c == '_'
  }

  predicate IsWord(w: string) {
    |w| > 0 && forall i :: 0 <= i < |w| ==> IsWordChar(w[i])
  }

  /** The pattern `\b w \b` matches `s` at position `i`. */
  predicate WordAt(s: string, w: string, i: int) {
    0 <= i && i + |w| <= |s| && s[i..i + |w|] == w
    && (i == 0 || !IsWordChar(s[i - 1]))
    && (i + |w| == |s| || !IsWordChar(s[i + |w|]))
  }

  /** `re.search(r"\b" + w + r"\b", s)` found a match. */
  predicate HasWord(s: string, w: string) {
    exists i :: 0 <= i <= |s| && WordAt(s, w, i)
  }

  /** `re.sub(r"\b" + w + r"\b", repl, s)`: every match, left to right, is replaced. */
  function ReplaceWord(s: string, w: string, repl: string): string
    requires IsWord(w)
  {
    ReplaceWordFrom(s, w, repl, 0)
  }

  function ReplaceWordFrom(s: string, w: string, repl: string, i: nat): (r: string)
    requires IsWord(w)
    decreases |s| - i
  {
    if i >= |s| then []
    else if WordAt(s, w, i) then repl + ReplaceWordFrom(s, w, repl, i + |w|)
    else [s[i]] + ReplaceWordFrom(s, w, repl, i + 1)
  }

  /** Without a match the substitution returns the text unchanged. */
  lemma {:induction false} ReplaceWithoutMatch(s: string, w: string, repl: string, i: nat)
    requires IsWord(w) && i <= |s|
    requires forall j :: i <= j <= |s| ==> !WordAt(s, w, j)
    ensures ReplaceWordFrom(s, w, repl, i) == s[i..]
    decreases |s| - i
  {
    if i < |s| {
      ReplaceWithoutMatch(s, w, repl, i + 1);
    }
  }
}
