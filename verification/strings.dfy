/** The JavaScript string primitives the crawler relies on, over `seq<char>`:
    `trim`, `split` on one character, `join`, `startsWith`, `endsWith`,
    `includes`, ASCII `toLowerCase`, and decimal rendering of a number. */
module Strings {

  /** WhiteSpace and LineTerminator code points, the set that both
      `String.prototype.trim` and the regular-expression class `\s` remove. */
  predicate IsSpace(c: char) {
    || c == '\t' || c == '\n' || c == '\U{000B}' || c == '\U{000C}' || c == '\r'
    || c == ' ' || c == '\U{00A0}' || c == '\U{1680}'
    || ('\U{2000}' <= c <= '\U{200A}')
    || c == '\U{2028}' || c == '\U{2029}' || c == '\U{202F}' || c == '\U{205F}'
    || c == '\U{3000}' || c == '\U{FEFF}'
  }

  predicate AllSpace(s: string) {
    forall i | 0 <= i < |s| :: IsSpace(s[i])
  }

  /** No whitespace at either end. */
  predicate Trimmed(s: string) {
    |s| == 0 || (!IsSpace(s[0]) && !IsSpace(s[|s| - 1]))
  }

  function TrimStart(s: string): (r: string)
    ensures |r| <= |s|
    ensures r == s[|s| - |r|..]
    ensures AllSpace(s[..|s| - |r|])
    ensures |r| == 0 || !IsSpace(r[0])
  {
    if |s| > 0 && IsSpace(s[0]) then TrimStart(s[1..]) else s
  }

  function TrimEnd(s: string): (r: string)
    ensures |r| <= |s|
    ensures r == s[..|r|]
    ensures AllSpace(s[|r|..])
    ensures |r| == 0 || !IsSpace(r[|r| - 1])
  {
    if |s| > 0 && IsSpace(s[|s| - 1]) then TrimEnd(s[..|s| - 1]) else s
  }

  /** `s.trim()`: no whitespace at either end, and only whitespace removed
      (see `TrimRemovesOnlySpace`). */
  function Trim(s: string): (r: string)
    ensures Trimmed(r)
    ensures |r| <= |s|
  {
    TrimEnd(TrimStart(s))
  }

  /** Trimming introduces no character. */
  lemma TrimKeepsCharacters(s: string, c: char)
    requires c !in s
    ensures c !in Trim(s)
  {
    var a := TrimStart(s);
    SliceMembers(s, |s| - |a|, |s| - |a| + |Trim(s)|);
  }

  lemma SliceMembers(s: string, i: nat, j: nat)
    requires i <= j <= |s|
    ensures forall k | 0 <= k < j - i :: s[i..j][k] in s
  {
    forall k | 0 <= k < j - i
      ensures s[i..j][k] in s
    {
      assert s[i..j][k] == s[i + k];
    }
  }

  /** `r` sits in `s` at offset `i` with only whitespace around it. */
  predicate Framed(s: string, r: string, i: nat) {
    i + |r| <= |s| && r == s[i..i + |r|] && AllSpace(s[..i]) && AllSpace(s[i + |r|..])
  }

  /** `s.trim()` is what lies between a whitespace-only prefix and a
      whitespace-only suffix of `s`. */
  lemma TrimRemovesOnlySpace(s: string)
    ensures exists i: nat :: Framed(s, Trim(s), i)
  {
    TrimFramed(s);
  }

  /** The offset is the length of the whitespace `trimStart` removed. */
  lemma TrimFramed(s: string)
    ensures Framed(s, Trim(s), |s| - |TrimStart(s)|)
  {
    TrimEndWithin(s, |s| - |TrimStart(s)|, TrimStart(s));
  }

  /** Trimming the end of a suffix of `s` keeps a slice of `s` followed
      by whitespace only. */
  lemma TrimEndWithin(s: string, i: nat, a: string)
    requires i <= |s| && a == s[i..] && AllSpace(s[..i])
    ensures Framed(s, TrimEnd(a), i)
  {
    var r := TrimEnd(a);
    assert s[i + |r|..] == a[|r|..];
  }

  /** Trimming leaves nothing exactly when the string is all whitespace. */
  lemma TrimEmpty(s: string)
    ensures Trim(s) == "" <==> AllSpace(s)
  {
    var a := TrimStart(s);
    if Trim(s) == "" {
      TrimFramed(s);
      var i := |s| - |a|;
      forall k | 0 <= k < |s| ensures IsSpace(s[k]) {
        assert s[k] == s[..i][k];
      }
    }
  }

  /** Trimming a string with no whitespace at its ends leaves it unchanged. */
  lemma TrimOfTrimmed(s: string)
    requires Trimmed(s)
    ensures Trim(s) == s
  {
  }

  predicate StartsWith(s: string, p: string) {
    |p| <= |s| && s[..|p|] == p
  }

  predicate EndsWith(s: string, p: string) {
    |p| <= |s| && s[|s| - |p|..] == p
  }

  /** `s.includes(p)` */
  predicate Contains(s: string, p: string)
    decreases |s|
  {
    StartsWith(s, p) || (|s| > 0 && Contains(s[1..], p))
  }

  function LowerChar(c: char): char {
    if 'A' <= c <= 'Z' then (c as int + 32) as char else c
  }

  /** `s.toLowerCase()` restricted to ASCII letters. */
  function Lower(s: string): (r: string)
    ensures |r| == |s|
    ensures forall i | 0 <= i < |s| :: r[i] == LowerChar(s[i])
  {
    if |s| == 0 then [] else [LowerChar(s[0])] + Lower(s[1..])
  }

  /** `s.toLowerCase() === kw` for a lower-case `kw`. */
  predicate EqualsIgnoreCase(s: string, kw: string) {
    |s| == |kw| && forall i | 0 <= i < |kw| :: LowerChar(s[i]) == kw[i]
  }

  /** A character that lower-cases to a non-letter was that character. */
  lemma LowerKeepsNonLetter(s: string, i: nat)
    requires i < |s|
    requires !('a' <= Lower(s)[i] <= 'z')
    ensures s[i] == Lower(s)[i]
  {
  }

  /** Index of the first occurrence of `c`. */
  function IndexOf(s: string, c: char): (i: nat)
    requires c in s
    ensures i < |s| && s[i] == c
    ensures c !in s[..i]
  {
    if s[0] == c then 0 else 1 + IndexOf(s[1..], c)
  }

  /** `parts.join(c)` */
  function JoinWith(parts: seq<string>, c: char): string {
    if |parts| == 0 then ""
    else if |parts| == 1 then parts[0]
    else parts[0] + [c] + JoinWith(parts[1..], c)
  }

  /** `s.split(c)` for a one-character separator: the pieces between
      separators, never an empty list, and joining them back gives `s`. */
  function SplitOn(s: string, c: char): (parts: seq<string>)
    ensures |parts| >= 1
    ensures forall k | 0 <= k < |parts| :: c !in parts[k]
    ensures JoinWith(parts, c) == s
    decreases |s|
  {
    if c !in s then [s]
    else
      var i := IndexOf(s, c);
      var rest := SplitOn(s[i + 1..], c);
      assert JoinWith([s[..i]] + rest, c) == s[..i] + [c] + JoinWith(rest, c);
      assert s == s[..i] + [c] + s[i + 1..];
      [s[..i]] + rest
  }

  /** The other direction of the round trip: splitting a join of
      separator-free pieces gives the pieces back. */
  lemma {:induction false} SplitJoin(parts: seq<string>, c: char)
    requires |parts| >= 1
    requires forall k | 0 <= k < |parts| :: c !in parts[k]
    ensures SplitOn(JoinWith(parts, c), c) == parts
    decreases |parts|
  {
    if |parts| == 1 {
      assert c !in parts[0];
    } else {
      var s := JoinWith(parts, c);
      assert s == parts[0] + [c] + JoinWith(parts[1..], c);
      assert c !in parts[0];
      assert s[|parts[0]|] == c;
      assert IndexOf(s, c) == |parts[0]| by {
        IndexOfPrefix(parts[0], JoinWith(parts[1..], c), c);
      }
      assert s[|parts[0]| + 1..] == JoinWith(parts[1..], c);
      assert s[..|parts[0]|] == parts[0];
      SplitJoin(parts[1..], c);
    }
  }

  /** Appending a piece to a join appends the separator and the piece. */
  lemma {:induction false} JoinSnoc(parts: seq<string>, q: string, c: char)
    requires |parts| >= 1
    ensures JoinWith(parts + [q], c) == JoinWith(parts, c) + [c] + q
    decreases |parts|
  {
    if |parts| > 1 {
      assert (parts + [q])[1..] == parts[1..] + [q];
      JoinSnoc(parts[1..], q, c);
    }
  }

  lemma {:induction false} IndexOfPrefix(a: string, b: string, c: char)
    requires c !in a
    ensures c in a + [c] + b
    ensures IndexOf(a + [c] + b, c) == |a|
    decreases |a|
  {
    var s := a + [c] + b;
    assert s[|a|] == c;
    if |a| > 0 {
      assert s[1..] == a[1..] + [c] + b;
      IndexOfPrefix(a[1..], b, c);
    }
  }

  /** The first piece of a split ends at the first separator. */
  lemma FirstPiece(p: string, q: string, c: char)
    requires c !in p
    ensures SplitOn(p + [c] + q, c)[0] == p
  {
    IndexOfPrefix(p, q, c);
    assert (p + [c] + q)[..|p|] == p;
  }

  /** `s.split(c)[1]` is the text between the first and the second
      occurrence of `c` (or the end of `s`). */
  lemma SecondPieceBetweenSeparators(s: string, c: char)
    requires c in s
    ensures |SplitOn(s, c)| >= 2
    ensures SplitOn(s, c)[1] == SplitOn(s[IndexOf(s, c) + 1..], c)[0]
    ensures StartsWith(s[IndexOf(s, c) + 1..], SplitOn(s, c)[1])
  {
    var i := IndexOf(s, c);
    var rest := s[i + 1..];
    var p := SplitOn(rest, c);
    if c in rest {
      var j := IndexOf(rest, c);
      assert p[0] == rest[..j];
    }
  }

  /** `s.split(c).slice(1).join(c)` is everything after the first `c`. */
  lemma AfterFirstSeparator(s: string, c: char)
    requires c in s
    ensures JoinWith(SplitOn(s, c)[1..], c) == s[IndexOf(s, c) + 1..]
  {
    var i := IndexOf(s, c);
    assert SplitOn(s, c)[1..] == SplitOn(s[i + 1..], c);
  }

  function DigitChar(d: nat): char
    requires d < 10
  {
    "0123456789"[d]
  }

  /** Decimal rendering of a non-negative integer, as a template literal
      prints it. */
  function NatToString(n: nat): (r: string)
    ensures |r| >= 1
    ensures forall i | 0 <= i < |r| :: '0' <= r[i] <= '9'
    ensures |r| > 1 ==> r[0] != '0'
  {
    if n < 10 then [DigitChar(n)] else NatToString(n / 10) + [DigitChar(n % 10)]
  }
}
