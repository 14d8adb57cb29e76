/** The whitespace normalisation of `extractText`: every run of whitespace
    becomes one space (`replace(/\s+/g, ' ')`), then the ends are trimmed.
    Its reference meaning is the page's words joined by single spaces. */
module Text {
  import opened Strings

  /** A non-empty run of characters none of which is whitespace. */
  predicate IsWord(w: string) {
    |w| > 0 && forall i | 0 <= i < |w| :: !IsSpace(w[i])
  }

  predicate AllWords(ws: seq<string>) {
    forall k | 0 <= k < |ws| :: IsWord(ws[k])
  }

  /** The length of the leading run of non-whitespace characters. */
  function WordLen(s: string): (n: nat)
    ensures n <= |s|
    ensures forall i | 0 <= i < n :: !IsSpace(s[i])
    ensures n == |s| || IsSpace(s[n])
  {
    if |s| == 0 || IsSpace(s[0]) then 0 else 1 + WordLen(s[1..])
  }

  /** The maximal whitespace-free runs of `s`, in order. */
  function Words(s: string): (ws: seq<string>)
    ensures AllWords(ws)
    decreases |s|
  {
    if |s| == 0 then []
    else if IsSpace(s[0]) then Words(s[1..])
    else
      var n := WordLen(s);
      [s[..n]] + Words(s[n..])
  }

  /** `s.replace(/\s+/g, ' ')`: each maximal run of whitespace becomes a
      single space. */
  function Collapse(s: string): string
    decreases |s|
  {
    if |s| == 0 then ""
    else if IsSpace(s[0]) then " " + Collapse(TrimStart(s[1..]))
    else [s[0]] + Collapse(s[1..])
  }

  /** Text in normal form: trimmed, and its only whitespace is single
      spaces between words. */
  predicate Normalized(s: string) {
    Trimmed(s) &&
    (forall i | 0 <= i < |s| && IsSpace(s[i]) :: s[i] == ' ') &&
    (forall i, j | 0 <= i < |s| && 0 <= j < |s| && j == i + 1 :: !IsSpace(s[i]) || !IsSpace(s[j]))
  }

  /** `text.replace(/\s+/g, ' ').trim()`: the normal form of `s`, made of
      exactly the words of `s`. */
  function NormalizeText(s: string): (r: string)
    ensures r == JoinWith(Words(s), ' ')
    ensures Normalized(r)
  {
    NormalizeIsJoinOfWords(s);
    JoinWordsNormalized(Words(s));
    Trim(Collapse(s))
  }

  predicate EndsInSpace(s: string) {
    |s| > 0 && IsSpace(s[|s| - 1])
  }

  /** The space a trailing run of whitespace leaves after the replacement. */
  function Trailing(s: string): string {
    if EndsInSpace(s) then " " else ""
  }

  /** Normalising twice is normalising once. */
  lemma NormalizeIdempotent(s: string)
    ensures NormalizeText(NormalizeText(s)) == NormalizeText(s)
  {
    WordsOfJoin(Words(s));
  }

  /** The words survive normalisation unchanged and in order. */
  lemma NormalizeKeepsWords(s: string)
    ensures Words(NormalizeText(s)) == Words(s)
  {
    WordsOfJoin(Words(s));
  }

  /** Replace-then-trim agrees with the words joined by single spaces. */
  lemma NormalizeIsJoinOfWords(s: string)
    ensures Trim(Collapse(s)) == JoinWith(Words(s), ' ')
  {
    if |s| > 0 && IsSpace(s[0]) {
      LeadingGapTrimmed(s);
    } else {
      WordFirstTrimmed(s);
    }
  }

  /** A string that starts with a word loses only its trailing space to
      the trim. */
  lemma WordFirstTrimmed(s: string)
    requires |s| == 0 || !IsSpace(s[0])
    ensures Trim(Collapse(s)) == JoinWith(Words(s), ' ')
  {
    JoinWordsNormalized(Words(s));
    CollapseWords(s);
    TrimOfTail(JoinWith(Words(s), ' '), Trailing(s));
  }

  lemma TrimOfTail(j: string, e: string)
    requires Trimmed(j) && (e == "" || e == " ")
    ensures Trim(j + e) == j
  {
    assert "" + j + e == j + e;
    TrimAround("", j, e);
  }

  /** Leading whitespace collapses to one space, which the trim removes. */
  lemma LeadingGapTrimmed(s: string)
    requires |s| > 0 && IsSpace(s[0])
    ensures Trim(Collapse(s)) == JoinWith(Words(s), ' ')
  {
    var t := TrimStart(s[1..]);
    CollapseAfterGap(s);
    TrimOfGap(JoinWith(Words(s), ' '), Trailing(t));
  }

  /** After leading whitespace, the replacement yields one space, the
      words joined by spaces, and the trailing space if any. */
  lemma CollapseAfterGap(s: string)
    requires |s| > 0 && IsSpace(s[0])
    ensures var j := JoinWith(Words(s), ' ');
      Trimmed(j) && Collapse(s) == " " + (j + Trailing(TrimStart(s[1..])))
  {
    var t := TrimStart(s[1..]);
    LeadingGap(s);
    assert |t| == 0 || !IsSpace(t[0]);
    CollapseWords(t);
    JoinWordsNormalized(Words(t));
  }

  /** Leading whitespace becomes one space and hides no word. */
  lemma LeadingGap(s: string)
    requires |s| > 0 && IsSpace(s[0])
    ensures Collapse(s) == " " + Collapse(TrimStart(s[1..]))
    ensures Words(s) == Words(TrimStart(s[1..]))
  {
    WordsSkipSpace(s[1..]);
  }

  lemma TrimOfGap(j: string, e: string)
    requires Trimmed(j) && (e == "" || e == " ")
    ensures Trim(" " + (j + e)) == j
  {
    Assoc(" ", j, e);
    TrimAround(" ", j, e);
  }

  /** Replacing the runs of a string that starts with a word gives its
      words joined by spaces, plus one space when it ends in whitespace. */
  lemma {:induction false} CollapseWords(s: string)
    requires |s| == 0 || !IsSpace(s[0])
    ensures Collapse(s) == JoinWith(Words(s), ' ') + Trailing(s)
    decreases |s|
  {
    if |s| > 0 {
      var n := WordLen(s);
      var w, rest := s[..n], s[n..];
      assert s == w + rest;
      CollapseWord(w, rest);
      WordsOfWord(w, rest);
      if |rest| == 0 {
        LoneWord(s, w);
      } else {
        var t := TrimStart(rest[1..]);
        WordsSkipSpace(rest[1..]);
        CollapseWords(t);
        CollapseGap(s, w, rest, t);
      }
    }
  }

  /** A string that is one word collapses to itself. */
  lemma LoneWord(s: string, w: string)
    requires s == w + "" && IsWord(w)
    requires Collapse(s) == w + Collapse("") && Words(s) == [w] + Words("")
    ensures Collapse(s) == JoinWith(Words(s), ' ') + Trailing(s)
  {
    assert s[|s| - 1] == w[|w| - 1];
  }

  /** The step of `CollapseWords` past a word and the whitespace after it. */
  lemma CollapseGap(s: string, w: string, rest: string, t: string)
    requires s == w + rest && IsWord(w) && |rest| > 0 && IsSpace(rest[0])
    requires t == TrimStart(rest[1..])
    requires Collapse(s) == w + Collapse(rest) && Words(s) == [w] + Words(rest)
    requires Words(rest[1..]) == Words(t)
    requires Collapse(t) == JoinWith(Words(t), ' ') + Trailing(t)
    ensures Collapse(s) == JoinWith(Words(s), ' ') + Trailing(s)
  {
    var jt, tr := JoinWith(Words(t), ' '), Trailing(t);
    assert Collapse(rest) == " " + Collapse(t);
    assert Collapse(s) == w + (" " + (jt + tr));
    assert Words(s) == [w] + Words(t) by {
      assert Words(rest) == Words(rest[1..]);
    }
    TrailingAfterGap(s, w, rest, t);
    if |t| == 0 {
      assert Words(t) == [] && jt == "" && tr == "";
      assert JoinWith([w], ' ') == w;
      assert Collapse(s) == w + " ";
    } else {
      WordsOfNonEmpty(t);
      JoinCons(w, Words(t));
      Regroup(w, jt, tr);
    }
  }

  lemma Assoc(a: string, b: string, c: string)
    ensures a + (b + c) == a + b + c
  {
  }

  lemma Regroup(w: string, j: string, e: string)
    ensures w + (" " + (j + e)) == (w + [' '] + j) + e
  {
  }

  /** Whether the text ends in whitespace is decided by what follows the
      first gap. */
  lemma TrailingAfterGap(s: string, w: string, rest: string, t: string)
    requires s == w + rest && |rest| > 0 && IsSpace(rest[0])
    requires t == TrimStart(rest[1..])
    ensures |t| == 0 ==> Trailing(s) == " "
    ensures |t| > 0 ==> Trailing(s) == Trailing(t)
  {
    assert s[|s| - 1] == rest[|rest| - 1];
    if |rest| > 1 {
      assert rest[|rest| - 1] == rest[1..][|rest| - 2];
      if |t| == 0 {
        assert AllSpace(rest[1..][..|rest| - 1]);
        assert rest[1..][..|rest| - 1] == rest[1..];
      } else {
        assert t[|t| - 1] == rest[1..][|rest| - 2];
      }
    }
  }

  lemma WordsOfNonEmpty(t: string)
    requires |t| > 0 && !IsSpace(t[0])
    ensures |Words(t)| > 0
  {
  }

  lemma JoinCons(w: string, ws: seq<string>)
    requires |ws| > 0
    ensures JoinWith([w] + ws, ' ') == w + [' '] + JoinWith(ws, ' ')
  {
    assert ([w] + ws)[1..] == ws;
  }

  /** A word passes through the replacement unchanged. */
  lemma {:induction false} CollapseWord(w: string, x: string)
    requires forall i | 0 <= i < |w| :: !IsSpace(w[i])
    ensures Collapse(w + x) == w + Collapse(x)
    decreases |w|
  {
    if |w| == 0 {
      assert w + x == x;
    } else {
      assert (w + x)[0] == w[0];
      assert (w + x)[1..] == w[1..] + x;
      CollapseWord(w[1..], x);
      assert w == [w[0]] + w[1..];
    }
  }

  /** Leading whitespace does not change the words. */
  lemma {:induction false} WordsSkipSpace(s: string)
    ensures Words(s) == Words(TrimStart(s))
    decreases |s|
  {
    if |s| > 0 && IsSpace(s[0]) {
      WordsSkipSpace(s[1..]);
    }
  }

  /** Trimming removes exactly the whitespace around a trimmed core. */
  lemma TrimAround(p: string, j: string, q: string)
    requires AllSpace(p) && AllSpace(q) && Trimmed(j)
    ensures Trim(p + j + q) == j
  {
    if |j| == 0 {
      assert p + j + q == p + q;
      TrimStartSpaces(p + q, "");
      assert p + q + "" == p + q;
    } else {
      assert p + j + q == p + (j + q);
      TrimStartSpaces(p, j + q);
      TrimEndSpaces(j, q);
    }
  }

  lemma {:induction false} TrimStartSpaces(p: string, x: string)
    requires AllSpace(p) && (|x| == 0 || !IsSpace(x[0]))
    ensures TrimStart(p + x) == x
    decreases |p|
  {
    if |p| == 0 {
      assert p + x == x;
    } else {
      assert (p + x)[0] == p[0];
      assert (p + x)[1..] == p[1..] + x;
      TrimStartSpaces(p[1..], x);
    }
  }

  lemma {:induction false} TrimEndSpaces(x: string, q: string)
    requires AllSpace(q) && (|x| == 0 || !IsSpace(x[|x| - 1]))
    ensures TrimEnd(x + q) == x
    decreases |q|
  {
    if |q| == 0 {
      assert x + q == x;
    } else {
      assert (x + q)[|x + q| - 1] == q[|q| - 1];
      assert (x + q)[..|x + q| - 1] == x + q[..|q| - 1];
      TrimEndSpaces(x, q[..|q| - 1]);
    }
  }

  /** Words joined by single spaces are in normal form. */
  lemma {:induction false} JoinWordsNormalized(ws: seq<string>)
    requires AllWords(ws)
    ensures Normalized(JoinWith(ws, ' '))
    ensures |ws| > 0 ==> !IsSpace(JoinWith(ws, ' ')[0])
    decreases |ws|
  {
    if |ws| > 1 {
      JoinWordsNormalized(ws[1..]);
      var w, j := ws[0], JoinWith(ws[1..], ' ');
      var s := JoinWith(ws, ' ');
      assert s == w + [' '] + j;
      assert IsWord(w) && |j| > 0;
      forall i | 0 <= i < |s| && IsSpace(s[i]) ensures s[i] == ' ' {
        if i > |w| {
          assert s[i] == j[i - |w| - 1];
        }
      }
      forall i, k | 0 <= i < k < |s| && k == i + 1 ensures !IsSpace(s[i]) || !IsSpace(s[k]) {
        if i > |w| {
          assert s[i] == j[i - |w| - 1] && s[k] == j[k - |w| - 1];
        } else if i == |w| {
          assert s[k] == j[0];
        } else if k < |w| {
          assert s[i] == w[i] && s[k] == w[k];
        } else {
          assert s[i] == w[i];
        }
      }
    }
  }

  /** The round trip: the words of words joined by spaces are those words. */
  lemma {:induction false} WordsOfJoin(ws: seq<string>)
    requires AllWords(ws)
    ensures Words(JoinWith(ws, ' ')) == ws
    decreases |ws|
  {
    if |ws| == 1 {
      WordsOfWord(ws[0], "");
      assert ws[0] + "" == ws[0];
    } else if |ws| > 1 {
      var w, j := ws[0], JoinWith(ws[1..], ' ');
      assert JoinWith(ws, ' ') == w + (" " + j);
      WordsOfWord(w, " " + j);
      assert Words(" " + j) == Words(j) by { assert (" " + j)[1..] == j; }
      WordsOfJoin(ws[1..]);
    }
  }

  /** A word followed by nothing or by whitespace is the first word. */
  lemma WordsOfWord(w: string, x: string)
    requires IsWord(w) && (|x| == 0 || IsSpace(x[0]))
    ensures Words(w + x) == [w] + Words(x)
  {
    var s := w + x;
    WordLenOfWord(w, x);
    assert s[..|w|] == w && s[|w|..] == x;
  }

  lemma {:induction false} WordLenOfWord(w: string, x: string)
    requires forall i | 0 <= i < |w| :: !IsSpace(w[i])
    requires |x| == 0 || IsSpace(x[0])
    ensures WordLen(w + x) == |w|
    decreases |w|
  {
    if |w| == 0 {
      assert w + x == x;
    } else {
      assert (w + x)[0] == w[0];
      assert (w + x)[1..] == w[1..] + x;
      WordLenOfWord(w[1..], x);
    }
  }
}
