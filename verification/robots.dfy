/** The robots.txt reader of the crawler's `fetchRobotsTxt`: a left fold
    over the file's lines that tracks the current `User-agent`, collects
    `Disallow` values for `*` and for the crawler's own token, and collects
    `Sitemap` URLs under any agent. */
module Robots {
  import opened Fallible
  import opened Strings
  import opened Seqs

  /** The crawler's agent token, lower-cased. */
  const BotToken: string := "webscraperbot"

  /** Parser state: the current agent and what has been collected. */
  datatype Rules = Rules(agent: string, disallowed: seq<string>, sitemaps: seq<string>)

  /** Before the first line the current agent is `*`. */
  const Initial: Rules := Rules("*", [], [])

  /** A comment or blank line (after trimming). */
  predicate Skipped(t: string) {
    StartsWith(t, "#") || t == ""
  }

  /** `t.toLowerCase().startsWith(kw)` for a lower-case keyword `kw`
      (see `IsDirectiveIsLowerPrefix`). */
  predicate IsDirective(t: string, kw: string) {
    |kw| <= |t| && forall i | 0 <= i < |kw| :: LowerChar(t[i]) == kw[i]
  }

  lemma IsDirectiveIsLowerPrefix(t: string, kw: string)
    ensures IsDirective(t, kw) <==> StartsWith(Lower(t), kw)
  {
    if StartsWith(Lower(t), kw) {
      forall i | 0 <= i < |kw|
        ensures LowerChar(t[i]) == kw[i]
      {
        assert Lower(t)[..|kw|][i] == kw[i];
      }
    }
  }

  lemma DirectiveHasColon(t: string, kw: string)
    requires |kw| > 0 && kw[|kw| - 1] == ':'
    requires IsDirective(t, kw)
    ensures ':' in t
  {
    assert LowerChar(t[|kw| - 1]) == ':';
  }

  /** `t.split(':')[1].trim()`: only the text up to the SECOND colon. */
  function FieldValue(t: string): (v: string)
    requires ':' in t
    ensures ':' !in v
    ensures Trimmed(v)
  {
    SecondPieceBetweenSeparators(t, ':');
    var piece := SplitOn(t, ':')[1];
    TrimKeepsCharacters(piece, ':');
    Trim(piece)
  }

  /** `t.split(':').slice(1).join(':').trim()`: everything after the first colon. */
  function UrlValue(t: string): (v: string)
    requires ':' in t
    ensures v == Trim(t[IndexOf(t, ':') + 1..])
  {
    AfterFirstSeparator(t, ':');
    Trim(JoinWith(SplitOn(t, ':')[1..], ':'))
  }

  /** Agents whose `Disallow` lines the crawler obeys (case-insensitive). */
  predicate Governs(agent: string) {
    agent == "*" || EqualsIgnoreCase(agent, BotToken)
  }

  /** The `Disallow` value a trimmed line contributes under a governing agent. */
  function DisallowValue(t: string): (o: Option<string>)
    ensures o.Some? ==> o.value != "" && ':' !in o.value && Trimmed(o.value)
  {
    if IsDirective(t, "disallow:") then
      DirectiveHasColon(t, "disallow:");
      var v := FieldValue(t);
      if v != "" then Some(v) else None
    else None
  }

  /** The `Sitemap` URL a trimmed line contributes, whatever the agent. */
  function SitemapValue(t: string): (o: Option<string>)
    ensures o.Some? ==> o.value != "" && Trimmed(o.value)
  {
    if IsDirective(t, "sitemap:") then
      DirectiveHasColon(t, "sitemap:");
      var v := UrlValue(t);
      if v != "" then Some(v) else None
    else None
  }

  /** How the loop body reads one line. */
  datatype Directive =
    | Blank
    | UserAgent(agent: string)
    | Rule(disallow: Option<string>, sitemap: Option<string>)

  /** The branches of the loop body: comment and blank lines are skipped,
      a `User-agent` line yields only the new agent, and any other line may
      carry a `Disallow` value and a `Sitemap` value, each well formed. */
  function Classify(line: string): (d: Directive)
    ensures d.Blank? <==> Skipped(Trim(line))
    ensures DirectiveWellFormed(d)
  {
    var t := Trim(line);
    if Skipped(t) then Blank
    else if IsDirective(t, "user-agent:") then
      DirectiveHasColon(t, "user-agent:");
      UserAgent(FieldValue(t))
    else Rule(DisallowValue(t), SitemapValue(t))
  }

  /** A line whose first character lower-cases to something else than the
      keyword's first character is not that directive. */
  lemma FirstCharDecides(t: string, kw: string)
    requires |kw| > 0 && |t| > 0
    ensures IsDirective(t, kw) ==> LowerChar(t[0]) == kw[0]
  {
  }

  /** A line's values are what the collected lists accept. */
  predicate DirectiveWellFormed(d: Directive) {
    d.Rule? ==>
      && (d.disallow.Some? ==> d.disallow.value != "" && ':' !in d.disallow.value && Trimmed(d.disallow.value))
      && (d.sitemap.Some? ==> d.sitemap.value != "" && Trimmed(d.sitemap.value))
  }

  /** The loop body once the line has been read. */
  function Step(st: Rules, d: Directive): (r: Rules)
    ensures d.Blank? ==> r == st
    ensures !d.UserAgent? ==> r.agent == st.agent
    ensures d.UserAgent? ==> r.disallowed == st.disallowed && r.sitemaps == st.sitemaps
    ensures |st.disallowed| <= |r.disallowed| <= |st.disallowed| + 1 && r.disallowed[..|st.disallowed|] == st.disallowed
    ensures |st.sitemaps| <= |r.sitemaps| <= |st.sitemaps| + 1 && r.sitemaps[..|st.sitemaps|] == st.sitemaps
  {
    match d
    case Blank => st
    case UserAgent(a) => st.(agent := a)
    case Rule(path, url) =>
      st.(disallowed := st.disallowed + (if Governs(st.agent) then Head(path) else []),
          sitemaps := st.sitemaps + Head(url))
  }

  /** One iteration of the loop over lines. */
  function ParseLine(st: Rules, line: string): Rules {
    Step(st, Classify(line))
  }

  /** Collected `Disallow` paths: non-empty, trimmed, colon-free. */
  predicate PathsWellFormed(ps: seq<string>) {
    forall k | 0 <= k < |ps| :: ps[k] != "" && ':' !in ps[k] && Trimmed(ps[k])
  }

  /** Collected sitemap URLs: non-empty and trimmed. */
  predicate UrlsWellFormed(us: seq<string>) {
    forall k | 0 <= k < |us| :: us[k] != "" && Trimmed(us[k])
  }

  /** `r` continues `st`: both lists only grew at the end, with well-formed
      entries. */
  predicate Extends(st: Rules, r: Rules) {
    && |st.disallowed| <= |r.disallowed| && r.disallowed[..|st.disallowed|] == st.disallowed
    && |st.sitemaps| <= |r.sitemaps| && r.sitemaps[..|st.sitemaps|] == st.sitemaps
    && PathsWellFormed(r.disallowed[|st.disallowed|..])
    && UrlsWellFormed(r.sitemaps[|st.sitemaps|..])
  }

  lemma ExtendsTransitive(a: Rules, b: Rules, c: Rules)
    requires Extends(a, b) && Extends(b, c)
    ensures Extends(a, c)
  {
    assert c.disallowed[..|a.disallowed|] == b.disallowed[..|a.disallowed|];
    assert c.sitemaps[..|a.sitemaps|] == b.sitemaps[..|a.sitemaps|];
    var n := |b.disallowed| - |a.disallowed|;
    forall k | 0 <= k < |c.disallowed| - |a.disallowed|
      ensures var p := c.disallowed[|a.disallowed|..][k]; p != "" && ':' !in p && Trimmed(p)
    {
      if k < n {
        assert c.disallowed[|a.disallowed|..][k] == b.disallowed[|a.disallowed|..][k];
      } else {
        assert c.disallowed[|a.disallowed|..][k] == c.disallowed[|b.disallowed|..][k - n];
      }
    }
    var m := |b.sitemaps| - |a.sitemaps|;
    forall k | 0 <= k < |c.sitemaps| - |a.sitemaps|
      ensures var u := c.sitemaps[|a.sitemaps|..][k]; u != "" && Trimmed(u)
    {
      if k < m {
        assert c.sitemaps[|a.sitemaps|..][k] == b.sitemaps[|a.sitemaps|..][k];
      } else {
        assert c.sitemaps[|a.sitemaps|..][k] == c.sitemaps[|b.sitemaps|..][k - m];
      }
    }
  }

  lemma AppendExtends(st: Rules, r: Rules, ps: seq<string>, us: seq<string>)
    requires PathsWellFormed(ps) && UrlsWellFormed(us)
    requires r.disallowed == st.disallowed + ps && r.sitemaps == st.sitemaps + us
    ensures Extends(st, r)
  {
    assert r.disallowed[|st.disallowed|..] == ps;
    assert r.sitemaps[|st.sitemaps|..] == us;
  }

  /** One directive appends at most one path and one sitemap URL, both well formed. */
  lemma StepExtends(st: Rules, d: Directive)
    requires DirectiveWellFormed(d)
    ensures Extends(st, Step(st, d))
  {
    var r := Step(st, d);
    match d
    case Blank =>
      AppendExtends(st, r, [], []);
    case UserAgent(a) =>
      AppendExtends(st, r, [], []);
    case Rule(path, url) =>
      AppendExtends(st, r, if Governs(st.agent) then Head(path) else [], Head(url));
  }

  lemma ParseLineExtends(st: Rules, line: string)
    ensures Extends(st, ParseLine(st, line))
  {
    StepExtends(st, Classify(line));
  }

  /** The loop over lines. */
  function ParseLines(st: Rules, lines: seq<string>): (r: Rules)
    ensures |r.disallowed| <= |st.disallowed| + |lines|
    ensures |r.sitemaps| <= |st.sitemaps| + |lines|
    decreases |lines|
  {
    if |lines| == 0 then st else ParseLines(ParseLine(st, lines[0]), lines[1..])
  }

  /** The lists only grow at the end while reading, and every collected path
      is non-empty, trimmed and colon-free, every sitemap URL non-empty and
      trimmed. */
  lemma {:induction false} ParseLinesExtends(st: Rules, lines: seq<string>)
    ensures Extends(st, ParseLines(st, lines))
    decreases |lines|
  {
    if |lines| == 0 {
      assert st.disallowed[|st.disallowed|..] == [] && st.sitemaps[|st.sitemaps|..] == [];
    } else {
      var next := ParseLine(st, lines[0]);
      ParseLineExtends(st, lines[0]);
      ParseLinesExtends(next, lines[1..]);
      ExtendsTransitive(st, next, ParseLines(next, lines[1..]));
    }
  }

  /** The whole file, split on `\n`, read from the initial state. */
  function ParseRobots(txt: string): (r: Rules)
    ensures PathsWellFormed(r.disallowed)
    ensures UrlsWellFormed(r.sitemaps)
  {
    var r := ParseLines(Initial, SplitOn(txt, '\n'));
    ParseLinesExtends(Initial, SplitOn(txt, '\n'));
    assert r.disallowed[0..] == r.disallowed && r.sitemaps[0..] == r.sitemaps;
    r
  }

  /** Reading two blocks of lines is reading the first and then the second
      from where the first left off. */
  lemma {:induction false} ParseLinesAppend(st: Rules, a: seq<string>, b: seq<string>)
    ensures ParseLines(st, a + b) == ParseLines(ParseLines(st, a), b)
    decreases |a|
  {
    if |a| == 0 {
      assert a + b == b;
    } else {
      assert (a + b)[1..] == a[1..] + b;
      ParseLinesAppend(ParseLine(st, a[0]), a[1..], b);
    }
  }

  /** Comment and blank lines can be inserted anywhere without effect. */
  lemma SkippedLineIgnored(st: Rules, a: seq<string>, line: string, b: seq<string>)
    requires Skipped(Trim(line))
    ensures ParseLines(st, a + [line] + b) == ParseLines(st, a + b)
  {
    ParseLinesAppend(st, a + [line], b);
    ParseLinesAppend(st, a, [line]);
    ParseLinesAppend(st, a, b);
  }

  /** The `Disallow` path a directive carries, before agent filtering. */
  function PathOf(d: Directive): Option<string> {
    match d
    case Rule(path, _) => path
    case _ => None
  }

  /** The sitemap URL a directive carries. */
  function UrlOf(d: Directive): Option<string> {
    match d
    case Rule(_, url) => url
    case _ => None
  }

  /** Apart from `User-agent` lines, a line keeps the agent, appends its
      path only under a governing agent, and appends its sitemap URL. */
  lemma StepKeepsAgent(st: Rules, d: Directive)
    requires !d.UserAgent?
    ensures Step(st, d).agent == st.agent
    ensures Step(st, d).disallowed == st.disallowed + (if Governs(st.agent) then Head(PathOf(d)) else [])
    ensures Step(st, d).sitemaps == st.sitemaps + Head(UrlOf(d))
  {
  }

  /** Whatever the line, its sitemap URL is appended. */
  lemma StepAppendsUrl(st: Rules, d: Directive)
    ensures Step(st, d).sitemaps == st.sitemaps + Head(UrlOf(d))
  {
  }

  /** The sitemap URL a line carries, if any. */
  function SitemapOf(line: string): Option<string> {
    UrlOf(Classify(line))
  }

  /** The `Disallow` path a line carries, if any, before agent filtering. */
  function DisallowOf(line: string): Option<string> {
    PathOf(Classify(line))
  }

  predicate IsUserAgentLine(line: string) {
    Classify(line).UserAgent?
  }

  /** Sitemap lines are recognised whatever the current agent: the sitemap
      list is the in-order list of every line's sitemap URL. */
  lemma {:induction false} SitemapsIgnoreAgent(st: Rules, lines: seq<string>)
    ensures ParseLines(st, lines).sitemaps == st.sitemaps + FilterMap(SitemapOf, lines)
    decreases |lines|
  {
    if |lines| > 0 {
      var st' := ParseLine(st, lines[0]);
      var here := Head(SitemapOf(lines[0]));
      StepAppendsUrl(st, Classify(lines[0]));
      assert st'.sitemaps == st.sitemaps + here;
      SitemapsIgnoreAgent(st', lines[1..]);
      FilterMapCons(SitemapOf, lines);
      assert ParseLines(st, lines) == ParseLines(st', lines[1..]);
      AppendAssoc(st.sitemaps, here, FilterMap(SitemapOf, lines[1..]));
    }
  }

  /** Under an agent the crawler does not obey, a block without any
      `User-agent` line contributes no `Disallow` path. */
  lemma {:induction false} ForeignBlockIgnored(st: Rules, lines: seq<string>)
    requires !Governs(st.agent)
    requires forall i | 0 <= i < |lines| :: !IsUserAgentLine(lines[i])
    ensures ParseLines(st, lines).disallowed == st.disallowed
    decreases |lines|
  {
    if |lines| > 0 {
      assert !IsUserAgentLine(lines[0]);
      var st' := ParseLine(st, lines[0]);
      StepKeepsAgent(st, Classify(lines[0]));
      assert st'.agent == st.agent && st'.disallowed == st.disallowed + [];
      assert st.disallowed + [] == st.disallowed;
      forall i | 0 <= i < |lines[1..]| ensures !IsUserAgentLine(lines[1..][i]) {
        assert lines[1..][i] == lines[i + 1];
      }
      ForeignBlockIgnored(st', lines[1..]);
      assert ParseLines(st, lines) == ParseLines(st', lines[1..]);
    }
  }

  /** Under `*` or the crawler's own token, a block without any `User-agent`
      line contributes every non-empty `Disallow` value, in file order. */
  lemma {:induction false} GoverningBlockCollected(st: Rules, lines: seq<string>)
    requires Governs(st.agent)
    requires forall i | 0 <= i < |lines| :: !IsUserAgentLine(lines[i])
    ensures ParseLines(st, lines).disallowed == st.disallowed + FilterMap(DisallowOf, lines)
    decreases |lines|
  {
    if |lines| > 0 {
      assert !IsUserAgentLine(lines[0]);
      var st' := ParseLine(st, lines[0]);
      var here := Head(DisallowOf(lines[0]));
      StepKeepsAgent(st, Classify(lines[0]));
      assert st'.agent == st.agent && st'.disallowed == st.disallowed + here;
      forall i | 0 <= i < |lines[1..]| ensures !IsUserAgentLine(lines[1..][i]) {
        assert lines[1..][i] == lines[i + 1];
      }
      GoverningBlockCollected(st', lines[1..]);
      FilterMapCons(DisallowOf, lines);
      assert ParseLines(st, lines) == ParseLines(st', lines[1..]);
      AppendAssoc(st.disallowed, here, FilterMap(DisallowOf, lines[1..]));
    }
  }

  /** A keyword that ends in its only colon and is not a comment. */
  predicate ColonWord(word: string) {
    |word| > 1 && word[|word| - 1] == ':' && word[0] != '#' &&
    forall i | 0 <= i < |word| - 1 :: word[i] != ':'
  }

  /** The three keywords the parser looks for have that shape. */
  lemma Keywords()
    ensures ColonWord("user-agent:") && ColonWord("disallow:") && ColonWord("sitemap:")
  {
  }

  /** A line that begins with a colon-terminated keyword, spelled in any
      ASCII case, is that directive, is not a comment or blank, and its first
      colon is the keyword's. */
  lemma KeywordLine(t: string, kw: string, word: string, rest: string)
    requires t == kw + rest
    requires EqualsIgnoreCase(kw, word)
    requires ColonWord(word)
    ensures IsDirective(t, word) && !Skipped(t)
    ensures ':' in t && IndexOf(t, ':') == |word| - 1
    ensures t[IndexOf(t, ':') + 1..] == rest
  {
    var n := |word| - 1;
    assert t[0] == kw[0];
    assert LowerChar(kw[n]) == ':';
    forall i | 0 <= i < n
      ensures kw[i] != ':'
    {
      assert LowerChar(kw[i]) == word[i];
    }
    assert kw == kw[..n] + [':'];
    assert t == kw[..n] + [':'] + rest;
    IndexOfPrefix(kw[..n], rest, ':');
  }

  /** The field after a keyword stops at the next colon. */
  lemma FieldStopsAtColon(t: string, rest: string, p: string, q: string)
    requires ':' in t && t[IndexOf(t, ':') + 1..] == rest
    requires rest == p + ":" + q
    requires ':' !in p
    ensures FieldValue(t) == Trim(p)
  {
    SecondPieceBetweenSeparators(t, ':');
    assert p + ":" + q == p + [':'] + q;
    FirstPiece(p, q, ':');
    assert SplitOn(t, ':')[1] == p;
  }

  /** A `User-agent` line, whatever the keyword's case, replaces the current
      agent by the trimmed text up to the next colon and collects nothing. */
  lemma UserAgentLineSwitches(st: Rules, line: string, kw: string, rest: string, a: string)
    requires Trim(line) == kw + rest
    requires rest == a || (exists q :: rest == a + ":" + q)
    requires EqualsIgnoreCase(kw, "user-agent:")
    requires ':' !in a
    ensures ParseLine(st, line) == st.(agent := Trim(a))
  {
    var t := Trim(line);
    Keywords();
    KeywordLine(t, kw, "user-agent:", rest);
    if rest == a {
      SecondPieceBetweenSeparators(t, ':');
      assert SplitOn(a, ':') == [a];
    } else {
      var q :| rest == a + ":" + q;
      FieldStopsAtColon(t, rest, a, q);
    }
    assert Classify(line) == UserAgent(Trim(a));
  }

  /** A `Disallow` value stops at the next colon: `Disallow: /a:b` disallows
      only `/a`. */
  lemma DisallowStopsAtSecondColon(st: Rules, line: string, kw: string, p: string, q: string)
    requires Trim(line) == kw + (p + ":" + q)
    requires EqualsIgnoreCase(kw, "disallow:")
    requires ':' !in p && Trim(p) != ""
    requires Governs(st.agent)
    ensures ParseLine(st, line).disallowed == st.disallowed + [Trim(p)]
  {
    var t := Trim(line);
    var rest := p + ":" + q;
    Keywords();
    KeywordLine(t, kw, "disallow:", rest);
    FirstCharDecides(t, "user-agent:");
    FieldStopsAtColon(t, rest, p, q);
    assert DisallowValue(t) == Some(Trim(p));
    var d := Classify(line);
    assert d == Rule(Some(Trim(p)), SitemapValue(t));
    StepKeepsAgent(st, d);
  }

  /** A `Sitemap` value keeps everything after the first colon, so the
      scheme's colon survives. */
  lemma SitemapKeepsWholeUrl(st: Rules, line: string, kw: string, u: string)
    requires Trim(line) == kw + u
    requires EqualsIgnoreCase(kw, "sitemap:")
    requires Trim(u) != ""
    ensures ParseLine(st, line).sitemaps == st.sitemaps + [Trim(u)]
  {
    var t := Trim(line);
    Keywords();
    KeywordLine(t, kw, "sitemap:", u);
    FirstCharDecides(t, "user-agent:");
    assert UrlValue(t) == Trim(u);
    assert SitemapValue(t) == Some(Trim(u));
    var d := Classify(line);
    assert d == Rule(DisallowValue(t), Some(Trim(u)));
    StepAppendsUrl(st, d);
  }
}
