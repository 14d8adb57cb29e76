/** Which URLs the crawler may fetch: the robots.txt check `isAllowed` and
    the configuration filter `shouldCrawl`. */
module Policy {
  import opened Fallible
  import opened Strings
  import opened Platform

  /** Every `*` of a rule replaced by `.*`, as the global replace does. */
  function ReplaceStars(rule: string): string {
    if |rule| == 0 then ""
    else (if rule[0] == '*' then ".*" else [rule[0]]) + ReplaceStars(rule[1..])
  }

  /** The anchored pattern a wildcard rule is compiled to. */
  function StarPattern(rule: string): string {
    "^" + ReplaceStars(rule) + "$"
  }

  /** A star-free rule compiles to itself between anchors. */
  lemma {:induction false} ReplaceStarsStarFree(rule: string)
    requires '*' !in rule
    ensures ReplaceStars(rule) == rule
  {
    if |rule| > 0 {
      assert '*' !in rule[1..] by {
        forall c | c in rule[1..] ensures c != '*' { assert c in rule; }
      }
      ReplaceStarsStarFree(rule[1..]);
    }
  }

  /** The reference meaning of a wildcard rule: `*` matches any run of
      characters, every other character matches itself, and the whole path
      must be consumed. */
  predicate GlobMatch(p: string, s: string)
    decreases |p| + |s|
  {
    if |p| == 0 then |s| == 0
    else if p[0] == '*' then GlobMatch(p[1..], s) || (|s| > 0 && GlobMatch(p, s[1..]))
    else |s| > 0 && s[0] == p[0] && GlobMatch(p[1..], s[1..])
  }

  /** Characters that mean something to a JavaScript regular expression. */
  predicate RegexSpecial(c: char) {
    c in "\\^$.|?*+()[]{}"
  }

  /** A rule whose only metacharacter is `*`. */
  predicate SimpleGlob(rule: string) {
    forall i | 0 <= i < |rule| :: rule[i] == '*' || !RegexSpecial(rule[i])
  }

  /** The characters a JavaScript `.` does not match. */
  predicate LineTerminator(c: char) {
    c == '\n' || c == '\r' || c == '\U{2028}' || c == '\U{2029}'
  }

  /** A string on one line, where `.*` matches any run of characters. */
  predicate SingleLine(s: string) {
    forall i | 0 <= i < |s| :: !LineTerminator(s[i])
  }

  /** The regular-expression engine gives the glob meaning to the patterns
      compiled from simple wildcard rules, on the single-line paths that a
      parsed URL has. */
  ghost predicate GlobEngine(env: Env) {
    forall rule, path | SimpleGlob(rule) && SingleLine(path) ::
      env.regexTest(StarPattern(rule), path) == Ok(GlobMatch(rule, path))
  }

  /** The two tests that need no regular expression: the rule is the path,
      or the rule ends in `/` and the path starts with it. */
  predicate BlocksLiterally(rule: string, path: string) {
    rule == path || (EndsWith(rule, "/") && StartsWith(path, rule))
  }

  /** One rule lets a path through: neither literal test fires, and a
      wildcard rule compiles and does not match. */
  predicate RulePasses(env: Env, rule: string, path: string) {
    !BlocksLiterally(rule, path) &&
    ('*' in rule ==> env.regexTest(StarPattern(rule), path) == Ok(false))
  }

  /** The loop over the disallowed paths. The first rule that blocks, or a
      wildcard rule that does not compile, ends it with `false`; so a path
      passes exactly when every rule lets it through, whatever their order. */
  predicate PathPasses(env: Env, rules: seq<string>, path: string)
    ensures PathPasses(env, rules, path) <==>
      forall i | 0 <= i < |rules| :: RulePasses(env, rules[i], path)
  {
    if |rules| == 0 then true
    else
      var rule := rules[0];
      if BlocksLiterally(rule, path) then false
      else if '*' in rule then
        match env.regexTest(StarPattern(rule), path)
        case Err(_) => false
        case Ok(m) => !m && PathPasses(env, rules[1..], path)
      else PathPasses(env, rules[1..], path)
  }

  /** `isAllowed(url)`: no rules allow everything; otherwise a URL that does
      not parse is refused, and a parsed one is checked by its path. */
  predicate IsAllowed(env: Env, disallowed: seq<string>, url: string)
    ensures IsAllowed(env, disallowed, url) <==>
      |disallowed| == 0 ||
      (env.parse(url).Ok? &&
       forall i | 0 <= i < |disallowed| :: RulePasses(env, disallowed[i], env.parse(url).value.pathname))
  {
    if |disallowed| == 0 then true
    else
      match env.parse(url)
      case Err(_) => false
      case Ok(u) => PathPasses(env, disallowed, u.pathname)
  }

  /** The meaning of a rule against the reference glob semantics. */
  predicate Blocks(rule: string, path: string) {
    BlocksLiterally(rule, path) || ('*' in rule && GlobMatch(rule, path))
  }

  /** With an engine that gives simple wildcard rules their glob meaning,
      a parsed URL is allowed exactly when no rule blocks its path. */
  lemma IsAllowedByGlobs(env: Env, disallowed: seq<string>, url: string)
    requires GlobEngine(env)
    requires forall i | 0 <= i < |disallowed| :: SimpleGlob(disallowed[i])
    requires env.parse(url).Ok? && SingleLine(env.parse(url).value.pathname)
    ensures IsAllowed(env, disallowed, url) <==>
      forall i | 0 <= i < |disallowed| :: !Blocks(disallowed[i], env.parse(url).value.pathname)
  {
    var path := env.parse(url).value.pathname;
    forall i | 0 <= i < |disallowed|
      ensures RulePasses(env, disallowed[i], path) <==> !Blocks(disallowed[i], path)
    {
      assert env.regexTest(StarPattern(disallowed[i]), path) == Ok(GlobMatch(disallowed[i], path));
    }
  }

  /** When no rule holds a `*`, the regular-expression engine is never
      consulted. */
  lemma StarFreeRulesNeedNoEngine(env: Env, env': Env, disallowed: seq<string>, url: string)
    requires env.parse == env'.parse
    requires forall i | 0 <= i < |disallowed| :: '*' !in disallowed[i]
    ensures IsAllowed(env, disallowed, url) == IsAllowed(env', disallowed, url)
  {
  }

  /** A URL that does not parse is refused as soon as there is any rule. */
  lemma UnparsableRefused(env: Env, disallowed: seq<string>, url: string)
    requires |disallowed| > 0 && env.parse(url).Err?
    ensures !IsAllowed(env, disallowed, url)
  {
  }

  /** A rule that is the path itself refuses the URL. */
  lemma ExactRuleRefuses(env: Env, disallowed: seq<string>, url: string, i: nat)
    requires env.parse(url).Ok? && i < |disallowed|
    requires disallowed[i] == env.parse(url).value.pathname
    ensures !IsAllowed(env, disallowed, url)
  {
    assert !RulePasses(env, disallowed[i], env.parse(url).value.pathname);
  }

  /** A rule ending in `/` refuses every path below it. */
  lemma DirectoryRuleRefuses(env: Env, disallowed: seq<string>, url: string, i: nat, rest: string)
    requires env.parse(url).Ok? && i < |disallowed|
    requires EndsWith(disallowed[i], "/")
    requires env.parse(url).value.pathname == disallowed[i] + rest
    ensures !IsAllowed(env, disallowed, url)
  {
    var path := env.parse(url).value.pathname;
    assert path[..|disallowed[i]|] == disallowed[i];
    assert !RulePasses(env, disallowed[i], path);
  }

  /** A star-free rule that does not end in `/` blocks only the path equal
      to it: `Disallow: /private` does not cover `/private/x`. */
  lemma PlainRuleBlocksOnlyItself(rule: string, path: string)
    requires '*' !in rule && !EndsWith(rule, "/")
    ensures Blocks(rule, path) <==> rule == path
  {
  }

  /** Without `*`, the glob meaning is string equality. */
  lemma {:induction false} GlobStarFree(p: string, s: string)
    requires '*' !in p
    ensures GlobMatch(p, s) <==> p == s
    decreases |p| + |s|
  {
    if |p| > 0 && |s| > 0 {
      assert '*' !in p[1..] by {
        forall c | c in p[1..] ensures c != '*' { assert c in p; }
      }
      GlobStarFree(p[1..], s[1..]);
      if s[0] == p[0] && p[1..] == s[1..] {
        assert p == [p[0]] + p[1..] && s == [s[0]] + s[1..];
      }
    }
  }

  /** A lone `*` matches every path. */
  lemma {:induction false} StarMatchesAll(s: string)
    ensures GlobMatch("*", s)
    decreases |s|
  {
    if |s| > 0 {
      StarMatchesAll(s[1..]);
    }
    assert "*"[1..] == "";
  }

  /** A star-free pattern followed by `*` is a prefix test. */
  lemma {:induction false} GlobTrailingStar(p: string, s: string)
    requires '*' !in p
    ensures GlobMatch(p + "*", s) <==> StartsWith(s, p)
    decreases |p|
  {
    if |p| == 0 {
      assert p + "*" == "*";
      StarMatchesAll(s);
    } else {
      assert (p + "*")[1..] == p[1..] + "*";
      assert '*' !in p[1..] by {
        forall c | c in p[1..] ensures c != '*' { assert c in p; }
      }
      if |s| > 0 {
        GlobTrailingStar(p[1..], s[1..]);
        if s[0] == p[0] && StartsWith(s[1..], p[1..]) {
          assert s[..|p|] == [s[0]] + s[1..][..|p| - 1];
        }
      }
    }
  }

  /** The crawl configuration fields that `shouldCrawl` reads. */
  datatype Filter = Filter(
    maxDepth: nat,
    followExternal: bool,
    includePattern: string,
    excludePattern: string)

  /** The include pattern, when set, must compile and match. */
  predicate Included(env: Env, f: Filter, url: string) {
    f.includePattern == "" || env.regexTest(f.includePattern, url) == Ok(true)
  }

  /** The exclude pattern, when set, must compile and not match. */
  predicate NotExcluded(env: Env, f: Filter, url: string) {
    f.excludePattern == "" || env.regexTest(f.excludePattern, url) == Ok(false)
  }

  /** `shouldCrawl(url, depth)` against the base origin and the visited set.
      A pattern that does not compile throws, and the catch answers
      `false`. */
  predicate ShouldCrawl(env: Env, f: Filter, baseUrl: string, visited: set<string>, url: string, depth: nat)
    ensures ShouldCrawl(env, f, baseUrl, visited, url, depth) <==>
      depth <= f.maxDepth && url !in visited && env.parse(url).Ok? &&
      (env.parse(url).value.origin == baseUrl || f.followExternal) &&
      Included(env, f, url) && NotExcluded(env, f, url)
  {
    if depth > f.maxDepth then false
    else if url in visited then false
    else
      match env.parse(url)
      case Err(_) => false
      case Ok(u) =>
        if u.origin != baseUrl && !f.followExternal then false
        else if f.includePattern != "" && !MatchesOrThrows(env.regexTest(f.includePattern, url)) then false
        else if f.excludePattern != "" && !Passes(env.regexTest(f.excludePattern, url)) then false
        else true
  }

  /** `includeRegex.test(url)` inside the try: a compile error is `false`. */
  predicate MatchesOrThrows(r: Result<bool>) {
    r == Ok(true)
  }

  /** `!excludeRegex.test(url)` inside the try: a compile error is `false`. */
  predicate Passes(r: Result<bool>) {
    r == Ok(false)
  }

  /** Visiting more pages never makes a URL crawlable again. */
  lemma ShouldCrawlAntitone(env: Env, f: Filter, baseUrl: string, v: set<string>, v': set<string>, url: string, depth: nat)
    requires v <= v'
    requires ShouldCrawl(env, f, baseUrl, v', url, depth)
    ensures ShouldCrawl(env, f, baseUrl, v, url, depth)
  {
  }

  /** A visited URL is never crawled again. */
  lemma VisitedNotCrawled(env: Env, f: Filter, baseUrl: string, visited: set<string>, url: string, depth: nat)
    requires url in visited
    ensures !ShouldCrawl(env, f, baseUrl, visited, url, depth)
  {
  }
}
