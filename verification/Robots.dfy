/** Matching paths against robots.txt patterns (internal/crawler/robots.go). */
module Robots {
  import opened Text

  // ---------- sections 2.2.2 and 2.2.3 of RFC 9309 ----------

  /** '*' stands for any number of characters, everything else for itself. */
  ghost predicate Glob(s: string, pattern: string)
    decreases |pattern|
  {
    if pattern == [] then s == []
    else if pattern[0] == '*' then exists k :: 0 <= k <= |s| && Glob(s[k..], pattern[1..])
    else s != [] && s[0] == pattern[0] && Glob(s[1..], pattern[1..])
  }

  predicate EndsWithDollar(pattern: string) {
    pattern != [] && pattern[|pattern| - 1] == '$'
  }

  function Body(pattern: string): string {
    if EndsWithDollar(pattern) then pattern[..|pattern| - 1] else pattern
  }

  /** A rule matches from the start of the path, and to its end if the rule ends with '$'. */
  ghost predicate RfcMatch(path: string, pattern: string) {
    if EndsWithDollar(pattern) then Glob(path, Body(pattern)) else exists k :: 0 <= k <= |path| && Glob(path[..k], pattern)
  }

  // ---------- what the matcher computes ----------

  predicate Occurs(path: string, part: string, at: nat) {
    at + |part| <= |path| && path[at..at + |part|] == part
  }

  /** The parts occur one after the other, without overlap, at or after a position. */
  ghost predicate InOrder(path: string, parts: seq<string>, start: nat)
    decreases |parts|
  {
    parts == [] || exists at: nat :: at >= start && Occurs(path, parts[0], at) && InOrder(path, parts[1..], at + |parts[0]|)
  }

  /** strings.Split. */
  function Split(s: string, c: char): (parts: seq<string>)
    ensures |parts| >= 1
    decreases |s|
  {
    var i := IndexOf(s, c);
    if i == |s| then [s] else [s[..i]] + Split(s[i + 1..], c)
  }

  /** What the program answers. */
  ghost predicate CodeMatch(path: string, pattern: string) {
    if EndsWithDollar(pattern) then path == Body(pattern)
    else if '*' !in pattern then HasPrefix(path, pattern)
    else
      var parts := Split(pattern, '*');
      if |parts| == 2 && parts[1] == "" then HasPrefix(path, parts[0]) else InOrder(path, parts, 0)
  }

  // ---------- the greedy scan ----------

  /** strings.Index on path[start:], as a position in path. */
  function Leftmost(path: string, part: string, start: nat): (r: Option<nat>)
    ensures r.None? ==> forall at: nat :: at >= start ==> !Occurs(path, part, at)
    ensures r.Some? ==> r.value >= start && Occurs(path, part, r.value) && forall at: nat :: start <= at < r.value ==> !Occurs(path, part, at)
    decreases |path| - start
  {
    if start + |part| > |path| then None
    else if Occurs(path, part, start) then Some(start)
    else Leftmost(path, part, start + 1)
  }

  lemma EarlierIsEnough(path: string, parts: seq<string>, start: nat, earlier: nat)
    requires InOrder(path, parts, start) && earlier <= start
    ensures InOrder(path, parts, earlier)
  {
  }

  /** Nothing is lost by taking the leftmost occurrence. */
  lemma GreedyStep(path: string, parts: seq<string>, start: nat)
    requires parts != [] && start <= |path|
    ensures var found := Leftmost(path, parts[0], start);
      InOrder(path, parts, start) <==> found.Some? && InOrder(path, parts[1..], found.value + |parts[0]|)
  {
    var found := Leftmost(path, parts[0], start);
    if InOrder(path, parts, start) {
      var at: nat :| at >= start && Occurs(path, parts[0], at) && InOrder(path, parts[1..], at + |parts[0]|);
      EarlierIsEnough(path, parts[1..], at + |parts[0]|, found.value + |parts[0]|);
    }
  }

  /** The leftmost scan succeeds exactly when the parts occur in order without overlap. */
  method MatchesRobotsPattern(path: string, pattern: string) returns (r: bool)
    ensures r <==> CodeMatch(path, pattern)
  {
    if EndsWithDollar(pattern) {
      return path == Body(pattern);
    }
    if '*' !in pattern {
      return HasPrefix(path, pattern);
    }
    var parts := Split(pattern, '*');
    if |parts| == 2 && parts[1] == "" {
      return HasPrefix(path, parts[0]);
    }
    var currentPos: nat := 0;
    assert parts[0..] == parts;
    for i := 0 to |parts|
      invariant currentPos <= |path| && (InOrder(path, parts, 0) <==> InOrder(path, parts[i..], currentPos))
    {
      assert parts[i..][0] == parts[i] && parts[i..][1..] == parts[i + 1..];
      GreedyStep(path, parts[i..], currentPos);
      if parts[i] == "" {
        assert Occurs(path, parts[i], currentPos);
        continue;
      }
      var idx := Leftmost(path, parts[i], currentPos);
      if idx.None? {
        return false;
      }
      currentPos := idx.value + |parts[i]|;
    }
    return true;
  }

  // ---------- rules ----------

  datatype RobotsRules = RobotsRules(disallowPatterns: seq<string>, allowPatterns: seq<string>)

  ghost predicate AnyMatch(path: string, patterns: seq<string>) {
    exists i :: 0 <= i < |patterns| && CodeMatch(path, patterns[i])
  }

  /** Any Allow beats every Disallow. */
  ghost predicate CodeAllowed(rules: RobotsRules, path: string) {
    AnyMatch(path, rules.allowPatterns) || !AnyMatch(path, rules.disallowPatterns)
  }

  method IsPathAllowed(rules: Option<RobotsRules>, path: string) returns (allowed: bool)
    ensures allowed <==> rules.None? || CodeAllowed(rules.value, path)
  {
    if rules.None? || |rules.value.disallowPatterns| == 0 {
      return true;
    }
    var allow, disallow := rules.value.allowPatterns, rules.value.disallowPatterns;
    for i := 0 to |allow|
      invariant forall k :: 0 <= k < i ==> !CodeMatch(path, allow[k])
    {
      var hit := MatchesRobotsPattern(path, allow[i]);
      if hit {
        return true;
      }
    }
    for i := 0 to |disallow|
      invariant forall k :: 0 <= k < i ==> !CodeMatch(path, disallow[k])
    {
      var hit := MatchesRobotsPattern(path, disallow[i]);
      if hit {
        return false;
      }
    }
    return true;
  }

  // ---------- the pattern as parts ----------

  lemma SplitFirst(p: string)
    requires p != []
    ensures var rest := Split(p[1..], '*');
      Split(p, '*') == if p[0] == '*' then [""] + rest else [[p[0]] + rest[0]] + rest[1..]
  {
    var i := IndexOf(p, '*');
    if p[0] == '*' {
      assert p[..0] == "";
    } else {
      assert IndexOf(p[1..], '*') == i - 1;
      if i < |p| {
        assert p[..i] == [p[0]] + p[1..][..i - 1] && p[i + 1..] == p[1..][i..];
      } else {
        assert p == [p[0]] + p[1..];
      }
    }
  }

  /** The first part stands right at a position and the others follow in order. */
  ghost predicate Anchored(path: string, parts: seq<string>, a: nat)
    requires |parts| >= 1
  {
    Occurs(path, parts[0], a) && InOrder(path, parts[1..], a + |parts[0]|)
  }

  /** A pattern matches a stretch of the path from a position on exactly when its parts are anchored there. */
  lemma {:induction false} GlobIsAnchored(path: string, p: string, a: nat)
    requires a <= |path|
    ensures (exists b :: a <= b <= |path| && Glob(path[a..b], p)) <==> Anchored(path, Split(p, '*'), a)
    decreases |p|
  {
    if p == [] {
      assert Glob(path[a..a], p);
    } else {
      SplitFirst(p);
      if p[0] == '*' {
        StarIsAnchored(path, p, a);
      } else {
        LiteralIsAnchored(path, p, a);
      }
    }
  }

  lemma {:induction false} StarIsAnchored(path: string, p: string, a: nat)
    requires a <= |path| && p != [] && p[0] == '*' && Split(p, '*') == [""] + Split(p[1..], '*')
    ensures (exists b :: a <= b <= |path| && Glob(path[a..b], p)) <==> Anchored(path, Split(p, '*'), a)
    decreases |p|, 1
  {
    var rest := Split(p[1..], '*');
    assert ([""] + rest)[1..] == rest;
    if b :| a <= b <= |path| && Glob(path[a..b], p) {
      StarAnchors(path, p, a, b);
    }
    if Anchored(path, Split(p, '*'), a) {
      AnchoredStar(path, p, a);
    }
  }

  lemma {:induction false} StarAnchors(path: string, p: string, a: nat, b: nat)
    requires a <= b <= |path| && p != [] && p[0] == '*' && Glob(path[a..b], p)
    ensures InOrder(path, Split(p[1..], '*'), a)
    decreases |p|, 0
  {
    var k :| 0 <= k <= b - a && Glob(path[a..b][k..], p[1..]);
    assert path[a..b][k..] == path[a + k..b];
    GlobIsAnchored(path, p[1..], a + k);
  }

  lemma {:induction false} AnchoredStar(path: string, p: string, a: nat)
    requires a <= |path| && p != [] && p[0] == '*' && InOrder(path, Split(p[1..], '*'), a)
    ensures exists b :: a <= b <= |path| && Glob(path[a..b], p)
    decreases |p|, 0
  {
    var rest := Split(p[1..], '*');
    var at: nat :| at >= a && Occurs(path, rest[0], at) && InOrder(path, rest[1..], at + |rest[0]|);
    GlobIsAnchored(path, p[1..], at);
    var b :| at <= b <= |path| && Glob(path[at..b], p[1..]);
    assert path[a..b][at - a..] == path[at..b];
    StarSkips(path[a..b], p, at - a);
  }

  lemma StarSkips(s: string, p: string, k: nat)
    requires p != [] && p[0] == '*' && k <= |s| && Glob(s[k..], p[1..])
    ensures Glob(s, p)
  {
  }

  lemma {:induction false} LiteralIsAnchored(path: string, p: string, a: nat)
    requires a <= |path| && p != [] && p[0] != '*'
    requires Split(p, '*') == [[p[0]] + Split(p[1..], '*')[0]] + Split(p[1..], '*')[1..]
    ensures (exists b :: a <= b <= |path| && Glob(path[a..b], p)) <==> Anchored(path, Split(p, '*'), a)
    decreases |p|, 0
  {
    var parts, rest := Split(p, '*'), Split(p[1..], '*');
    assert parts[1..] == rest[1..] && |parts[0]| == |rest[0]| + 1;
    if a < |path| {
      GlobIsAnchored(path, p[1..], a + 1);
      if path[a] == p[0] {
        OccursCons(path, p[0], rest[0], a);
      }
      if b :| a <= b <= |path| && Glob(path[a..b], p) {
        assert path[a..b][1..] == path[a + 1..b];
      }
      if Anchored(path, parts, a) {
        assert path[a] == path[a..a + |parts[0]|][0] == p[0];
        var b :| a + 1 <= b <= |path| && Glob(path[a + 1..b], p[1..]);
        assert path[a..b][1..] == path[a + 1..b];
        assert Glob(path[a..b], p);
      }
    }
  }

  lemma OccursCons(path: string, c: char, part: string, a: nat)
    requires a < |path| && path[a] == c
    ensures Occurs(path, [c] + part, a) <==> Occurs(path, part, a + 1)
  {
    if a + 1 + |part| <= |path| {
      assert path[a..a + 1 + |part|] == [c] + path[a + 1..a + 1 + |part|];
    }
  }

  lemma RfcIsAnchored(path: string, pattern: string)
    requires !EndsWithDollar(pattern)
    ensures RfcMatch(path, pattern) <==> Anchored(path, Split(pattern, '*'), 0)
  {
    GlobIsAnchored(path, pattern, 0);
    forall k | 0 <= k <= |path|
      ensures path[0..k] == path[..k]
    {
    }
  }

  lemma {:induction false} StarFreeGlob(s: string, p: string)
    requires '*' !in p
    ensures Glob(s, p) <==> s == p
    decreases |p|
  {
    if p != [] {
      assert p[0] in p && forall c :: c in p[1..] ==> c in p;
      if s != [] {
        StarFreeGlob(s[1..], p[1..]);
        assert s == [s[0]] + s[1..] && p == [p[0]] + p[1..];
      }
    }
  }

  lemma StarFreeSplit(p: string)
    requires '*' !in p
    ensures Split(p, '*') == [p]
  {
  }

  // ---------- where the matcher meets the standard ----------

  /** Every path the standard matches is matched, unless the pattern has both a star and a trailing dollar. */
  lemma NoMatchIsMissed(path: string, pattern: string)
    requires !('*' in pattern && EndsWithDollar(pattern)) && RfcMatch(path, pattern)
    ensures CodeMatch(path, pattern)
  {
    if EndsWithDollar(pattern) {
      StarFreeGlob(path, Body(pattern));
    } else {
      RfcIsAnchored(path, pattern);
      var parts := Split(pattern, '*');
      if '*' !in pattern {
        StarFreeSplit(pattern);
      } else if !(|parts| == 2 && parts[1] == "") {
        assert Occurs(path, parts[0], 0);
      }
    }
  }

  function WithoutStars(p: string): string {
    if p == [] then [] else (if p[0] == '*' then [] else [p[0]]) + WithoutStars(p[1..])
  }

  lemma {:induction false} WithoutStarsMatches(p: string)
    ensures Glob(WithoutStars(p), p) && '*' !in WithoutStars(p)
  {
    if p != [] {
      WithoutStarsMatches(p[1..]);
      if p[0] == '*' {
        assert WithoutStars(p)[0..] == WithoutStars(p[1..]);
      } else {
        assert WithoutStars(p)[1..] == WithoutStars(p[1..]);
      }
    }
  }

  /** For such a pattern some match is missed: the one where every star stands for nothing. */
  lemma StarAndDollarMiss(pattern: string)
    requires '*' in pattern && EndsWithDollar(pattern)
    ensures RfcMatch(WithoutStars(Body(pattern)), pattern) && !CodeMatch(WithoutStars(Body(pattern)), pattern)
  {
    WithoutStarsMatches(Body(pattern));
    assert pattern == Body(pattern) + "$";
    assert '*' in Body(pattern);
  }

  lemma MissesNothingIff(pattern: string)
    ensures (forall path :: RfcMatch(path, pattern) ==> CodeMatch(path, pattern)) <==> !('*' in pattern && EndsWithDollar(pattern))
  {
    if '*' in pattern && EndsWithDollar(pattern) {
      StarAndDollarMiss(pattern);
    } else {
      forall path | RfcMatch(path, pattern)
        ensures CodeMatch(path, pattern)
      {
        NoMatchIsMissed(path, pattern);
      }
    }
  }

  /** Without Allow rules, no path is admitted that a Disallow rule forbids under the standard. */
  lemma DisallowIsRespected(rules: RobotsRules, path: string, i: nat)
    requires rules.allowPatterns == [] && i < |rules.disallowPatterns| && RfcMatch(path, rules.disallowPatterns[i])
    requires !('*' in rules.disallowPatterns[i] && EndsWithDollar(rules.disallowPatterns[i]))
    ensures !CodeAllowed(rules, path)
  {
    NoMatchIsMissed(path, rules.disallowPatterns[i]);
  }

  /** No star, or no trailing dollar and a first part that is empty or followed by a single final star. */
  predicate Exact(pattern: string) {
    '*' !in pattern || (!EndsWithDollar(pattern) && (pattern[0] == '*' || '*' !in pattern[..|pattern| - 1]))
  }

  lemma ExactAgrees(path: string, pattern: string)
    requires Exact(pattern) && CodeMatch(path, pattern)
    ensures RfcMatch(path, pattern)
  {
    if EndsWithDollar(pattern) {
      StarFreeGlob(path, Body(pattern));
    } else {
      RfcIsAnchored(path, pattern);
      var parts := Split(pattern, '*');
      if '*' !in pattern {
        StarFreeSplit(pattern);
      } else if pattern[0] == '*' {
        SplitFirst(pattern);
        LeadingStar(path, pattern, parts);
      } else {
        FinalStarSplit(pattern);
        assert Occurs(path, parts[0], 0) && Occurs(path, "", |parts[0]|);
        assert parts[1..] == [""] && [""][1..] == [];
        assert InOrder(path, [""][1..], |parts[0]| + |""|);
      }
    }
  }

  lemma LeadingStar(path: string, pattern: string, parts: seq<string>)
    requires parts == Split(pattern, '*') && |parts| > 1 && parts[0] == "" && '*' in pattern && !EndsWithDollar(pattern)
    requires CodeMatch(path, pattern)
    ensures Anchored(path, parts, 0)
  {
    if |parts| == 2 && parts[1] == "" {
      assert Occurs(path, parts[1], 0);
      assert InOrder(path, parts[1..][1..], 0);
    } else {
      var at: nat :| at >= 0 && Occurs(path, parts[0], at) && InOrder(path, parts[1..], at + |parts[0]|);
      EarlierIsEnough(path, parts[1..], at, 0);
    }
  }

  lemma FinalStarSplit(pattern: string)
    requires '*' in pattern && '*' !in pattern[..|pattern| - 1]
    ensures Split(pattern, '*') == [pattern[..|pattern| - 1], ""]
  {
    var n := |pattern| - 1;
    assert pattern == pattern[..n] + [pattern[n]];
    FirstAt(pattern, '*', n);
    assert pattern[n + 1..] == "";
  }

  /** A character that differs from the given one and from a star. */
  function Other(c: char): char {
    if c == 'x' then 'y' else 'x'
  }

  /** In every other pattern without a dollar the first part is not tied to the start of the path. */
  lemma Unanchored(pattern: string) returns (path: string)
    requires !EndsWithDollar(pattern) && !Exact(pattern)
    ensures CodeMatch(path, pattern) && !RfcMatch(path, pattern)
  {
    var parts := Split(pattern, '*');
    var rest := WithoutStars(pattern);
    path := [Other(pattern[0])] + rest;
    assert path[1..][..|rest|] == rest && path[1..|path|] == rest;
    WithoutStarsMatches(pattern);
    GlobIsAnchored(path, pattern, 1);
    assert Occurs(path, parts[0], 1) && InOrder(path, parts, 0);
    SplitFirst(pattern);
    RfcIsAnchored(path, pattern);
    NotAtStart(path, parts[0], pattern[0]);
    SeveralParts(pattern);
  }

  lemma NotAtStart(path: string, part: string, c: char)
    requires part != [] && part[0] == c && path != [] && path[0] != c
    ensures !Occurs(path, part, 0)
  {
    if |part| <= |path| {
      assert path[0..|part|][0] == path[0];
    }
  }

  lemma SeveralParts(pattern: string)
    requires '*' in pattern && '*' in pattern[..|pattern| - 1]
    ensures var parts := Split(pattern, '*'); |parts| > 2 || parts[1] != ""
  {
    var i := IndexOf(pattern, '*');
    var k :| 0 <= k < |pattern| - 1 && pattern[k] == '*';
    assert i <= k;
  }

  /** The matcher and the standard agree on all paths exactly for these patterns. */
  lemma AgreesIff(pattern: string)
    ensures (forall path :: RfcMatch(path, pattern) <==> CodeMatch(path, pattern)) <==> Exact(pattern)
  {
    if Exact(pattern) {
      forall path
        ensures RfcMatch(path, pattern) <==> CodeMatch(path, pattern)
      {
        if RfcMatch(path, pattern) {
          NoMatchIsMissed(path, pattern);
        }
        if CodeMatch(path, pattern) {
          ExactAgrees(path, pattern);
        }
      }
    } else if EndsWithDollar(pattern) {
      StarAndDollarMiss(pattern);
    } else {
      var path := Unanchored(pattern);
    }
  }

  // ---------- which rule decides: section 2.2.2 of RFC 9309 ----------

  ghost predicate HasMatch(path: string, patterns: seq<string>) {
    exists i :: 0 <= i < |patterns| && RfcMatch(path, patterns[i])
  }

  ghost predicate NoneLonger(path: string, patterns: seq<string>, length: nat) {
    forall i :: 0 <= i < |patterns| && RfcMatch(path, patterns[i]) ==> |patterns[i]| <= length
  }

  /** The most specific match decides, the longest one, and Allow among equally long ones; without a match all is allowed. */
  ghost predicate RfcAllowed(rules: RobotsRules, path: string) {
    (!HasMatch(path, rules.allowPatterns) && !HasMatch(path, rules.disallowPatterns)) ||
    exists i :: 0 <= i < |rules.allowPatterns| && MostSpecific(rules, path, rules.allowPatterns[i])
  }

  ghost predicate MostSpecific(rules: RobotsRules, path: string, pattern: string) {
    RfcMatch(path, pattern) && NoneLonger(path, rules.allowPatterns, |pattern|) && NoneLonger(path, rules.disallowPatterns, |pattern|)
  }

  predicate AllExact(patterns: seq<string>) {
    forall i :: 0 <= i < |patterns| ==> Exact(patterns[i])
  }

  /** Some Allow matches, yet for every matching Allow there is a longer matching Disallow. */
  ghost predicate Outranked(rules: RobotsRules, path: string) {
    AnyMatch(path, rules.allowPatterns) &&
    forall i :: 0 <= i < |rules.allowPatterns| && CodeMatch(path, rules.allowPatterns[i]) ==> LongerDisallow(rules, path, |rules.allowPatterns[i]|)
  }

  ghost predicate LongerDisallow(rules: RobotsRules, path: string, length: nat) {
    exists j :: 0 <= j < |rules.disallowPatterns| && CodeMatch(path, rules.disallowPatterns[j]) && |rules.disallowPatterns[j]| > length
  }

  lemma ExactMatches(path: string, patterns: seq<string>, i: nat)
    requires AllExact(patterns) && i < |patterns|
    ensures RfcMatch(path, patterns[i]) <==> CodeMatch(path, patterns[i])
  {
    AgreesIff(patterns[i]);
  }

  lemma ExactHasMatch(path: string, patterns: seq<string>)
    requires AllExact(patterns)
    ensures HasMatch(path, patterns) <==> AnyMatch(path, patterns)
  {
    if i :| 0 <= i < |patterns| && RfcMatch(path, patterns[i]) {
      ExactMatches(path, patterns, i);
    }
    if i :| 0 <= i < |patterns| && CodeMatch(path, patterns[i]) {
      ExactMatches(path, patterns, i);
    }
  }

  lemma ExactLonger(rules: RobotsRules, path: string, length: nat)
    requires AllExact(rules.disallowPatterns)
    ensures LongerDisallow(rules, path, length) <==> !NoneLonger(path, rules.disallowPatterns, length)
  {
    var disallow := rules.disallowPatterns;
    if j :| 0 <= j < |disallow| && RfcMatch(path, disallow[j]) && |disallow[j]| > length {
      ExactMatches(path, disallow, j);
    }
    if j :| 0 <= j < |disallow| && CodeMatch(path, disallow[j]) && |disallow[j]| > length {
      ExactMatches(path, disallow, j);
    }
  }

  /** Among the matching patterns there is a longest. */
  lemma {:induction false} LongestMatch(path: string, patterns: seq<string>) returns (i: nat)
    requires HasMatch(path, patterns)
    ensures i < |patterns| && RfcMatch(path, patterns[i]) && NoneLonger(path, patterns, |patterns[i]|)
  {
    var n := |patterns| - 1;
    if HasMatch(path, patterns[..n]) {
      i := LongestMatch(path, patterns[..n]);
      assert forall k :: 0 <= k < n ==> patterns[..n][k] == patterns[k];
      if RfcMatch(path, patterns[n]) && |patterns[n]| > |patterns[i]| {
        i := n;
      }
    } else {
      assert forall k :: 0 <= k < n ==> !RfcMatch(path, patterns[..n][k]);
      i := n;
    }
  }

  /** Where no matching rule is misread, the program departs from the standard exactly where every matching Allow is outranked. */
  lemma LongestMatchIff(rules: RobotsRules, path: string)
    requires AllExact(rules.allowPatterns) && AllExact(rules.disallowPatterns)
    ensures (CodeAllowed(rules, path) <==> RfcAllowed(rules, path)) <==> !Outranked(rules, path)
  {
    var allow := rules.allowPatterns;
    ExactHasMatch(path, allow);
    ExactHasMatch(path, rules.disallowPatterns);
    if AnyMatch(path, allow) {
      var i := LongestMatch(path, allow);
      ExactMatches(path, allow, i);
      ExactLonger(rules, path, |allow[i]|);
      if MostSpecific(rules, path, allow[i]) {
        assert RfcAllowed(rules, path);
      } else {
        OutrankedByOne(rules, path, i);
      }
    }
  }

  /** A Disallow longer than the longest matching Allow outranks them all, and the standard then forbids the path. */
  lemma OutrankedByOne(rules: RobotsRules, path: string, i: nat)
    requires AllExact(rules.allowPatterns) && AllExact(rules.disallowPatterns)
    requires i < |rules.allowPatterns| && RfcMatch(path, rules.allowPatterns[i])
    requires NoneLonger(path, rules.allowPatterns, |rules.allowPatterns[i]|) && LongerDisallow(rules, path, |rules.allowPatterns[i]|)
    ensures Outranked(rules, path) && !RfcAllowed(rules, path)
  {
    var allow := rules.allowPatterns;
    ExactMatches(path, allow, i);
    forall k | 0 <= k < |allow|
      ensures CodeMatch(path, allow[k]) ==> LongerDisallow(rules, path, |allow[k]|)
      ensures !MostSpecific(rules, path, allow[k])
    {
      ExactMatches(path, allow, k);
      ExactLonger(rules, path, |allow[k]|);
    }
  }

  /** For example, the Allow for everything lets through what a longer Disallow forbids. */
  lemma ShortAllowWins()
    ensures var rules := RobotsRules(["/p"], ["/"]);
      CodeAllowed(rules, "/p") && !RfcAllowed(rules, "/p")
  {
    var rules := RobotsRules(["/p"], ["/"]);
    assert CodeMatch("/p", rules.allowPatterns[0]) && CodeMatch("/p", rules.disallowPatterns[0]);
    assert LongerDisallow(rules, "/p", 1);
    LongestMatchIff(rules, "/p");
  }
}
