/**
 Route and registration-pattern shapes (src/domains/routes.rs): the index-based greedy matcher and
 the single-pass scan, each proved against its meaning on lists of segments.
 */
module Routes {
  import opened ByteStrings
  import opened Errors

  const SLASH: byte := 47
  const STAR: byte := 42
  const COLON: byte := 58

  const SEPARATOR: Bytes := [COLON, SLASH, SLASH]
  const ONE: Bytes := [STAR]
  const MANY: Bytes := [STAR, STAR]
  const MAX_ROUTE_BYTES := 65535

  // ---------------------------------------------------------------- meaning of a pattern

  /** `*` stands for exactly one segment, `**` for zero or more, anything else for itself. */
  predicate Meaning(pattern: seq<Bytes>, route: seq<Bytes>)
    decreases |pattern| + |route|
  {
    if pattern == [] then route == []
    else if pattern[0] == MANY then
      Meaning(pattern[1..], route) || (route != [] && Meaning(pattern, route[1..]))
    else
      route != [] && (pattern[0] == ONE || pattern[0] == route[0]) && Meaning(pattern[1..], route[1..])
  }

  function Doubles(segments: seq<Bytes>): (n: nat)
    ensures n <= |segments|
  {
    if segments == [] then 0
    else (if segments[0] == MANY then 1 else 0) + Doubles(segments[1..])
  }

  lemma {:induction false} DoublesConcat(a: seq<Bytes>, b: seq<Bytes>)
    ensures Doubles(a + b) == Doubles(a) + Doubles(b)
  {
    if a == [] {
      assert a + b == b;
    } else {
      assert (a + b)[1..] == a[1..] + b;
      DoublesConcat(a[1..], b);
    }
  }

  /** A pattern needs one route segment for each segment of its own that is not `**`. */
  lemma {:induction false} MeaningNeeds(pattern: seq<Bytes>, route: seq<Bytes>)
    requires Meaning(pattern, route)
    ensures |route| >= |pattern| - Doubles(pattern)
    ensures Doubles(pattern) == 0 ==> |route| == |pattern|
    decreases |pattern| + |route|
  {
    if pattern == [] {
    } else if pattern[0] == MANY && !Meaning(pattern[1..], route) {
      MeaningNeeds(pattern, route[1..]);
    } else if pattern[0] == MANY {
      MeaningNeeds(pattern[1..], route);
    } else {
      MeaningNeeds(pattern[1..], route[1..]);
    }
  }

  /** A pattern that starts with `**` still matches when segments are put before the route. */
  lemma {:induction false} ManyAbsorbs(pattern: seq<Bytes>, before: seq<Bytes>, route: seq<Bytes>)
    requires pattern != [] && pattern[0] == MANY && Meaning(pattern, route)
    ensures Meaning(pattern, before + route)
  {
    if before == [] {
      assert before + route == route;
    } else {
      assert (before + route)[1..] == before[1..] + route;
      ManyAbsorbs(pattern, before[1..], route);
    }
  }

  /** A prefix without `**` matches exactly as many segments as it has. */
  lemma {:induction false} PrefixSplits(prefix: seq<Bytes>, pattern: seq<Bytes>, route: seq<Bytes>)
    requires MANY !in prefix && Meaning(prefix + pattern, route)
    ensures |prefix| <= |route| && Meaning(pattern, route[|prefix|..])
  {
    if prefix == [] {
      assert prefix + pattern == pattern;
    } else {
      assert (prefix + pattern)[1..] == prefix[1..] + pattern;
      PrefixSplits(prefix[1..], pattern, route[1..]);
    }
  }

  lemma {:induction false} OnlyDoublesMatchNothing(pattern: seq<Bytes>)
    ensures Meaning(pattern, []) <==> forall s :: s in pattern ==> s == MANY
  {
    if pattern != [] {
      OnlyDoublesMatchNothing(pattern[1..]);
      assert pattern[0] in pattern;
      assert forall s :: s in pattern <==> s == pattern[0] || s in pattern[1..];
    }
  }

  // ---------------------------------------------------------------- the greedy matcher

  /** The one backtrack point: what follows the last `**` seen, and the route it may start from. */
  datatype Retry = NoRetry | RetryAt(after: seq<Bytes>, from: seq<Bytes>)

  predicate RetryFits(pattern: seq<Bytes>, route: seq<Bytes>, retry: Retry) {
    retry.RetryAt? ==> |pattern| <= |retry.after| && |route| <= |retry.from|
  }

  predicate Consumes(pattern: seq<Bytes>, route: seq<Bytes>) {
    pattern != [] && route != [] && (pattern[0] == ONE || pattern[0] == route[0])
  }

  predicate Records(pattern: seq<Bytes>, route: seq<Bytes>) {
    pattern != [] && route != [] && !Consumes(pattern, route) && pattern[0] == MANY
  }

  /** What the matcher's loop decides from a position in both segment lists. */
  predicate Greedy(pattern: seq<Bytes>, route: seq<Bytes>, retry: Retry)
    requires RetryFits(pattern, route, retry)
    decreases if retry.RetryAt? then |retry.after| else |pattern| + 1,
              if retry.RetryAt? then |retry.from| else 0,
              |route|
  {
    if route == [] then
      forall s :: s in pattern ==> s == MANY
    else if Consumes(pattern, route) then
      Greedy(pattern[1..], route[1..], retry)
    else if Records(pattern, route) then
      Greedy(pattern[1..], route, RetryAt(pattern[1..], route))
    else if retry.RetryAt? then
      Greedy(retry.after, retry.from[1..], RetryAt(retry.after, retry.from[1..]))
    else
      false
  }

  lemma GreedyConsumes(pattern: seq<Bytes>, route: seq<Bytes>, retry: Retry)
    requires RetryFits(pattern, route, retry) && Consumes(pattern, route)
    ensures Greedy(pattern, route, retry) == Greedy(pattern[1..], route[1..], retry)
  {
  }

  lemma GreedyRecords(pattern: seq<Bytes>, route: seq<Bytes>, retry: Retry)
    requires RetryFits(pattern, route, retry) && Records(pattern, route)
    ensures Greedy(pattern, route, retry) == Greedy(pattern[1..], route, RetryAt(pattern[1..], route))
  {
  }

  lemma GreedyBacktracks(pattern: seq<Bytes>, route: seq<Bytes>, retry: Retry)
    requires RetryFits(pattern, route, retry) && retry.RetryAt?
    requires route != [] && !Consumes(pattern, route) && !Records(pattern, route)
    ensures var from := retry.from[1..];
            Greedy(pattern, route, retry) == Greedy(retry.after, from, RetryAt(retry.after, from))
  {
  }

  lemma GreedyFails(pattern: seq<Bytes>, route: seq<Bytes>)
    requires route != [] && !Consumes(pattern, route) && !Records(pattern, route)
    ensures !Greedy(pattern, route, NoRetry)
  {
  }

  lemma GreedyEnds(pattern: seq<Bytes>, retry: Retry)
    requires RetryFits(pattern, [], retry)
    ensures Greedy(pattern, [], retry) <==> forall s :: s in pattern ==> s == MANY
  {
  }

  lemma MeaningConsumes(pattern: seq<Bytes>, route: seq<Bytes>)
    requires Consumes(pattern, route) && pattern[0] != MANY
    ensures Meaning(pattern, route) <==> Meaning(pattern[1..], route[1..])
  {
  }

  lemma MeaningFails(pattern: seq<Bytes>, route: seq<Bytes>)
    requires route != [] && !Consumes(pattern, route) && !Records(pattern, route)
    ensures !Meaning(pattern, route)
  {
  }

  /** The routes that `retry` still allows. */
  predicate Backtracks(retry: Retry) {
    retry.RetryAt? && retry.from != [] && Meaning([MANY] + retry.after, retry.from[1..])
  }

  /**
   With one backtrack point nothing is lost: `matched` is what has been matched since the last
   `**`, and any match that keeps an earlier `**` longer is also found by the latest one.
   */
  lemma {:induction false} GreedyIsMeaning(
    pattern: seq<Bytes>, route: seq<Bytes>, retry: Retry, matched: seq<Bytes>)
    requires RetryFits(pattern, route, retry)
    requires MANY !in route && (retry.RetryAt? ==> MANY !in retry.from)
    requires retry.RetryAt? ==>
               && MANY !in matched && retry.after == matched + pattern
               && |matched| <= |retry.from| && route == retry.from[|matched|..]
    ensures Greedy(pattern, route, retry) <==> Meaning(pattern, route) || Backtracks(retry)
    decreases if retry.RetryAt? then |retry.after| else |pattern| + 1,
              if retry.RetryAt? then |retry.from| else 0,
              |route|
  {
    hide Greedy, Meaning;
    if route == [] {
      GreedyEnds(pattern, retry);
      OnlyDoublesMatchNothing(pattern);
      if Backtracks(retry) {
        BacktrackIsLongEnough(pattern, retry, matched);
        assert false;
      }
    } else if Consumes(pattern, route) {
      assert pattern[0] != MANY;
      var more := matched + [pattern[0]];
      assert retry.RetryAt? ==> matched + pattern == more + pattern[1..];
      GreedyConsumes(pattern, route, retry);
      MeaningConsumes(pattern, route);
      GreedyIsMeaning(pattern[1..], route[1..], retry, more);
    } else if Records(pattern, route) {
      var latest := RetryAt(pattern[1..], route);
      GreedyRecords(pattern, route, retry);
      GreedyIsMeaning(pattern[1..], route, latest, []);
      ManyUnfolds(pattern, route);
      if Backtracks(retry) {
        LatestDoubleSuffices(pattern, route, retry, matched);
      }
    } else {
      MeaningFails(pattern, route);
      if retry.RetryAt? {
        var from := retry.from[1..];
        GreedyBacktracks(pattern, route, retry);
        GreedyIsMeaning(retry.after, from, RetryAt(retry.after, from), []);
        ManyUnfolds([MANY] + retry.after, from);
      } else {
        GreedyFails(pattern, route);
      }
    }
  }

  lemma ManyUnfolds(pattern: seq<Bytes>, route: seq<Bytes>)
    requires pattern != [] && pattern[0] == MANY
    ensures pattern == [MANY] + pattern[1..]
    ensures Meaning(pattern, route) <==> Meaning(pattern[1..], route) || (route != [] && Meaning(pattern, route[1..]))
  {
  }

  /** Once the route is used up, no later start of the last `**` can leave room for what followed it. */
  lemma BacktrackIsLongEnough(pattern: seq<Bytes>, retry: Retry, matched: seq<Bytes>)
    requires Backtracks(retry) && MANY !in matched && retry.after == matched + pattern
    ensures |retry.from| > |matched|
  {
    MeaningNeeds([MANY] + retry.after, retry.from[1..]);
    DoublesConcat([MANY], retry.after);
    DoublesConcat(matched, pattern);
    NoDoubles(matched);
    assert Doubles([MANY]) == 1;
  }

  lemma {:induction false} NoDoubles(segments: seq<Bytes>)
    ensures MANY !in segments <==> Doubles(segments) == 0
  {
    if segments != [] {
      NoDoubles(segments[1..]);
    }
  }

  lemma LatestDoubleSuffices(pattern: seq<Bytes>, route: seq<Bytes>, retry: Retry, matched: seq<Bytes>)
    requires pattern != [] && pattern[0] == MANY && Backtracks(retry)
    requires MANY !in matched && retry.after == matched + pattern
    requires |matched| <= |retry.from| && route == retry.from[|matched|..]
    ensures Meaning(pattern, route)
  {
    var tail := ManyGivesSuffix(retry.after, retry.from[1..]);
    PrefixSplits(matched, pattern, retry.from[1..][tail..]);
    var rest := retry.from[1..][tail..][|matched|..];
    var before := route[..|route| - |rest|];
    assert route == before + rest;
    ManyAbsorbs(pattern, before, rest);
  }

  /** What follows a `**` matches some suffix of the route. */
  lemma {:induction false} ManyGivesSuffix(pattern: seq<Bytes>, route: seq<Bytes>) returns (skip: nat)
    requires Meaning([MANY] + pattern, route)
    ensures skip <= |route| && Meaning(pattern, route[skip..])
  {
    assert ([MANY] + pattern)[1..] == pattern;
    if Meaning(pattern, route) {
      skip := 0;
    } else {
      var s := ManyGivesSuffix(pattern, route[1..]);
      skip := s + 1;
    }
  }

  /** A pattern, in the grammar of patterns, on which the matcher errs for a route with a segment `**` at `k`. */
  function Confusing(route: seq<Bytes>, k: nat): seq<Bytes>
    requires k < |route|
  {
    Ones(k) + [MANY] + Ones(|route| - k)
  }

  function Ones(n: nat): (s: seq<Bytes>)
    ensures |s| == n && forall k :: 0 <= k < n ==> s[k] == ONE
  {
    if n == 0 then [] else [ONE] + Ones(n - 1)
  }

  lemma {:induction false} OnesMatch(route: seq<Bytes>)
    ensures Meaning(Ones(|route|), route)
  {
    if route != [] {
      OnesMatch(route[1..]);
    }
  }

  lemma {:induction false} TooManyOnes(n: nat, route: seq<Bytes>)
    requires n > |route|
    ensures !Greedy(Ones(n), route, NoRetry)
  {
    if route == [] {
      assert Ones(n)[0] == ONE && Ones(n)[0] in Ones(n);
    } else {
      TooManyOnes(n - 1, route[1..]);
    }
  }

  lemma {:induction false} ConfusingIsMissed(route: seq<Bytes>, k: nat)
    requires k < |route| && route[k] == MANY
    ensures Meaning(Confusing(route, k), route) && !Greedy(Confusing(route, k), route, NoRetry)
    decreases k
  {
    var pattern := Confusing(route, k);
    if k == 0 {
      assert pattern == [MANY] + Ones(|route|);
      assert pattern[1..] == Ones(|route|);
      OnesMatch(route);
      TooManyOnes(|route|, route[1..]);
    } else {
      assert pattern[0] == Ones(k)[0] == ONE && Ones(k)[1..] == Ones(k - 1);
      assert pattern[1..] == Confusing(route[1..], k - 1);
      ConfusingIsMissed(route[1..], k - 1);
    }
  }

  /**
   The literal arm is tried before the `**` arm, so the matcher has the meaning of every pattern
   on a route exactly when the route has no segment that is itself `**`.
   */
  lemma MatcherAgreesExactly(route: seq<Bytes>)
    ensures (forall pattern :: Greedy(pattern, route, NoRetry) <==> Meaning(pattern, route)) <==> MANY !in route
  {
    if MANY in route {
      var k :| 0 <= k < |route| && route[k] == MANY;
      ConfusingIsMissed(route, k);
    } else {
      forall pattern ensures Greedy(pattern, route, NoRetry) <==> Meaning(pattern, route) {
        GreedyIsMeaning(pattern, route, NoRetry, []);
      }
    }
  }

  // ---------------------------------------------------------------- segments of a byte string

  predicate NoSlash(path: Bytes, from: nat, to: nat)
    requires to <= |path|
  {
    forall k :: from <= k < to ==> path[k] != SLASH
  }

  /** The first '/' at or after `i`, or the end of the path. */
  function SegmentEnd(path: Bytes, i: nat): (e: nat)
    requires i <= |path|
    ensures i <= e <= |path| && NoSlash(path, i, e) && (e < |path| ==> path[e] == SLASH)
    decreases |path| - i
  {
    if i == |path| || path[i] == SLASH then i else SegmentEnd(path, i + 1)
  }

  function NextSegment(path: Bytes, start: nat): (r: Option<(Bytes, nat)>)
    ensures r.Some? ==> start < r.value.1 <= |path|
  {
    if start >= |path| then None
    else
      var e := SegmentEnd(path, start);
      if e < |path| then Some((path[start..e], e + 1)) else Some((path[start..], |path|))
  }

  /** The segments the matcher's cursor visits; a trailing '/' only ends the last one. */
  function Segments(path: Bytes): seq<Bytes> {
    if path == [] then []
    else
      var e := SegmentEnd(path, 0);
      if e < |path| then [path[..e]] + Segments(path[e + 1..]) else [path]
  }

  /** `str::split('/')`: a trailing '/' is followed by an empty segment. */
  function Split(path: Bytes): (s: seq<Bytes>)
    ensures s != []
  {
    var e := SegmentEnd(path, 0);
    if e == |path| then [path] else [path[..e]] + Split(path[e + 1..])
  }

  lemma {:induction false} SplitHasNoSlash(path: Bytes)
    ensures forall k :: 0 <= k < |Split(path)| ==> SLASH !in Split(path)[k]
  {
    var e := SegmentEnd(path, 0);
    if e < |path| {
      SplitHasNoSlash(path[e + 1..]);
    }
  }

  lemma {:induction false} SegmentEndIs(path: Bytes, start: nat, e: nat)
    requires start <= e <= |path| && NoSlash(path, start, e) && (e < |path| ==> path[e] == SLASH)
    ensures SegmentEnd(path, start) == e
    decreases e - start
  {
    if start < e {
      SegmentEndIs(path, start + 1, e);
    }
  }

  /** The cursor's next segment is the first of the segments that remain. */
  lemma NextSegmentIsFirst(path: Bytes, start: nat)
    requires start < |path|
    ensures var (segment, next) := NextSegment(path, start).value;
            Segments(path[start..]) == [segment] + Segments(path[next..])
  {
    var tail := path[start..];
    var e := SegmentEnd(tail, 0);
    assert path[start..start + e] == tail[..e];
    assert NoSlash(path, start, start + e) by {
      assert forall k :: start <= k < start + e ==> path[k] == tail[k - start];
    }
    SegmentEndIs(path, start, start + e);
    if e < |tail| {
      assert path[start + e + 1..] == tail[e + 1..];
    } else {
      assert path[|path|..] == [];
    }
  }

  /** On every path, the cursor's segments are those between the slashes, less an empty last one. */
  lemma {:induction false} SegmentsOfSplit(path: Bytes)
    ensures Segments(path) == if path == [] || path[|path| - 1] == SLASH then Split(path)[..|Split(path)| - 1] else Split(path)
  {
    var e := SegmentEnd(path, 0);
    if path != [] && e < |path| {
      var rest := path[e + 1..];
      SegmentsOfSplit(rest);
      assert rest != [] ==> rest[|rest| - 1] == path[|path| - 1];
      assert Split(path)[1..] == Split(rest);
    }
  }

  /** The scan and the matcher see the same segments wherever no segment is empty. */
  lemma {:induction false} SegmentsAreSplit(path: Bytes)
    requires [] !in Split(path)
    ensures Segments(path) == Split(path)
  {
    var e := SegmentEnd(path, 0);
    if e < |path| {
      assert Split(path)[1..] == Split(path[e + 1..]);
      SegmentsAreSplit(path[e + 1..]);
    } else {
      assert path == Split(path)[0];
    }
  }

  // ---------------------------------------------------------------- scheme and path

  /** `split_once("://")`: scheme and path around the first separator. */
  function SplitScheme(route: Bytes, i: nat): Option<(Bytes, Bytes)>
    requires i <= |route|
    decreases |route| - i
  {
    if i + 3 > |route| then None
    else if route[i..i + 3] == SEPARATOR then Some((route[..i], route[i + 3..]))
    else SplitScheme(route, i + 1)
  }

  predicate SeparatorAt(s: Bytes, k: nat) {
    k + 3 <= |s| && s[k..k + 3] == SEPARATOR
  }

  predicate NoSeparator(s: Bytes) {
    forall k :: 0 <= k < |s| ==> !SeparatorAt(s, k)
  }

  lemma NoColon(s: Bytes)
    requires COLON !in s
    ensures NoSeparator(s)
  {
    forall k | 0 <= k < |s| ensures !SeparatorAt(s, k) {
      assert s[k] in s;
      assert k + 3 <= |s| ==> s[k..k + 3][0] == s[k];
    }
  }

  /** A scheme, the separator, and a path that is not empty. */
  predicate Under(route: Bytes, scheme: Bytes, path: Bytes) {
    NoSeparator(scheme) && path != [] && route == scheme + SEPARATOR + path
  }

  lemma {:induction false} SplitSchemeFinds(route: Bytes, i: nat)
    requires i <= |route|
    ensures SplitScheme(route, i).None? ==> forall k :: i <= k < |route| ==> !SeparatorAt(route, k)
    ensures SplitScheme(route, i).Some? ==> (
              var (scheme, path) := SplitScheme(route, i).value;
              && i <= |scheme| && route == scheme + SEPARATOR + path
              && forall k :: i <= k < |scheme| ==> !SeparatorAt(route, k))
    decreases |route| - i
  {
    if i + 3 <= |route| {
      if SeparatorAt(route, i) {
        assert route == route[..i] + route[i..i + 3] + route[i + 3..];
      } else {
        SplitSchemeFinds(route, i + 1);
      }
    }
  }

  /** No separator starts before the first one: the two would have to overlap. */
  lemma FirstSeparator(scheme: Bytes, path: Bytes)
    requires NoSeparator(scheme)
    ensures var route := scheme + SEPARATOR + path;
            SeparatorAt(route, |scheme|) && forall k :: 0 <= k < |scheme| ==> !SeparatorAt(route, k)
  {
    var route := scheme + SEPARATOR + path;
    assert route[|scheme|..|scheme| + 3] == SEPARATOR;
    forall k | 0 <= k < |scheme| ensures !SeparatorAt(route, k) {
      if k + 3 <= |scheme| {
        assert route[k..k + 3] == scheme[k..k + 3];
        assert !SeparatorAt(scheme, k);
      } else {
        assert route[|scheme|] == COLON;
        assert k + 3 <= |route| ==> route[k..k + 3][|scheme| - k] == route[|scheme|];
      }
    }
  }

  /** Scheme and path are what stands around the first separator. */
  lemma SplitSchemeIs(route: Bytes, scheme: Bytes, path: Bytes)
    ensures SplitScheme(route, 0) == Some((scheme, path)) <==> NoSeparator(scheme) && route == scheme + SEPARATOR + path
  {
    SplitSchemeFinds(route, 0);
    if SplitScheme(route, 0) == Some((scheme, path)) {
      forall k | 0 <= k < |scheme| ensures !SeparatorAt(scheme, k) {
        assert !SeparatorAt(route, k);
        assert k + 3 <= |scheme| ==> route[k..k + 3] == scheme[k..k + 3];
      }
    }
    if NoSeparator(scheme) && route == scheme + SEPARATOR + path {
      FirstSeparator(scheme, path);
      var found := SplitScheme(route, 0).value;
      assert SeparatorAt(route, |found.0|) by { assert route[|found.0|..|found.0| + 3] == SEPARATOR; }
      assert |found.0| == |scheme|;
      assert found.0 == route[..|scheme|] == scheme && found.1 == route[|scheme| + 3..] == path;
    }
  }

  /** `route_matches_pattern` on whole byte strings. */
  predicate RouteMatches(route: Bytes, pattern: Bytes) {
    var r, p := SplitScheme(route, 0), SplitScheme(pattern, 0);
    && r.Some? && p.Some? && r.value.0 == p.value.0
    && r.value.1 != [] && p.value.1 != []
    && Greedy(Segments(p.value.1), Segments(r.value.1), NoRetry)
  }

  /** Route and pattern match only under one scheme, each with a path, and then if and only if the paths do. */
  lemma MatchesUnderOneScheme(route: Bytes, pattern: Bytes)
    ensures RouteMatches(route, pattern) <==>
              exists scheme, r, p :: Under(route, scheme, r) && Under(pattern, scheme, p) && Greedy(Segments(p), Segments(r), NoRetry)
  {
    hide Greedy, Segments, NoSeparator, SplitScheme;
    if RouteMatches(route, pattern) {
      var (scheme, r) := SplitScheme(route, 0).value;
      var p := SplitScheme(pattern, 0).value.1;
      SplitSchemeIs(route, scheme, r);
      SplitSchemeIs(pattern, scheme, p);
      assert Under(route, scheme, r) && Under(pattern, scheme, p);
    }
    forall scheme, r, p | Under(route, scheme, r) && Under(pattern, scheme, p) && Greedy(Segments(p), Segments(r), NoRetry)
      ensures RouteMatches(route, pattern)
    {
      SplitSchemeIs(route, scheme, r);
      SplitSchemeIs(pattern, scheme, p);
    }
  }

  method RouteMatchesPattern(route: Bytes, pattern: Bytes) returns (matches: bool)
    ensures matches == RouteMatches(route, pattern)
  {
    var r, p := SplitScheme(route, 0), SplitScheme(pattern, 0);
    if r.None? || p.None? {
      return false;
    }
    var (routeScheme, routePath) := r.value;
    var (patternScheme, patternPath) := p.value;
    if routeScheme != patternScheme {
      return false;
    }
    if routePath == [] || patternPath == [] {
      return false;
    }
    matches := MatchPaths(routePath, patternPath);
  }

  /** The loop of `route_matches_pattern`, over byte indices into both paths. */
  method MatchPaths(routePath: Bytes, patternPath: Bytes) returns (matches: bool)
    ensures matches == Greedy(Segments(patternPath), Segments(routePath), NoRetry)
  {
    var routeIndex: nat, patternIndex: nat := 0, 0;
    var lastDoubleWildcard: Option<nat> := None;
    var lastDoubleMatch: nat := 0;
    assert routePath[0..] == routePath && patternPath[0..] == patternPath;
    ghost var route, pattern, retry := Segments(routePath), Segments(patternPath), NoRetry;
    ghost var answer := Greedy(pattern, route, retry);
    while routeIndex < |routePath|
      invariant routeIndex <= |routePath| && patternIndex <= |patternPath|
      invariant lastDoubleMatch <= routeIndex
      invariant lastDoubleWildcard.Some? ==> lastDoubleWildcard.value <= patternIndex
      invariant route == Segments(routePath[routeIndex..]) && pattern == Segments(patternPath[patternIndex..])
      invariant retry == RetryOf(routePath, patternPath, lastDoubleWildcard, lastDoubleMatch)
      invariant RetryFits(pattern, route, retry)
      invariant answer == Greedy(pattern, route, retry)
      decreases if lastDoubleWildcard.Some? then |patternPath| - lastDoubleWildcard.value else |patternPath| + 1,
                |routePath| - lastDoubleMatch, |routePath| - routeIndex
    {
      NextSegmentIsFirst(routePath, routeIndex);
      if patternIndex < |patternPath| {
        NextSegmentIsFirst(patternPath, patternIndex);
      }
      var (routeSegment, nextRouteIndex) := NextSegment(routePath, routeIndex).value;
      var p := NextSegment(patternPath, patternIndex);
      if p.Some? && (p.value.0 == ONE || p.value.0 == routeSegment) {
        routeIndex := nextRouteIndex;
        patternIndex := p.value.1;
        GreedyConsumes(pattern, route, retry);
        pattern, route := pattern[1..], route[1..];
      } else if p.Some? && p.value.0 == MANY {
        lastDoubleWildcard := Some(p.value.1);
        lastDoubleMatch := routeIndex;
        patternIndex := p.value.1;
        GreedyRecords(pattern, route, retry);
        pattern, retry := pattern[1..], RetryAt(pattern[1..], route);
      } else {
        if lastDoubleWildcard.None? {
          GreedyFails(pattern, route);
          return false;
        }
        NextSegmentIsFirst(routePath, lastDoubleMatch);
        var (_, nextDoubleMatch) := NextSegment(routePath, lastDoubleMatch).value;
        lastDoubleMatch := nextDoubleMatch;
        routeIndex := nextDoubleMatch;
        patternIndex := lastDoubleWildcard.value;
        GreedyBacktracks(pattern, route, retry);
        pattern, route, retry := retry.after, retry.from[1..], RetryAt(retry.after, retry.from[1..]);
      }
    }
    matches := OnlyDoublesLeft(patternPath, patternIndex);
  }

  method OnlyDoublesLeft(patternPath: Bytes, start: nat) returns (matches: bool)
    requires start <= |patternPath|
    ensures matches <==> forall s :: s in Segments(patternPath[start..]) ==> s == MANY
  {
    var patternIndex := start;
    while NextSegment(patternPath, patternIndex).Some?
      invariant patternIndex <= |patternPath|
      invariant (forall s :: s in Segments(patternPath[start..]) ==> s == MANY)
            <==> (forall s :: s in Segments(patternPath[patternIndex..]) ==> s == MANY)
      decreases |patternPath| - patternIndex
    {
      NextSegmentIsFirst(patternPath, patternIndex);
      var (segment, nextPatternIndex) := NextSegment(patternPath, patternIndex).value;
      assert segment in Segments(patternPath[patternIndex..]);
      assert forall s :: s in Segments(patternPath[patternIndex..])
                    <==> s == segment || s in Segments(patternPath[nextPatternIndex..]);
      if segment != MANY {
        return false;
      }
      patternIndex := nextPatternIndex;
    }
    matches := patternIndex == |patternPath|;
  }

  ghost function RetryOf(routePath: Bytes, patternPath: Bytes, wildcard: Option<nat>, from: nat): Retry
    requires from <= |routePath| && (wildcard.Some? ==> wildcard.value <= |patternPath|)
  {
    if wildcard.None? then NoRetry
    else RetryAt(Segments(patternPath[wildcard.value..]), Segments(routePath[from..]))
  }
}
