/**
 Validation of routes and registration patterns (src/domains/routes.rs): the single-pass scan, the
 counting validator, and the scope of a stream selector.
 */
module Patterns {
  import opened ByteStrings
  import opened Errors
  import opened Routes

  const STREAM: Bytes := [115, 116, 114, 101, 97, 109]
  const LETTER: Bytes := [97]

  // ---------------------------------------------------------------- the scan

  datatype Shape = Shape(
    segments: nat,
    firstWildcard: Option<nat>,
    doubleWildcard: bool,
    doubleWildcardCount: nat,
    wildcardSuffix: bool)

  predicate Wildcard(segment: Bytes) {
    segment == ONE || segment == MANY
  }

  /** A wildcard fills its whole segment, and a segment is never empty. */
  predicate WholeSegment(segment: Bytes) {
    segment != [] && (Wildcard(segment) || STAR !in segment)
  }

  predicate WellShaped(segments: seq<Bytes>) {
    && (forall k :: 0 <= k < |segments| ==> WholeSegment(segments[k]))
    && (forall k :: 0 < k < |segments| ==> !(segments[k - 1] == MANY && segments[k] == MANY))
  }

  predicate HasScheme(route: Bytes, scheme: Bytes) {
    && scheme != [] && |route| > |scheme| + 3
    && scheme <= route && route[|scheme|..|scheme| + 3] == SEPARATOR
  }

  /** The segments a validator looks at: everything after `scheme://`, split at each '/'. */
  function PathSegments(route: Bytes, scheme: Bytes): seq<Bytes>
    requires HasScheme(route, scheme)
  {
    Split(route[|scheme| + 3..])
  }

  /** Every route and pattern of a scheme, whatever its length in bytes. */
  predicate InGrammar(route: Bytes, scheme: Bytes) {
    HasScheme(route, scheme) && WellShaped(PathSegments(route, scheme))
  }

  predicate Scans(route: Bytes, scheme: Bytes) {
    |route| <= MAX_ROUTE_BYTES && InGrammar(route, scheme)
  }

  /** What each field of a shape says about the segments scanned. */
  ghost predicate Describes(shape: Shape, segments: seq<Bytes>) {
    && shape.segments == |segments|
    && (shape.firstWildcard.None? <==> forall k :: 0 <= k < |segments| ==> !Wildcard(segments[k]))
    && (shape.firstWildcard.Some? ==>
          && shape.firstWildcard.value < |segments| && Wildcard(segments[shape.firstWildcard.value])
          && forall k :: 0 <= k < shape.firstWildcard.value ==> !Wildcard(segments[k]))
    && shape.doubleWildcardCount == Doubles(segments)
    && (shape.doubleWildcard <==> MANY in segments)
    && (shape.wildcardSuffix <==> forall j, k :: 0 <= j < k < |segments| && Wildcard(segments[j]) ==> Wildcard(segments[k]))
  }

  function ScanResult(route: Bytes, scheme: Bytes): Result<Shape> {
    if |route| > MAX_ROUTE_BYTES || !HasScheme(route, scheme) then Err(Protocol)
    else AddSegments(NO_SEGMENTS, PathSegments(route, scheme), false)
  }

  method Scan(route: Bytes, scheme: Bytes) returns (r: Result<Shape>)
    ensures r == ScanResult(route, scheme)
  {
    if |route| > MAX_ROUTE_BYTES {
      return Err(Protocol);
    }
    var start := |scheme| + 3;
    if scheme == [] || |route| <= start || !(scheme <= route) || route[|scheme|..start] != SEPARATOR {
      return Err(Protocol);
    }
    r := ScanPath(route[start..]);
  }

  /** The scan accepts exactly the grammar, and its shape describes the segments it saw. */
  lemma ScanMeans(route: Bytes, scheme: Bytes)
    ensures var r := ScanResult(route, scheme);
            && (r.Ok? <==> Scans(route, scheme))
            && (r.Ok? ==> Describes(r.value, PathSegments(route, scheme)))
            && (r.Err? ==> r.error == Protocol)
  {
    if HasScheme(route, scheme) {
      var segments := PathSegments(route, scheme);
      AddSegmentsDescribes(NO_SEGMENTS, [], segments);
      assert [] + segments == segments;
    }
  }

  /** The shape after one more segment, or the reason `scan` stops at it. */
  function AddSegment(shape: Shape, segment: Bytes, prevDoubleWildcard: bool): Result<Shape> {
    if !WholeSegment(segment) || (prevDoubleWildcard && segment == MANY) then Err(Protocol)
    else if Wildcard(segment) then
      Ok(shape.(
        segments := shape.segments + 1,
        firstWildcard := if shape.firstWildcard.None? then Some(shape.segments) else shape.firstWildcard,
        doubleWildcard := shape.doubleWildcard || segment == MANY,
        doubleWildcardCount := shape.doubleWildcardCount + (if segment == MANY then 1 else 0)))
    else
      Ok(shape.(
        segments := shape.segments + 1,
        wildcardSuffix := shape.wildcardSuffix && shape.firstWildcard.None?))
  }

  function AddSegments(shape: Shape, segments: seq<Bytes>, prevDoubleWildcard: bool): Result<Shape>
    decreases |segments|
  {
    if segments == [] then Ok(shape)
    else
      var next :- AddSegment(shape, segments[0], prevDoubleWildcard);
      AddSegments(next, segments[1..], segments[0] == MANY)
  }

  lemma AddSegmentsFirst(shape: Shape, segments: seq<Bytes>, prevDoubleWildcard: bool)
    requires segments != []
    ensures AddSegments(shape, segments, prevDoubleWildcard) == (
              var next := AddSegment(shape, segments[0], prevDoubleWildcard);
              if next.Ok? then AddSegments(next.value, segments[1..], segments[0] == MANY) else next)
  {
  }

  const NO_SEGMENTS := Shape(0, None, false, 0, true)

  /** The loop of `scan`, with indices counted from the start of the path. */
  method ScanPath(path: Bytes) returns (r: Result<Shape>)
    ensures r == AddSegments(NO_SEGMENTS, Split(path), false)
  {
    hide AddSegment, Split;
    var shape := NO_SEGMENTS;
    var segmentStart: nat := 0;
    var prevDoubleWildcard := false;
    assert path[0..] == path;
    ghost var left := Split(path);
    ghost var answer := AddSegments(shape, left, false);
    for index := 0 to |path| + 1
      invariant segmentStart <= index
      invariant segmentStart <= |path| ==> index <= |path|
      invariant segmentStart <= |path| ==> NoSlash(path, segmentStart, index)
      invariant segmentStart > |path| ==> index == |path| + 1
      invariant SplitLeft(path, segmentStart, left)
      invariant answer == AddSegments(shape, left, prevDoubleWildcard)
    {
      if index == |path| || path[index] == SLASH {
        var segment := path[segmentStart..index];
        ScanStep(path, segmentStart, index, left, shape, prevDoubleWildcard);
        shape :- CloseSegment(shape, segment, prevDoubleWildcard);
        prevDoubleWildcard := segment == MANY;
        left := left[1..];
        segmentStart := index + 1;
      }
    }
    r := Ok(shape);
  }

  /** The loop body of `scan` at the end of a segment. */
  method CloseSegment(current: Shape, segment: Bytes, prevDoubleWildcard: bool) returns (r: Result<Shape>)
    ensures r == AddSegment(current, segment, prevDoubleWildcard)
  {
    if segment == [] {
      return Err(Protocol);
    }
    var shape := current;
    var wildcard := segment == ONE;
    var doubleWildcard := segment == MANY;
    if wildcard || doubleWildcard {
      if shape.firstWildcard.None? {
        shape := shape.(firstWildcard := Some(shape.segments));
      }
      shape := shape.(doubleWildcard := shape.doubleWildcard || doubleWildcard);
      if doubleWildcard {
        if prevDoubleWildcard {
          return Err(Protocol);
        }
        shape := shape.(doubleWildcardCount := shape.doubleWildcardCount + 1);
      }
    } else {
      if STAR in segment {
        return Err(Protocol);
      }
      if shape.firstWildcard.Some? {
        shape := shape.(wildcardSuffix := false);
      }
    }
    r := Ok(shape.(segments := shape.segments + 1));
  }

  /** The fold over segments succeeds exactly on well-shaped lists, and its shape describes them. */
  lemma {:induction false} AddSegmentsDescribes(shape: Shape, done: seq<Bytes>, left: seq<Bytes>)
    requires WellShaped(done) && Describes(shape, done)
    ensures var r := AddSegments(shape, left, done != [] && done[|done| - 1] == MANY);
            && (r.Ok? <==> WellShaped(done + left))
            && (r.Ok? ==> Describes(r.value, done + left))
            && (r.Err? ==> r.error == Protocol)
    decreases |left|
  {
    if left == [] {
      assert done + left == done;
    } else {
      var segment, prev := left[0], done != [] && done[|done| - 1] == MANY;
      var next := AddSegment(shape, segment, prev);
      AddSegmentsFirst(shape, left, prev);
      if next.Ok? {
        OneMore(shape, next.value, done, segment);
        MoveOne(done, left);
        AddSegmentsDescribes(next.value, done + [segment], left[1..]);
      } else {
        BadSegment(done, left);
      }
    }
  }

  lemma MoveOne(done: seq<Bytes>, left: seq<Bytes>)
    requires left != []
    ensures done + left == (done + [left[0]]) + left[1..]
    ensures (done + [left[0]])[|done + [left[0]]| - 1] == left[0]
  {
  }

  lemma BadSegment(done: seq<Bytes>, left: seq<Bytes>)
    requires left != []
    requires !WholeSegment(left[0]) || (done != [] && done[|done| - 1] == MANY && left[0] == MANY)
    ensures !WellShaped(done + left)
  {
    var all := done + left;
    assert all[|done|] == left[0] && (done != [] ==> all[|done| - 1] == done[|done| - 1]);
  }

  /** `left` are the segments from `start` on; there are none past the end of the path. */
  predicate SplitLeft(path: Bytes, start: nat, left: seq<Bytes>) {
    left == if start <= |path| then Split(path[start..]) else []
  }

  lemma SplitStep(path: Bytes, start: nat, end: nat, left: seq<Bytes>)
    requires start <= end <= |path| && NoSlash(path, start, end) && (end < |path| ==> path[end] == SLASH)
    requires SplitLeft(path, start, left)
    ensures left != [] && left[0] == path[start..end] && SplitLeft(path, end + 1, left[1..])
  {
    var tail := path[start..];
    assert NoSlash(tail, 0, end - start) by {
      assert forall k :: 0 <= k < end - start ==> tail[k] == path[start + k];
    }
    SegmentEndIs(tail, 0, end - start);
    assert tail[..end - start] == path[start..end];
    if end < |path| {
      assert tail[end - start + 1..] == path[end + 1..];
    } else {
      assert tail == path[start..end];
    }
  }

  /** What closing the segment that ends at `end` leaves to be scanned. */
  lemma ScanStep(path: Bytes, start: nat, end: nat, left: seq<Bytes>, shape: Shape, prevDoubleWildcard: bool)
    requires start <= end <= |path| && NoSlash(path, start, end) && (end < |path| ==> path[end] == SLASH)
    requires SplitLeft(path, start, left)
    ensures left != [] && SplitLeft(path, end + 1, left[1..])
    ensures AddSegments(shape, left, prevDoubleWildcard) == (
              var next := AddSegment(shape, path[start..end], prevDoubleWildcard);
              if next.Ok? then AddSegments(next.value, left[1..], path[start..end] == MANY) else next)
  {
    SplitStep(path, start, end, left);
    AddSegmentsFirst(shape, left, prevDoubleWildcard);
  }

  lemma OneMore(before: Shape, after: Shape, done: seq<Bytes>, segment: Bytes)
    requires WellShaped(done) && Describes(before, done)
    requires AddSegment(before, segment, done != [] && done[|done| - 1] == MANY) == Ok(after)
    ensures WellShaped(done + [segment]) && Describes(after, done + [segment])
  {
    var more := done + [segment];
    DoublesConcat(done, [segment]);
    OneMoreWellShaped(done, segment);
    OneMoreWildcard(before, done, segment);
    assert MANY in more <==> MANY in done || segment == MANY;
  }

  lemma OneMoreWellShaped(done: seq<Bytes>, segment: Bytes)
    requires WellShaped(done) && WholeSegment(segment)
    requires !(done != [] && done[|done| - 1] == MANY && segment == MANY)
    ensures WellShaped(done + [segment])
  {
    var more := done + [segment];
    assert forall k :: 0 <= k < |done| ==> more[k] == done[k];
    assert more[|done|] == segment;
  }

  lemma OneMoreWildcard(before: Shape, done: seq<Bytes>, segment: Bytes)
    requires Describes(before, done)
    ensures var more := done + [segment];
            var first := if before.firstWildcard.None? && Wildcard(segment) then Some(|done|) else before.firstWildcard;
            && (first.None? <==> forall k :: 0 <= k < |more| ==> !Wildcard(more[k]))
            && (first.Some? ==>
                  && first.value < |more| && Wildcard(more[first.value])
                  && forall k :: 0 <= k < first.value ==> !Wildcard(more[k]))
            && (before.wildcardSuffix && (Wildcard(segment) || before.firstWildcard.None?) <==>
                  forall j, k :: 0 <= j < k < |more| && Wildcard(more[j]) ==> Wildcard(more[k]))
  {
    var more := done + [segment];
    assert forall k :: 0 <= k < |done| ==> more[k] == done[k];
    assert more[|done|] == segment;
    if before.firstWildcard.Some? {
      assert Wildcard(more[before.firstWildcard.value]);
    }
    if !before.wildcardSuffix {
      var j, k :| 0 <= j < k < |done| && Wildcard(done[j]) && !Wildcard(done[k]);
      assert Wildcard(more[j]) && !Wildcard(more[k]);
    }
  }

  // ---------------------------------------------------------------- validators

  predicate Concrete(segments: seq<Bytes>) {
    forall k :: 0 <= k < |segments| ==> segments[k] != [] && STAR !in segments[k]
  }

  /** A route of `n` segments without wildcards, whatever its length in bytes. */
  predicate ConcreteRoute(route: Bytes, scheme: Bytes, n: nat) {
    HasScheme(route, scheme) && Concrete(PathSegments(route, scheme)) && |PathSegments(route, scheme)| == n
  }

  predicate FixedRoute(route: Bytes, scheme: Bytes, n: nat) {
    |route| <= MAX_ROUTE_BYTES && ConcreteRoute(route, scheme, n)
  }

  method ValidateFixedRoute(route: Bytes, scheme: Bytes, segments: nat) returns (r: Result<()>)
    ensures r.Ok? <==> FixedRoute(route, scheme, segments)
    ensures r.Err? ==> r.error == Protocol
  {
    ScanMeans(route, scheme);
    var shape :- Scan(route, scheme);
    ghost var scanned := PathSegments(route, scheme);
    assert forall k :: 0 <= k < |scanned| ==> WholeSegment(scanned[k]);
    assert shape.firstWildcard.Some? ==> STAR in scanned[shape.firstWildcard.value];
    if shape.segments != segments || shape.firstWildcard.Some? {
      return Err(Protocol);
    }
    r := Ok(());
  }

  /** What the counting validator accepts for a required depth. */
  predicate PatternAccepted(pattern: Bytes, scheme: Bytes, depth: nat) {
    && Scans(pattern, scheme)
    && var segments := PathSegments(pattern, scheme);
    && (depth == 0 || (if Doubles(segments) == 0 then |segments| == depth
                       else |segments| - Doubles(segments) <= depth))
  }

  method ValidateRegistrationPattern(pattern: Bytes, scheme: Bytes, requiredSegments: nat) returns (r: Result<()>)
    ensures r.Ok? <==> PatternAccepted(pattern, scheme, requiredSegments)
    ensures r.Err? ==> r.error == Protocol
  {
    ScanMeans(pattern, scheme);
    var shape :- Scan(pattern, scheme);
    if requiredSegments == 0 {
      return Ok(());
    }
    if shape.doubleWildcardCount == 0 {
      if shape.segments == requiredSegments {
        return Ok(());
      }
    } else if shape.segments - shape.doubleWildcardCount <= requiredSegments {
      return Ok(());
    }
    r := Err(Protocol);
  }

  // ---------------------------------------------------------------- joining segments

  function Join(segments: seq<Bytes>): Bytes
    requires segments != []
  {
    if |segments| == 1 then segments[0] else segments[0] + [SLASH] + Join(segments[1..])
  }

  lemma {:induction false} SplitJoin(segments: seq<Bytes>)
    requires segments != [] && forall k :: 0 <= k < |segments| ==> SLASH !in segments[k]
    ensures Split(Join(segments)) == segments
  {
    var path, first := Join(segments), segments[0];
    assert first == path[..|first|];
    assert forall k :: 0 <= k < |first| ==> path[k] == first[k];
    SegmentEndIs(path, 0, |first|);
    if |segments| > 1 {
      assert path[|first| + 1..] == Join(segments[1..]);
      SplitJoin(segments[1..]);
      assert segments == [first] + segments[1..];
    } else {
      assert segments == [first];
    }
  }

  /** Splitting loses nothing, so the segments of a path are the lists without slashes that join to it. */
  lemma {:induction false} JoinSplit(path: Bytes)
    ensures Join(Split(path)) == path
  {
    var e := SegmentEnd(path, 0);
    if e < |path| {
      JoinSplit(path[e + 1..]);
      assert Split(path)[1..] == Split(path[e + 1..]);
      assert path == path[..e] + [SLASH] + path[e + 1..];
    }
  }

  function RouteOf(scheme: Bytes, segments: seq<Bytes>): Bytes
    requires segments != []
  {
    scheme + SEPARATOR + Join(segments)
  }

  lemma {:induction false} JoinOfConcrete(segments: seq<Bytes>)
    requires segments != [] && Concrete(segments)
    ensures Join(segments) != []
  {
    assert segments[0] != [];
  }

  lemma RouteOfIsConcrete(scheme: Bytes, segments: seq<Bytes>)
    requires scheme != [] && segments != [] && Concrete(segments)
    requires forall k :: 0 <= k < |segments| ==> SLASH !in segments[k]
    ensures ConcreteRoute(RouteOf(scheme, segments), scheme, |segments|)
    ensures PathSegments(RouteOf(scheme, segments), scheme) == segments
  {
    JoinOfConcrete(segments);
    SplitJoin(segments);
    var route := RouteOf(scheme, segments);
    assert route[..|scheme| + 3] == scheme + SEPARATOR;
    assert route[|scheme| + 3..] == Join(segments);
  }

  predicate ConcreteSegment(segment: Bytes) {
    segment != [] && STAR !in segment && SLASH !in segment
  }

  /** The bytes of a fixed route: the scheme and so many segments, none of them empty and none with a star. */
  lemma FixedRouteLanguage(route: Bytes, scheme: Bytes, n: nat)
    requires scheme != [] && n > 0
    ensures FixedRoute(route, scheme, n) <==>
              |route| <= 65535 && exists segments: seq<Bytes> ::
                |segments| == n && (forall k :: 0 <= k < n ==> ConcreteSegment(segments[k])) && route == RouteOf(scheme, segments)
  {
    if FixedRoute(route, scheme, n) {
      var path := route[|scheme| + 3..];
      var segments := Split(path);
      JoinSplit(path);
      SplitHasNoSlash(path);
      assert route == scheme + SEPARATOR + path;
      assert forall k :: 0 <= k < n ==> ConcreteSegment(segments[k]);
      assert route == RouteOf(scheme, segments);
    }
    forall segments: seq<Bytes>
      | |segments| == n && (forall k :: 0 <= k < n ==> ConcreteSegment(segments[k])) && route == RouteOf(scheme, segments)
      ensures ConcreteRoute(route, scheme, n)
    {
      RouteOfIsConcrete(scheme, segments);
    }
  }

  // ---------------------------------------------------------------- where the matcher errs

  lemma ConfusingIsWellShaped(route: seq<Bytes>, k: nat)
    requires k < |route|
    ensures WellShaped(Confusing(route, k))
    ensures forall s :: s in Confusing(route, k) ==> SLASH !in s
  {
    var pattern := Confusing(route, k);
    assert forall j :: 0 <= j < |pattern| ==> pattern[j] == if j == k then MANY else ONE;
  }

  /** Among patterns that can be registered, too, the matcher errs exactly on routes with a `**` segment. */
  lemma MatcherAgreesOnPatterns(route: seq<Bytes>)
    ensures (forall pattern :: WellShaped(pattern) ==> (Greedy(pattern, route, NoRetry) <==> Meaning(pattern, route)))
            <==> MANY !in route
  {
    MatcherAgreesExactly(route);
    if MANY in route {
      var k :| 0 <= k < |route| && route[k] == MANY;
      ConfusingIsMissed(route, k);
      ConfusingIsWellShaped(route, k);
    }
  }

  /** On bytes: the matcher compares the pattern's scanned segments with the route's walked ones. */
  lemma MatchesBySegments(route: Bytes, pattern: Bytes, scheme: Bytes)
    requires NoSeparator(scheme) && HasScheme(route, scheme) && InGrammar(pattern, scheme)
    ensures RouteMatches(route, pattern)
            <==> Greedy(PathSegments(pattern, scheme), Segments(route[|scheme| + 3..]), NoRetry)
  {
    var p := PathSegments(pattern, scheme);
    SchemeAndPath(route, scheme);
    SchemeAndPath(pattern, scheme);
    assert [] !in p by { assert forall k :: 0 <= k < |p| ==> WholeSegment(p[k]); }
    SegmentsAreSplit(pattern[|scheme| + 3..]);
  }

  lemma {:induction false} JoinOfWildcards(segments: seq<Bytes>)
    requires segments != [] && forall k :: 0 <= k < |segments| ==> Wildcard(segments[k])
    ensures |Join(segments)| == 2 * |segments| - 1 + Doubles(segments)
  {
    if |segments| > 1 {
      JoinOfWildcards(segments[1..]);
    } else {
      assert segments[1..] == [] && Doubles(segments[1..]) == 0;
    }
  }

  lemma {:induction false} NoDoubleOnes(n: nat)
    ensures Doubles(Ones(n)) == 0
  {
    if n > 0 {
      assert Ones(n)[1..] == Ones(n - 1);
      NoDoubleOnes(n - 1);
    }
  }

  lemma ConfusingLength(route: seq<Bytes>, k: nat)
    requires k < |route|
    ensures |Join(Confusing(route, k))| == 2 * |route| + 2
  {
    var segments := Confusing(route, k);
    assert forall j :: 0 <= j < |segments| ==> segments[j] == if j == k then MANY else ONE;
    JoinOfWildcards(segments);
    DoublesConcat(Ones(k), [MANY]);
    DoublesConcat(Ones(k) + [MANY], Ones(|route| - k));
    NoDoubleOnes(k);
    NoDoubleOnes(|route| - k);
    assert Doubles([MANY]) == 1 by { assert [MANY][1..] == []; }
  }

  /** A registrable pattern, a little longer than the route, that means the route and is not sent it. */
  lemma MissedPattern(route: Bytes, scheme: Bytes) returns (pattern: Bytes)
    requires NoSeparator(scheme) && HasScheme(route, scheme) && MANY in Segments(route[|scheme| + 3..])
    ensures InGrammar(pattern, scheme) && !RouteMatches(route, pattern)
    ensures Meaning(PathSegments(pattern, scheme), Segments(route[|scheme| + 3..]))
    ensures |pattern| == |scheme| + 5 + 2 * |Segments(route[|scheme| + 3..])|
  {
    var r := Segments(route[|scheme| + 3..]);
    var k :| 0 <= k < |r| && r[k] == MANY;
    var segments := Confusing(r, k);
    ConfusingIsMissed(r, k);
    ConfusingIsWellShaped(r, k);
    pattern := RouteOf(scheme, segments);
    SplitJoin(segments);
    ConfusingLength(r, k);
    assert pattern[..|scheme| + 3] == scheme + SEPARATOR && pattern[|scheme| + 3..] == Join(segments);
    MatchesBySegments(route, pattern, scheme);
  }

  /**
   On bytes, for every route of a scheme: the matcher gives all patterns of the grammar their meaning
   exactly when no segment of the route is `**`; and the same for the patterns that registration
   accepts, when the route has no more segments than such a pattern can.
   */
  lemma RouteMatchesItsMeaning(route: Bytes, scheme: Bytes)
    requires NoSeparator(scheme) && HasScheme(route, scheme)
    ensures var r := Segments(route[|scheme| + 3..]);
            && ((forall pattern :: InGrammar(pattern, scheme) ==>
                   (RouteMatches(route, pattern) <==> Meaning(PathSegments(pattern, scheme), r))) <==> MANY !in r)
            && (|scheme| + 5 + 2 * |r| <= MAX_ROUTE_BYTES ==>
                  ((forall pattern :: PatternAccepted(pattern, scheme, 0) ==>
                     (RouteMatches(route, pattern) <==> Meaning(PathSegments(pattern, scheme), r))) <==> MANY !in r))
  {
    var r := Segments(route[|scheme| + 3..]);
    if MANY in r {
      var pattern := MissedPattern(route, scheme);
    } else {
      forall pattern | InGrammar(pattern, scheme)
        ensures RouteMatches(route, pattern) <==> Meaning(PathSegments(pattern, scheme), r)
      {
        MatchesBySegments(route, pattern, scheme);
        MatcherAgreesExactly(r);
      }
    }
  }

  /**
   Whatever the schemes: a pattern in the grammar is sent a route without a `**` segment if and only if
   it has the route's scheme and means its path.
   */
  lemma MatchesIffMeant(route: Bytes, s1: Bytes, pattern: Bytes, s2: Bytes)
    requires NoSeparator(s1) && HasScheme(route, s1) && NoSeparator(s2) && InGrammar(pattern, s2)
    requires MANY !in Segments(route[|s1| + 3..])
    ensures RouteMatches(route, pattern) <==>
              s1 == s2 && Meaning(PathSegments(pattern, s2), Segments(route[|s1| + 3..]))
  {
    if s1 == s2 {
      MatchesBySegments(route, pattern, s1);
      MatcherAgreesExactly(Segments(route[|s1| + 3..]));
    } else {
      OtherScheme(route, s1, pattern, s2);
    }
  }

  lemma OtherScheme(route: Bytes, s1: Bytes, pattern: Bytes, s2: Bytes)
    requires NoSeparator(s1) && HasScheme(route, s1) && NoSeparator(s2) && HasScheme(pattern, s2)
    ensures s1 != s2 ==> !RouteMatches(route, pattern)
  {
    hide Greedy;
    SchemeAndPath(route, s1);
    SchemeAndPath(pattern, s2);
  }

  /** On scanned inputs of one scheme the matcher has its meaning on the validator's segments. */
  lemma MatchesByMeaning(route: Bytes, pattern: Bytes, scheme: Bytes, n: nat)
    requires NoSeparator(scheme) && ConcreteRoute(route, scheme, n) && InGrammar(pattern, scheme)
    ensures RouteMatches(route, pattern) <==> Meaning(PathSegments(pattern, scheme), PathSegments(route, scheme))
  {
    var r := PathSegments(route, scheme);
    SegmentsAreSplit(route[|scheme| + 3..]);
    MatchesBySegments(route, pattern, scheme);
    MatcherAgreesExactly(r);
    assert MANY !in r by {
      assert STAR in MANY;
    }
  }

  lemma SchemeAndPath(route: Bytes, scheme: Bytes)
    requires NoSeparator(scheme) && HasScheme(route, scheme)
    ensures SplitScheme(route, 0) == Some((scheme, route[|scheme| + 3..]))
  {
    var path := route[|scheme| + 3..];
    assert route[..|scheme| + 3] == scheme + SEPARATOR;
    assert route == scheme + SEPARATOR + path;
    SplitSchemeIs(route, scheme, path);
  }

  // ---------------------------------------------------------------- satisfiability

  /** A route for a pattern: `*` becomes a letter, and the first `**` becomes `fill` letters. */
  function Instance(pattern: seq<Bytes>, fill: nat): seq<Bytes> {
    if pattern == [] then []
    else if pattern[0] == MANY then Letters(fill) + Instance(pattern[1..], 0)
    else [if pattern[0] == ONE then LETTER else pattern[0]] + Instance(pattern[1..], fill)
  }

  function Letters(n: nat): (s: seq<Bytes>)
    ensures |s| == n && forall k :: 0 <= k < n ==> s[k] == LETTER
  {
    if n == 0 then [] else [LETTER] + Letters(n - 1)
  }

  lemma {:induction false} InstanceMatches(pattern: seq<Bytes>, fill: nat)
    ensures Meaning(pattern, Instance(pattern, fill))
    ensures |Instance(pattern, fill)| == |pattern| - Doubles(pattern) + (if Doubles(pattern) > 0 then fill else 0)
  {
    if pattern == [] {
    } else if pattern[0] == MANY {
      InstanceMatches(pattern[1..], 0);
      ManyAbsorbs(pattern, Letters(fill), Instance(pattern[1..], 0));
    } else {
      InstanceMatches(pattern[1..], fill);
      assert Instance(pattern, fill)[1..] == Instance(pattern[1..], fill);
    }
  }

  lemma {:induction false} InstanceIsConcrete(pattern: seq<Bytes>, fill: nat)
    requires WellShaped(pattern) && forall k :: 0 <= k < |pattern| ==> SLASH !in pattern[k]
    ensures Concrete(Instance(pattern, fill))
    ensures forall k :: 0 <= k < |Instance(pattern, fill)| ==> SLASH !in Instance(pattern, fill)[k]
  {
    if pattern != [] {
      assert WholeSegment(pattern[0]);
      assert WellShaped(pattern[1..]);
      InstanceIsConcrete(pattern[1..], 0);
      InstanceIsConcrete(pattern[1..], fill);
    }
  }

  /** Bytes that a segment list takes when joined. */
  function Weight(segments: seq<Bytes>): nat {
    if segments == [] then 0 else |segments[0]| + 1 + Weight(segments[1..])
  }

  lemma {:induction false} WeightConcat(a: seq<Bytes>, b: seq<Bytes>)
    ensures Weight(a + b) == Weight(a) + Weight(b)
  {
    if a == [] {
      assert a + b == b;
    } else {
      assert (a + b)[1..] == a[1..] + b;
      WeightConcat(a[1..], b);
    }
  }

  lemma {:induction false} JoinWeight(segments: seq<Bytes>)
    requires segments != []
    ensures |Join(segments)| + 1 == Weight(segments)
  {
    if |segments| > 1 {
      JoinWeight(segments[1..]);
    }
  }

  lemma {:induction false} SplitWeight(path: Bytes)
    ensures Weight(Split(path)) == |path| + 1
  {
    var e := SegmentEnd(path, 0);
    if e < |path| {
      SplitWeight(path[e + 1..]);
      assert Split(path)[1..] == Split(path[e + 1..]);
    }
  }

  lemma {:induction false} LettersWeight(n: nat)
    ensures Weight(Letters(n)) == 2 * n
  {
    if n > 0 {
      assert Letters(n)[1..] == Letters(n - 1);
      LettersWeight(n - 1);
    }
  }

  lemma {:induction false} InstanceWeight(pattern: seq<Bytes>, fill: nat)
    ensures Weight(Instance(pattern, fill)) <= Weight(pattern) + 2 * fill
  {
    if pattern == [] {
    } else if pattern[0] == MANY {
      WeightConcat(Letters(fill), Instance(pattern[1..], 0));
      LettersWeight(fill);
      InstanceWeight(pattern[1..], 0);
    } else {
      assert Instance(pattern, fill)[1..] == Instance(pattern[1..], fill);
      InstanceWeight(pattern[1..], fill);
    }
  }

  lemma RouteOfMatches(pattern: Bytes, scheme: Bytes, instance: seq<Bytes>)
    requires NoSeparator(scheme) && InGrammar(pattern, scheme) && instance != [] && Concrete(instance)
    requires forall k :: 0 <= k < |instance| ==> SLASH !in instance[k]
    requires Meaning(PathSegments(pattern, scheme), instance)
    ensures ConcreteRoute(RouteOf(scheme, instance), scheme, |instance|)
    ensures RouteMatches(RouteOf(scheme, instance), pattern)
  {
    RouteOfIsConcrete(scheme, instance);
    MatchesByMeaning(RouteOf(scheme, instance), pattern, scheme, |instance|);
  }

  /** A concrete route, built from an accepted pattern, that the matcher sends to it. */
  lemma Witness(pattern: Bytes, scheme: Bytes, depth: nat) returns (route: Bytes)
    requires NoSeparator(scheme) && depth > 0 && PatternAccepted(pattern, scheme, depth)
    ensures ConcreteRoute(route, scheme, depth) && RouteMatches(route, pattern)
    ensures |route| <= |pattern| + 2 * depth
  {
    var segments := PathSegments(pattern, scheme);
    var fill := depth - (|segments| - Doubles(segments));
    var instance := Instance(segments, fill);
    InstanceMatches(segments, fill);
    SplitHasNoSlash(pattern[|scheme| + 3..]);
    InstanceIsConcrete(segments, fill);
    RouteOfMatches(pattern, scheme, instance);
    route := RouteOf(scheme, instance);
    JoinWeight(instance);
    SplitWeight(pattern[|scheme| + 3..]);
    InstanceWeight(segments, fill);
  }

  /**
   The counting validator accepts a pattern for a depth exactly when it scans and some concrete
   route of that depth is sent to it by the matcher.
   */
  lemma AcceptedIffSatisfiable(pattern: Bytes, scheme: Bytes, depth: nat)
    requires NoSeparator(scheme) && depth > 0
    ensures PatternAccepted(pattern, scheme, depth) <==>
              Scans(pattern, scheme)
              && exists route :: ConcreteRoute(route, scheme, depth) && RouteMatches(route, pattern)
  {
    if PatternAccepted(pattern, scheme, depth) {
      var route := Witness(pattern, scheme, depth);
    }
    if Scans(pattern, scheme) {
      forall route | ConcreteRoute(route, scheme, depth) && RouteMatches(route, pattern)
        ensures PatternAccepted(pattern, scheme, depth)
      {
        MatchesByMeaning(route, pattern, scheme, depth);
        MeaningNeeds(PathSegments(pattern, scheme), PathSegments(route, scheme));
      }
    }
  }

  /** With room for the segments a `**` must stand for, the route also passes `validate_fixed_route`. */
  lemma AcceptedIffRoutable(pattern: Bytes, scheme: Bytes, depth: nat)
    requires NoSeparator(scheme) && depth > 0 && |pattern| + 2 * depth <= MAX_ROUTE_BYTES
    ensures PatternAccepted(pattern, scheme, depth) <==>
              Scans(pattern, scheme)
              && exists route :: FixedRoute(route, scheme, depth) && RouteMatches(route, pattern)
  {
    AcceptedIffSatisfiable(pattern, scheme, depth);
    if PatternAccepted(pattern, scheme, depth) {
      var route := Witness(pattern, scheme, depth);
      assert FixedRoute(route, scheme, depth);
    }
  }
}
