/** The scope of a stream selector (src/domains/routes.rs:38-90), and what it promises of matching routes. */
module StreamSelectors {
  import opened ByteStrings
  import opened Errors
  import opened Routes
  import opened Patterns

  datatype Scope = Resource | Area | Realm | Global

  const EVERYTHING: Bytes := STREAM + SEPARATOR + MANY

  predicate Literal(segment: Bytes) {
    STAR !in segment
  }

  function ClassifySegments(segments: seq<Bytes>): Result<Scope> {
    if |segments| == 2 && segments[1] == MANY && segments[0] != [] && Literal(segments[0]) then
      Ok(Realm)
    else if |segments| == 3 && forall k :: 0 <= k < 3 ==> Literal(segments[k]) || segments[k] == ONE then
      Ok(if segments[0] == ONE then Global
         else if segments[1] == ONE then Realm
         else if segments[2] == ONE then Area
         else Resource)
    else
      Err(Protocol)
  }

  function Classify(selector: Bytes): Result<Scope> {
    if selector == EVERYTHING then Ok(Global)
    else if !Scans(selector, STREAM) then Err(Protocol)
    else ClassifySegments(PathSegments(selector, STREAM))
  }

  method ClassifyStreamSelector(route: Bytes) returns (r: Result<Scope>)
    ensures r == Classify(route)
  {
    if route == EVERYTHING {
      return Ok(Global);
    }
    ScanMeans(route, STREAM);
    var _ :- Scan(route, STREAM);
    var segments := Split(route[|STREAM| + 3..]);
    if |segments| < 2 || |segments| > 3 {
      return Err(Protocol);
    }
    var realm, area := segments[0], segments[1];
    if |segments| == 2 {
      if area == MANY && realm != [] && STAR !in realm {
        return Ok(Realm);
      }
      return Err(Protocol);
    }
    var resource := segments[2];
    if (STAR !in realm || realm == ONE) && (STAR !in area || area == ONE) && (STAR !in resource || resource == ONE) {
      return Ok(if realm == ONE then Global else if area == ONE then Realm else if resource == ONE then Area else Resource);
    }
    r := Err(Protocol);
  }

  /** Leading segments that a scope fixes. */
  function Depth(scope: Scope): nat {
    match scope
    case Resource => 3
    case Area => 2
    case Realm => 1
    case Global => 0
  }

  /** The three-segment stream routes that a selector is sent. */
  predicate Selects(selector: Bytes, route: Bytes) {
    ConcreteRoute(route, STREAM, 3) && RouteMatches(route, selector)
  }

  lemma EverythingScans()
    ensures Scans(EVERYTHING, STREAM) && PathSegments(EVERYTHING, STREAM) == [MANY]
  {
    assert EVERYTHING[9..] == Join([MANY]);
    SplitJoin([MANY]);
  }

  /** An accepted selector has one of these shapes, and is in the pattern grammar. */
  lemma AcceptedShape(selector: Bytes) returns (segments: seq<Bytes>)
    requires Classify(selector).Ok?
    ensures Scans(selector, STREAM) && segments == PathSegments(selector, STREAM)
    ensures segments == [MANY] || ClassifySegments(segments) == Classify(selector)
    ensures segments == [MANY] ==> Classify(selector) == Ok(Global)
  {
    EverythingScans();
    segments := PathSegments(selector, STREAM);
  }

  lemma ThreeByThree(pattern: seq<Bytes>, route: seq<Bytes>)
    requires |pattern| == |route| == 3 && MANY !in pattern
    ensures Meaning(pattern, route) <==> forall k :: 0 <= k < 3 ==> pattern[k] == ONE || pattern[k] == route[k]
  {
    assert pattern[1..][1..][1..] == [] && route[1..][1..][1..] == [];
    assert Meaning(pattern[1..][1..][1..], route[1..][1..][1..]);
    assert Meaning(pattern[1..][1..], route[1..][1..]) <==> pattern[2] == ONE || pattern[2] == route[2];
  }

  lemma {:induction false} ManyMatchesAll(route: seq<Bytes>)
    ensures Meaning([MANY], route)
  {
    if route == [] {
      assert [MANY][1..] == [];
      assert Meaning([MANY][1..], route);
    } else {
      ManyMatchesAll(route[1..]);
    }
  }

  lemma RealmAndMany(realm: Bytes, route: seq<Bytes>)
    requires |route| == 3 && realm != MANY && realm != ONE
    ensures Meaning([realm, MANY], route) <==> realm == route[0]
  {
    assert [realm, MANY][1..] == [MANY];
    ManyMatchesAll(route[1..]);
  }

  /** What an accepted selector selects, segment by segment. */
  lemma SelectsBySegments(selector: Bytes, route: Bytes)
    requires Classify(selector).Ok? && ConcreteRoute(route, STREAM, 3)
    ensures Scans(selector, STREAM)
    ensures var s, r := PathSegments(selector, STREAM), PathSegments(route, STREAM);
            && (|s| == 1 ==> Selects(selector, route))
            && (|s| == 2 ==> (Selects(selector, route) <==> r[0] == s[0]))
            && (|s| == 3 ==> (Selects(selector, route) <==> forall k :: 0 <= k < 3 ==> s[k] == ONE || s[k] == r[k]))
            && 1 <= |s| <= 3
  {
    var s := AcceptedShape(selector);
    var r := PathSegments(route, STREAM);
    NoColon(STREAM);
    MatchesByMeaning(route, selector, STREAM, 3);
    if s == [MANY] {
      ManyMatchesAll(r);
    } else if |s| == 2 {
      assert s == [s[0], MANY];
      assert STAR in ONE && STAR in MANY;
      RealmAndMany(s[0], r);
    } else {
      assert STAR in MANY && MANY !in s;
      ThreeByThree(s, r);
    }
  }

  /** Everything, everything in a realm, or three segments of which any may be `*`. */
  predicate SelectorShape(segments: seq<Bytes>) {
    || segments == [MANY]
    || (|segments| == 2 && ConcreteSegment(segments[0]) && segments[1] == MANY)
    || (|segments| == 3 && forall k :: 0 <= k < 3 ==> segments[k] == ONE || ConcreteSegment(segments[k]))
  }

  /** The selectors accepted, as bytes. */
  lemma SelectorLanguage(selector: Bytes)
    ensures Classify(selector).Ok? <==>
              |selector| <= MAX_ROUTE_BYTES && exists segments :: SelectorShape(segments) && selector == RouteOf(STREAM, segments)
  {
    hide Split, Join;
    if Classify(selector).Ok? {
      var segments := AcceptedShape(selector);
      var path := selector[|STREAM| + 3..];
      JoinSplit(path);
      SplitHasNoSlash(path);
      assert forall k :: 0 <= k < |segments| ==> WholeSegment(segments[k]);
      assert selector == STREAM + SEPARATOR + path;
      assert SelectorShape(segments) && selector == RouteOf(STREAM, segments);
    }
    forall segments | SelectorShape(segments) && selector == RouteOf(STREAM, segments) && |selector| <= MAX_ROUTE_BYTES
      ensures Classify(selector).Ok?
    {
      ShapeIsAccepted(selector, segments);
    }
  }

  lemma ShapeIsAccepted(selector: Bytes, segments: seq<Bytes>)
    requires SelectorShape(segments) && selector == RouteOf(STREAM, segments) && |selector| <= MAX_ROUTE_BYTES
    ensures Classify(selector).Ok?
  {
    hide Split, Join;
    assert SLASH !in MANY && SLASH !in ONE;
    assert forall k :: 0 <= k < |segments| ==> WholeSegment(segments[k]) && SLASH !in segments[k];
    SplitJoin(segments);
    assert selector[|STREAM| + 3..] == Join(segments);
    assert Join(segments) != [] by { JoinWeight(segments); WeightOfTwo(segments); }
    assert selector[..|STREAM|] == STREAM && selector[|STREAM|..|STREAM| + 3] == SEPARATOR;
    assert Scans(selector, STREAM) && PathSegments(selector, STREAM) == segments;
    if segments == [MANY] {
      EverythingScans();
      JoinSplit(EVERYTHING[|STREAM| + 3..]);
      assert selector == EVERYTHING;
    }
  }

  lemma WeightOfTwo(segments: seq<Bytes>)
    requires segments != [] && segments[0] != []
    ensures Weight(segments) >= 2
  {
  }

  /** Any two routes that a selector selects agree on the segments that its scope fixes. */
  lemma ScopeIsSound(selector: Bytes, a: Bytes, b: Bytes)
    requires Classify(selector).Ok? && Selects(selector, a) && Selects(selector, b)
    ensures PathSegments(a, STREAM)[..Depth(Classify(selector).value)]
         == PathSegments(b, STREAM)[..Depth(Classify(selector).value)]
  {
    SelectsBySegments(selector, a);
    SelectsBySegments(selector, b);
    var s := AcceptedShape(selector);
    var scope, x, y := Classify(selector).value, PathSegments(a, STREAM), PathSegments(b, STREAM);
    if |s| == 2 {
      assert x[..1] == [x[0]] && y[..1] == [y[0]];
    } else if |s| == 3 {
      assert forall k :: 0 <= k < Depth(scope) ==> s[k] != ONE && x[k] == s[k] && y[k] == s[k];
    }
  }

  function Choose(s: seq<Bytes>, depth: nat, choice: Bytes): seq<Bytes> {
    if |s| == 1 then [choice, LETTER, LETTER]
    else if |s| == 2 then [s[0], choice, LETTER]
    else if |s| == 3 then [Fill(s[0], depth == 0, choice), Fill(s[1], depth == 1, choice), Fill(s[2], depth == 2, choice)]
    else []
  }

  function Fill(segment: Bytes, chosen: bool, choice: Bytes): Bytes {
    if chosen then choice else if segment == ONE then LETTER else segment
  }

  /** A route selected by `selector` whose first segment outside the scope is `choice`. */
  lemma Selected(selector: Bytes, choice: Bytes) returns (route: Bytes)
    requires Classify(selector).Ok? && Depth(Classify(selector).value) < 3
    requires choice != [] && STAR !in choice && SLASH !in choice
    ensures Selects(selector, route)
    ensures PathSegments(route, STREAM)[Depth(Classify(selector).value)] == choice
  {
    var s := AcceptedShape(selector);
    SplitHasNoSlash(selector[|STREAM| + 3..]);
    assert forall k :: 0 <= k < |s| ==> WholeSegment(s[k]);
    var depth := Depth(Classify(selector).value);
    var r := Choose(s, depth, choice);
    RouteOfIsConcrete(STREAM, r);
    route := RouteOf(STREAM, r);
    SelectsBySegments(selector, route);
  }

  /** No wider scope would be sound: some selected routes differ in the very next segment. */
  lemma ScopeIsTightest(selector: Bytes) returns (a: Bytes, b: Bytes)
    requires Classify(selector).Ok? && Depth(Classify(selector).value) < 3
    ensures Selects(selector, a) && Selects(selector, b)
    ensures var depth := Depth(Classify(selector).value);
            PathSegments(a, STREAM)[depth] != PathSegments(b, STREAM)[depth]
  {
    a := Selected(selector, [97]);
    b := Selected(selector, [98]);
  }

  /** Every accepted selector is accepted as a registration pattern of depth 3. */
  lemma SelectorIsPattern(selector: Bytes)
    requires Classify(selector).Ok?
    ensures PatternAccepted(selector, STREAM, 3)
  {
    var s := AcceptedShape(selector);
    if |s| == 3 {
      assert STAR in MANY;
      NoDoubles(s);
    } else if |s| == 2 {
      assert s == [s[0]] + [MANY] && STAR in MANY;
      DoublesConcat([s[0]], [MANY]);
    }
  }

  // `r/**` selects what `r/*/*` selects, and `**` what `*/*/*` selects.
  lemma DoubleStarIsStars(short: Bytes, long: Bytes, route: Bytes)
    requires Classify(short).Ok? && Classify(long).Ok?
    requires Scans(short, STREAM) && Scans(long, STREAM)
    requires var s, l := PathSegments(short, STREAM), PathSegments(long, STREAM);
             && |l| == 3 && |s| < 3 && s[|s| - 1] == MANY
             && l == s[..|s| - 1] + Ones(4 - |s|)
    ensures Selects(short, route) <==> Selects(long, route)
  {
    if ConcreteRoute(route, STREAM, 3) {
      SelectsBySegments(short, route);
      SelectsBySegments(long, route);
      var s := AcceptedShape(short);
      assert STAR in ONE;
    }
  }
}
