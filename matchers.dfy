/** The two path matchers of the router: `SimplePath`, which compares raw strings,
    and `DynamicPath`, which compares `/`-segments position by position and treats
    `:name` segments as parameters. */
module Matchers {
  import opened Wrappers
  import opened Paths

  /** A matcher never changes after construction. `DynamicPath` keeps the
      pattern's segments and, per position, the parameter name (`Some`) or
      `null` (`None`) of `parameterizedIndicesMap`. */
  datatype PathMatcher =
    | SimplePath(path: string)
    | DynamicPath(pathParts: seq<string>, parameterizedIndicesMap: seq<Option<string>>)

  /** The entry the `DynamicPath` constructor records for one segment: the text
      after the colon when the segment starts with `:`, `null` otherwise. */
  function ParamName(segment: string): Option<string>
  {
    if |segment| > 0 && segment[0] == ':' then Some(segment[1..]) else None
  }

  /** The whole `parameterizedIndicesMap` for a list of segments. */
  function ParamNames(parts: seq<string>): seq<Option<string>>
  {
    seq(|parts|, i requires 0 <= i < |parts| => ParamName(parts[i]))
  }

  /** What the constructors establish: a `DynamicPath`'s parameter map is the
      one its segments determine. */
  predicate WellFormed(m: PathMatcher)
  {
    m.DynamicPath? ==> m.parameterizedIndicesMap == ParamNames(m.pathParts)
  }

  /** The forEach of the `DynamicPath` constructor: entry `i` is written for
      segment `i`, in order. */
  method BuildParamNames(parts: seq<string>) returns (names: seq<Option<string>>)
    ensures |names| == |parts|
    ensures forall i :: 0 <= i < |parts| ==>
              names[i] == (if |parts[i]| > 0 && parts[i][0] == ':' then Some(parts[i][1..]) else None)
    ensures names == ParamNames(parts)
  {
    names := [];
    var index := 0;
    while index < |parts|
      invariant 0 <= index <= |parts|
      invariant |names| == index
      invariant forall i :: 0 <= i < index ==> names[i] == ParamName(parts[i])
    {
      var pathPart := parts[index];
      if |pathPart| > 0 && pathPart[0] == ':' {
        names := names + [Some(pathPart[1..])];
      } else {
        names := names + [None];
      }
      index := index + 1;
    }
  }

  /** `new DynamicPath(path)`. */
  method NewDynamicPath(path: string) returns (m: PathMatcher)
    ensures m.DynamicPath? && WellFormed(m)
    ensures m.pathParts == SplitPath(path)
  {
    var parts := SplitPath(path);
    var names := BuildParamNames(parts);
    m := DynamicPath(parts, names);
  }

  /** The matcher `addRoute` builds for a pattern: `DynamicPath` exactly when the
      pattern holds a colon anywhere, `SimplePath` otherwise. */
  function MatcherFor(pattern: string): (m: PathMatcher)
    ensures WellFormed(m)
  {
    if ':' in pattern then DynamicPath(SplitPath(pattern), ParamNames(SplitPath(pattern)))
    else SimplePath(pattern)
  }

  /** The construction step of `addRoute`. */
  method NewMatcher(pattern: string) returns (m: PathMatcher)
    ensures m == MatcherFor(pattern)
  {
    if ':' in pattern {
      m := NewDynamicPath(pattern);
    } else {
      m := SimplePath(pattern);
    }
  }

  /** `this.parameterizedIndicesMap[index]` is truthy: present, not `null` and
      not the empty string. A lone `:` segment has name `""` and is not a parameter. */
  predicate IsNamedParam(names: seq<Option<string>>, index: int)
  {
    0 <= index < |names| && names[index].Some? && names[index].value != ""
  }

  /** The filter callback of `DynamicPath.matchesPath` for the candidate segment at
      `index`: a parameter position, or equal to the pattern's segment there
      (a position past the pattern's end compares against `undefined` and fails). */
  predicate SegmentAccepted(parts: seq<string>, names: seq<Option<string>>, index: int, segment: string)
  {
    IsNamedParam(names, index) || (0 <= index < |parts| && parts[index] == segment)
  }

  /** `pathParts.filter(...)`: the candidate segments the callback accepts, in order. */
  function AcceptedParts(parts: seq<string>, names: seq<Option<string>>, candidate: seq<string>): (r: seq<string>)
    ensures |r| <= |candidate|
    ensures forall i :: 0 <= i < |r| ==> r[i] in candidate
    decreases |candidate|
  {
    if candidate == [] then []
    else
      var last := |candidate| - 1;
      assert forall x :: x in candidate[..last] ==> x in candidate;
      AcceptedParts(parts, names, candidate[..last])
        + (if SegmentAccepted(parts, names, last, candidate[last]) then [candidate[last]] else [])
  }

  /** `matchesPath` of either matcher. `DynamicPath` accepts when the filter kept
      every candidate segment; it never compares segment counts. */
  function MatchesPath(m: PathMatcher, path: string): bool
  {
    match m
    case SimplePath(p) => p == path
    case DynamicPath(parts, names) =>
      var candidate := SplitPath(path);
      |AcceptedParts(parts, names, candidate)| == |candidate|
  }

  /** The filter keeps at most every segment, and keeps every segment exactly
      when the callback accepts each one. */
  lemma {:induction false} AcceptedPartsAll(parts: seq<string>, names: seq<Option<string>>, candidate: seq<string>)
    ensures |AcceptedParts(parts, names, candidate)| <= |candidate|
    ensures |AcceptedParts(parts, names, candidate)| == |candidate| <==>
              forall i :: 0 <= i < |candidate| ==> SegmentAccepted(parts, names, i, candidate[i])
    decreases |candidate|
  {
    if candidate != [] {
      var last := |candidate| - 1;
      var prefix := candidate[..last];
      AcceptedPartsAll(parts, names, prefix);
      assert forall i :: 0 <= i < last ==> prefix[i] == candidate[i];
    }
  }

  /** `DynamicPath.matchesPath` holds exactly when every candidate segment sits at
      a parameter position or equals the pattern's segment there. */
  lemma DynamicMatchesIff(m: PathMatcher, path: string)
    requires m.DynamicPath?
    ensures MatchesPath(m, path) <==>
              forall i :: 0 <= i < |SplitPath(path)| ==>
                SegmentAccepted(m.pathParts, m.parameterizedIndicesMap, i, SplitPath(path)[i])
  {
    AcceptedPartsAll(m.pathParts, m.parameterizedIndicesMap, SplitPath(path));
  }

  /** A candidate with more segments than the pattern never matches. */
  lemma LongerNeverMatches(m: PathMatcher, path: string)
    requires m.DynamicPath? && WellFormed(m)
    requires |SplitPath(path)| > |m.pathParts|
    ensures !MatchesPath(m, path)
  {
    DynamicMatchesIff(m, path);
    assert !SegmentAccepted(m.pathParts, m.parameterizedIndicesMap, |m.pathParts|, SplitPath(path)[|m.pathParts|]);
  }

  /** A candidate whose segments are a prefix of the pattern's segments matches,
      however many segments it lacks. */
  lemma PrefixMatches(m: PathMatcher, path: string)
    requires m.DynamicPath?
    requires |SplitPath(path)| <= |m.pathParts|
    requires SplitPath(path) == m.pathParts[..|SplitPath(path)|]
    ensures MatchesPath(m, path)
  {
    DynamicMatchesIff(m, path);
    var candidate := SplitPath(path);
    assert forall i :: 0 <= i < |candidate| ==> candidate[i] == m.pathParts[i];
  }

  /** The empty path, and a path of slashes only, match every `DynamicPath`. */
  lemma EmptyPathMatches(m: PathMatcher, n: nat)
    requires m.DynamicPath?
    ensures MatchesPath(m, "")
    ensures MatchesPath(m, seq(n, _ => '/'))
  {
    SplitPathOnlySlashes(n);
    PrefixMatches(m, "");
    PrefixMatches(m, seq(n, _ => '/'));
  }

  /** A lone `:` segment is not a parameter: a matching candidate must hold `:`
      literally at that position. */
  lemma LoneColonIsLiteral(m: PathMatcher, index: nat, path: string)
    requires m.DynamicPath? && WellFormed(m)
    requires index < |m.pathParts| && m.pathParts[index] == ":"
    requires MatchesPath(m, path) && index < |SplitPath(path)|
    ensures !IsNamedParam(m.parameterizedIndicesMap, index)
    ensures SplitPath(path)[index] == ":"
  {
    assert ":"[1..] == "";
    DynamicMatchesIff(m, path);
    assert SegmentAccepted(m.pathParts, m.parameterizedIndicesMap, index, SplitPath(path)[index]);
  }

  /** `SimplePath` compares raw strings and does not normalise slashes: it rejects
      a path with a trailing slash added, although both split into the same
      segments. */
  lemma SimplePathIsRawEquality(pattern: string, path: string)
    ensures MatchesPath(SimplePath(pattern), path) <==> pattern == path
    ensures !MatchesPath(SimplePath(pattern), pattern + "/")
    ensures SplitPath(pattern + "/") == SplitPath(pattern)
  {
    SplitPathIgnoresOuterSlashes(pattern);
    assert |pattern + "/"| == |pattern| + 1;
  }

  /** The parameters extracted from the candidate's segments: processing positions
      in order, each truthy parameter name at a position the candidate has is set
      to the candidate's segment there, so a later position overwrites an earlier
      one with the same name. */
  function Extracted(names: seq<Option<string>>, candidate: seq<string>): map<string, string>
    decreases |candidate|
  {
    if candidate == [] then map[]
    else
      var last := |candidate| - 1;
      var earlier := Extracted(names, candidate[..last]);
      if IsNamedParam(names, last) then earlier[names[last].value := candidate[last]] else earlier
  }

  /** Position `index` is a parameter named `name`. */
  predicate NamedAt(names: seq<Option<string>>, index: int, name: string)
  {
    IsNamedParam(names, index) && names[index].value == name
  }

  /** The keys of the extracted record are exactly the truthy parameter names at
      positions the candidate has. */
  lemma {:induction false} ExtractedKeys(names: seq<Option<string>>, candidate: seq<string>, name: string)
    ensures name in Extracted(names, candidate) <==>
              exists i :: 0 <= i < |candidate| && NamedAt(names, i, name)
    decreases |candidate|
  {
    if candidate != [] {
      var last := |candidate| - 1;
      ExtractedKeys(names, candidate[..last], name);
      if name in Extracted(names, candidate) && !NamedAt(names, last, name) {
        var i :| 0 <= i < last && NamedAt(names, i, name);
      }
    }
  }

  /** Each extracted value is the candidate segment at the LAST position carrying
      that parameter name. */
  lemma {:induction false} ExtractedValueIsLast(names: seq<Option<string>>, candidate: seq<string>, name: string)
    requires name in Extracted(names, candidate)
    ensures exists i :: 0 <= i < |candidate| && NamedAt(names, i, name)
                        && Extracted(names, candidate)[name] == candidate[i]
                        && forall j :: i < j < |candidate| ==> !NamedAt(names, j, name)
    decreases |candidate|
  {
    var last := |candidate| - 1;
    var prefix := candidate[..last];
    if NamedAt(names, last, name) {
      assert Extracted(names, candidate)[name] == candidate[last];
    } else {
      assert name in Extracted(names, prefix);
      ExtractedValueIsLast(names, prefix, name);
      var i :| 0 <= i < |prefix| && NamedAt(names, i, name)
               && Extracted(names, prefix)[name] == prefix[i]
               && forall j :: i < j < |prefix| ==> !NamedAt(names, j, name);
      assert Extracted(names, candidate)[name] == candidate[i];
    }
  }

  /** `extractPathParameters`: a `SimplePath` has no extraction capability and
      yields `{}`; a `DynamicPath` extracts from the path's segments. */
  function PathParams(m: PathMatcher, path: string): map<string, string>
  {
    match m
    case SimplePath(_) => map[]
    case DynamicPath(_, names) => Extracted(names, SplitPath(path))
  }

  /** `DynamicPath.extractParamatersFromPath`: the forEach that writes each truthy
      parameter name's candidate segment into a fresh record. */
  method ExtractParametersFromPath(m: PathMatcher, path: string) returns (extracted: map<string, string>)
    requires m.DynamicPath?
    ensures extracted == Extracted(m.parameterizedIndicesMap, SplitPath(path))
  {
    extracted := map[];
    var pathParts := SplitPath(path);
    var index := 0;
    while index < |pathParts|
      invariant 0 <= index <= |pathParts|
      invariant extracted == Extracted(m.parameterizedIndicesMap, pathParts[..index])
    {
      assert pathParts[..index + 1][..index] == pathParts[..index];
      var names := m.parameterizedIndicesMap;
      if 0 <= index < |names| && names[index].Some? && names[index].value != "" {
        extracted := extracted[names[index].value := pathParts[index]];
      }
      index := index + 1;
    }
    assert pathParts[..index] == pathParts;
  }

  /** `VerbosityRouter.extractPathParameters`: `{}` when the matcher cannot extract. */
  method ExtractPathParameters(m: PathMatcher, path: string) returns (params: map<string, string>)
    ensures params == PathParams(m, path)
    ensures m.SimplePath? ==> params == map[]
  {
    if m.SimplePath? {
      params := map[];
    } else {
      params := ExtractParametersFromPath(m, path);
    }
  }

  /** A two-segment absolute path splits into its two segments. */
  lemma SplitTwoSegments(a: string, b: string)
    requires IsSegment(a) && IsSegment(b)
    ensures SplitPath("/" + a + "/" + b) == [a, b]
  {
    SplitPathSegment(a);
    SplitPathSegment(b);
    SplitPathAppend(a, b);
    assert "/" + a + "/" + b == "/" + (a + "/" + b);
    SplitPathIgnoresOuterSlashes(a + "/" + b);
  }

  /** `addRoute("/lit/:name", ...)` builds a `DynamicPath` with a literal
      segment and a parameter segment. */
  lemma LiteralThenParamPattern(lit: string, name: string)
    requires IsSegment(lit) && lit[0] != ':' && IsSegment(name)
    ensures MatcherFor("/" + lit + "/:" + name) == DynamicPath([lit, ":" + name], [None, Some(name)])
  {
    var param := ":" + name;
    var pattern := "/" + lit + "/:" + name;
    assert pattern == "/" + lit + "/" + param;
    assert ':' in pattern by { assert pattern[|lit| + 2] == ':'; }
    assert IsSegment(param) by { assert forall c :: c in param ==> c == ':' || c in name; }
    SplitTwoSegments(lit, param);
    assert param[1..] == name;
    assert ParamNames([lit, param]) == [None, Some(name)];
  }

  /** `/lit/:name` against `/lit/value` matches and extracts `{ name: value }`. */
  lemma LiteralThenParamMatches(lit: string, name: string, value: string)
    requires IsSegment(lit) && lit[0] != ':' && IsSegment(name) && IsSegment(value)
    ensures MatchesPath(MatcherFor("/" + lit + "/:" + name), "/" + lit + "/" + value)
    ensures PathParams(MatcherFor("/" + lit + "/:" + name), "/" + lit + "/" + value) == map[name := value]
  {
    LiteralThenParamPattern(lit, name);
    var m := MatcherFor("/" + lit + "/:" + name);
    var names := [None, Some(name)];
    SplitTwoSegments(lit, value);
    var candidate := [lit, value];
    DynamicMatchesIff(m, "/" + lit + "/" + value);
    assert SegmentAccepted(m.pathParts, names, 0, lit);
    assert SegmentAccepted(m.pathParts, names, 1, value);
    assert candidate[..1] == [lit];
    assert [lit][..0] == [];
    assert Extracted(names, [lit]) == map[];
  }

  /** Segment counts are not compared: `/lit/:name` also matches `/lit`, with
      nothing extracted. */
  lemma LiteralThenParamShorter(lit: string, name: string)
    requires IsSegment(lit) && lit[0] != ':' && IsSegment(name)
    ensures MatchesPath(MatcherFor("/" + lit + "/:" + name), "/" + lit)
    ensures PathParams(MatcherFor("/" + lit + "/:" + name), "/" + lit) == map[]
  {
    LiteralThenParamPattern(lit, name);
    var m := MatcherFor("/" + lit + "/:" + name);
    SplitPathSegment(lit);
    SplitPathIgnoresOuterSlashes(lit);
    assert SplitPath("/" + lit) == [lit];
    assert m.pathParts[..1] == [lit];
    PrefixMatches(m, "/" + lit);
    assert [lit][..0] == [];
    assert !IsNamedParam(m.parameterizedIndicesMap, 0);
    assert Extracted(m.parameterizedIndicesMap, [lit]) == map[];
  }

  /** `/lit/:name` never matches a candidate with a third segment. */
  lemma LiteralThenParamLonger(lit: string, name: string, value: string, extra: string)
    requires IsSegment(lit) && lit[0] != ':' && IsSegment(name) && IsSegment(value) && IsSegment(extra)
    ensures !MatchesPath(MatcherFor("/" + lit + "/:" + name), "/" + lit + "/" + value + "/" + extra)
  {
    LiteralThenParamPattern(lit, name);
    var m := MatcherFor("/" + lit + "/:" + name);
    SplitTwoSegments(lit, value);
    SplitPathSegment(extra);
    SplitPathAppend("/" + lit + "/" + value, extra);
    LongerNeverMatches(m, "/" + lit + "/" + value + "/" + extra);
  }

  /** `/users/:id` against `/users/42` matches and extracts `{ id: "42" }`. */
  lemma UsersIdExample(pattern: string, path: string)
    requires pattern == "/users/:id" && path == "/users/42"
    ensures MatchesPath(MatcherFor(pattern), path)
    ensures PathParams(MatcherFor(pattern), path) == map["id" := "42"]
  {
    assert pattern == "/" + "users" + "/:" + "id";
    assert path == "/" + "users" + "/" + "42";
    LiteralThenParamMatches("users", "id", "42");
  }

  /** A repeated parameter name takes the later position's value: `/:n/:n`
      against `/x/y` extracts `{ n: y }`. */
  lemma {:induction false} RepeatedNameTakesLater(name: string, x: string, y: string)
    requires IsSegment(name) && IsSegment(x) && IsSegment(y)
    ensures PathParams(MatcherFor("/:" + name + "/:" + name), "/" + x + "/" + y) == map[name := y]
  {
    var param := ":" + name;
    var pattern := "/:" + name + "/:" + name;
    assert pattern == "/" + param + "/" + param;
    assert ':' in pattern by { assert pattern[1] == ':'; }
    assert IsSegment(param) by { assert forall c :: c in param ==> c == ':' || c in name; }
    SplitTwoSegments(param, param);
    assert param[1..] == name;
    var names := ParamNames([param, param]);
    assert names == [Some(name), Some(name)];
    SplitTwoSegments(x, y);
    var candidate := [x, y];
    assert candidate[..1] == [x];
    assert [x][..0] == [];
    assert Extracted(names, [x]) == map[name := x];
    assert Extracted(names, candidate) == map[name := x][name := y];
  }
}
