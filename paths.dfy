/** Splitting a URL path into its `/`-separated segments, as `DynamicPath.splitPath`
    does: `path.split('/')` followed by dropping every empty piece. */
module Paths {

  /** The pieces `s.split('/')` yields in JavaScript: one more piece than `s` has
      slashes, and no piece holds a slash. */
  function SplitOnSlash(s: string): (r: seq<string>)
    ensures |r| >= 1
    ensures forall i :: 0 <= i < |r| ==> '/' !in r[i]
  {
    if s == [] then [""]
    else if s[0] == '/' then [""] + SplitOnSlash(s[1..])
    else
      var rest := SplitOnSlash(s[1..]);
      [[s[0]] + rest[0]] + rest[1..]
  }

  /** `pieces.join('/')`: the inverse of SplitOnSlash. */
  function JoinWithSlash(pieces: seq<string>): string
  {
    if |pieces| == 0 then ""
    else if |pieces| == 1 then pieces[0]
    else pieces[0] + "/" + JoinWithSlash(pieces[1..])
  }

  /** `pieces.filter(part => !!part)`: the pieces that are not the empty string, in order. */
  function RemoveEmpty(pieces: seq<string>): (r: seq<string>)
    ensures forall i :: 0 <= i < |r| ==> r[i] != ""
    ensures forall i :: 0 <= i < |r| ==> r[i] in pieces
  {
    if pieces == [] then []
    else if pieces[0] == "" then RemoveEmpty(pieces[1..])
    else [pieces[0]] + RemoveEmpty(pieces[1..])
  }

  /** Nothing but the empty pieces is dropped: every non-empty piece is kept, as
      often as it occurs. */
  lemma {:induction false} RemoveEmptyKeepsNonEmpty(pieces: seq<string>)
    ensures multiset(RemoveEmpty(pieces)) == multiset(pieces)["" := 0]
  {
    if pieces != [] {
      RemoveEmptyKeepsNonEmpty(pieces[1..]);
      assert pieces == [pieces[0]] + pieces[1..];
    }
  }

  /** A segment as the matchers see it: non-empty and free of slashes. */
  predicate IsSegment(s: string)
  {
    s != "" && '/' !in s
  }

  /** `splitPath`: the empty path has no segments; otherwise the non-empty pieces
      between slashes, so leading, trailing and doubled slashes are ignored. */
  function SplitPath(path: string): (r: seq<string>)
    ensures forall i :: 0 <= i < |r| ==> IsSegment(r[i])
  {
    if path == "" then [] else RemoveEmpty(SplitOnSlash(path))
  }

  /** Splitting on slashes and joining again gives back the original string. */
  lemma {:induction false} JoinSplitOnSlash(s: string)
    ensures JoinWithSlash(SplitOnSlash(s)) == s
  {
    if s != [] {
      var rest := SplitOnSlash(s[1..]);
      JoinSplitOnSlash(s[1..]);
      if s[0] == '/' {
        assert SplitOnSlash(s) == [""] + rest;
        assert ([""] + rest)[1..] == rest;
        assert s == "" + "/" + s[1..];
      } else if |rest| == 1 {
        assert SplitOnSlash(s) == [[s[0]] + rest[0]];
        assert s == [s[0]] + s[1..];
      } else {
        var r := SplitOnSlash(s);
        assert r == [[s[0]] + rest[0]] + rest[1..];
        assert r[1..] == rest[1..];
        calc {
          JoinWithSlash(r);
          ([s[0]] + rest[0]) + "/" + JoinWithSlash(rest[1..]);
          [s[0]] + (rest[0] + "/" + JoinWithSlash(rest[1..]));
          [s[0]] + JoinWithSlash(rest);
          [s[0]] + s[1..];
          s;
        }
      }
    }
  }

  /** A slash separates: the pieces of `a + "/" + b` are those of `a` followed by
      those of `b`. */
  lemma {:induction false} SplitOnSlashAppend(a: string, b: string)
    ensures SplitOnSlash(a + "/" + b) == SplitOnSlash(a) + SplitOnSlash(b)
  {
    var s := a + "/" + b;
    if a == [] {
      assert s[0] == '/' && s[1..] == b;
    } else {
      assert s[0] == a[0];
      assert s[1..] == a[1..] + "/" + b;
      SplitOnSlashAppend(a[1..], b);
      var left := SplitOnSlash(a[1..]);
      var rest := SplitOnSlash(s[1..]);
      assert rest == left + SplitOnSlash(b);
      if a[0] == '/' {
        assert SplitOnSlash(s) == [""] + rest;
        assert SplitOnSlash(a) == [""] + left;
      } else {
        assert rest[0] == left[0];
        assert rest[1..] == left[1..] + SplitOnSlash(b);
        assert SplitOnSlash(s) == [[a[0]] + left[0]] + (left[1..] + SplitOnSlash(b));
        assert SplitOnSlash(a) == [[a[0]] + left[0]] + left[1..];
      }
    }
  }

  /** A string without slashes is a single piece. */
  lemma {:induction false} SplitOnSlashNoSlash(s: string)
    requires '/' !in s
    ensures SplitOnSlash(s) == [s]
  {
    if s != [] {
      assert s[0] in s;
      assert forall c :: c in s[1..] ==> c in s;
      SplitOnSlashNoSlash(s[1..]);
      assert s == [s[0]] + s[1..];
    }
  }

  /** Dropping empty pieces distributes over concatenation. */
  lemma {:induction false} RemoveEmptyAppend(x: seq<string>, y: seq<string>)
    ensures RemoveEmpty(x + y) == RemoveEmpty(x) + RemoveEmpty(y)
  {
    if x == [] {
      assert x + y == y;
    } else {
      assert (x + y)[0] == x[0];
      assert (x + y)[1..] == x[1..] + y;
      RemoveEmptyAppend(x[1..], y);
    }
  }

  /** The early return for the empty path agrees with splitting and filtering. */
  lemma SplitPathFilters(path: string)
    ensures SplitPath(path) == RemoveEmpty(SplitOnSlash(path))
  {
    if path == "" {
      assert SplitOnSlash(path) == [""];
      assert RemoveEmpty([""]) == RemoveEmpty([""][1..]);
    }
  }

  /** The segments of `a + "/" + b` are those of `a` followed by those of `b`. */
  lemma SplitPathAppend(a: string, b: string)
    ensures SplitPath(a + "/" + b) == SplitPath(a) + SplitPath(b)
  {
    SplitPathFilters(a + "/" + b);
    SplitPathFilters(a);
    SplitPathFilters(b);
    SplitOnSlashAppend(a, b);
    RemoveEmptyAppend(SplitOnSlash(a), SplitOnSlash(b));
  }

  /** A path that is itself a segment splits into exactly that segment. */
  lemma SplitPathSegment(s: string)
    requires IsSegment(s)
    ensures SplitPath(s) == [s]
  {
    SplitOnSlashNoSlash(s);
    assert RemoveEmpty([s]) == [s] + RemoveEmpty([s][1..]);
  }

  /** Leading and trailing slashes are ignored. */
  lemma SplitPathIgnoresOuterSlashes(path: string)
    ensures SplitPath("/" + path) == SplitPath(path)
    ensures SplitPath(path + "/") == SplitPath(path)
  {
    assert "/" + path == "" + "/" + path;
    SplitPathAppend("", path);
    assert path + "/" == path + "/" + "";
    SplitPathAppend(path, "");
  }

  /** Joining segments with slashes, with or without a leading slash, and
      splitting again gives back the segments. */
  lemma {:induction false} SplitPathJoin(segments: seq<string>)
    requires forall i :: 0 <= i < |segments| ==> IsSegment(segments[i])
    ensures SplitPath(JoinWithSlash(segments)) == segments
    ensures SplitPath("/" + JoinWithSlash(segments)) == segments
  {
    if |segments| == 1 {
      SplitPathSegment(segments[0]);
    } else if |segments| > 1 {
      SplitPathJoin(segments[1..]);
      SplitPathSegment(segments[0]);
      SplitPathAppend(segments[0], JoinWithSlash(segments[1..]));
      assert segments == [segments[0]] + segments[1..];
    }
    SplitPathIgnoresOuterSlashes(JoinWithSlash(segments));
  }

  /** `/a/b` and `a/b` both yield `["a", "b"]`. */
  lemma SplitPathExamples()
    ensures SplitPath("a/b") == ["a", "b"]
    ensures SplitPath("/a/b") == ["a", "b"]
  {
    SplitPathSegment("a");
    SplitPathSegment("b");
    assert "a/b" == "a" + "/" + "b";
    SplitPathAppend("a", "b");
    assert "/a/b" == "/" + "a/b";
    SplitPathIgnoresOuterSlashes("a/b");
  }

  /** Doubled and trailing slashes are dropped: `a//b/` yields `[a, b]`. */
  lemma SplitPathSkipsEmptyPieces(a: string, b: string)
    requires IsSegment(a) && IsSegment(b)
    ensures SplitPath(a + "//" + b + "/") == [a, b]
  {
    SplitPathSegment(a);
    SplitPathSegment(b);
    SplitPathIgnoresOuterSlashes(a);
    SplitPathIgnoresOuterSlashes(b);
    assert a + "//" + b + "/" == (a + "/") + "/" + (b + "/");
    SplitPathAppend(a + "/", b + "/");
  }

  /** `a//b/` yields `["a", "b"]`. */
  lemma SplitPathDoubledSlashExample(path: string)
    requires path == "a//b/"
    ensures SplitPath(path) == ["a", "b"]
  {
    assert path == "a" + "//" + "b" + "/";
    SplitPathSkipsEmptyPieces("a", "b");
  }

  /** A path made only of slashes yields no segments. */
  lemma {:induction false} SplitPathOnlySlashes(n: nat)
    ensures SplitPath(seq(n, _ => '/')) == []
  {
    if n > 0 {
      var s := seq(n, _ => '/');
      SplitPathOnlySlashes(n - 1);
      assert s == "" + "/" + seq(n - 1, _ => '/');
      SplitPathAppend("", seq(n - 1, _ => '/'));
    }
  }
}
