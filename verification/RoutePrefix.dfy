/** The path under which a controller's router is mounted (packages/cli/src/controller.registry.ts:42-44). */
module RoutePrefix {
  function DropSlashes(s: string): (t: string)
    ensures |t| <= |s| && (t != "" ==> t[0] != '/')
  {
    if s != "" && s[0] == '/' then DropSlashes(s[1..]) else s
  }

  /** Every run of slashes becomes one slash. */
  function CollapseSlashes(s: string): string
    decreases |s|
  {
    if s == "" then ""
    else if s[0] == '/' then "/" + CollapseSlashes(DropSlashes(s[1..]))
    else [s[0]] + CollapseSlashes(s[1..])
  }

  /** One slash at the very end is removed. */
  function StripTrailingSlash(s: string): string {
    if s != "" && s[|s| - 1] == '/' then s[..|s| - 1] else s
  }

  function Normalize(s: string): string {
    StripTrailingSlash(CollapseSlashes(s))
  }

  function Prefix(rest: string, basePath: string): string {
    Normalize("/" + rest + "/" + basePath)
  }

  // ----- Reference: a path is its list of non-empty segments -----

  /** The length of the segment at the start. */
  function SegmentLength(s: string): (n: nat)
    ensures n <= |s| && '/' !in s[..n] && (n < |s| ==> s[n] == '/')
  {
    if s == "" || s[0] == '/' then 0 else
      var n := 1 + SegmentLength(s[1..]);
      assert s[..n] == [s[0]] + s[1..][..n - 1];
      n
  }

  function Segments(s: string): seq<string>
    decreases |s|
  {
    if s == "" then []
    else if s[0] == '/' then Segments(s[1..])
    else [s[..SegmentLength(s)]] + Segments(s[SegmentLength(s)..])
  }

  function Join(segments: seq<string>): string {
    if segments == [] then "" else "/" + segments[0] + Join(segments[1..])
  }

  predicate AreSegments(segments: seq<string>) {
    forall w <- segments :: w != "" && '/' !in w
  }

  // ----- Lemmas -----

  lemma {:induction false} CollapseWord(w: string, t: string)
    requires '/' !in w
    ensures CollapseSlashes(w + t) == w + CollapseSlashes(t)
  {
    if w == "" {
      assert w + t == t;
    } else {
      assert (w + t)[1..] == w[1..] + t;
      CollapseWord(w[1..], t);
    }
  }

  lemma StripAfter(a: string, b: string)
    requires b != ""
    ensures StripTrailingSlash(a + b) == a + StripTrailingSlash(b)
  {
  }

  lemma SlashOnce(s: string)
    requires s != "" && s[0] == '/'
    ensures CollapseSlashes("/" + s) == CollapseSlashes(s)
  {
    assert ("/" + s)[1..] == s;
  }

  lemma {:induction false} NormalizeIsJoin(s: string)
    ensures Normalize("/" + s) == Join(Segments(s))
    decreases |s|
  {
    assert ("/" + s)[1..] == s;
    if s == "" {
      assert CollapseSlashes("/" + s) == "/" + CollapseSlashes("") == "/";
    } else if s[0] == '/' {
      assert "/" + s[1..] == s;
      SlashOnce(s);
      NormalizeIsJoin(s[1..]);
    } else {
      var n := SegmentLength(s);
      var w, t := s[..n], s[n..];
      assert s == w + t && n > 0;
      CollapseWord(w, t);
      assert CollapseSlashes("/" + s) == "/" + (w + CollapseSlashes(t)) == ("/" + w) + CollapseSlashes(t);
      if t == "" {
        assert ("/" + w)[|w|] != '/' && ("/" + w) + "" == "/" + w;
      } else {
        assert t == "/" + t[1..];
        StripAfter("/" + w, CollapseSlashes(t));
        NormalizeIsJoin(t[1..]);
      }
    }
  }

  lemma {:induction false} SegmentsConcat(a: string, b: string)
    ensures Segments(a + "/" + b) == Segments(a) + Segments(b)
    decreases |a|
  {
    var s := a + "/" + b;
    if a == "" {
      assert s[1..] == b;
    } else if a[0] == '/' {
      assert s[1..] == a[1..] + "/" + b;
      SegmentsConcat(a[1..], b);
    } else {
      var n := SegmentLength(a);
      LengthBeforeSlash(a, b);
      assert s[..n] == a[..n] && s[n..] == a[n..] + "/" + b;
      SegmentsConcat(a[n..], b);
    }
  }

  lemma {:induction false} LengthBeforeSlash(a: string, b: string)
    ensures SegmentLength(a + "/" + b) == SegmentLength(a)
  {
    if a != "" && a[0] != '/' {
      assert (a + "/" + b)[1..] == a[1..] + "/" + b;
      LengthBeforeSlash(a[1..], b);
    }
  }

  lemma {:induction false} SegmentsAreSegments(s: string)
    ensures AreSegments(Segments(s))
    decreases |s|
  {
    if s == "" {
    } else if s[0] == '/' {
      SegmentsAreSegments(s[1..]);
    } else {
      SegmentsAreSegments(s[SegmentLength(s)..]);
    }
  }

  lemma {:induction false} LengthOfWord(w: string, t: string)
    requires '/' !in w && (t == "" || t[0] == '/')
    ensures SegmentLength(w + t) == |w|
  {
    if w == "" {
      assert w + t == t;
    } else {
      assert (w + t)[1..] == w[1..] + t;
      LengthOfWord(w[1..], t);
    }
  }

  lemma {:induction false} SegmentsOfJoin(segments: seq<string>)
    requires AreSegments(segments)
    ensures Segments(Join(segments)) == segments
  {
    if segments == [] {
    } else {
      var w, t := segments[0], Join(segments[1..]);
      assert Join(segments)[1..] == w + t;
      LengthOfWord(w, t);
      assert (w + t)[..|w|] == w && (w + t)[|w|..] == t;
      assert forall v <- segments[1..] :: v in segments;
      SegmentsOfJoin(segments[1..]);
    }
  }

  // ----- Main results -----

  /** The prefix is a slash and a segment for every non-empty segment of the rest endpoint and of the base path. */
  lemma PrefixIsCanonical(rest: string, basePath: string)
    ensures Prefix(rest, basePath) == Join(Segments(rest) + Segments(basePath))
    ensures AreSegments(Segments(rest) + Segments(basePath))
  {
    assert "/" + rest + "/" + basePath == "/" + (rest + "/" + basePath);
    NormalizeIsJoin(rest + "/" + basePath);
    SegmentsConcat(rest, basePath);
    SegmentsAreSegments(rest);
    SegmentsAreSegments(basePath);
  }

  predicate HasDoubleSlash(s: string) {
    exists i :: 0 <= i < |s| - 1 && s[i] == '/' && s[i + 1] == '/'
  }

  lemma {:induction false} JoinIsClean(segments: seq<string>)
    requires AreSegments(segments)
    ensures !HasDoubleSlash(Join(segments))
    ensures Join(segments) != "" ==> Join(segments)[0] == '/' && Join(segments)[|Join(segments)| - 1] != '/'
  {
    if segments == [] {
    } else {
      var w, t := segments[0], Join(segments[1..]);
      var s := Join(segments);
      assert s == "/" + w + t;
      assert w in segments && forall v <- segments[1..] :: v in segments;
      JoinIsClean(segments[1..]);
      forall i | 0 <= i < |s| - 1 ensures !(s[i] == '/' && s[i + 1] == '/') {
        if 0 < i <= |w| {
          assert s[i] == w[i - 1];
        } else if i == 0 {
          assert s[1] == w[0];
        } else {
          assert s[i] == t[i - 1 - |w|] && s[i + 1] == t[i - |w|];
        }
      }
    }
  }

  /** It has no double and no trailing slash, and normalizing it again changes nothing. */
  lemma PrefixIsNormal(rest: string, basePath: string)
    ensures var p := Prefix(rest, basePath);
            && !HasDoubleSlash(p)
            && (p != "" ==> p[0] == '/' && p[|p| - 1] != '/')
            && Normalize(p) == p
  {
    PrefixIsCanonical(rest, basePath);
    var segments := Segments(rest) + Segments(basePath);
    var p := Join(segments);
    JoinIsClean(segments);
    if p != "" {
      assert p == "/" + p[1..];
      NormalizeIsJoin(p[1..]);
      SegmentsOfJoin(segments);
    }
  }

  /** Two controllers share a prefix exactly if their segment lists are the same. */
  lemma SamePrefix(rest1: string, base1: string, rest2: string, base2: string)
    ensures Prefix(rest1, base1) == Prefix(rest2, base2) <==>
            Segments(rest1) + Segments(base1) == Segments(rest2) + Segments(base2)
  {
    PrefixIsCanonical(rest1, base1);
    PrefixIsCanonical(rest2, base2);
    SegmentsOfJoin(Segments(rest1) + Segments(base1));
    SegmentsOfJoin(Segments(rest2) + Segments(base2));
  }

  /** For a rest endpoint and a base path of one segment each, slashes at either end of the base path do not matter. */
  lemma ConventionalPrefix(rest: string, basePath: string)
    requires rest != "" && '/' !in rest && basePath != "" && '/' !in basePath
    ensures Prefix(rest, basePath) == "/" + rest + "/" + basePath
    ensures Prefix(rest, "/" + basePath + "/") == "/" + rest + "/" + basePath
    ensures Prefix(rest, "/") == Prefix(rest, "") == "/" + rest
  {
    SegmentsOfOne(rest);
    SegmentsOfOne(basePath);
    SegmentsConcat("/" + basePath, "");
    assert "/" + basePath + "/" + "" == "/" + basePath + "/";
    PrefixIsCanonical(rest, basePath);
    PrefixIsCanonical(rest, "/" + basePath + "/");
    PrefixIsCanonical(rest, "/");
    PrefixIsCanonical(rest, "");
    assert [rest] + [basePath] == [rest, basePath] && [rest, basePath][1..] == [basePath];
    assert Segments("/") == [] && [rest] + [] == [rest];
  }

  lemma SegmentsOfOne(w: string)
    requires w != "" && '/' !in w
    ensures Segments(w) == Segments("/" + w) == [w]
  {
    SegmentsOfJoin([w]);
    assert Join([w]) == "/" + w && ("/" + w)[1..] == w;
  }
}
