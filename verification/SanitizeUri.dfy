/**
 `sanitize_uri`: remove duplicate and trailing slashes from the path of a request URL,
 in the buffer that holds it.
 */
module UriSanitizer {
  import opened Basics

  // -------------------------------------------------------------- what the loop keeps

  /** The characters that the loop keeps, `prevSlash` telling what came before. */
  function Collapse(s: string, prevSlash: bool): string {
    if s == "" then ""
    else
      var rest := Collapse(s[1..], s[0] == '/');
      if s[0] == '/' && prevSlash then rest else [s[0]] + rest
  }

  function Trim(c: string): string {
    if |c| > 1 && c[|c| - 1] == '/' then c[..|c| - 1] else c
  }

  function Sanitized(s: string): string {
    Trim(Collapse(s, false))
  }

  // ------------------------------------------------------- what a path means: segments

  /** Length of the first run of characters that are not slashes. */
  function RunLength(s: string): (k: nat)
    ensures k <= |s| && (k < |s| ==> s[k] == '/')
    ensures forall i :: 0 <= i < k ==> s[i] != '/'
  {
    if s == "" || s[0] == '/' then 0 else 1 + RunLength(s[1..])
  }

  /** The non-empty segments of a path. */
  function Segments(s: string): seq<string>
    decreases |s|
  {
    if s == "" then []
    else if s[0] == '/' then Segments(s[1..])
    else [s[..RunLength(s)]] + Segments(s[RunLength(s)..])
  }

  function JoinPath(segments: seq<string>): string {
    if segments == [] then ""
    else if |segments| == 1 then segments[0]
    else segments[0] + ("/" + JoinPath(segments[1..]))
  }

  /** The leading slash, if there is one. */
  function Lead(s: string): string { if s != "" && s[0] == '/' then "/" else "" }

  ghost predicate IsSegment(p: string) {
    p != "" && '/' !in p
  }

  ghost predicate AllSegments(ps: seq<string>) {
    forall p :: p in ps ==> IsSegment(p)
  }

  ghost predicate EndsWithSlash(s: string) {
    s != "" && s[|s| - 1] == '/'
  }

  lemma {:induction false} SegmentsAreSegments(s: string)
    ensures AllSegments(Segments(s))
    decreases |s|
  {
    if s != "" {
      if s[0] == '/' {
        SegmentsAreSegments(s[1..]);
      } else {
        SegmentsAreSegments(s[RunLength(s)..]);
      }
    }
  }

  lemma {:induction false} NoSegmentsMeansSlashes(s: string)
    requires s != "" && Segments(s) == []
    ensures EndsWithSlash(s)
  {
    if |s| > 1 {
      NoSegmentsMeansSlashes(s[1..]);
    }
  }

  lemma {:induction false} CollapseRun(run: string, rest: string, prevSlash: bool)
    requires run != "" && '/' !in run
    ensures Collapse(run + rest, prevSlash) == run + Collapse(rest, false)
  {
    var s := run + rest;
    assert s[1..] == run[1..] + rest;
    if |run| == 1 {
      assert s[1..] == rest && run == [run[0]];
    } else {
      CollapseRun(run[1..], rest, false);
      assert run == [run[0]] + run[1..];
    }
  }

  function Tail(s: string): string {
    if Segments(s) != [] && s[|s| - 1] == '/' then "/" else ""
  }

  /** After a slash, the loop keeps the segments, single slashes between them, and at
      most one slash at the end. */
  lemma {:induction false} CollapseIsJoin(s: string)
    ensures Collapse(s, true) == JoinPath(Segments(s)) + Tail(s)
    decreases |s|
  {
    if s == "" {
    } else if s[0] == '/' {
      CollapseIsJoin(s[1..]);
      assert |s| > 1 ==> s[1..][|s| - 2] == s[|s| - 1];
    } else {
      var k := RunLength(s);
      var run, rest := s[..k], s[k..];
      assert s == run + rest;
      assert Segments(s) == [run] + Segments(rest);
      CollapseRun(run, rest, true);
      if rest == "" {
        assert run == s;
      } else {
        CollapseIsJoin(rest[1..]);
        SlashAfterRun(rest);
        CollapseRunThenSlash(s, run, rest[1..]);
      }
    }
  }

  lemma SlashAfterRun(rest: string)
    requires rest != "" && rest[0] == '/'
    ensures rest == "/" + rest[1..]
    ensures Segments(rest) == Segments(rest[1..])
    ensures Collapse(rest, false) == "/" + Collapse(rest[1..], true)
  {
  }

  lemma AppendTail(run: string, path: string, tail: string)
    ensures run + ("/" + (path + tail)) == (run + ("/" + path)) + tail
  {
  }

  lemma CollapseRunThenSlash(s: string, run: string, after: string)
    requires IsSegment(run) && s == run + ("/" + after) && Segments(s) == [run] + Segments(after)
    requires Collapse(after, true) == JoinPath(Segments(after)) + Tail(after)
    ensures run + ("/" + Collapse(after, true)) == JoinPath(Segments(s)) + Tail(s)
  {
    var more := Segments(after);
    if more == [] {
      if after != "" {
        NoSegmentsMeansSlashes(after);
        assert s[|s| - 1] == after[|after| - 1];
      }
      assert Segments(s) == [run];
      assert Tail(s) == "/" && Collapse(after, true) == "";
    } else {
      assert after != "" && s[|s| - 1] == after[|after| - 1];
      assert Tail(s) == Tail(after);
      assert ([run] + more)[1..] == more;
      AppendTail(run, JoinPath(more), Tail(after));
    }
  }

  lemma {:induction false} JoinPathEnds(ps: seq<string>)
    requires AllSegments(ps) && ps != []
    ensures JoinPath(ps) != "" && JoinPath(ps)[|JoinPath(ps)| - 1] != '/' && JoinPath(ps)[0] != '/'
  {
    assert IsSegment(ps[0]);
    if |ps| > 1 {
      JoinPathEnds(ps[1..]);
    }
  }

  /**
   The sanitized path is the leading slash, if there is one, followed by the non-empty
   segments with single slashes in between; nothing else.
   */
  lemma SanitizedIsSegments(s: string)
    ensures Sanitized(s) == Lead(s) + JoinPath(Segments(s))
  {
    var rest := if Lead(s) == "/" then s[1..] else s;
    assert Segments(rest) == Segments(s);
    CollapseIsJoin(rest);
    assert Collapse(s, false) == Lead(s) + Collapse(rest, true);
    var path := JoinPath(Segments(s));
    if Segments(s) == [] {
      assert Collapse(rest, true) == "";
    } else {
      SegmentsAreSegments(s);
      JoinPathEnds(Segments(s));
      assert Collapse(s, false) == (Lead(s) + path) + Tail(rest);
      TrimDropsTail(Lead(s) + path, Tail(rest));
    }
  }

  lemma TrimDropsTail(path: string, tail: string)
    requires path != "" && path[|path| - 1] != '/' && (tail == "" || tail == "/")
    ensures Trim(path + tail) == path
  {
    if tail == "" {
      assert path + tail == path;
    }
  }

  /** The segments, and whether there is a leading slash, are kept. */
  lemma {:induction false} SegmentsOfJoin(ps: seq<string>)
    requires AllSegments(ps)
    ensures Segments(JoinPath(ps)) == ps
  {
    if ps != [] {
      var p := ps[0];
      assert IsSegment(p);
      if |ps| == 1 {
        RunThen(p, "");
        assert p + "" == p && ps == [p];
      } else {
        var rest := ps[1..];
        SegmentsOfJoin(rest);
        RunThen(p, "/" + JoinPath(rest));
        assert ("/" + JoinPath(rest))[1..] == JoinPath(rest);
        assert ps == [p] + rest;
      }
    }
  }

  lemma RunThen(p: string, rest: string)
    requires IsSegment(p) && (rest == "" || rest[0] == '/')
    ensures Segments(p + rest) == [p] + Segments(rest)
  {
    RunLengthIs(p, rest);
    var s := p + rest;
    assert s[0] == p[0];
    assert s[..|p|] == p && s[|p|..] == rest;
  }

  lemma {:induction false} RunLengthIs(p: string, rest: string)
    requires '/' !in p && (rest == "" || rest[0] == '/')
    ensures RunLength(p + rest) == |p|
  {
    if p == "" {
      assert p + rest == rest;
    } else {
      assert (p + rest)[1..] == p[1..] + rest;
      RunLengthIs(p[1..], rest);
    }
  }

  lemma SanitizedKeepsSegments(s: string)
    ensures Segments(Sanitized(s)) == Segments(s)
    ensures Lead(Sanitized(s)) == Lead(s)
  {
    SanitizedIsSegments(s);
    SegmentsAreSegments(s);
    var path := JoinPath(Segments(s));
    SegmentsOfJoin(Segments(s));
    if Segments(s) != [] {
      JoinPathEnds(Segments(s));
    }
    if Lead(s) == "/" {
      assert ("/" + path)[1..] == path;
    } else {
      assert "" + path == path;
    }
  }

  /** Sanitizing again changes nothing. */
  lemma SanitizedTwice(s: string)
    ensures Sanitized(Sanitized(s)) == Sanitized(s)
  {
    SanitizedKeepsSegments(s);
    SanitizedIsSegments(s);
    SanitizedIsSegments(Sanitized(s));
  }

  lemma {:induction false} CollapseHasNoDouble(s: string, prevSlash: bool, i: nat)
    ensures prevSlash && Collapse(s, prevSlash) != "" ==> Collapse(s, prevSlash)[0] != '/'
    ensures i + 1 < |Collapse(s, prevSlash)| ==>
              !(Collapse(s, prevSlash)[i] == '/' && Collapse(s, prevSlash)[i + 1] == '/')
  {
    if s != "" {
      CollapseHasNoDouble(s[1..], s[0] == '/', i);
      if i > 0 {
        CollapseHasNoDouble(s[1..], s[0] == '/', i - 1);
      }
    }
  }

  /** The result has no double slash, and ends with a slash only if it is "/". */
  lemma SanitizedIsClean(s: string, i: nat)
    ensures var r := Sanitized(s);
            && (i + 1 < |r| ==> !(r[i] == '/' && r[i + 1] == '/'))
            && (EndsWithSlash(r) ==> r == "/")
  {
    var c := Collapse(s, false);
    CollapseHasNoDouble(s, false, i);
    if |c| > 1 {
      CollapseHasNoDouble(s, false, |c| - 2);
    }
  }

  /** What one round of the loop does to the kept characters. */
  lemma CollapseStep(kept: string, path: string, i: nat, prevSlash: bool)
    requires i < |path|
    ensures kept + Collapse(path[i..], prevSlash)
         == (if path[i] == '/' && prevSlash then kept else kept + [path[i]])
            + Collapse(path[i + 1..], path[i] == '/')
  {
    var s := path[i..];
    assert s[0] == path[i] && s[1..] == path[i + 1..];
    var rest := Collapse(path[i + 1..], path[i] == '/');
    assert (kept + [path[i]]) + rest == kept + ([path[i]] + rest);
  }

  // ----------------------------------------------------------------------- the code

  /** `sanitize_uri`, on a buffer that holds a C string of length `len`. */
  method SanitizeUri(abspath: array<char>, len: nat) returns (newLen: nat)
    requires HoldsCString(abspath, len)
    modifies abspath
    ensures newLen <= len && HoldsCString(abspath, newLen)
    ensures abspath[..newLen] == Sanitized(old(abspath[..len]))
    ensures forall k :: len < k < abspath.Length ==> abspath[k] == old(abspath[k])
  {
    ghost var path := abspath[..len];
    var d := CollapseInPlace(abspath, len);
    // a path of a single slash keeps it
    if d > 1 && abspath[d - 1] == '/' {
      d := d - 1;
    }
    ghost var result := abspath[..d];
    abspath[d] := '\0';
    assert abspath[..d] == result;
    newLen := d;
  }

  /** The loop of `sanitize_uri`. */
  method CollapseInPlace(abspath: array<char>, len: nat) returns (d: nat)
    requires HoldsCString(abspath, len)
    modifies abspath
    ensures d <= len && abspath[..d] == Collapse(old(abspath[..len]), false)
    ensures forall k :: 0 <= k < d ==> abspath[k] != '\0'
    ensures forall k :: len <= k < abspath.Length ==> abspath[k] == old(abspath[k])
  {
    d := 0;
    var prevSlash := false;
    ghost var path, kept := abspath[..len], "";
    for i := 0 to len
      invariant d <= i
      // cells from i on still hold what they held: nothing overwritten is ever read
      invariant forall k :: i <= k < abspath.Length ==> abspath[k] == old(abspath[k])
      invariant abspath[..d] == kept && '\0' !in kept
      invariant kept + Collapse(path[i..], prevSlash) == Collapse(path, false)
    {
      var haveSlash := abspath[i] == '/';
      CollapseStep(kept, path, i, prevSlash);
      Put(abspath, d, i);
      if !haveSlash || !prevSlash {
        d := d + 1;
        kept := kept + [path[i]];
      }
      prevSlash := haveSlash;
    }
    assert path[len..] == "" && kept + "" == kept;
    forall k | 0 <= k < d ensures abspath[k] != '\0' {
      assert abspath[k] == kept[k];
    }
  }

  /** `*d = s[i]`. */
  method Put(buffer: array<char>, d: nat, i: nat)
    requires d <= i < buffer.Length
    modifies buffer
    ensures buffer[..d] == old(buffer[..d])
    ensures buffer[..d + 1] == old(buffer[..d] + [buffer[i]])
    ensures forall k :: i < k < buffer.Length ==> buffer[k] == old(buffer[k])
  {
    buffer[d] := buffer[i];
    assert buffer[..d] == old(buffer[..d]);
  }
}
