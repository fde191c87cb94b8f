/**
 * Reference resolution as in RFC 3986: the scheme syntax of section 3.1,
 * the merge of section 5.2.3 and remove_dot_segments of section 5.2.4,
 * stated on the `/`-separated segments of a path. Query and fragment
 * components are not modelled.
 */
module Rfc3986 {
  import opened Wrappers

  // ---------------------------------------------------------------------
  // Path segments
  // ---------------------------------------------------------------------

  predicate SlashFree(w: string) {
    forall i :: 0 <= i < |w| ==> w[i] != '/'
  }

  predicate AllSlashFree(segs: seq<string>) {
    forall i :: 0 <= i < |segs| ==> SlashFree(segs[i])
  }

  /** The segments of a path, split at every `/`; there is always at least one. */
  function Split(s: string): (segs: seq<string>)
    ensures |segs| >= 1
    decreases |s|
  {
    if s == [] then [""]
    else if s[0] == '/' then [""] + Split(s[1..])
    else
      var rest := Split(s[1..]);
      [[s[0]] + rest[0]] + rest[1..]
  }

  /** The segments written out again, separated by `/`. */
  function Join(segs: seq<string>): string
  {
    if segs == [] then ""
    else if |segs| == 1 then segs[0]
    else segs[0] + "/" + Join(segs[1..])
  }

  /** Appending a segment appends `/` and that segment. */
  lemma {:induction false} JoinSnoc(segs: seq<string>, x: string)
    requires |segs| >= 1
    ensures Join(segs + [x]) == Join(segs) + "/" + x
    decreases |segs|
  {
    if |segs| == 1 {
      assert segs + [x] == [segs[0], x];
      assert [segs[0], x][1..] == [x];
    } else {
      JoinSnoc(segs[1..], x);
      assert (segs + [x])[1..] == segs[1..] + [x];
    }
  }

  /** Joining two non-empty runs of segments puts one `/` between them. */
  lemma {:induction false} JoinConcat(a: seq<string>, b: seq<string>)
    requires |a| >= 1 && |b| >= 1
    ensures Join(a + b) == Join(a) + "/" + Join(b)
    decreases |a|
  {
    if |a| == 1 {
      assert (a + b)[1..] == b;
    } else {
      JoinConcat(a[1..], b);
      assert (a + b)[1..] == a[1..] + b;
    }
  }

  lemma AllSlashFreeConcat(a: seq<string>, b: seq<string>)
    requires AllSlashFree(a) && AllSlashFree(b)
    ensures AllSlashFree(a + b)
  {
    assert forall i :: 0 <= i < |a + b| ==> (a + b)[i] == if i < |a| then a[i] else b[i - |a|];
  }

  /** A path joined from segments begins with its first segment. */
  lemma JoinStartsWith(segs: seq<string>)
    requires |segs| >= 1
    ensures |Join(segs)| >= |segs[0]| && Join(segs)[..|segs[0]|] == segs[0]
  {
  }

  lemma {:induction false} SplitSlashFree(s: string)
    ensures AllSlashFree(Split(s))
    decreases |s|
  {
    if s != [] {
      SplitSlashFree(s[1..]);
    }
  }

  /** Splitting and joining again gives back the path. */
  lemma {:induction false} JoinSplit(s: string)
    ensures Join(Split(s)) == s
    decreases |s|
  {
    if s == [] {
    } else if s[0] == '/' {
      JoinSplit(s[1..]);
      assert Split(s) == [""] + Split(s[1..]);
      assert s == "" + "/" + s[1..];
    } else {
      var rest := Split(s[1..]);
      JoinSplit(s[1..]);
      if |rest| == 1 {
        assert s == [s[0]] + rest[0];
      } else {
        assert rest == [rest[0]] + rest[1..];
        assert Join(rest) == rest[0] + "/" + Join(rest[1..]);
        assert s == ([s[0]] + rest[0]) + "/" + Join(rest[1..]);
      }
    }
  }

  /** A slash-free word glued in front of a path extends its first segment. */
  lemma {:induction false} SplitPrefix(w: string, t: string)
    requires SlashFree(w)
    ensures Split(w + t) == [w + Split(t)[0]] + Split(t)[1..]
    decreases |w|
  {
    if w != [] {
      SplitPrefix(w[1..], t);
      assert (w + t)[0] == w[0];
      assert (w + t)[1..] == w[1..] + t;
      var rest := Split(w[1..] + t);
      assert rest == [w[1..] + Split(t)[0]] + Split(t)[1..];
      assert Split(w + t) == [[w[0]] + rest[0]] + rest[1..];
      assert [w[0]] + (w[1..] + Split(t)[0]) == w + Split(t)[0];
    } else {
      assert w + t == t && w + Split(t)[0] == Split(t)[0];
    }
  }

  /** Joining and splitting again gives back the segments, when none holds a `/`. */
  lemma {:induction false} SplitJoin(segs: seq<string>)
    requires |segs| >= 1 && AllSlashFree(segs)
    ensures Split(Join(segs)) == segs
    decreases |segs|
  {
    if |segs| == 1 {
      SplitPrefix(segs[0], "");
      assert segs[0] + "" == segs[0];
    } else {
      var tail := Join(segs[1..]);
      SplitJoin(segs[1..]);
      assert Join(segs) == segs[0] + ("/" + tail);
      SplitPrefix(segs[0], "/" + tail);
      assert ("/" + tail)[0] == '/' && ("/" + tail)[1..] == tail;
      assert Split("/" + tail) == [""] + segs[1..];
      assert segs[0] + "" == segs[0];
      assert segs == [segs[0]] + segs[1..];
    }
  }

  // ---------------------------------------------------------------------
  // remove_dot_segments (section 5.2.4), on segments
  // ---------------------------------------------------------------------

  predicate IsDot(seg: string) {
    seg == "." || seg == ".."
  }

  predicate DotFree(segs: seq<string>) {
    forall i :: 0 <= i < |segs| ==> !IsDot(segs[i])
  }

  /** Drops the last output segment, if any. */
  function Pop(out: seq<string>): seq<string> {
    if out == [] then [] else out[..|out| - 1]
  }

  /** Processes one segment that is not the last of the input. */
  function Push(out: seq<string>, seg: string): seq<string> {
    if seg == "." then out
    else if seg == ".." then Pop(out)
    else out + [seg]
  }

  /** The output buffer after processing every segment of `segs` as a non-final one. */
  function Fold(segs: seq<string>): seq<string>
    decreases |segs|
  {
    if segs == [] then []
    else Push(Fold(segs[..|segs| - 1]), segs[|segs| - 1])
  }

  /**
   * The segments of a path with its `.` and `..` segments removed; a final
   * `.` or `..` leaves the path ending in `/` (an empty last segment).
   */
  function Normalize(segs: seq<string>): seq<string> {
    if segs == [] then []
    else
      var last := segs[|segs| - 1];
      var out := Fold(segs[..|segs| - 1]);
      if IsDot(last) then Push(out, last) + [""] else out + [last]
  }

  /** Every segment Fold keeps is an ordinary segment of its input. */
  lemma {:induction false} FoldKeepsOrdinarySegments(segs: seq<string>)
    ensures forall i :: 0 <= i < |Fold(segs)| ==> Fold(segs)[i] in segs && !IsDot(Fold(segs)[i])
    decreases |segs|
  {
    if segs != [] {
      var init := segs[..|segs| - 1];
      FoldKeepsOrdinarySegments(init);
      forall i | 0 <= i < |Fold(segs)|
        ensures Fold(segs)[i] in segs && !IsDot(Fold(segs)[i])
      {
        if i < |Fold(init)| {
          assert Fold(segs)[i] == Fold(init)[i] && Fold(init)[i] in init;
        }
      }
    }
  }

  /** The output of Normalize holds no `.` or `..` and no segment that was not in the input (or empty). */
  lemma NormalizeKeepsOrdinarySegments(segs: seq<string>)
    ensures DotFree(Normalize(segs))
    ensures forall i :: 0 <= i < |Normalize(segs)| ==> Normalize(segs)[i] in segs || Normalize(segs)[i] == ""
  {
    if segs != [] {
      var init := segs[..|segs| - 1];
      FoldKeepsOrdinarySegments(init);
      var out := Fold(init);
      var last := segs[|segs| - 1];
      if IsDot(last) {
        var p := Push(out, last);
        assert forall i :: 0 <= i < |p| ==> p[i] == out[i];
      }
    }
  }

  /** Fold leaves a path without dot segments as it is. */
  lemma {:induction false} FoldDotFree(segs: seq<string>)
    requires DotFree(segs)
    ensures Fold(segs) == segs
    decreases |segs|
  {
    if segs != [] {
      var init := segs[..|segs| - 1];
      FoldDotFree(init);
      assert segs == init + [segs[|segs| - 1]];
    }
  }

  /** Normalize leaves a path without dot segments as it is. */
  lemma NormalizeDotFree(segs: seq<string>)
    requires DotFree(segs)
    ensures Normalize(segs) == segs
  {
    if segs != [] {
      FoldDotFree(segs[..|segs| - 1]);
      assert segs == segs[..|segs| - 1] + [segs[|segs| - 1]];
    }
  }

  /** Normalizing twice is normalizing once. */
  lemma NormalizeIdempotent(segs: seq<string>)
    ensures Normalize(Normalize(segs)) == Normalize(segs)
  {
    NormalizeKeepsOrdinarySegments(segs);
    NormalizeDotFree(Normalize(segs));
  }

  /** Inputs that Fold leaves in the same state stay in the same state under any continuation. */
  lemma {:induction false} FoldCongruent(a: seq<string>, b: seq<string>, q: seq<string>)
    requires Fold(a) == Fold(b)
    ensures Fold(a + q) == Fold(b + q)
    decreases |q|
  {
    if q != [] {
      var q' := q[..|q| - 1];
      var x := q[|q| - 1];
      FoldCongruent(a, b, q');
      assert (a + q)[..|a + q| - 1] == a + q' && (a + q)[|a + q| - 1] == x;
      assert (b + q)[..|b + q| - 1] == b + q' && (b + q)[|b + q| - 1] == x;
      calc {
        Fold(a + q);
        Push(Fold(a + q'), x);
        Push(Fold(b + q'), x);
        Fold(b + q);
      }
    } else {
      assert a + q == a && b + q == b;
    }
  }

  lemma NormalizeCongruent(a: seq<string>, b: seq<string>, q: seq<string>)
    requires Fold(a) == Fold(b) && q != []
    ensures Normalize(a + q) == Normalize(b + q)
  {
    var q' := q[..|q| - 1];
    var x := q[|q| - 1];
    FoldCongruent(a, b, q');
    assert (a + q)[..|a + q| - 1] == a + q' && (a + q)[|a + q| - 1] == x;
    assert (b + q)[..|b + q| - 1] == b + q' && (b + q)[|b + q| - 1] == x;
    var out := Fold(a + q');
    assert Normalize(a + q) == if IsDot(x) then Push(out, x) + [""] else out + [x];
    assert Normalize(b + q) == if IsDot(x) then Push(out, x) + [""] else out + [x];
  }

  /** `x/..` cancels: an ordinary segment followed by `..` disappears, when more follows. */
  lemma ParentCancels(p: seq<string>, x: string, q: seq<string>)
    requires !IsDot(x) && q != []
    ensures Normalize(p + [x, ".."] + q) == Normalize(p + q)
  {
    assert (p + [x, ".."])[..|p| + 1] == p + [x];
    assert (p + [x])[..|p|] == p;
    NormalizeCongruent(p + [x, ".."], p, q);
  }

  /** `.` is dropped, when more follows. */
  lemma CurrentDropped(p: seq<string>, q: seq<string>)
    requires q != []
    ensures Normalize(p + ["."] + q) == Normalize(p + q)
  {
    assert (p + ["."])[..|p|] == p;
    NormalizeCongruent(p + ["."], p, q);
  }

  /** A `..` at the root has nowhere to climb to and is dropped, when more follows. */
  lemma ParentAtRootDropped(q: seq<string>)
    requires q != []
    ensures Normalize([".."] + q) == Normalize(q)
  {
    assert [".."][..0] == [];
    NormalizeCongruent([".."], [], q);
    assert [] + q == q;
  }

  /**
   * remove_dot_segments for a rooted path. A path that does not start with
   * `/` is returned as written.
   */
  function RemoveDotSegments(path: string): (r: string)
    ensures |path| > 0 && path[0] == '/' <==> |r| > 0 && r[0] == '/'
  {
    if |path| > 0 && path[0] == '/' then "/" + Join(Normalize(Split(path[1..])))
    else path
  }

  /** Removing dot segments is idempotent, and leaves no dot segment behind. */
  lemma RemoveDotSegmentsIdempotent(path: string)
    ensures RemoveDotSegments(RemoveDotSegments(path)) == RemoveDotSegments(path)
  {
    if |path| > 0 && path[0] == '/' {
      var segs := Split(path[1..]);
      var n := Normalize(segs);
      SplitSlashFree(path[1..]);
      NormalizeKeepsOrdinarySegments(segs);
      assert |n| >= 1;
      assert AllSlashFree(n) by {
        forall i | 0 <= i < |n| ensures SlashFree(n[i]) {
          if n[i] != "" {
            var j :| 0 <= j < |segs| && segs[j] == n[i];
          }
        }
      }
      SplitJoin(n);
      NormalizeDotFree(n);
      assert ("/" + Join(n))[1..] == Join(n);
    }
  }

  /** The segments of a rooted path after remove_dot_segments hold no `.` or `..`. */
  lemma RemoveDotSegmentsDotFree(path: string)
    requires |path| > 0 && path[0] == '/'
    ensures var r := RemoveDotSegments(path); DotFree(Split(r[1..]))
  {
    var segs := Split(path[1..]);
    var n := Normalize(segs);
    SplitSlashFree(path[1..]);
    NormalizeKeepsOrdinarySegments(segs);
    assert AllSlashFree(n) by {
      forall i | 0 <= i < |n| ensures SlashFree(n[i]) {
        if n[i] != "" {
          var j :| 0 <= j < |segs| && segs[j] == n[i];
        }
      }
    }
    SplitJoin(n);
    assert ("/" + Join(n))[1..] == Join(n);
  }

  /** remove_dot_segments of a rooted path given by its segments normalizes those segments. */
  lemma RemoveDotSegmentsOfSegments(segs: seq<string>)
    requires |segs| >= 1 && AllSlashFree(segs)
    ensures RemoveDotSegments("/" + Join(segs)) == "/" + Join(Normalize(segs))
  {
    assert ("/" + Join(segs))[0] == '/' && ("/" + Join(segs))[1..] == Join(segs);
    SplitJoin(segs);
  }

  // ---------------------------------------------------------------------
  // Merge (section 5.2.3)
  // ---------------------------------------------------------------------

  /** The base path up to and including its last `/`; empty when it has none. */
  function DirectoryPrefix(p: string): (d: string)
    ensures |d| <= |p| && d == p[..|d|]
    ensures d == "" || d[|d| - 1] == '/'
    ensures SlashFree(p[|d|..])
    decreases |p|
  {
    if p == "" then ""
    else if p[|p| - 1] == '/' then p
    else DirectoryPrefix(p[..|p| - 1])
  }

  /** The directory prefix of a path ending in a file name is everything up to that name. */
  lemma {:induction false} DirectoryPrefixOfFile(dir: string, name: string)
    requires dir != "" && dir[|dir| - 1] == '/' && SlashFree(name)
    ensures DirectoryPrefix(dir + name) == dir
    decreases |name|
  {
    if name == [] {
      assert dir + name == dir;
    } else {
      var init := name[..|name| - 1];
      DirectoryPrefixOfFile(dir, init);
      assert (dir + name)[..|dir + name| - 1] == dir + init;
    }
  }

  /** Merges a relative-path reference with the path of its base. */
  function Merge(basePath: string, ref: string): (m: string)
    ensures basePath == "" ==> m == "/" + ref
    // A non-empty base path keeps everything up to its last `/` and loses the rest.
    ensures basePath != "" ==>
      |ref| <= |m| && m[|m| - |ref|..] == ref &&
      var d := |m| - |ref|;
      d <= |basePath| && m[..d] == basePath[..d] &&
      (d == 0 || m[d - 1] == '/') && SlashFree(basePath[d..])
  {
    if basePath == "" then "/" + ref else DirectoryPrefix(basePath) + ref
  }

  // ---------------------------------------------------------------------
  // Scheme syntax (section 3.1)
  // ---------------------------------------------------------------------

  predicate IsAlpha(c: char) {
    ('a' <= c <= 'z') || ('A' <= c <= 'Z')
  }

  predicate IsDigit(c: char) {
    '0' <= c <= '9'
  }

  predicate IsSchemeChar(c: char) {
    IsAlpha(c) || IsDigit(c) || c == '+' || c == '-' || c == '.'
  }

  /** The length of the longest prefix made of scheme characters. */
  function SchemeCharsPrefix(s: string): (n: nat)
    ensures n <= |s|
    ensures forall i :: 0 <= i < n ==> IsSchemeChar(s[i])
    ensures n < |s| ==> !IsSchemeChar(s[n])
    decreases |s|
  {
    if s == [] || !IsSchemeChar(s[0]) then 0 else 1 + SchemeCharsPrefix(s[1..])
  }

  function LowerChar(c: char): (l: char)
    ensures 'A' <= c <= 'Z' ==> 'a' <= l <= 'z'
    ensures !('A' <= c <= 'Z') ==> l == c
  {
    if 'A' <= c <= 'Z' then (c as int - 'A' as int + 'a' as int) as char else c
  }

  /** Schemes are case-insensitive; their canonical form is lower case. */
  function Lower(s: string): (l: string)
    ensures |l| == |s|
    ensures forall i :: 0 <= i < |s| ==> l[i] == LowerChar(s[i])
  {
    seq(|s|, i requires 0 <= i < |s| => LowerChar(s[i]))
  }

  /** The `scheme ":"` prefix of a reference, lower-cased, and what follows it. */
  function SplitScheme(s: string): (r: Option<(string, string)>)
    ensures r.Some? ==>
      var (scheme, rest) := r.value;
      |scheme| + 1 + |rest| == |s| && scheme == Lower(s[..|scheme|]) &&
      s[|scheme|] == ':' && rest == s[|scheme| + 1..] &&
      |scheme| >= 1 && IsAlpha(s[0]) && forall i :: 0 <= i < |scheme| ==> IsSchemeChar(s[i])
    ensures r.None? ==> forall k :: 0 < k < |s| && s[k] == ':' ==>
      !IsAlpha(s[0]) || exists i :: 0 <= i < k && !IsSchemeChar(s[i])
  {
    var n := SchemeCharsPrefix(s);
    if n == 0 || n == |s| || s[n] != ':' || !IsAlpha(s[0]) then None
    else Some((Lower(s[..n]), s[n + 1..]))
  }

  /** A reference that does not start with a letter has no scheme. */
  lemma NoSchemeWithoutLeadingLetter(s: string)
    requires |s| > 0 && !IsAlpha(s[0])
    ensures SplitScheme(s).None?
  {
  }

  /** A reference made of a well-formed scheme and `:` is split there. */
  lemma SchemeAt(s: string, n: nat)
    requires 1 <= n < |s| && IsAlpha(s[0]) && s[n] == ':'
    requires forall i :: 0 <= i < n ==> IsSchemeChar(s[i])
    ensures SplitScheme(s) == Some((Lower(s[..n]), s[n + 1..]))
  {
  }

  /** The index of the first `/` at or after `from`, or |s| when there is none. */
  function SlashFrom(s: string, from: nat): (k: nat)
    requires from <= |s|
    ensures from <= k <= |s|
    ensures forall i :: from <= i < k ==> s[i] != '/'
    ensures k < |s| ==> s[k] == '/'
    decreases |s| - from
  {
    if from == |s| || s[from] == '/' then from else SlashFrom(s, from + 1)
  }

  /** Whether a hierarchical part starts with an authority, `//host`. */
  predicate HasAuthority(h: string) {
    |h| >= 2 && h[0] == '/' && h[1] == '/'
  }

  /** The path of a hierarchical part: an authority in front of it is skipped. */
  function HierPath(h: string): (p: string)
    ensures HasAuthority(h) ==> p == "" || p[0] == '/'
    // The path is what follows `//` and the host, which holds no `/`.
    ensures HasAuthority(h) ==> |p| <= |h| - 2 && p == h[|h| - |p|..] && SlashFree(h[2..|h| - |p|])
    ensures !HasAuthority(h) ==> p == h
  {
    if HasAuthority(h) then h[SlashFrom(h, 2)..] else h
  }
}
