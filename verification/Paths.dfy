/** Paths of hierarchical keys: how a key such as a/b/c is split into the row (a/b, c)
    of a flat table and put together again, and how request keys are canonicalised. */
module Paths {
  import opened Text

  /** Stands for the empty directory, which a key column cannot hold. */
  const EMPTY_PATH := " "

  // ---------------------------------------------------------------- package path

  /** The lexical rules of path.Clean on segments: drop empty and "." segments, let ".."
      cancel the segment before it, and drop ".." at a root. */
  function CleanSegments(segs: seq<string>, rooted: bool, acc: seq<string>): seq<string>
    decreases |segs|
  {
    if segs == [] then acc
    else
      var s, rest := segs[0], segs[1..];
      if s == "" || s == "." then CleanSegments(rest, rooted, acc)
      else if s != ".." then CleanSegments(rest, rooted, acc + [s])
      else if acc != [] && acc[|acc| - 1] != ".." then CleanSegments(rest, rooted, acc[..|acc| - 1])
      else if rooted then CleanSegments(rest, rooted, acc)
      else CleanSegments(rest, rooted, acc + [".."])
  }

  function Clean(p: string): string {
    if p == "" then "."
    else
      var rooted := p[0] == '/';
      var out := CleanSegments(Split(p), rooted, []);
      if rooted then "/" + Join(out) else if out == [] then "." else Join(out)
  }

  function Dir(p: string): string {
    Clean(p[..LastSlash(p) + 1])
  }

  function Base(p: string): string {
    if p == "" then "."
    else
      var t := TrimRight(p, Slashes);
      if t == "" then "/" else t[LastSlash(t) + 1..]
  }

  function PathJoin(a: string, b: string): string {
    if a == "" && b == "" then ""
    else if a == "" then Clean(b)
    else Clean(a + "/" + b)
  }

  // ------------------------------------------------------------------- Processor

  function UnescapeEmptyPath(s: string): string {
    if s == EMPTY_PATH then "" else s
  }

  function EscapeEmptyPath(s: string): string {
    if s == "" then EMPTY_PATH else s
  }

  function PathWithoutKey(key: string): string {
    if '/' in key then Dir(key) else EMPTY_PATH
  }

  function BaseKey(key: string): string {
    Base(key)
  }

  function Concat(path: string, key: string): string {
    if UnescapeEmptyPath(path) == "" then key
    else
      var full := PathJoin(path, key);
      if HasSuffix(key, "/") then full + "/" else full
  }

  function NormalizeKey(key: string): string {
    PathJoin("/", TrimSpace(key))
  }

  /** The folders above s, the shallowest first. */
  function Prefixes(s: string): (r: seq<string>)
    ensures |r| == |Split(s)| - 1
  {
    var segs := Split(s);
    seq(|segs| - 1, i requires 0 <= i < |segs| - 1 => Join(segs[..i + 1]))
  }

  method ComputePrefixes(s: string) returns (result: seq<string>)
    ensures result == Prefixes(s)
  {
    var components := Split(s);
    result := [];
    var i := 1;
    while i < |components|
      invariant 1 <= i <= |components|
      invariant |result| == i - 1
      invariant forall j :: 0 <= j < i - 1 ==> result[j] == Prefixes(s)[j]
    {
      result := result + [Join(components[..i])];
      i := i + 1;
    }
  }

  /** The folders above s are exactly the q for which s starts with q and a slash. */
  lemma PrefixesExact(s: string, q: string)
    ensures q in Prefixes(s) <==> HasPrefix(s, q + "/")
  {
    var segs := Split(s);
    JoinSplit(s);
    if q in Prefixes(s) {
      var i :| 0 <= i < |Prefixes(s)| && Prefixes(s)[i] == q;
      assert segs == segs[..i + 1] + segs[i + 1..];
      JoinAppend(segs[..i + 1], segs[i + 1..]);
    }
    if HasPrefix(s, q + "/") {
      var rest := s[|q| + 1..];
      assert s == q + "/" + rest;
      SplitAppend(q, rest);
      JoinSplit(q);
      var n := |Split(q)|;
      assert segs[..n] == Split(q);
      assert Prefixes(s)[n - 1] == q;
    }
  }

  /** They come shallowest first. */
  lemma PrefixesGrow(s: string, i: int, j: int)
    requires 0 <= i < j < |Prefixes(s)|
    ensures HasPrefix(Prefixes(s)[j], Prefixes(s)[i] + "/")
  {
    var segs := Split(s);
    assert segs[..j + 1] == segs[..i + 1] + segs[i + 1..j + 1];
    JoinAppend(segs[..i + 1], segs[i + 1..j + 1]);
  }

  // ------------------------------------------------------- normal segments and Clean

  predicate NormalSegment(s: string) {
    s != "" && s != "." && s != ".." && SlashFree(s)
  }

  predicate NormalSegments(segs: seq<string>) {
    forall i :: 0 <= i < |segs| ==> NormalSegment(segs[i])
  }

  lemma {:induction false} CleanSegmentsNormal(segs: seq<string>, rooted: bool, acc: seq<string>)
    requires NormalSegments(segs)
    ensures CleanSegments(segs, rooted, acc) == acc + segs
    decreases |segs|
  {
    if segs == [] {
      assert acc + segs == acc;
    } else {
      assert NormalSegment(segs[0]);
      CleanSegmentsNormal(segs[1..], rooted, acc + [segs[0]]);
      assert acc + [segs[0]] + segs[1..] == acc + segs;
    }
  }

  /** Processing a list of segments is processing its front and then its back. */
  lemma {:induction false} CleanSegmentsAppend(x: seq<string>, y: seq<string>, rooted: bool, acc: seq<string>)
    ensures CleanSegments(x + y, rooted, acc) == CleanSegments(y, rooted, CleanSegments(x, rooted, acc))
    decreases |x|
  {
    if x == [] {
      assert x + y == y;
    } else {
      var z := x + y;
      assert z[0] == x[0] && z[1..] == x[1..] + y;
      var s := x[0];
      if s == "" || s == "." {
        CleanSegmentsAppend(x[1..], y, rooted, acc);
      } else if s != ".." {
        CleanSegmentsAppend(x[1..], y, rooted, acc + [s]);
      } else if acc != [] && acc[|acc| - 1] != ".." {
        CleanSegmentsAppend(x[1..], y, rooted, acc[..|acc| - 1]);
      } else if rooted {
        CleanSegmentsAppend(x[1..], y, rooted, acc);
      } else {
        CleanSegmentsAppend(x[1..], y, rooted, acc + [".."]);
      }
    }
  }

  /** At a root, everything that survives is a normal segment of the input. */
  lemma {:induction false} RootedCleanIsNormal(segs: seq<string>, acc: seq<string>, all: seq<string>)
    requires NormalSegments(acc)
    requires forall i :: 0 <= i < |segs| ==> SlashFree(segs[i])
    requires forall i :: 0 <= i < |segs| ==> segs[i] in all
    requires forall i :: 0 <= i < |acc| ==> acc[i] in all
    ensures NormalSegments(CleanSegments(segs, true, acc))
    ensures forall i :: 0 <= i < |CleanSegments(segs, true, acc)| ==> CleanSegments(segs, true, acc)[i] in all
    decreases |segs|
  {
    if segs == [] {
    } else {
      var s := segs[0];
      assert SlashFree(s) && s in all;
      if s == "" || s == "." {
        RootedCleanIsNormal(segs[1..], acc, all);
      } else if s != ".." {
        RootedCleanIsNormal(segs[1..], acc + [s], all);
      } else if acc != [] && acc[|acc| - 1] != ".." {
        RootedCleanIsNormal(segs[1..], acc[..|acc| - 1], all);
      } else {
        RootedCleanIsNormal(segs[1..], acc, all);
      }
    }
  }

  // -------------------------------------------------------------- canonical keys

  /** A segment that every layer leaves alone. */
  predicate GoodSegment(s: string) {
    && NormalSegment(s)
    && forall i :: 0 <= i < |s| ==> !IsSpace(s[i]) && LowerChar(s[i]) == s[i]
  }

  /** Non-empty, lower-case, free of white space, and all its segments normal. */
  predicate Canonical(k: string) {
    forall i :: 0 <= i < |Split(k)| ==> GoodSegment(Split(k)[i])
  }

  lemma CanonicalFolder(k: string, q: string)
    requires Canonical(k) && HasPrefix(k, q + "/")
    ensures Canonical(q)
  {
    var rest := k[|q| + 1..];
    assert k == q + "/" + rest;
    SplitAppend(q, rest);
    assert forall i :: 0 <= i < |Split(q)| ==> Split(k)[i] == Split(q)[i];
  }

  lemma FolderOfFolder(k: string, q: string, d: string)
    requires HasPrefix(k, q + "/") && HasPrefix(q, d + "/")
    ensures HasPrefix(k, d + "/")
  {
    assert k[..|d| + 1] == k[..|q| + 1][..|d| + 1] == q[..|d| + 1];
  }

  /** A directory of the table: a canonical key, or the escaped empty path. */
  predicate CanonicalDir(d: string) {
    d == EMPTY_PATH || Canonical(d)
  }

  lemma JoinEnds(segs: seq<string>)
    requires |segs| >= 1 && segs[0] != "" && segs[|segs| - 1] != ""
    ensures Join(segs) != ""
    ensures Join(segs)[0] == segs[0][0]
    ensures Join(segs)[|Join(segs)| - 1] == segs[|segs| - 1][|segs[|segs| - 1]| - 1]
  {
    if |segs| > 1 {
      var front, last := segs[..|segs| - 1], segs[|segs| - 1];
      assert segs == front + [last];
      JoinAppend(front, [last]);
    }
  }

  lemma CanonicalShape(k: string)
    requires Canonical(k)
    ensures k != "" && k != EMPTY_PATH && k[0] != '/' && k[|k| - 1] != '/'
    ensures NormalSegments(Split(k))
  {
    var segs := Split(k);
    var first, last := segs[0], segs[|segs| - 1];
    assert GoodSegment(first) && GoodSegment(last);
    assert first[0] in first && last[|last| - 1] in last;
    JoinSplit(k);
    JoinEnds(segs);
  }

  lemma CleanCanonical(k: string)
    requires Canonical(k)
    ensures Clean(k) == k
  {
    CanonicalShape(k);
    CleanSegmentsNormal(Split(k), false, []);
    assert [] + Split(k) == Split(k);
    JoinSplit(k);
  }

  lemma CanonicalAppend(d: string, b: string)
    requires GoodSegment(b)
    ensures Canonical(b)
    ensures Canonical(d + "/" + b) <==> Canonical(d)
  {
    SplitSlashFree(b);
    SplitAppend(d, b);
    var x, y := Split(d), Split(d + "/" + b);
    assert y == x + [b];
    assert forall i :: 0 <= i < |x| ==> y[i] == x[i];
  }

  lemma CleanTrailingSlash(d: string)
    requires Canonical(d)
    ensures Clean(d + "/") == d
  {
    CanonicalShape(d);
    SplitAppend(d, "");
    assert d + "/" + "" == d + "/";
    CleanSegmentsAppend(Split(d), [""], false, []);
    CleanSegmentsNormal(Split(d), false, []);
    assert [] + Split(d) == Split(d);
    JoinSplit(d);
  }

  lemma BaseOfChild(d: string, b: string)
    requires b != "" && SlashFree(b)
    ensures Base(d + "/" + b) == b
  {
    var k := d + "/" + b;
    assert b[|b| - 1] in b;
    assert TrimRight(k, Slashes) == k;
    LastSlashUnique(d, b);
    assert k[|d| + 1..] == b;
  }

  /** Splitting d/b at the row boundary gives d and b. */
  lemma SplitChild(d: string, b: string)
    requires Canonical(d) && GoodSegment(b)
    ensures PathWithoutKey(d + "/" + b) == d
    ensures BaseKey(d + "/" + b) == b
  {
    var k := d + "/" + b;
    BaseOfChild(d, b);
    LastSlashUnique(d, b);
    assert k[|d|] == '/';
    assert k[..|d| + 1] == d + "/";
    CleanTrailingSlash(d);
  }

  lemma SplitSingle(b: string)
    requires GoodSegment(b)
    ensures PathWithoutKey(b) == EMPTY_PATH
    ensures BaseKey(b) == b
  {
    assert b[|b| - 1] in b;
    var i := LastSlash(b);
    assert i == -1;
  }

  /** A canonical key is one segment, or a canonical directory and one segment. */
  lemma CanonicalCases(k: string)
    requires Canonical(k)
    ensures GoodSegment(BaseKey(k))
    ensures PathWithoutKey(k) == EMPTY_PATH ==> k == BaseKey(k)
    ensures PathWithoutKey(k) != EMPTY_PATH ==>
              Canonical(PathWithoutKey(k)) && k == PathWithoutKey(k) + "/" + BaseKey(k)
  {
    var segs := Split(k);
    JoinSplit(k);
    var n := |segs| - 1;
    assert GoodSegment(segs[n]);
    if n == 0 {
      SplitSingle(k);
    } else {
      var d, b := Join(segs[..n]), segs[n];
      assert segs == segs[..n] + [b];
      JoinAppend(segs[..n], [b]);
      assert k == d + "/" + b;
      CanonicalAppend(d, b);
      SplitChild(d, b);
      CanonicalShape(d);
    }
  }

  /** Putting a directory and a child together; markers keep their trailing slash. */
  lemma ConcatChild(d: string, b: string)
    requires Canonical(d) && GoodSegment(b)
    ensures Concat(d, b) == d + "/" + b
    ensures Concat(d, b + "/") == d + "/" + b + "/"
  {
    var k := d + "/" + b;
    CanonicalShape(d);
    CanonicalAppend(d, b);
    CleanCanonical(k);
    assert b[|b| - 1] in b;
    assert Concat(d, b) == k;
    assert d + "/" + (b + "/") == k + "/";
    CleanTrailingSlash(k);
  }

  /** The row of a canonical key, or of its folder marker, gives the key back. */
  lemma RoundTrip(k: string)
    requires Canonical(k)
    ensures Concat(PathWithoutKey(k), BaseKey(k)) == k
    ensures Concat(PathWithoutKey(k), BaseKey(k) + "/") == k + "/"
  {
    CanonicalCases(k);
    if PathWithoutKey(k) != EMPTY_PATH {
      ConcatChild(PathWithoutKey(k), BaseKey(k));
    }
  }

  lemma MarkerKeyInjective(a: string, b: string)
    ensures a + "/" == b + "/" <==> a == b
    ensures SlashFree(b) ==> a + "/" != b
  {
    assert (a + "/")[..|a + "/"| - 1] == a;
    assert (b + "/")[..|b + "/"| - 1] == b;
    assert (a + "/")[|a|] == '/';
    assert '/' in a + "/";
  }

  /** Hence distinct keys live in distinct rows, and no key shares a row with a marker. */
  lemma SplitInjective(k1: string, k2: string)
    requires Canonical(k1) && Canonical(k2)
    requires PathWithoutKey(k1) == PathWithoutKey(k2)
    ensures BaseKey(k1) == BaseKey(k2) ==> k1 == k2
    ensures BaseKey(k1) + "/" == BaseKey(k2) + "/" ==> k1 == k2
    ensures BaseKey(k1) + "/" != BaseKey(k2)
  {
    RoundTrip(k1);
    RoundTrip(k2);
    assert SlashFree(BaseKey(k2)) by { CanonicalCases(k2); }
    MarkerKeyInjective(BaseKey(k1), BaseKey(k2));
  }
}
