/** The request-key guard: every "v" parameter is brought to the form that the storage
    layer will give it, before authorisation looks at it. */
module Canonicalize {
  import opened Text
  import opened Paths

  function CleanKey(v: string): string {
    if v == "" then ""
    else
      var c := TrimPrefix(PathJoin("/", v), "/");
      if HasSuffix(v, "/") && c != "" then c + "/" else c
  }

  /** The segments that survive cleaning v below a virtual root. */
  function RootedSegments(v: string): seq<string> {
    CleanSegments(Split(v), true, [])
  }

  predicate NormalPath(c: string) {
    NormalSegments(Split(c))
  }

  lemma RootedSegmentsNormal(v: string)
    ensures NormalSegments(RootedSegments(v))
    ensures forall i :: 0 <= i < |RootedSegments(v)| ==> RootedSegments(v)[i] in Split(v)
  {
    SplitSegments(v);
    RootedCleanIsNormal(Split(v), [], Split(v));
  }

  lemma PathJoinRoot(v: string)
    ensures PathJoin("/", v) == "/" + Join(RootedSegments(v))
  {
    assert "/" + "/" + v == "" + "/" + ("" + "/" + v);
    SplitAppend("", v);
    SplitAppend("", "" + "/" + v);
    var segs := Split("/" + "/" + v);
    assert segs == ["", ""] + Split(v);
    CleanSegmentsAppend(["", ""], Split(v), true, []);
  }

  lemma JoinNormal(segs: seq<string>)
    requires NormalSegments(segs) && segs != []
    ensures Join(segs) != "" && Join(segs)[0] != '/' && Join(segs)[|Join(segs)| - 1] != '/'
    ensures Split(Join(segs)) == segs
  {
    var first, last := segs[0], segs[|segs| - 1];
    assert NormalSegment(first) && NormalSegment(last);
    assert first[0] in first && last[|last| - 1] in last;
    JoinEnds(segs);
    SplitJoin(segs);
  }

  /** What CleanKey returns, in terms of the surviving segments. */
  lemma CleanKeyShape(v: string)
    ensures RootedSegments(v) == [] ==> CleanKey(v) == ""
    ensures RootedSegments(v) != [] ==>
              CleanKey(v) == Join(RootedSegments(v)) + if HasSuffix(v, "/") then "/" else ""
  {
    var out := RootedSegments(v);
    RootedSegmentsNormal(v);
    PathJoinRoot(v);
    assert ("/" + Join(out))[1..] == Join(out);
    if out != [] {
      JoinNormal(out);
    }
  }

  /** A path of normal segments, with or without one trailing slash, keeps its segments. */
  lemma RootedSegmentsOfNormal(segs: seq<string>)
    requires NormalSegments(segs) && segs != []
    ensures RootedSegments(Join(segs)) == segs
    ensures RootedSegments(Join(segs) + "/") == segs
  {
    JoinNormal(segs);
    CleanSegmentsNormal(segs, true, []);
    assert [] + segs == segs;
    SplitAppend(Join(segs), "");
    assert Join(segs) + "/" + "" == Join(segs) + "/";
    CleanSegmentsAppend(segs, [""], true, []);
  }

  /** The inputs that pass through untouched are exactly the empty one and the paths of
      normal segments with at most one trailing slash. */
  lemma CleanKeyFixedPoints(v: string)
    ensures CleanKey(v) == v <==> v == "" || NormalPath(TrimSuffix(v, "/"))
  {
    var out := RootedSegments(v);
    RootedSegmentsNormal(v);
    CleanKeyShape(v);
    var t := TrimSuffix(v, "/");
    assert HasSuffix(v, "/") ==> v == t + "/";
    if out != [] {
      JoinNormal(out);
      if CleanKey(v) == v {
        assert t == Join(out);
      }
    }
    if NormalPath(t) {
      RootedSegmentsOfNormal(Split(t));
      JoinSplit(t);
    }
  }

  lemma TrimSlashOnce(j: string)
    requires j != "" && j[|j| - 1] != '/'
    ensures TrimSuffix(j, "/") == j
    ensures TrimSuffix(j + "/", "/") == j
  {
    assert j[|j| - 1..] == [j[|j| - 1]];
    assert (j + "/")[|j|..] == "/";
    assert (j + "/")[..|j|] == j;
  }

  lemma CleanKeyTrimmed(v: string)
    requires RootedSegments(v) != []
    ensures TrimSuffix(CleanKey(v), "/") == Join(RootedSegments(v))
  {
    RootedSegmentsNormal(v);
    CleanKeyShape(v);
    JoinNormal(RootedSegments(v));
    TrimSlashOnce(Join(RootedSegments(v)));
    assert Join(RootedSegments(v)) + "" == Join(RootedSegments(v));
  }

  /** Cleaning once is enough, whatever the input. */
  lemma CleanKeyIdempotent(v: string)
    ensures CleanKey(CleanKey(v)) == CleanKey(v)
  {
    CleanKeyShape(v);
    CleanKeyFixedPoints(CleanKey(v));
    if RootedSegments(v) != [] {
      RootedSegmentsNormal(v);
      CleanKeyTrimmed(v);
      JoinNormal(RootedSegments(v));
    }
  }

  /** There are canonical keys. */
  lemma SomeKeyIsCanonical()
    ensures Canonical("a/b")
  {
    SplitAppend("a", "b");
    SplitSlashFree("a");
    SplitSlashFree("b");
    assert "a" + "/" + "b" == "a/b";
    assert GoodSegment("a") && GoodSegment("b");
  }

  // ---------------------------------------------------------- what dots and slashes do

  lemma CancelsParent(x: seq<string>, s: string, y: seq<string>)
    requires s != "" && s != "." && s != ".."
    ensures CleanSegments(x + [s, ".."] + y, true, []) == CleanSegments(x + y, true, [])
  {
    var acc := CleanSegments(x, true, []);
    assert x + [s, ".."] + y == x + ([s] + ([".."] + y));
    CleanSegmentsAppend(x, [s] + ([".."] + y), true, []);
    CleanSegmentsAppend(x, y, true, []);
    assert ([s] + ([".."] + y))[1..] == [".."] + y && ([".."] + y)[1..] == y;
    assert (acc + [s])[..|acc|] == acc;
  }

  lemma DropsDot(x: seq<string>, s: string, y: seq<string>)
    requires s == "" || s == "."
    ensures CleanSegments(x + [s] + y, true, []) == CleanSegments(x + y, true, [])
  {
    assert x + [s] + y == x + ([s] + y);
    CleanSegmentsAppend(x, [s] + y, true, []);
    CleanSegmentsAppend(x, y, true, []);
    assert ([s] + y)[1..] == y;
  }

  lemma DropsRootParent(y: seq<string>)
    ensures CleanSegments([".."] + y, true, []) == CleanSegments(y, true, [])
  {
    assert ([".."] + y)[1..] == y;
  }

  lemma SplitThree(x: string, s: string, y: string)
    requires SlashFree(s)
    ensures Split(x + "/" + s + "/" + y) == Split(x) + [s] + Split(y)
  {
    SplitAppend(x + "/" + s, y);
    SplitAppend(x, s);
    SplitSlashFree(s);
  }

  lemma SameCleaned(v: string, w: string)
    requires RootedSegments(v) == RootedSegments(w) && (HasSuffix(v, "/") <==> HasSuffix(w, "/"))
    ensures CleanKey(v) == CleanKey(w)
  {
    CleanKeyShape(v);
    CleanKeyShape(w);
  }

  lemma SameEnd(x: string, z: string, y: string)
    ensures HasSuffix(x + "/" + y, "/") <==> HasSuffix(z + "/" + y, "/")
  {
    var a, b := x + "/" + y, z + "/" + y;
    assert a[|a| - 1] == if y == "" then '/' else y[|y| - 1];
    assert b[|b| - 1] == if y == "" then '/' else y[|y| - 1];
    assert a[|a| - 1..] == [a[|a| - 1]] && b[|b| - 1..] == [b[|b| - 1]];
  }

  /** A parent step takes back the step before it, wherever it stands, so that no key can
      name one thing to the guard and another to the store. */
  lemma ParentCancels(x: string, s: string, y: string)
    requires NormalSegment(s)
    ensures CleanKey(x + "/" + s + "/../" + y) == CleanKey(x + "/" + y)
  {
    var v, w := x + "/" + s + "/" + ".." + "/" + y, x + "/" + y;
    assert x + "/" + s + "/../" + y == v;
    SplitThree(x + "/" + s, "..", y);
    SplitAppend(x, s);
    SplitSlashFree(s);
    SplitAppend(x, y);
    assert Split(x) + [s] + [".."] + Split(y) == Split(x) + [s, ".."] + Split(y);
    CancelsParent(Split(x), s, Split(y));
    SameEnd(x + "/" + s + "/" + "..", x, y);
    SameCleaned(v, w);
  }

  /** At the root there is nothing to take back. */
  lemma RootParentDrops(y: string)
    ensures CleanKey("../" + y) == CleanKey(y)
  {
    var v := ".." + "/" + y;
    assert "../" + y == v;
    SplitAppend("..", y);
    SplitSlashFree("..");
    DropsRootParent(Split(y));
    if y != "" {
      assert v[|v| - 1] == y[|y| - 1];
      assert v[|v| - 1..] == [v[|v| - 1]] && y[|y| - 1..] == [y[|y| - 1]];
      SameCleaned(v, y);
    } else {
      CleanKeyShape(v);
      assert Split("") == [""];
    }
  }

  /** Empty segments and single dots are dropped. */
  lemma DotDrops(x: string, s: string, y: string)
    requires s == "" || s == "."
    ensures CleanKey(x + "/" + s + "/" + y) == CleanKey(x + "/" + y)
  {
    SplitThree(x, s, y);
    SplitAppend(x, y);
    DropsDot(Split(x), s, Split(y));
    SameEnd(x + "/" + s, x, y);
    SameCleaned(x + "/" + s + "/" + y, x + "/" + y);
  }

  /** What cleaning the segments of a path below a root has to do. */
  ghost predicate Cleans(f: seq<string> -> seq<string>) {
    && (forall x :: NormalSegments(x) ==> f(x) == x)
    && (forall x: seq<string>, s: string, y: seq<string> :: s == "" || s == "." ==> f(x + [s] + y) == f(x + y))
    && (forall x: seq<string>, s: string, y: seq<string> :: NormalSegment(s) ==> f(x + [s, ".."] + y) == f(x + y))
    && (forall y: seq<string> :: f([".."] + y) == f(y))
  }

  predicate AllSlashFree(segs: seq<string>) {
    forall i :: 0 <= i < |segs| ==> SlashFree(segs[i])
  }

  /** There is only one way to do it. */
  lemma {:induction false} OnlyOneCleans(f: seq<string> -> seq<string>, segs: seq<string>)
    requires Cleans(f) && AllSlashFree(segs)
    ensures f(segs) == CleanSegments(segs, true, [])
    decreases |segs|
  {
    if NormalSegments(segs) {
      CleanSegmentsNormal(segs, true, []);
      assert [] + segs == segs;
    } else {
      var i := FirstOdd(segs);
      var s, y := segs[i], segs[i + 1..];
      if s != ".." {
        var x := segs[..i];
        assert segs == x + [s] + y;
        DropsDot(x, s, y);
        OnlyOneCleans(f, x + y);
      } else if i == 0 {
        assert segs == [".."] + y;
        DropsRootParent(y);
        OnlyOneCleans(f, y);
      } else {
        var x, p := segs[..i - 1], segs[i - 1];
        assert segs == x + [p, ".."] + y;
        CancelsParent(x, p, y);
        OnlyOneCleans(f, x + y);
      }
    }
  }

  lemma FirstOdd(segs: seq<string>) returns (i: nat)
    requires !NormalSegments(segs)
    ensures i < |segs| && !NormalSegment(segs[i])
    ensures forall j :: 0 <= j < i ==> NormalSegment(segs[j])
  {
    i := 0;
    while NormalSegment(segs[i])
      invariant i < |segs| && forall j :: 0 <= j < i ==> NormalSegment(segs[j])
      decreases |segs| - i
    {
      i := i + 1;
    }
  }

  predicate SpaceFreeLower(s: string) {
    forall i :: 0 <= i < |s| ==> !IsSpace(s[i]) && LowerChar(s[i]) == s[i]
  }

  lemma {:induction false} SplitKeepsCharacters(s: string, i: int)
    requires SpaceFreeLower(s) && 0 <= i < |Split(s)|
    ensures SpaceFreeLower(Split(s)[i])
  {
    if s == "" {
    } else {
      var rest := Split(s[1..]);
      if s[0] == '/' {
        if i > 0 {
          SplitKeepsCharacters(s[1..], i - 1);
        }
      } else {
        SplitKeepsCharacters(s[1..], i);
      }
    }
  }

  /** On lower-case input without white space, what is left is a canonical key, up to the
      trailing slash that is kept on purpose, and it is the name that NormalizeKey uses. */
  lemma CleanKeyCanonical(v: string)
    requires SpaceFreeLower(v)
    ensures CleanKey(v) != "" ==> Canonical(TrimSuffix(CleanKey(v), "/"))
    ensures NormalizeKey(v) == "/" + TrimSuffix(CleanKey(v), "/")
  {
    CleanKeyShape(v);
    PathJoinRoot(v);
    assert TrimSpace(v) == v;
    if RootedSegments(v) != [] {
      CleanKeyTrimmed(v);
      SurvivorsAreGood(v);
    }
  }

  /** What survives of such an input is a canonical key. */
  lemma SurvivorsAreGood(v: string)
    requires SpaceFreeLower(v) && RootedSegments(v) != []
    ensures Canonical(Join(RootedSegments(v)))
  {
    var out := RootedSegments(v);
    RootedSegmentsNormal(v);
    JoinNormal(out);
    forall i | 0 <= i < |out| ensures GoodSegment(out[i]) {
      SurvivorIsGood(v, out[i]);
    }
  }

  lemma SurvivorIsGood(v: string, s: string)
    requires SpaceFreeLower(v) && NormalSegment(s) && s in Split(v)
    ensures GoodSegment(s)
  {
    var n :| 0 <= n < |Split(v)| && Split(v)[n] == s;
    SplitKeepsCharacters(v, n);
  }

  lemma CanonicalIsTrimmed(k: string)
    requires Canonical(k)
    ensures TrimSpace(k) == k && TrimSlashes(k) == k && ToLower(k) == k
  {
    CanonicalShape(k);
    CanonicalCharacters(k);
    LowerStable(k);
  }

  lemma CanonicalIsClean(k: string)
    requires Canonical(k)
    ensures CleanKey(k) == k && TrimSuffix(k, "/") == k
  {
    CanonicalShape(k);
    assert k[|k| - 1..] == [k[|k| - 1]];
    CleanKeyFixedPoints(k);
  }

  /** A canonical key is untouched by every layer. */
  lemma CanonicalIsStable(k: string)
    requires Canonical(k)
    ensures CleanKey(k) == k
    ensures NormalizeKey(k) == "/" + k
    ensures TrimSpace(k) == k && TrimSlashes(k) == k && ToLower(k) == k
  {
    CanonicalIsTrimmed(k);
    CanonicalIsClean(k);
    CanonicalCharacters(k);
    CleanKeyCanonical(k);
  }

  lemma LowerStable(s: string)
    requires SpaceFreeLower(s)
    ensures ToLower(s) == s
  {
  }

  lemma SlashInFront(s: string)
    requires SpaceFreeLower(s)
    ensures SpaceFreeLower("/" + s)
  {
    var t := "/" + s;
    forall i | 0 <= i < |t| ensures !IsSpace(t[i]) && LowerChar(t[i]) == t[i] {
      assert i > 0 ==> t[i] == s[i - 1];
    }
  }

  lemma {:induction false} CharactersOfSegments(s: string)
    requires forall i :: 0 <= i < |Split(s)| ==> SpaceFreeLower(Split(s)[i])
    ensures SpaceFreeLower(s)
  {
    if s == "" {
    } else {
      var rest := Split(s[1..]);
      assert SpaceFreeLower(Split(s)[0]);
      if s[0] == '/' {
        assert forall i :: 0 <= i < |rest| ==> Split(s)[i + 1] == rest[i];
      } else {
        assert forall i :: 1 <= i < |rest| ==> Split(s)[i] == rest[i];
        assert Split(s)[0] == [s[0]] + rest[0];
        assert forall j :: 0 <= j < |rest[0]| ==> rest[0][j] == Split(s)[0][j + 1];
      }
      CharactersOfSegments(s[1..]);
      assert s[0] == '/' || s[0] == Split(s)[0][0];
      assert s == [s[0]] + s[1..];
    }
  }

  lemma CanonicalCharacters(k: string)
    requires Canonical(k)
    ensures SpaceFreeLower(k)
  {
    forall i | 0 <= i < |Split(k)| ensures SpaceFreeLower(Split(k)[i]) {
      assert GoodSegment(Split(k)[i]);
    }
    CharactersOfSegments(k);
  }

  // -------------------------------------------------------- keys that are not lower-case

  lemma LowerKeeps(c: char)
    ensures IsSpace(LowerChar(c)) <==> IsSpace(c)
    ensures (LowerChar(c) == '/' <==> c == '/') && (LowerChar(c) == '.' <==> c == '.')
  {
  }

  lemma LowerFirst(s: string)
    requires s != ""
    ensures ToLower(s)[0] == LowerChar(s[0]) && ToLower(s)[1..] == ToLower(s[1..])
  {
  }

  function LowerAll(segs: seq<string>): (r: seq<string>)
    ensures |r| == |segs| && forall i :: 0 <= i < |segs| ==> r[i] == ToLower(segs[i])
  {
    seq(|segs|, i requires 0 <= i < |segs| => ToLower(segs[i]))
  }

  lemma LowerExtend(c: char, segs: seq<string>)
    requires |segs| >= 1
    ensures LowerAll(Extend(c, segs)) == Extend(LowerChar(c), LowerAll(segs))
  {
    LowerKeeps(c);
    assert ToLower("") == "" && ToLower([c] + segs[0]) == [LowerChar(c)] + ToLower(segs[0]);
  }

  /** Lower-casing does not move the slashes. */
  lemma {:induction false} SplitLower(s: string)
    ensures Split(ToLower(s)) == LowerAll(Split(s))
  {
    if s == "" {
      assert ToLower("") == "";
    } else {
      LowerFirst(s);
      SplitLower(s[1..]);
      LowerExtend(s[0], Split(s[1..]));
    }
  }

  lemma NormalIfLowerIs(s: string)
    requires GoodSegment(ToLower(s)) && SlashFree(s)
    ensures NormalSegment(s)
  {
    assert |ToLower(s)| == |s|;
    forall i | 0 <= i < |s| ensures s[i] == '.' <==> ToLower(s)[i] == '.' {
      LowerKeeps(s[i]);
    }
  }

  /** A key that is canonical but for letter case is cleaned to itself. */
  lemma CaseIsClean(raw: string)
    requires Canonical(ToLower(raw))
    ensures PathJoin("/", raw) == "/" + raw
  {
    SplitSegments(raw);
    SplitLower(raw);
    forall i | 0 <= i < |Split(raw)| ensures NormalSegment(Split(raw)[i]) {
      assert GoodSegment(Split(ToLower(raw))[i]);
      NormalIfLowerIs(Split(raw)[i]);
    }
    RootedSegmentsOfNormal(Split(raw));
    JoinSplit(raw);
    PathJoinRoot(raw);
  }

  /** White space around a key does not matter to its normal form, but letter case does. */
  lemma NormalizeDecorated(raw: string, x: string, y: string)
    requires Canonical(ToLower(raw)) && AllCut(x, Spaces) && AllCut(y, Spaces)
    ensures NormalizeKey(x + raw + y) == "/" + raw
  {
    CanonicalShape(ToLower(raw));
    CanonicalCharacters(ToLower(raw));
    LowerKeeps(raw[0]);
    LowerKeeps(raw[|raw| - 1]);
    TrimUnique(x, raw, y, Spaces);
    CaseIsClean(raw);
  }
}
