/** Character-level string functions that the store, the router and the template
    processor share. Strings are sequences of characters; '/' separates segments. */
module Text {
  import opened Seqs

  predicate HasPrefix(s: string, p: string) {
    p <= s
  }

  predicate HasSuffix(s: string, t: string) {
    |t| <= |s| && s[|s| - |t|..] == t
  }

  function TrimPrefix(s: string, p: string): string {
    if HasPrefix(s, p) then s[|p|..] else s
  }

  function TrimSuffix(s: string, t: string): string {
    if HasSuffix(s, t) then s[..|s| - |t|] else s
  }

  /** The white space that unicode.IsSpace recognises. */
  predicate IsSpace(c: char) {
    || c == '\t' || c == '\n' || c == '\U{000B}' || c == '\U{000C}' || c == '\r' || c == ' '
    || c == '\U{0085}' || c == '\U{00A0}' || c == '\U{1680}'
    || '\U{2000}' <= c <= '\U{200A}'
    || c == '\U{2028}' || c == '\U{2029}' || c == '\U{202F}' || c == '\U{205F}' || c == '\U{3000}'
  }

  /** The characters that Trim removes at both ends. */
  datatype Cutset = Spaces | Slashes {
    predicate Has(c: char) {
      match this
      case Spaces => IsSpace(c)
      case Slashes => c == '/'
    }
  }

  /** The index of the first character from i on that stays. */
  function FirstKept(s: string, cut: Cutset, i: nat): (k: nat)
    requires i <= |s|
    ensures i <= k <= |s| && (k == |s| || !cut.Has(s[k]))
    decreases |s| - i
  {
    if i < |s| && cut.Has(s[i]) then FirstKept(s, cut, i + 1) else i
  }

  /** The index after the last character before i that stays. */
  function LastKept(s: string, cut: Cutset, i: nat): (k: nat)
    requires i <= |s|
    ensures k <= i && (k == 0 || !cut.Has(s[k - 1]))
  {
    if i > 0 && cut.Has(s[i - 1]) then LastKept(s, cut, i - 1) else i
  }

  function TrimLeft(s: string, cut: Cutset): (r: string)
    ensures r == "" || !cut.Has(r[0])
    ensures |r| <= |s| && r == s[|s| - |r|..]
  {
    s[FirstKept(s, cut, 0)..]
  }

  function TrimRight(s: string, cut: Cutset): (r: string)
    ensures r == "" || !cut.Has(r[|r| - 1])
    ensures |r| <= |s| && r == s[..|r|]
  {
    s[..LastKept(s, cut, |s|)]
  }

  function Trim(s: string, cut: Cutset): string {
    TrimRight(TrimLeft(s, cut), cut)
  }

  function TrimSpace(s: string): string {
    Trim(s, Spaces)
  }

  function TrimSlashes(s: string): string {
    Trim(s, Slashes)
  }

  predicate Trimmed(s: string) {
    s == "" || (s[0] != '/' && s[|s| - 1] != '/')
  }

  lemma TrimmedIsStable(s: string)
    ensures Trimmed(TrimSlashes(s))
    ensures Trimmed(s) ==> TrimSlashes(s) == s
  {
    var l := TrimLeft(s, Slashes);
    var r := TrimRight(l, Slashes);
    assert r == "" || r[0] == l[0];
  }

  function LowerChar(c: char): char {
    if 'A' <= c <= 'Z' then (c as int + 32) as char else c
  }

  function ToLower(s: string): (r: string)
    ensures |r| == |s|
    ensures forall i :: 0 <= i < |s| ==> r[i] == LowerChar(s[i])
  {
    seq(|s|, i requires 0 <= i < |s| => LowerChar(s[i]))
  }

  predicate SlashFree(s: string) {
    '/' !in s
  }

  /** The index of the last '/' before i, or -1. */
  function LastSlashBefore(s: string, i: nat): (k: int)
    requires i <= |s|
    ensures -1 <= k < i
    ensures k >= 0 ==> s[k] == '/'
    ensures forall j :: k < j < i ==> s[j] != '/'
  {
    if i == 0 then -1
    else if s[i - 1] == '/' then i - 1
    else LastSlashBefore(s, i - 1)
  }

  /** The index of the last '/', or -1. */
  function LastSlash(s: string): (i: int)
    ensures -1 <= i < |s|
    ensures i >= 0 ==> s[i] == '/'
    ensures SlashFree(s[i + 1..])
  {
    LastSlashBefore(s, |s|)
  }

  lemma LastSlashUnique(d: string, b: string)
    requires SlashFree(b)
    ensures LastSlash(d + "/" + b) == |d|
  {
    var s := d + "/" + b;
    assert s[|d|] == '/';
    assert forall j :: |d| < j < |s| ==> s[j] == b[j - |d| - 1];
  }

  /** The segments between the slashes; always at least one. */
  function Split(s: string): (segs: seq<string>)
    ensures |segs| >= 1
  {
    if s == "" then [""] else Extend(s[0], Split(s[1..]))
  }

  /** The segments of a string one character longer in front. */
  function Extend(c: char, segs: seq<string>): (r: seq<string>)
    requires |segs| >= 1
    ensures |r| >= 1
  {
    if c == '/' then [""] + segs else [[c] + segs[0]] + segs[1..]
  }

  lemma {:induction false} SplitSegments(s: string)
    ensures forall i :: 0 <= i < |Split(s)| ==> SlashFree(Split(s)[i])
  {
    if s == "" {
    } else {
      SplitSegments(s[1..]);
    }
  }

  lemma ExtendAppend(c: char, x: seq<string>, y: seq<string>)
    requires |x| >= 1
    ensures Extend(c, x + y) == Extend(c, x) + y
  {
    assert (x + y)[1..] == x[1..] + y;
  }

  function Join(segs: seq<string>): string {
    if |segs| == 0 then ""
    else if |segs| == 1 then segs[0]
    else segs[0] + "/" + Join(segs[1..])
  }

  lemma {:induction false} SplitAppend(a: string, b: string)
    ensures Split(a + "/" + b) == Split(a) + Split(b)
  {
    var s := a + "/" + b;
    if a == "" {
      assert s[0] == '/' && s[1..] == b;
    } else {
      SplitAppend(a[1..], b);
      assert s[0] == a[0] && s[1..] == a[1..] + "/" + b;
      ExtendAppend(a[0], Split(a[1..]), Split(b));
    }
  }

  lemma {:induction false} SplitSlashFree(s: string)
    requires SlashFree(s)
    ensures Split(s) == [s]
  {
    if s == "" {
    } else {
      SplitSlashFree(s[1..]);
      assert Split(s[1..]) == [s[1..]];
      assert s[0] in s;
      assert [s[0]] + s[1..] == s;
    }
  }

  lemma {:induction false} JoinSplit(s: string)
    ensures Join(Split(s)) == s
  {
    if s == "" {
    } else {
      JoinSplit(s[1..]);
      var rest := Split(s[1..]);
      if s[0] == '/' {
        assert ([""] + rest)[1..] == rest;
      } else if |rest| > 1 {
        assert ([[s[0]] + rest[0]] + rest[1..])[1..] == rest[1..];
      }
    }
  }

  lemma {:induction false} SplitJoin(segs: seq<string>)
    requires |segs| >= 1
    requires forall i :: 0 <= i < |segs| ==> SlashFree(segs[i])
    ensures Split(Join(segs)) == segs
  {
    SplitSlashFree(segs[0]);
    if |segs| > 1 {
      SplitJoin(segs[1..]);
      SplitAppend(segs[0], Join(segs[1..]));
    }
  }

  lemma {:induction false} JoinAppend(a: seq<string>, b: seq<string>)
    requires |a| >= 1 && |b| >= 1
    ensures Join(a + b) == Join(a) + "/" + Join(b)
  {
    if |a| == 1 {
      assert (a + b)[1..] == b;
    } else {
      JoinAppend(a[1..], b);
      assert (a + b)[1..] == a[1..] + b;
    }
  }

  /** A slash-terminated prefix of d/b, b one segment, is d/ itself or a prefix of d. */
  lemma PrefixOfChild(d: string, b: string, q: string)
    requires SlashFree(b)
    ensures HasPrefix(d + "/" + b, q + "/") <==> (d == q || HasPrefix(d, q + "/"))
  {
    var s := d + "/" + b;
    if HasPrefix(s, q + "/") {
      assert s[|q|] == (q + "/")[|q|] == '/';
      assert forall j :: |d| < j < |s| ==> s[j] == b[j - |d| - 1];
      assert |q| <= |d|;
      if |q| == |d| {
        assert q == (q + "/")[..|q|] == s[..|q|] == d;
      } else {
        assert s[..|q| + 1] == d[..|q| + 1];
      }
    }
    if HasPrefix(d, q + "/") {
      assert s[..|q| + 1] == d[..|q| + 1] == q + "/";
    }
    if d == q {
      assert s[..|q| + 1] == q + "/";
    }
  }

  // ------------------------------------------------------------------- what Trim does

  predicate AllCut(s: string, cut: Cutset) {
    forall i :: 0 <= i < |s| ==> cut.Has(s[i])
  }

  /** No character at either end is to be removed. */
  predicate KeptEnds(s: string, cut: Cutset) {
    s == "" || (!cut.Has(s[0]) && !cut.Has(s[|s| - 1]))
  }

  lemma {:induction false} FirstKeptSkips(s: string, cut: Cutset, i: nat)
    requires i <= |s|
    ensures forall j :: i <= j < FirstKept(s, cut, i) ==> cut.Has(s[j])
    decreases |s| - i
  {
    if i < |s| && cut.Has(s[i]) {
      FirstKeptSkips(s, cut, i + 1);
    }
  }

  lemma {:induction false} LastKeptSkips(s: string, cut: Cutset, i: nat)
    requires i <= |s|
    ensures forall j :: LastKept(s, cut, i) <= j < i ==> cut.Has(s[j])
  {
    if i > 0 && cut.Has(s[i - 1]) {
      LastKeptSkips(s, cut, i - 1);
    }
  }

  lemma TrimLeftExact(s: string, cut: Cutset) returns (x: string)
    ensures s == x + TrimLeft(s, cut) && AllCut(x, cut)
  {
    x := s[..FirstKept(s, cut, 0)];
    FirstKeptSkips(s, cut, 0);
  }

  lemma TrimRightExact(s: string, cut: Cutset) returns (y: string)
    ensures s == TrimRight(s, cut) + y && AllCut(y, cut)
  {
    var n := LastKept(s, cut, |s|);
    y := s[n..];
    LastKeptSkips(s, cut, |s|);
    assert forall i :: 0 <= i < |y| ==> y[i] == s[n + i];
  }

  /** Trimming removes characters of the cutset at both ends, and all of them. */
  lemma TrimExact(s: string, cut: Cutset) returns (x: string, y: string)
    ensures s == x + Trim(s, cut) + y && AllCut(x, cut) && AllCut(y, cut)
    ensures KeptEnds(Trim(s, cut), cut)
  {
    x := TrimLeftExact(s, cut);
    var l := TrimLeft(s, cut);
    y := TrimRightExact(l, cut);
    Regrouped(x, Trim(s, cut), y);
    if Trim(s, cut) != "" {
      assert l[0] == Trim(s, cut)[0];
    }
  }

  lemma {:induction false} FirstKeptIs(s: string, cut: Cutset, i: nat, n: nat)
    requires i <= n <= |s| && (forall j :: i <= j < n ==> cut.Has(s[j])) && (n == |s| || !cut.Has(s[n]))
    ensures FirstKept(s, cut, i) == n
    decreases n - i
  {
    if i < n {
      FirstKeptIs(s, cut, i + 1, n);
    }
  }

  lemma {:induction false} LastKeptIs(s: string, cut: Cutset, i: nat, n: nat)
    requires n <= i <= |s| && (forall j :: n <= j < i ==> cut.Has(s[j])) && (n == 0 || !cut.Has(s[n - 1]))
    ensures LastKept(s, cut, i) == n
    decreases i - n
  {
    if n < i {
      LastKeptIs(s, cut, i - 1, n);
    }
  }

  /** And nothing else can be left by it. */
  lemma TrimUnique(x: string, r: string, y: string, cut: Cutset)
    requires AllCut(x, cut) && AllCut(y, cut) && KeptEnds(r, cut)
    ensures Trim(x + r + y, cut) == r
  {
    var s := x + r + y;
    if r == "" {
      assert forall j :: 0 <= j < |s| ==> s[j] == if j < |x| then x[j] else y[j - |x|];
      FirstKeptIs(s, cut, 0, |s|);
    } else {
      FirstKeptIs(s, cut, 0, |x|);
      assert TrimLeft(s, cut) == r + y;
      LastKeptIs(r + y, cut, |r + y|, |r|);
    }
  }

  /** Blanks, tabs and line ends around a text are white space. */
  lemma BlanksTrimmed(x: string, r: string, y: string)
    requires forall i :: 0 <= i < |x| ==> x[i] in " \t\r\n"
    requires forall i :: 0 <= i < |y| ==> y[i] in " \t\r\n"
    requires KeptEnds(r, Spaces)
    ensures TrimSpace(x + r + y) == r
  {
    TrimUnique(x, r, y, Spaces);
  }

  /** The 26 capital letters become the small ones, and nothing else changes. */
  lemma LowerLetters(c: char, i: nat)
    ensures i < 26 ==> LowerChar((65 + i) as char) == (97 + i) as char
    ensures c < (65 as char) || (90 as char) < c ==> LowerChar(c) == c
  {
  }
}
