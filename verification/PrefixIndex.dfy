/** The in-memory index of prefix configurations, and the routing lookup on it. */
module PrefixIndex {
  import opened Seqs
  import opened Text
  import opened Paths

  datatype Config = Config(pfx: string, typeDefault: string, typeSecure: string)

  /** Configurations keyed by their prefix without surrounding slashes. */
  type Index = map<string, Config>

  datatype Lookup = Found(config: Config) | NotFound | EmptyPrefix

  function IndexOf(configs: seq<Config>): Index {
    if configs == [] then map[]
    else
      var c := configs[|configs| - 1];
      IndexOf(configs[..|configs| - 1])[TrimSlashes(c.pfx) := c]
  }

  method ParseIndex(configs: seq<Config>) returns (m: Index)
    ensures m == IndexOf(configs)
  {
    m := map[];
    for i := 0 to |configs|
      invariant m == IndexOf(configs[..i])
    {
      IndexNext(configs, i);
      m := m[TrimSlashes(configs[i].pfx) := configs[i]];
    }
    assert configs[..|configs|] == configs;
  }

  lemma IndexNext(configs: seq<Config>, i: nat)
    requires i < |configs|
    ensures IndexOf(configs[..i + 1]) == IndexOf(configs[..i])[TrimSlashes(configs[i].pfx) := configs[i]]
  {
    Front(configs, i);
  }

  predicate LexLess(a: string, b: string) {
    if b == "" then false
    else if a == "" then true
    else a[0] < b[0] || (a[0] == b[0] && LexLess(a[1..], b[1..]))
  }

  /** x displaces y as the best candidate so far. */
  predicate Beats(x: Config, y: Config) {
    |x.pfx| > |y.pfx| || (|x.pfx| == |y.pfx| && LexLess(x.pfx, y.pfx))
  }

  function Candidates(key: string): seq<string> {
    Prefixes(key) + [key]
  }

  function Step(m: Index, best: Lookup, c: string): Lookup {
    if c in m && (!best.Found? || Beats(m[c], best.config)) then Found(m[c]) else best
  }

  function Scan(m: Index, cands: seq<string>): Lookup {
    if cands == [] then NotFound
    else Step(m, Scan(m, cands[..|cands| - 1]), cands[|cands| - 1])
  }

  function ByPrefixSpec(m: Index, key: string): Lookup {
    var clean := TrimSlashes(key);
    if clean == "" then EmptyPrefix else Scan(m, Candidates(clean))
  }

  method ByPrefix(m: Index, key: string) returns (r: Lookup)
    ensures r == ByPrefixSpec(m, key)
  {
    var clean := TrimSlashes(key);
    if clean == "" {
      return EmptyPrefix;
    }
    var cands := ComputePrefixes(clean);
    cands := cands + [clean];
    r := NotFound;
    for i := 0 to |cands|
      invariant r == Scan(m, cands[..i])
      invariant !r.EmptyPrefix?
    {
      var c := cands[i];
      ScanNext(m, cands, i);
      if c in m && (r == NotFound || Beats(m[c], r.config)) {
        r := Found(m[c]);
      }
    }
    assert cands[..|cands|] == cands;
  }

  lemma ScanNext(m: Index, cands: seq<string>, i: nat)
    requires i < |cands|
    ensures Scan(m, cands[..i + 1]) == Step(m, Scan(m, cands[..i]), cands[i])
  {
    Front(cands, i);
  }

  // --------------------------------------------------- the order behind the choice

  lemma {:induction false} LexTotal(a: string, b: string)
    requires |a| == |b| && a != b
    ensures LexLess(a, b) || LexLess(b, a)
  {
    if a[0] == b[0] {
      assert a == [a[0]] + a[1..] && b == [b[0]] + b[1..];
      LexTotal(a[1..], b[1..]);
    }
  }

  lemma {:induction false} LexAsymmetric(a: string, b: string)
    requires LexLess(a, b)
    ensures !LexLess(b, a)
  {
    if a != "" && a[0] == b[0] {
      LexAsymmetric(a[1..], b[1..]);
    }
  }

  lemma {:induction false} LexTransitive(a: string, b: string, c: string)
    requires LexLess(a, b) && LexLess(b, c)
    ensures LexLess(a, c)
  {
    if a != "" && a[0] == b[0] && b[0] == c[0] {
      LexTransitive(a[1..], b[1..], c[1..]);
    }
  }

  lemma BeatsTransitive(x: Config, y: Config, z: Config)
    requires Beats(x, y) && Beats(y, z)
    ensures Beats(x, z)
  {
    if |x.pfx| == |y.pfx| == |z.pfx| {
      LexTransitive(x.pfx, y.pfx, z.pfx);
    }
  }

  lemma BeatsTotal(x: Config, y: Config)
    requires x.pfx != y.pfx
    ensures Beats(x, y) <==> !Beats(y, x)
  {
    if |x.pfx| == |y.pfx| {
      LexTotal(x.pfx, y.pfx);
      if LexLess(x.pfx, y.pfx) {
        LexAsymmetric(x.pfx, y.pfx);
      } else {
        LexAsymmetric(y.pfx, x.pfx);
      }
    }
  }

  // -------------------------------------------------- longest match on segments

  /** c covers key: it is the key or a folder above it. */
  predicate Covers(c: string, key: string) {
    c == key || HasPrefix(key, c + "/")
  }

  /** Names are slash-trimmed and no two of them hold the same written prefix. */
  ghost predicate WellKeyed(m: Index) {
    && (forall c :: c in m ==> Trimmed(c))
    && (forall c, d :: c in m && d in m && m[c].pfx == m[d].pfx ==> c == d)
  }

  lemma {:induction false} IndexOfKeys(configs: seq<Config>)
    ensures forall c :: c in IndexOf(configs) ==> c == TrimSlashes(IndexOf(configs)[c].pfx)
  {
    if configs == [] {
    } else {
      IndexOfKeys(configs[..|configs| - 1]);
    }
  }

  lemma IndexOfWellKeyed(configs: seq<Config>)
    ensures WellKeyed(IndexOf(configs))
  {
    IndexOfKeys(configs);
    var m := IndexOf(configs);
    forall c | c in m ensures Trimmed(c) {
      TrimmedIsStable(m[c].pfx);
    }
  }

  lemma CandidatesCover(key: string, c: string)
    ensures c in Candidates(key) <==> Covers(c, key)
  {
    PrefixesExact(key, c);
  }

  /** c's configuration beats those of all the other names in cands that are stored. */
  ghost predicate BestOf(m: Index, cands: seq<string>, c: string) {
    && c in cands && c in m
    && forall d :: d in cands && d in m && d != c ==> Beats(m[c], m[d])
  }

  /** The scan finds nothing exactly when nothing is stored, and otherwise the one best. */
  lemma {:induction false} ScanIsBest(m: Index, cands: seq<string>)
    requires WellKeyed(m)
    ensures Scan(m, cands) == NotFound <==> (forall d :: d in cands ==> d !in m)
    ensures !Scan(m, cands).EmptyPrefix?
    ensures Scan(m, cands).Found? ==>
              exists c :: BestOf(m, cands, c) && Scan(m, cands) == Found(m[c])
  {
    if cands == [] {
    } else {
      var front, last := cands[..|cands| - 1], cands[|cands| - 1];
      assert forall d :: d in cands <==> d in front || d == last;
      ScanIsBest(m, front);
      var before := Scan(m, front);
      if before.Found? {
        var c :| BestOf(m, front, c) && before == Found(m[c]);
        if last !in m || last == c || !Beats(m[last], m[c]) {
          if last in m && last != c {
            BeatsTotal(m[c], m[last]);
          }
          if last in m && last == c && Beats(m[last], m[c]) {
            LexAsymmetric(m[c].pfx, m[c].pfx);
          }
          assert BestOf(m, cands, c);
        } else {
          forall d | d in front && d in m && d != last ensures Beats(m[last], m[d]) {
            if d != c {
              BeatsTransitive(m[last], m[c], m[d]);
            }
          }
          assert BestOf(m, cands, last);
        }
      } else if last in m {
        assert BestOf(m, cands, last);
      }
    }
  }

  /** The naive rule: the longest stored name that covers the key. */
  ghost predicate LongestMatch(m: Index, key: string, c: string) {
    && c in m && Covers(c, key)
    && forall d :: d in m && Covers(d, key) ==> |d| <= |c|
  }

  ghost predicate NaiveAnswer(m: Index, clean: string, answer: Lookup) {
    && (answer == NotFound <==> forall d :: d in m ==> !Covers(d, clean))
    && (forall c :: LongestMatch(m, clean, c) ==> answer == Found(m[c]))
  }

  /** ByPrefix follows the naive rule on this key. */
  ghost predicate MatchesNaiveScan(m: Index, key: string) {
    NaiveAnswer(m, TrimSlashes(key), ByPrefixSpec(m, key))
  }

  /** A longer covering name always wins over a shorter one. */
  ghost predicate DeeperBeatsShallower(m: Index) {
    forall p, q :: p in m && q in m && HasPrefix(q, p + "/") ==> Beats(m[q], m[p])
  }

  lemma CoveringNamesNest(key: string, p: string, q: string)
    requires Covers(p, key) && Covers(q, key) && |p| < |q|
    ensures HasPrefix(q, p + "/")
  {
    assert HasPrefix(key, p + "/");
    assert (p + "/") == key[..|p| + 1];
    assert q == key[..|q|];
    assert q[..|p| + 1] == key[..|p| + 1];
  }

  /** The lookup is the best among the stored names that cover the key, if any. */
  ghost predicate BestCover(m: Index, key: string, b: string) {
    && b in m && Covers(b, key)
    && forall d :: d in m && Covers(d, key) && d != b ==> Beats(m[b], m[d])
  }

  lemma BestCoverUnique(m: Index, key: string, b: string, c: string)
    requires WellKeyed(m) && BestCover(m, key, b) && BestCover(m, key, c)
    ensures b == c
  {
    if m[b].pfx != m[c].pfx {
      BeatsTotal(m[b], m[c]);
    }
  }

  lemma LookupIsBestCover(m: Index, key: string)
    requires WellKeyed(m) && key != ""
    ensures Scan(m, Candidates(key)) == NotFound <==> forall d :: d in m ==> !Covers(d, key)
    ensures Scan(m, Candidates(key)) != NotFound ==>
              exists b :: BestCover(m, key, b) && Scan(m, Candidates(key)) == Found(m[b])
  {
    var cands := Candidates(key);
    forall d ensures d in cands <==> Covers(d, key) { CandidatesCover(key, d); }
    ScanIsBest(m, cands);
    if Scan(m, cands) != NotFound {
      var b :| BestOf(m, cands, b) && Scan(m, cands) == Found(m[b]);
      assert BestCover(m, key, b);
    }
  }

  lemma LongestIsBest(m: Index, key: string, b: string, c: string)
    requires WellKeyed(m) && DeeperBeatsShallower(m)
    requires BestCover(m, key, b) && LongestMatch(m, key, c)
    ensures b == c
  {
    if |b| < |c| {
      CoveringNamesNest(key, b, c);
      assert m[b].pfx != m[c].pfx;
      BeatsTotal(m[b], m[c]);
    } else {
      assert b == key[..|b|] == c;
    }
  }

  lemma OrderedIsNaive(m: Index, clean: string)
    requires WellKeyed(m) && DeeperBeatsShallower(m) && clean != ""
    ensures NaiveAnswer(m, clean, Scan(m, Candidates(clean)))
  {
    LookupIsBestCover(m, clean);
    forall c | LongestMatch(m, clean, c) ensures Scan(m, Candidates(clean)) == Found(m[c]) {
      var b :| BestCover(m, clean, b) && Scan(m, Candidates(clean)) == Found(m[b]);
      LongestIsBest(m, clean, b, c);
    }
  }

  lemma NaiveScanWhenOrdered(m: Index, key: string)
    requires WellKeyed(m) && DeeperBeatsShallower(m) && TrimSlashes(key) != ""
    ensures MatchesNaiveScan(m, key)
  {
    OrderedIsNaive(m, TrimSlashes(key));
  }

  lemma ShallowerLoses(m: Index, p: string, q: string)
    requires WellKeyed(m) && p in m && q in m && HasPrefix(q, p + "/")
    requires NaiveAnswer(m, q, Scan(m, Candidates(q)))
    ensures Beats(m[q], m[p])
  {
    assert LongestMatch(m, q, q);
    LookupIsBestCover(m, q);
    var b :| BestCover(m, q, b) && Scan(m, Candidates(q)) == Found(m[b]);
    assert m[b] == m[q];
    assert Covers(p, q) && |p| < |q|;
  }

  lemma StoredNameIsClean(m: Index, p: string, q: string)
    requires WellKeyed(m) && q in m && HasPrefix(q, p + "/")
    ensures TrimSlashes(q) == q && q != ""
  {
    TrimmedIsStable(q);
  }

  lemma ShallowerLosesOnItsOwnKey(m: Index, p: string, q: string)
    requires WellKeyed(m) && p in m && q in m && HasPrefix(q, p + "/")
    requires MatchesNaiveScan(m, q)
    ensures Beats(m[q], m[p])
  {
    StoredNameIsClean(m, p, q);
    ShallowerLoses(m, p, q);
  }

  /** Routing on every key is longest match. */
  ghost predicate LongestMatchRouting(m: Index) {
    forall key {:trigger MatchesNaiveScan(m, key)} :: TrimSlashes(key) != "" ==> MatchesNaiveScan(m, key)
  }

  lemma NaiveScanNeedsOrder(m: Index)
    requires WellKeyed(m) && LongestMatchRouting(m)
    ensures DeeperBeatsShallower(m)
  {
    forall p, q | p in m && q in m && HasPrefix(q, p + "/") ensures Beats(m[q], m[p]) {
      StoredNameIsClean(m, p, q);
      assert MatchesNaiveScan(m, q);
      ShallowerLosesOnItsOwnKey(m, p, q);
    }
  }

  lemma NaiveScanByOrder(m: Index)
    requires WellKeyed(m) && DeeperBeatsShallower(m)
    ensures LongestMatchRouting(m)
  {
    forall key | TrimSlashes(key) != "" ensures MatchesNaiveScan(m, key) {
      NaiveScanWhenOrdered(m, key);
    }
  }

  /** Routing is longest-prefix match on every key if and only if no configuration is
      displaced by one stored for a folder above it. */
  lemma LongestPrefixMatch(m: Index)
    requires WellKeyed(m)
    ensures DeeperBeatsShallower(m) <==> LongestMatchRouting(m)
  {
    if DeeperBeatsShallower(m) {
      NaiveScanByOrder(m);
    }
    if LongestMatchRouting(m) {
      NaiveScanNeedsOrder(m);
    }
  }

  /** Slash-trimmed configurations are routed by longest-prefix match. */
  lemma TrimmedConfigsMatchLongest(m: Index, key: string)
    requires forall c :: c in m ==> m[c].pfx == c && Trimmed(c)
    requires TrimSlashes(key) != ""
    ensures MatchesNaiveScan(m, key)
  {
    NaiveScanWhenOrdered(m, key);
  }

  lemma PaddedName()
    ensures TrimSlashes("//a//") == "a"
  {
    var s := "//a//";
    assert FirstKept(s, Slashes, 2) == 2;
    assert FirstKept(s, Slashes, 1) == 2;
    assert FirstKept(s, Slashes, 0) == 2;
    assert s[2..] == "a//";
    var r := "a//";
    assert LastKept(r, Slashes, 1) == 1;
    assert LastKept(r, Slashes, 2) == 1;
    assert LastKept(r, Slashes, 3) == 1;
    assert r[..1] == "a";
  }

  lemma PaddedNames()
    ensures TrimSlashes("//a//") == "a" && TrimSlashes("a/b") == "a/b"
  {
    PaddedName();
    TrimmedIsStable("a/b");
  }

  lemma PaddedIndex(x: Config, y: Config)
    requires x.pfx == "//a//" && y.pfx == "a/b"
    ensures IndexOf([x, y]) == map["a" := x, "a/b" := y]
  {
    PaddedNames();
    assert [x, y][..1] == [x] && [x][..0] == [];
    assert IndexOf([x]) == map["a" := x];
  }

  /** Of two stored names, a folder and a key in it, the one written longer takes the key. */
  lemma LongerWrittenOutranks(m: Index, p: string, q: string)
    requires WellKeyed(m) && m.Keys == {p, q} && HasPrefix(q, p + "/") && |m[p].pfx| > |m[q].pfx|
    ensures LongestMatch(m, q, q)
    ensures Scan(m, Candidates(q)) == Found(m[p])
  {
    assert Covers(p, q) && |p| < |q|;
    LookupIsBestCover(m, q);
    var b :| BestCover(m, q, b) && Scan(m, Candidates(q)) == Found(m[b]);
    assert !Beats(m[q], m[p]);
  }

  /** With a padded prefix, a folder outranks the configuration stored deeper. */
  lemma PaddedPrefixBreaksLongestMatch(x: Config, y: Config)
    requires x.pfx == "//a//" && y.pfx == "a/b"
    ensures LongestMatch(IndexOf([x, y]), "a/b", "a/b") && !MatchesNaiveScan(IndexOf([x, y]), "a/b")
    ensures ByPrefixSpec(IndexOf([x, y]), "a/b") == Found(x) != Found(y)
  {
    PaddedIndex(x, y);
    PaddedNames();
    IndexOfWellKeyed([x, y]);
    assert HasPrefix("a/b", "a" + "/");
    NaiveMissed(IndexOf([x, y]), x, y, "a", "a/b");
  }

  lemma NaiveMissed(m: Index, x: Config, y: Config, p: string, q: string)
    requires WellKeyed(m) && m == map[p := x, q := y] && p != q && TrimSlashes(q) == q
    requires HasPrefix(q, p + "/") && |x.pfx| > |y.pfx|
    ensures LongestMatch(m, q, q) && !MatchesNaiveScan(m, q)
    ensures ByPrefixSpec(m, q) == Found(x) != Found(y)
  {
    LongerWrittenOutranks(m, p, q);
  }
}
