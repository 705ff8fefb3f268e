/** Templates with placeholders: the expressions found by the pattern, and their replacement
    by values. */
module Template {
  import opened Seqs
  import opened Text
  import opened Options
  import opened Replacer

  // -------------------------------------------------------------- the expression

  /** s[p..e + 2] matches the pattern of a placeholder: two opening braces, anything but line
      breaks up to e, two closing braces. */
  predicate MatchesAt(s: string, p: nat, e: nat) {
    && p + 2 <= e && e + 2 <= |s|
    && s[p] == '{' && s[p + 1] == '{' && ClosesAt(s, e)
    && forall i :: p + 2 <= i < e ==> s[i] != '\n'
  }

  predicate ClosesAt(s: string, e: nat)
    requires e + 2 <= |s|
  {
    s[e] == '}' && s[e + 1] == '}'
  }

  /** The first closing braces from i on, unless a line break comes first. */
  function Closing(s: string, i: nat): (r: Option<nat>)
    ensures r.Some? ==> i <= r.value && r.value + 2 <= |s|
    decreases |s| - i
  {
    if i + 2 > |s| then None
    else if ClosesAt(s, i) then Some(i)
    else if s[i] == '\n' then None
    else Closing(s, i + 1)
  }

  function LazyAt(s: string, p: nat): (r: Option<nat>)
    ensures r.Some? ==> p + 2 <= r.value && r.value + 2 <= |s|
  {
    if p + 2 <= |s| && s[p] == '{' && s[p + 1] == '{' then Closing(s, p + 2) else None
  }

  lemma {:induction false} ClosingIsFirst(s: string, i: nat, e: nat)
    requires i <= e && e + 2 <= |s| && ClosesAt(s, e) && forall j :: i <= j < e ==> s[j] != '\n'
    ensures Closing(s, i).Some? && Closing(s, i).value <= e
    decreases |s| - i
  {
    if ClosesAt(s, i) {
    } else {
      ClosingIsFirst(s, i + 1, e);
    }
  }

  lemma {:induction false} ClosingCloses(s: string, i: nat)
    requires Closing(s, i).Some?
    ensures var e := Closing(s, i).value;
            && ClosesAt(s, e)
            && forall j :: i <= j < e ==> s[j] != '\n' && !ClosesAt(s, j)
    decreases |s| - i
  {
    if ClosesAt(s, i) {
    } else {
      ClosingCloses(s, i + 1);
    }
  }

  /** LazyAt finds the shortest match at a position, if there is any. */
  lemma LazyIsShortest(s: string, p: nat, e: nat)
    ensures LazyAt(s, p) == Some(e) <==> MatchesAt(s, p, e) && forall e' :: MatchesAt(s, p, e') ==> e <= e'
    ensures LazyAt(s, p) == None ==> !MatchesAt(s, p, e)
  {
    if LazyAt(s, p).Some? {
      ClosingCloses(s, p + 2);
      assert MatchesAt(s, p, LazyAt(s, p).value);
    }
    forall e' | MatchesAt(s, p, e') ensures LazyAt(s, p).Some? && LazyAt(s, p).value <= e' {
      ClosingIsFirst(s, p + 2, e');
    }
  }

  // --------------------------------------------------------------------- tokens

  datatype Token = Letter(c: char) | Hole(inner: string)

  /** Left to right: a match where there is one, otherwise one character. */
  function Tokens(s: string, i: nat): seq<Token>
    decreases |s| - i
  {
    if i >= |s| then []
    else
      match LazyAt(s, i)
      case Some(e) => [Hole(s[i + 2..e])] + Tokens(s, e + 2)
      case None => [Letter(s[i])] + Tokens(s, i + 1)
  }

  function Holes(ts: seq<Token>): seq<string> {
    if ts == [] then []
    else if ts[0].Hole? then [ts[0].inner] + Holes(ts[1..])
    else Holes(ts[1..])
  }

  function Written(t: Token): string {
    match t
    case Letter(c) => [c]
    case Hole(v) => "{{" + v + "}}"
  }

  function Source(ts: seq<Token>): string {
    if ts == [] then "" else Written(ts[0]) + Source(ts[1..])
  }

  /** What to put in place of a hole, by the text between its braces. */
  type Filling = map<string, string>

  function ValueOf(values: map<string, string>, key: string): string {
    if key in values then values[key] else ""
  }

  function Filled(t: Token, filling: Filling): string {
    match t
    case Letter(c) => [c]
    case Hole(v) => ValueOf(filling, v)
  }

  /** Each hole replaced once; what replaces it is not looked at again. */
  function Fill(ts: seq<Token>, filling: Filling): string {
    if ts == [] then "" else Filled(ts[0], filling) + Fill(ts[1..], filling)
  }

  /** The text between the braces of a match: with the closing braces attached, these are
      the first ones, and no line break comes before them. */
  predicate Inner(v: string) {
    Closing(v + "}}", 0) == Some(|v|)
  }

  lemma InnerMeans(v: string)
    requires Inner(v)
    ensures forall j :: 0 <= j < |v| ==> v[j] != '\n' && !ClosesAt(v + "}}", j)
  {
    var w := v + "}}";
    ClosingCloses(w, 0);
    assert forall j :: 0 <= j < |v| ==> v[j] == w[j];
  }

  lemma MatchIsInner(s: string, i: nat)
    requires LazyAt(s, i).Some?
    ensures Inner(s[i + 2..LazyAt(s, i).value])
    ensures s[i..LazyAt(s, i).value + 2] == "{{" + s[i + 2..LazyAt(s, i).value] + "}}"
  {
    ClosingCloses(s, i + 2);
    var e := LazyAt(s, i).value;
    var v := s[i + 2..e];
    var w := v + "}}";
    assert w == s[i + 2..e + 2];
    assert s[i] == '{' && s[i + 1] == '{' && s[e] == '}' && s[e + 1] == '}';
    assert forall j :: 0 <= j < |v| ==> w[j] == s[i + 2 + j];
    assert ClosesAt(w, |v|);
    ClosingIsFirst(w, 0, |v|);
    ClosingCloses(w, 0);
    forall j | 0 <= j < |v| ensures !ClosesAt(w, j) {
      assert !ClosesAt(s, i + 2 + j);
    }
  }

  lemma FirstToken(first: Token, rest: seq<Token>, filling: Filling)
    ensures Source([first] + rest) == Written(first) + Source(rest)
    ensures Holes([first] + rest) == (if first.Hole? then [first.inner] else []) + Holes(rest)
    ensures Fill([first] + rest, filling) == Filled(first, filling) + Fill(rest, filling)
  {
    assert ([first] + rest)[1..] == rest;
  }

  lemma TokensHit(s: string, i: nat, e: nat)
    requires LazyAt(s, i) == Some(e)
    ensures Tokens(s, i) == [Hole(s[i + 2..e])] + Tokens(s, e + 2)
  {
  }

  lemma TokensMiss(s: string, i: nat)
    requires i < |s| && LazyAt(s, i) == None
    ensures Tokens(s, i) == [Letter(s[i])] + Tokens(s, i + 1)
  {
  }

  lemma SourceOfFirst(s: string, i: nat, n: nat, first: Token, rest: seq<Token>, all: seq<Token>)
    requires i <= n <= |s| && Written(first) == s[i..n] && Source(rest) == s[n..] && all == [first] + rest
    ensures Source(all) == s[i..]
  {
    FirstToken(first, rest, map[]);
    CutAt(s, i, n);
  }

  /** The tokens lose nothing of the template. */
  lemma {:induction false} TokensAreLossless(s: string, i: nat)
    requires i <= |s|
    ensures Source(Tokens(s, i)) == s[i..]
    decreases |s| - i
  {
    if i == |s| {
      assert Tokens(s, i) == [];
    } else {
      match LazyAt(s, i)
      case Some(e) =>
        TokensAreLossless(s, e + 2);
        MatchIsInner(s, i);
        TokensHit(s, i, e);
        SourceOfFirst(s, i, e + 2, Hole(s[i + 2..e]), Tokens(s, e + 2), Tokens(s, i));
      case None =>
        TokensAreLossless(s, i + 1);
        TokensMiss(s, i);
        SourceOfFirst(s, i, i + 1, Letter(s[i]), Tokens(s, i + 1), Tokens(s, i));
    }
  }

  lemma {:induction false} HolesAreInner(s: string, i: nat, v: string)
    requires v in Holes(Tokens(s, i))
    ensures Inner(v)
    decreases |s| - i
  {
    match LazyAt(s, i)
    case Some(e) =>
      MatchIsInner(s, i);
      if v != s[i + 2..e] {
        HolesAreInner(s, e + 2, v);
      }
    case None => HolesAreInner(s, i + 1, v);
  }

  // ---------------------------------------------------------------- replacement

  /** What an old string is and what it becomes. */
  function PairFor(v: string, filling: Filling): Pair {
    Pair("{{" + v + "}}", ValueOf(filling, v))
  }

  function PairsFor(vars: seq<string>, filling: Filling): (pairs: seq<Pair>)
    ensures |pairs| == |vars| && Proper(pairs)
    ensures forall i :: 0 <= i < |vars| ==> pairs[i] == PairFor(vars[i], filling)
  {
    seq(|vars|, i requires 0 <= i < |vars| => PairFor(vars[i], filling))
  }

  lemma OccurrenceCopies(s: string, i: nat, w: string)
    requires i <= |s| && OccursAt(s, i, "{{" + w)
    ensures i + 2 + |w| <= |s| && s[i] == '{' && s[i + 1] == '{'
    ensures forall j :: i + 2 <= j < i + 2 + |w| ==> s[j] == w[j - i - 2]
  {
    var o := "{{" + w;
    assert s[i..][..|o|] == o;
    assert forall j :: 0 <= j < |o| ==> s[i + j] == o[j];
    assert s[i + 0] == o[0] == '{' && s[i + 1] == o[1] == '{';
    forall j | i + 2 <= j < i + 2 + |w| ensures s[j] == w[j - i - 2] {
      assert s[i + (j - i)] == o[j - i];
    }
  }

  /** Where an old string occurs, the pattern matches with the same text, so at most one old
      string can occur at a position. */
  lemma OccurrenceIsMatch(s: string, i: nat, v: string)
    requires i <= |s| && Inner(v) && OccursAt(s, i, "{{" + v + "}}")
    ensures LazyAt(s, i) == Some(i + 2 + |v|) && s[i + 2..i + 2 + |v|] == v
  {
    var w, e := v + "}}", i + 2 + |v|;
    InnerMeans(v);
    assert "{{" + v + "}}" == "{{" + w;
    OccurrenceCopies(s, i, w);
    assert w[|v|] == '}' && w[|v| + 1] == '}';
    assert forall j :: i + 2 <= j < e ==> s[j] == v[j - i - 2];
    ClosesFirstAt(s, i, w, e);
  }

  lemma ClosesFirstAt(s: string, i: nat, w: string, e: nat)
    requires |w| >= 2 && e == i + |w| && e + 2 <= |s| && ClosesAt(w, |w| - 2)
    requires s[i] == '{' && s[i + 1] == '{' && forall j :: i + 2 <= j < e + 2 ==> s[j] == w[j - i - 2]
    requires forall j :: 0 <= j < |w| - 2 ==> w[j] != '\n' && !ClosesAt(w, j)
    ensures LazyAt(s, i) == Some(e)
  {
    assert ClosesAt(s, e);
    ClosingIsFirst(s, i + 2, e);
    ClosingCloses(s, i + 2);
    forall j | i + 2 <= j < e ensures !ClosesAt(s, j) {
      assert !ClosesAt(w, j - i - 2);
    }
  }

  lemma MatchOccurs(s: string, i: nat)
    requires LazyAt(s, i).Some?
    ensures i <= |s| && OccursAt(s, i, "{{" + s[i + 2..LazyAt(s, i).value] + "}}")
  {
    MatchIsInner(s, i);
    var e := LazyAt(s, i).value;
    assert s[i..][..e + 2 - i] == s[i..e + 2];
  }

  lemma TakenForVar(s: string, i: nat, vars: seq<string>, filling: Filling)
    requires i <= |s|
    ensures Taken(s, i, PairsFor(vars, filling)).Some? ==>
              exists v :: v in vars && OccursAt(s, i, "{{" + v + "}}") &&
                          Taken(s, i, PairsFor(vars, filling)) == Some(PairFor(v, filling))
    ensures Taken(s, i, PairsFor(vars, filling)).None? ==> forall v :: v in vars ==> !OccursAt(s, i, "{{" + v + "}}")
  {
    var pairs := PairsFor(vars, filling);
    PickIsFirst(s, i, pairs);
    match PickAt(s, i, pairs)
    case Some(j) => assert vars[j] in vars;
    case None =>
      forall v | v in vars ensures !OccursAt(s, i, "{{" + v + "}}") {
        var n :| 0 <= n < |vars| && vars[n] == v;
        assert pairs[n].old_ == "{{" + v + "}}";
      }
  }

  ghost predicate AllInner(vars: seq<string>) {
    forall v :: v in vars ==> Inner(v)
  }

  /** Where the pattern matches, the replacer takes the pair for the matched text. */
  lemma TakenOnHit(s: string, i: nat, e: nat, vars: seq<string>, filling: Filling)
    requires AllInner(vars) && LazyAt(s, i) == Some(e) && s[i + 2..e] in vars
    ensures Taken(s, i, PairsFor(vars, filling)) == Some(PairFor(s[i + 2..e], filling))
  {
    TakenForVar(s, i, vars, filling);
    MatchOccurs(s, i);
    var v :| v in vars && OccursAt(s, i, "{{" + v + "}}") &&
             Taken(s, i, PairsFor(vars, filling)) == Some(PairFor(v, filling));
    OccurrenceIsMatch(s, i, v);
    assert e == i + 2 + |v| && v == s[i + 2..e];
  }

  /** Where it does not, the replacer takes nothing. */
  lemma TakenOnMiss(s: string, i: nat, vars: seq<string>, filling: Filling)
    requires i <= |s| && AllInner(vars) && LazyAt(s, i) == None
    ensures Taken(s, i, PairsFor(vars, filling)) == None
  {
    TakenForVar(s, i, vars, filling);
    forall v | v in vars ensures !OccursAt(s, i, "{{" + v + "}}") {
      if OccursAt(s, i, "{{" + v + "}}") {
        OccurrenceIsMatch(s, i, v);
      }
    }
  }

  lemma ReplaceHit(s: string, i: nat, pairs: seq<Pair>, e: nat, filling: Filling)
    requires i + 2 <= e && e + 2 <= |s| && Proper(pairs)
    requires Taken(s, i, pairs) == Some(PairFor(s[i + 2..e], filling))
    ensures ReplaceFrom(s, i, pairs) == ValueOf(filling, s[i + 2..e]) + ReplaceFrom(s, e + 2, pairs)
  {
    ReplaceStep(s, i, pairs);
    assert |PairFor(s[i + 2..e], filling).old_| == e + 2 - i;
  }

  lemma FillHit(s: string, i: nat, e: nat, filling: Filling)
    requires LazyAt(s, i) == Some(e)
    ensures Fill(Tokens(s, i), filling) == ValueOf(filling, s[i + 2..e]) + Fill(Tokens(s, e + 2), filling)
  {
    TokensHit(s, i, e);
    FirstToken(Hole(s[i + 2..e]), Tokens(s, e + 2), filling);
  }

  lemma HolesHit(s: string, i: nat, e: nat)
    requires LazyAt(s, i) == Some(e)
    ensures Holes(Tokens(s, i)) == [s[i + 2..e]] + Holes(Tokens(s, e + 2))
  {
    TokensHit(s, i, e);
    FirstToken(Hole(s[i + 2..e]), Tokens(s, e + 2), map[]);
  }

  lemma FillMiss(s: string, i: nat, filling: Filling)
    requires i < |s| && LazyAt(s, i) == None
    ensures Fill(Tokens(s, i), filling) == [s[i]] + Fill(Tokens(s, i + 1), filling)
  {
    TokensMiss(s, i);
    FirstToken(Letter(s[i]), Tokens(s, i + 1), filling);
  }

  lemma HolesMiss(s: string, i: nat)
    requires i < |s| && LazyAt(s, i) == None
    ensures Holes(Tokens(s, i)) == Holes(Tokens(s, i + 1))
  {
    TokensMiss(s, i);
    FirstToken(Letter(s[i]), Tokens(s, i + 1), map[]);
  }

  lemma MiddleOf(done: seq<string>, x: string, rest: seq<string>, all: seq<string>)
    requires all == done + ([x] + rest)
    ensures x in all && all == done + [x] + rest
  {
    assert all[|done|] == x;
  }

  lemma SameOnHit(s: string, i: nat, e: nat, vars: seq<string>, filling: Filling)
    requires AllInner(vars) && LazyAt(s, i) == Some(e) && s[i + 2..e] in vars
    requires ReplaceFrom(s, e + 2, PairsFor(vars, filling)) == Fill(Tokens(s, e + 2), filling)
    ensures ReplaceFrom(s, i, PairsFor(vars, filling)) == Fill(Tokens(s, i), filling)
  {
    FillHit(s, i, e, filling);
    TakenOnHit(s, i, e, vars, filling);
    ReplaceHit(s, i, PairsFor(vars, filling), e, filling);
  }

  lemma SameOnMiss(s: string, i: nat, vars: seq<string>, filling: Filling)
    requires AllInner(vars) && i < |s| && LazyAt(s, i) == None
    requires ReplaceFrom(s, i + 1, PairsFor(vars, filling)) == Fill(Tokens(s, i + 1), filling)
    ensures ReplaceFrom(s, i, PairsFor(vars, filling)) == Fill(Tokens(s, i), filling)
  {
    FillMiss(s, i, filling);
    TakenOnMiss(s, i, vars, filling);
    ReplaceStep(s, i, PairsFor(vars, filling));
  }

  lemma SameAtEnd(s: string, vars: seq<string>, filling: Filling)
    requires AllInner(vars)
    ensures ReplaceFrom(s, |s|, PairsFor(vars, filling)) == Fill(Tokens(s, |s|), filling)
  {
    TakenOnMiss(s, |s|, vars, filling);
    ReplaceStep(s, |s|, PairsFor(vars, filling));
  }

  /** From position i on, if the variables are those found before i and those found from i
      on: replacing is filling. */
  lemma {:induction false} ReplaceFills(s: string, i: nat, done: seq<string>, vars: seq<string>, filling: Filling)
    requires i <= |s| && AllInner(vars) && vars == done + Holes(Tokens(s, i))
    ensures ReplaceFrom(s, i, PairsFor(vars, filling)) == Fill(Tokens(s, i), filling)
    decreases |s| - i
  {
    if LazyAt(s, i).Some? {
      var e := LazyAt(s, i).value;
      HolesHit(s, i, e);
      MiddleOf(done, s[i + 2..e], Holes(Tokens(s, e + 2)), vars);
      ReplaceFills(s, e + 2, done + [s[i + 2..e]], vars, filling);
      SameOnHit(s, i, e, vars, filling);
    } else if i < |s| {
      HolesMiss(s, i);
      ReplaceFills(s, i + 1, done, vars, filling);
      SameOnMiss(s, i, vars, filling);
    } else {
      SameAtEnd(s, vars, filling);
    }
  }

  /** For every template and whatever the holes are filled with, replacing all placeholder
      strings at once is the same as filling the holes of the tokens. */
  lemma ReplaceMeansFill(tmpl: string, filling: Filling)
    ensures Replacer.Replace(tmpl, PairsFor(Holes(Tokens(tmpl, 0)), filling)) == Fill(Tokens(tmpl, 0), filling)
  {
    var vars := Holes(Tokens(tmpl, 0));
    forall v | v in vars ensures Inner(v) {
      HolesAreInner(tmpl, 0, v);
    }
    assert vars == [] + vars;
    ReplaceFills(tmpl, 0, [], vars, filling);
  }

  // ---------------------------------------------------------------- the processor

  /** A match of the pattern: where it starts and where its closing braces are. */
  datatype Match = Match(start: nat, end: nat)

  /** All matches from position i on, leftmost first and without overlap. */
  function FindAll(s: string, i: nat): (ms: seq<Match>)
    ensures forall n :: 0 <= n < |ms| ==> ms[n].start + 2 <= ms[n].end && ms[n].end + 2 <= |s|
    decreases |s| - i
  {
    if i >= |s| then []
    else
      match LazyAt(s, i)
      case Some(e) => [Match(i, e)] + FindAll(s, e + 2)
      case None => FindAll(s, i + 1)
  }

  function Group(s: string, m: Match): string
    requires m.start + 2 <= m.end && m.end + 2 <= |s|
  {
    s[m.start + 2..m.end]
  }

  predicate Grouped(s: string, ms: seq<Match>, hs: seq<string>) {
    |ms| == |hs| && forall n :: 0 <= n < |ms| ==>
      ms[n].start + 2 <= ms[n].end && ms[n].end + 2 <= |s| && Group(s, ms[n]) == hs[n]
  }

  lemma OneMoreGroup(s: string, m: Match, ms: seq<Match>, h: string, hs: seq<string>)
    requires Grouped(s, ms, hs) && m.start + 2 <= m.end && m.end + 2 <= |s| && Group(s, m) == h
    ensures Grouped(s, [m] + ms, [h] + hs)
  {
  }

  lemma {:induction false} GroupsAreHoles(s: string, i: nat)
    ensures Grouped(s, FindAll(s, i), Holes(Tokens(s, i)))
    decreases |s| - i
  {
    if i < |s| {
      match LazyAt(s, i)
      case Some(e) =>
        GroupsAreHoles(s, e + 2);
        HolesHit(s, i, e);
        OneMoreGroup(s, Match(i, e), FindAll(s, e + 2), s[i + 2..e], Holes(Tokens(s, e + 2)));
      case None =>
        GroupsAreHoles(s, i + 1);
        HolesMiss(s, i);
    }
  }

  type Values = map<string, string>

  /** Each hole replaced by the value of its trimmed text, or by nothing. */
  function FillFrom(ts: seq<Token>, values: Values): string {
    if ts == [] then ""
    else
      (match ts[0] case Letter(c) => [c] case Hole(v) => ValueOf(values, TrimSpace(v))) + FillFrom(ts[1..], values)
  }

  function FromValues(vars: seq<string>, values: Values): (filling: Filling)
    ensures forall v :: v in vars ==> v in filling && filling[v] == ValueOf(values, TrimSpace(v))
  {
    map v | v in vars :: ValueOf(values, TrimSpace(v))
  }

  lemma {:induction false} FillingFromValues(ts: seq<Token>, values: Values, filling: Filling)
    requires forall v :: v in Holes(ts) ==> v in filling && filling[v] == ValueOf(values, TrimSpace(v))
    ensures Fill(ts, filling) == FillFrom(ts, values)
  {
    if ts == [] {
    } else {
      if ts[0].Hole? {
        assert Holes(ts) == [ts[0].inner] + Holes(ts[1..]);
      }
      FillingFromValues(ts[1..], values, filling);
    }
  }

  /** For every template and all values, replacing the placeholder strings of its variables
      by the values of their trimmed names is filling the holes. */
  lemma ReplaceFromValues(tmpl: string, values: Values)
    ensures var vars := Holes(Tokens(tmpl, 0));
            Replacer.Replace(tmpl, PairsFor(vars, FromValues(vars, values))) == FillFrom(Tokens(tmpl, 0), values)
  {
    var filling := FromValues(Holes(Tokens(tmpl, 0)), values);
    ReplaceMeansFill(tmpl, filling);
    FillingFromValues(Tokens(tmpl, 0), values, filling);
  }

  function TrimAll(vars: seq<string>): (keys: seq<string>)
    ensures |keys| == |vars|
    ensures forall i :: 0 <= i < |vars| ==> keys[i] == TrimSpace(vars[i])
  {
    seq(|vars|, i requires 0 <= i < |vars| => TrimSpace(vars[i]))
  }

  function Absent(keys: seq<string>, values: Values): seq<string> {
    if keys == [] then []
    else
      var front, k := Absent(keys[..|keys| - 1], values), keys[|keys| - 1];
      if k in values then front else front + [k]
  }

  class Processor {
    var tmpl: string
    var vars: seq<string>

    ghost predicate Valid()
      reads this
    {
      vars == Holes(Tokens(tmpl, 0))
    }

    constructor (t: string)
      ensures Valid() && tmpl == t
    {
      tmpl := t;
      new;
      vars := PopulateVars();
    }

    method PopulateVars() returns (found: seq<string>)
      ensures found == Holes(Tokens(tmpl, 0))
    {
      var matches := FindAll(tmpl, 0);
      found := [];
      GroupsAreHoles(tmpl, 0);
      for i := 0 to |matches|
        invariant |found| == i && found == Holes(Tokens(tmpl, 0))[..i]
      {
        found := found + [Group(tmpl, matches[i])];
      }
    }

    method GetKeys() returns (keys: seq<string>)
      ensures keys == TrimAll(vars)
    {
      keys := [];
      for i := 0 to |vars|
        invariant keys == TrimAll(vars)[..i]
      {
        keys := keys + [TrimSpace(vars[i])];
      }
    }

    /** The template with every placeholder replaced by its value. */
    method Replace(values: Values) returns (content: string)
      requires Valid()
      ensures content == FillFrom(Tokens(tmpl, 0), values)
    {
      var pairs := OldNew(values);
      ReplaceFromValues(tmpl, values);
      content := Replacer.Replace(tmpl, pairs);
    }

    method OldNew(values: Values) returns (pairs: seq<Pair>)
      ensures pairs == PairsFor(vars, FromValues(vars, values))
    {
      pairs := [];
      ghost var filling := FromValues(vars, values);
      ghost var all := PairsFor(vars, filling);
      for i := 0 to |vars|
        invariant pairs == all[..i]
      {
        TakeOneMore(all, i);
        assert vars[i] in vars;
        pairs := pairs + [Pair("{{" + vars[i] + "}}", ValueOf(values, TrimSpace(vars[i])))];
      }
      assert all[..|vars|] == all;
    }

    method GetMissingVars(values: Values) returns (missing: seq<string>)
      ensures missing == Absent(TrimAll(vars), values)
    {
      var keys := GetKeys();
      missing := [];
      for i := 0 to |keys|
        invariant missing == Absent(keys[..i], values)
      {
        Front(keys, i);
        if keys[i] !in values {
          missing := missing + [keys[i]];
        }
      }
      assert keys[..|keys|] == keys;
    }
  }
}
