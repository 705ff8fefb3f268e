/** Replacing several strings at once: at each position the first old string, in argument
    order, that occurs there is replaced, and what replaces it is not looked at again. */
module Replacer {
  import opened Options
  import opened Seqs

  datatype Pair = Pair(old_: string, new_: string)

  predicate Proper(pairs: seq<Pair>) {
    forall i :: 0 <= i < |pairs| ==> pairs[i].old_ != ""
  }

  predicate OccursAt(s: string, i: nat, w: string)
    requires i <= |s|
  {
    w <= s[i..]
  }

  /** The first pair whose old string occurs at position i. */
  function PickAt(s: string, i: nat, pairs: seq<Pair>): (r: Option<nat>)
    requires i <= |s|
    ensures r.Some? ==> r.value < |pairs| && |pairs[r.value].old_| <= |s| - i
  {
    if pairs == [] then None
    else
      match PickAt(s, i, pairs[..|pairs| - 1])
      case Some(j) => Some(j)
      case None => if OccursAt(s, i, pairs[|pairs| - 1].old_) then Some(|pairs| - 1) else None
  }

  lemma {:induction false} PickIsFirst(s: string, i: nat, pairs: seq<Pair>)
    requires i <= |s|
    ensures var r := PickAt(s, i, pairs);
            && (r.Some? ==> OccursAt(s, i, pairs[r.value].old_))
            && forall j :: 0 <= j < (if r.Some? then r.value else |pairs|) ==> !OccursAt(s, i, pairs[j].old_)
  {
    if pairs == [] {
    } else {
      PickIsFirst(s, i, pairs[..|pairs| - 1]);
    }
  }

  function ReplaceFrom(s: string, i: nat, pairs: seq<Pair>): string
    requires i <= |s| && Proper(pairs)
    decreases |s| - i
  {
    match PickAt(s, i, pairs)
    case Some(j) => pairs[j].new_ + ReplaceFrom(s, i + |pairs[j].old_|, pairs)
    case None => if i == |s| then "" else [s[i]] + ReplaceFrom(s, i + 1, pairs)
  }

  function Replace(s: string, pairs: seq<Pair>): string
    requires Proper(pairs)
  {
    ReplaceFrom(s, 0, pairs)
  }

  /** What is replaced at position i, and by what. */
  function Taken(s: string, i: nat, pairs: seq<Pair>): Option<Pair>
    requires i <= |s|
  {
    match PickAt(s, i, pairs)
    case Some(j) => Some(pairs[j])
    case None => None
  }

  /** The first of x + y is the first of x, and without one the first of y. */
  lemma {:induction false} TakenAppend(s: string, i: nat, x: seq<Pair>, y: seq<Pair>)
    requires i <= |s|
    ensures Taken(s, i, x + y) == if Taken(s, i, x).Some? then Taken(s, i, x) else Taken(s, i, y)
  {
    if y == [] {
      assert x + y == x;
    } else {
      DropLastOfSum(x, y);
      TakenAppend(s, i, x, y[..|y| - 1]);
    }
  }

  lemma ReplaceStep(s: string, i: nat, p: seq<Pair>)
    requires i <= |s| && Proper(p)
    ensures Taken(s, i, p).Some? ==>
              var pair := Taken(s, i, p).value;
              0 < |pair.old_| <= |s| - i && ReplaceFrom(s, i, p) == pair.new_ + ReplaceFrom(s, i + |pair.old_|, p)
    ensures Taken(s, i, p).None? ==> ReplaceFrom(s, i, p) == if i == |s| then "" else [s[i]] + ReplaceFrom(s, i + 1, p)
  {
  }

  lemma TakenWritten(s: string, i: nat, p: seq<Pair>, x: Pair)
    requires i <= |s| && Proper(p) && Taken(s, i, p) == Some(x)
    ensures 0 < |x.old_| <= |s| - i && ReplaceFrom(s, i, p) == x.new_ + ReplaceFrom(s, i + |x.old_|, p)
  {
    ReplaceStep(s, i, p);
  }

  lemma WrittenUpTo(s: string, m: nat, pairs: seq<Pair>, x: Pair, n: nat, tail: string)
    requires m <= |s| && Proper(pairs) && Taken(s, m, pairs) == Some(x)
    requires n == m + |x.old_| <= |s| && ReplaceFrom(s, n, pairs) == tail
    ensures ReplaceFrom(s, m, pairs) == x.new_ + tail
  {
    TakenWritten(s, m, pairs, x);
  }

  /** Pairs that agree at every position replace alike. */
  lemma {:induction false} SameReplacement(s: string, i: nat, p: seq<Pair>, q: seq<Pair>)
    requires i <= |s| && Proper(p) && Proper(q)
    requires forall n :: 0 <= n <= |s| ==> Taken(s, n, p) == Taken(s, n, q)
    ensures ReplaceFrom(s, i, p) == ReplaceFrom(s, i, q)
    decreases |s| - i
  {
    match Taken(s, i, p)
    case Some(x) =>
      TakenWritten(s, i, p, x);
      SameReplacement(s, i + |x.old_|, p, q);
      WrittenUpTo(s, i, q, x, i + |x.old_|, ReplaceFrom(s, i + |x.old_|, p));
    case None =>
      if i < |s| {
        SameReplacement(s, i + 1, p, q);
      }
      ReplaceStep(s, i, p);
      ReplaceStep(s, i, q);
  }

  lemma PrefixesOfOne(s: string, i: nat, a: string, b: string)
    requires i <= |s| && OccursAt(s, i, a) && OccursAt(s, i, b)
    ensures a <= b || b <= a
  {
    assert s[i..][..|a|] == a && s[i..][..|b|] == b;
  }

  // ------------------------------------- old strings that start with a colon

  predicate Coloned(pairs: seq<Pair>) {
    forall j :: 0 <= j < |pairs| ==> pairs[j].old_ != "" && pairs[j].old_[0] == ':'
  }

  lemma CopiedOne(s: string, i: nat, pairs: seq<Pair>)
    requires i < |s| && Proper(pairs) && Coloned(pairs) && s[i] != ':'
    ensures ReplaceFrom(s, i, pairs) == [s[i]] + ReplaceFrom(s, i + 1, pairs)
  {
    PickIsFirst(s, i, pairs);
    ReplaceStep(s, i, pairs);
  }

  /** Text without a colon is copied. */
  lemma {:induction false} CopiedThrough(s: string, i: nat, n: nat, pairs: seq<Pair>)
    requires i <= n <= |s| && Proper(pairs) && Coloned(pairs) && forall m :: i <= m < n ==> s[m] != ':'
    ensures ReplaceFrom(s, i, pairs) == s[i..n] + ReplaceFrom(s, n, pairs)
    decreases n - i
  {
    if i == n {
      NothingBefore(s[i..n], ReplaceFrom(s, n, pairs));
    } else {
      CopiedOne(s, i, pairs);
      CopiedThrough(s, i + 1, n, pairs);
      OneMoreBefore(s, i, n, ReplaceFrom(s, n, pairs));
    }
  }

  lemma TakenOccurs(s: string, i: nat, pairs: seq<Pair>, x: Pair)
    requires i <= |s| && Proper(pairs) && Taken(s, i, pairs) == Some(x)
    ensures OccursAt(s, i, x.old_) && 0 < |x.old_| <= |s| - i
  {
    PickIsFirst(s, i, pairs);
  }

  // ------------------------------------------------------------ what is left to replace

  lemma TailOfTail(s: string, i: nat, n: nat)
    requires i + n <= |s|
    ensures s[i..][n..] == s[i + n..]
  {
  }

  lemma {:induction false} TakenInRest(s: string, i: nat, pairs: seq<Pair>)
    requires i <= |s|
    ensures PickAt(s, i, pairs) == PickAt(s[i..], 0, pairs)
  {
    TailOfTail(s, i, 0);
    if pairs == [] {
    } else {
      TakenInRest(s, i, pairs[..|pairs| - 1]);
    }
  }

  lemma NoneTaken(s: string, i: nat, pairs: seq<Pair>)
    requires i < |s| && Proper(pairs) && Taken(s, i, pairs) == None
    ensures ReplaceFrom(s, i, pairs) == [s[i]] + ReplaceFrom(s, i + 1, pairs)
  {
    ReplaceStep(s, i, pairs);
  }

  lemma NothingAtEnd(s: string, pairs: seq<Pair>)
    requires Proper(pairs)
    ensures ReplaceFrom(s, |s|, pairs) == ""
  {
    ReplaceStep(s, |s|, pairs);
  }

  lemma BothTake(s: string, m: nat, rest: string, n: nat, pairs: seq<Pair>, x: Pair, m': nat, n': nat)
    requires Proper(pairs) && m <= |s| && n <= |rest|
    requires Taken(s, m, pairs) == Some(x) && Taken(rest, n, pairs) == Some(x)
    requires m' == m + |x.old_| <= |s| && n' == n + |x.old_| <= |rest|
    requires ReplaceFrom(s, m', pairs) == ReplaceFrom(rest, n', pairs)
    ensures ReplaceFrom(s, m, pairs) == ReplaceFrom(rest, n, pairs)
  {
    WrittenUpTo(s, m, pairs, x, m', ReplaceFrom(s, m', pairs));
    WrittenUpTo(rest, n, pairs, x, n', ReplaceFrom(s, m', pairs));
  }

  lemma BothCopy(s: string, m: nat, rest: string, n: nat, pairs: seq<Pair>)
    requires Proper(pairs) && m < |s| && n < |rest| && s[m] == rest[n]
    requires Taken(s, m, pairs) == None && Taken(rest, n, pairs) == None
    requires ReplaceFrom(s, m + 1, pairs) == ReplaceFrom(rest, n + 1, pairs)
    ensures ReplaceFrom(s, m, pairs) == ReplaceFrom(rest, n, pairs)
  {
    NoneTaken(s, m, pairs);
    NoneTaken(rest, n, pairs);
  }

  lemma SameTail(s: string, i: nat, n: nat, pairs: seq<Pair>)
    requires i + n <= |s|
    ensures Taken(s, i + n, pairs) == Taken(s[i..], n, pairs)
  {
    TailOfTail(s, i, n);
    TakenInRest(s, i + n, pairs);
    TakenInRest(s[i..], n, pairs);
  }

  lemma SameLetter(s: string, i: nat, n: nat, m: nat)
    requires m == i + n < |s|
    ensures s[m] == s[i..][n]
  {
  }

  /** From position m = i + n on, the text is replaced like the rest from position n on. */
  lemma {:induction false} ReplaceRest(s: string, i: nat, rest: string, n: nat, m: nat, pairs: seq<Pair>)
    requires m == i + n <= |s| && rest == s[i..] && Proper(pairs)
    ensures ReplaceFrom(s, m, pairs) == ReplaceFrom(rest, n, pairs)
    decreases |s| - m
  {
    SameTail(s, i, n, pairs);
    if m == |s| {
      NothingAtEnd(s, pairs);
      NothingAtEnd(rest, pairs);
    } else if Taken(s, m, pairs) == None {
      ReplaceRest(s, i, rest, n + 1, m + 1, pairs);
      SameLetter(s, i, n, m);
      BothCopy(s, m, rest, n, pairs);
    } else {
      var x := Taken(s, m, pairs).value;
      TakenOccurs(s, m, pairs, x);
      var m', n' := m + |x.old_|, n + |x.old_|;
      ReplaceRest(s, i, rest, n', m', pairs);
      BothTake(s, m, rest, n, pairs, x, m', n');
    }
  }

  /** Replacing a text of which x is taken first. */
  lemma ReplaceTaken(s: string, pairs: seq<Pair>, x: Pair)
    requires Proper(pairs) && Taken(s, 0, pairs) == Some(x)
    ensures 0 < |x.old_| <= |s| && x.old_ <= s
    ensures Replace(s, pairs) == x.new_ + Replace(s[|x.old_|..], pairs)
  {
    TakenOccurs(s, 0, pairs, x);
    TakenWritten(s, 0, pairs, x);
    ReplaceRest(s, |x.old_|, s[|x.old_|..], 0, |x.old_|, pairs);
    assert s[0..] == s;
  }

  /** And one of which nothing is. */
  lemma ReplaceCopied(s: string, pairs: seq<Pair>)
    requires Proper(pairs) && Taken(s, 0, pairs) == None && s != ""
    ensures Replace(s, pairs) == [s[0]] + Replace(s[1..], pairs)
  {
    NoneTaken(s, 0, pairs);
    ReplaceRest(s, 1, s[1..], 0, 1, pairs);
  }
}
