/** Rendering a box: arguments first, stored entries second. */
module Renderer {
  import opened Text
  import opened Paths
  import opened Options
  import opened Seqs
  import opened Table
  import opened TableKit
  import opened KeyTree
  import opened EntryStore
  import opened EntryReads
  import opened Replacer
  import opened Template

  // ------------------------------------------------------------------- arguments

  type Args = map<string, string>

  /** order lists the arguments once each, as the map happens to yield them. */
  ghost predicate Lists(order: seq<string>, args: Args) {
    && (forall i, j :: 0 <= i < j < |order| ==> order[i] != order[j])
    && (forall k :: k in order <==> k in args)
  }

  /** The box that is being rendered. */
  datatype Box = Box(service: string, stage: string, template: string)

  function Builtins(box: Box): (pairs: seq<Pair>)
    ensures |pairs| == 3 && Proper(pairs)
  {
    [Pair(":service", box.service), Pair(":stage", box.stage), Pair(":template", box.template)]
  }

  function ArgName(k: string): (name: string)
    ensures name != ""
  {
    ":" + TrimSpace(k)
  }

  function ArgPairs(args: Args, order: seq<string>): (pairs: seq<Pair>)
    requires forall k :: k in order ==> k in args
    ensures |pairs| == |order| && Proper(pairs)
    ensures forall i :: 0 <= i < |order| ==> pairs[i] == Pair(ArgName(order[i]), args[order[i]])
  {
    seq(|order|, i requires 0 <= i < |order| => Pair(ArgName(order[i]), args[order[i]]))
  }

  function AllPairs(box: Box, args: Args, order: seq<string>): (pairs: seq<Pair>)
    requires forall k :: k in order ==> k in args
    ensures Proper(pairs)
  {
    Builtins(box) + ArgPairs(args, order)
  }

  /** Some built-in name occurs wherever the name does, and comes first. */
  predicate Shadowed(name: string) {
    HasPrefix(name, ":service") || HasPrefix(name, ":stage") || HasPrefix(name, ":template")
  }

  /** Two arguments that can occur at the same position, where it matters which is taken. */
  predicate Clash(args: Args, a: string, b: string)
    requires a in args && b in args
  {
    && HasPrefix(ArgName(b), ArgName(a)) && !Shadowed(ArgName(b))
    && Pair(ArgName(a), args[a]) != Pair(ArgName(b), args[b])
  }

  predicate Independent(args: Args) {
    forall a, b :: a in args && b in args ==> !Clash(args, a, b)
  }

  lemma BuiltinsTaken(s: string, i: nat, box: Box, name: string)
    requires i <= |s| && Taken(s, i, Builtins(box)).None? && OccursAt(s, i, name)
    ensures !Shadowed(name)
  {
    var pairs := Builtins(box);
    PickIsFirst(s, i, pairs);
    assert !OccursAt(s, i, pairs[0].old_) && !OccursAt(s, i, pairs[1].old_) && !OccursAt(s, i, pairs[2].old_);
    assert s[i..][..|name|] == name;
    forall w | HasPrefix(name, w) ensures OccursAt(s, i, w) {
      assert s[i..][..|w|] == name[..|w|] == w;
    }
  }

  /** Any argument that occurs where no built-in does is the one taken, up to its text. */
  lemma ArgTaken(s: string, i: nat, box: Box, args: Args, order: seq<string>, k: string)
    requires i <= |s| && Lists(order, args) && Independent(args) && k in args
    requires Taken(s, i, Builtins(box)).None? && OccursAt(s, i, ArgName(k))
    ensures Taken(s, i, ArgPairs(args, order)) == Some(Pair(ArgName(k), args[k]))
  {
    var pairs := ArgPairs(args, order);
    var n :| 0 <= n < |order| && order[n] == k;
    assert OccursAt(s, i, pairs[n].old_);
    PickIsFirst(s, i, pairs);
    var j := PickAt(s, i, pairs).value;
    assert order[j] in order;
    OccursAlike(s, i, box, args, order[j], k);
  }

  lemma OccursAlike(s: string, i: nat, box: Box, args: Args, a: string, b: string)
    requires i <= |s| && Independent(args) && a in args && b in args
    requires Taken(s, i, Builtins(box)).None? && OccursAt(s, i, ArgName(a)) && OccursAt(s, i, ArgName(b))
    ensures Pair(ArgName(a), args[a]) == Pair(ArgName(b), args[b])
  {
    PrefixesOfOne(s, i, ArgName(a), ArgName(b));
    BuiltinsTaken(s, i, box, ArgName(a));
    BuiltinsTaken(s, i, box, ArgName(b));
    assert !Clash(args, a, b) && !Clash(args, b, a);
  }

  lemma SameTaken(s: string, i: nat, box: Box, args: Args, o1: seq<string>, o2: seq<string>)
    requires i <= |s| && Lists(o1, args) && Lists(o2, args) && Independent(args)
    ensures Taken(s, i, AllPairs(box, args, o1)) == Taken(s, i, AllPairs(box, args, o2))
  {
    TakenAppend(s, i, Builtins(box), ArgPairs(args, o1));
    TakenAppend(s, i, Builtins(box), ArgPairs(args, o2));
    if Taken(s, i, Builtins(box)).None? {
      if Taken(s, i, ArgPairs(args, o1)).Some? {
        ArgOfTaken(s, i, box, args, o1, o2);
      } else if Taken(s, i, ArgPairs(args, o2)).Some? {
        ArgOfTaken(s, i, box, args, o2, o1);
      }
    }
  }

  lemma ArgOfTaken(s: string, i: nat, box: Box, args: Args, o1: seq<string>, o2: seq<string>)
    requires i <= |s| && Lists(o1, args) && Lists(o2, args) && Independent(args)
    requires Taken(s, i, Builtins(box)).None? && Taken(s, i, ArgPairs(args, o1)).Some?
    ensures Taken(s, i, ArgPairs(args, o1)) == Taken(s, i, ArgPairs(args, o2))
  {
    PickIsFirst(s, i, ArgPairs(args, o1));
    var j := PickAt(s, i, ArgPairs(args, o1)).value;
    assert o1[j] in o1;
    ArgTaken(s, i, box, args, o1, o1[j]);
    ArgTaken(s, i, box, args, o2, o1[j]);
  }

  /** Without clashes the order in which the map yields the arguments makes no difference,
      for any template. */
  lemma OrderIrrelevant(tmpl: string, box: Box, args: Args, o1: seq<string>, o2: seq<string>)
    requires Lists(o1, args) && Lists(o2, args) && Independent(args)
    ensures Replacer.Replace(tmpl, AllPairs(box, args, o1)) == Replacer.Replace(tmpl, AllPairs(box, args, o2))
  {
    forall n | 0 <= n <= |tmpl|
      ensures Taken(tmpl, n, AllPairs(box, args, o1)) == Taken(tmpl, n, AllPairs(box, args, o2))
    {
      SameTaken(tmpl, n, box, args, o1, o2);
    }
    SameReplacement(tmpl, 0, AllPairs(box, args, o1), AllPairs(box, args, o2));
  }

  lemma FirstTaken(s: string, p: Pair, rest: seq<Pair>)
    requires OccursAt(s, 0, p.old_)
    ensures Taken(s, 0, [p] + rest) == Some(p)
  {
    TakenAppend(s, 0, [p], rest);
    assert [p][..0] == [];
  }

  lemma NoBuiltinTaken(s: string, box: Box)
    requires !Shadowed(s)
    ensures Taken(s, 0, Builtins(box)).None?
  {
    PickIsFirst(s, 0, Builtins(box));
    assert s[0..] == s;
  }

  /** In a template that names the longer of two clashing arguments, the one that the map
      yields first is taken. */
  lemma ClashDecidedByOrder(box: Box, args: Args, order: seq<string>, a: string, b: string, first: string)
    requires Lists(order, args) && a in args && b in args && Clash(args, a, b)
    requires order != [] && order[0] == first && (first == a || first == b)
    ensures Taken(ArgName(b), 0, AllPairs(box, args, order)) == Some(Pair(ArgName(first), args[first]))
  {
    FirstAfterBuiltins(ArgName(b), box, ArgPairs(args, order));
  }

  lemma FirstAfterBuiltins(s: string, box: Box, pairs: seq<Pair>)
    requires !Shadowed(s) && pairs != [] && HasPrefix(s, pairs[0].old_)
    ensures Taken(s, 0, Builtins(box) + pairs) == Some(pairs[0])
  {
    NoBuiltinTaken(s, box);
    TakenAppend(s, 0, Builtins(box), pairs);
    assert s[0..] == s;
    assert pairs == [pairs[0]] + pairs[1..];
    FirstTaken(s, pairs[0], pairs[1..]);
  }

  /** Some listing of the arguments starts with k. */
  lemma ListingFrom(args: Args, k: string) returns (order: seq<string>)
    requires k in args
    ensures Lists(order, args) && order != [] && order[0] == k
  {
    order := [k];
    var left := args.Keys - {k};
    while left != {}
      invariant left <= args.Keys && order != [] && order[0] == k
      invariant forall i, j :: 0 <= i < j < |order| ==> order[i] != order[j]
      invariant forall n :: n in order <==> n in args && n !in left
      decreases |left|
    {
      var n :| n in left;
      left := left - {n};
      order := order + [n];
    }
  }

  /** At every position of every template, every order takes the same. */
  ghost predicate OrderFree(box: Box, args: Args) {
    forall s: string, i: nat, o1: seq<string>, o2: seq<string> ::
      i <= |s| && Lists(o1, args) && Lists(o2, args) ==>
        Taken(s, i, AllPairs(box, args, o1)) == Taken(s, i, AllPairs(box, args, o2))
  }

  /** Every order takes the same replacement everywhere if and only if no two arguments
      clash. This is about what is taken, not about the text: with x for 1 and xy for 1y the
      two arguments clash, and both orders write the same. TextFreeExactly is about the text. */
  lemma OrderFreeExactly(box: Box, args: Args)
    ensures OrderFree(box, args) <==> Independent(args)
  {
    if Independent(args) {
      forall s: string, i: nat, o1: seq<string>, o2: seq<string> | i <= |s| && Lists(o1, args) && Lists(o2, args)
        ensures Taken(s, i, AllPairs(box, args, o1)) == Taken(s, i, AllPairs(box, args, o2))
      {
        SameTaken(s, i, box, args, o1, o2);
      }
    } else {
      var a, b :| a in args && b in args && Clash(args, a, b);
      var o1 := ListingFrom(args, a);
      var o2 := ListingFrom(args, b);
      ClashDecidedByOrder(box, args, o1, a, b, a);
      ClashDecidedByOrder(box, args, o2, a, b, b);
    }
  }

  /** A clash shows in the text of the template that names the longer argument, unless that
      one's value happens to be the shorter one's followed by what the rest turns into. */
  lemma ClashChangesText(box: Box, args: Args, o1: seq<string>, o2: seq<string>, a: string, b: string)
    requires Lists(o1, args) && Lists(o2, args) && a in args && b in args && Clash(args, a, b)
    requires o1 != [] && o1[0] == a && o2 != [] && o2[0] == b
    ensures var name := ArgName(b);
            Replacer.Replace(name, AllPairs(box, args, o1)) == Replacer.Replace(name, AllPairs(box, args, o2)) <==>
            args[b] == args[a] + ReplaceFrom(name, |ArgName(a)|, AllPairs(box, args, o1))
  {
    var name := ArgName(b);
    ClashDecidedByOrder(box, args, o1, a, b, a);
    ClashDecidedByOrder(box, args, o2, a, b, b);
    TextOfTaken(name, AllPairs(box, args, o1), Pair(ArgName(a), args[a]));
    TextOfTaken(name, AllPairs(box, args, o2), Pair(name, args[b]));
    NothingLeft(name, box, args, o2);
  }

  lemma TextOfTaken(s: string, pairs: seq<Pair>, p: Pair)
    requires Proper(pairs) && Taken(s, 0, pairs) == Some(p)
    ensures |p.old_| <= |s| && Replacer.Replace(s, pairs) == p.new_ + ReplaceFrom(s, |p.old_|, pairs)
  {
    ReplaceStep(s, 0, pairs);
  }

  lemma NothingLeft(s: string, box: Box, args: Args, order: seq<string>)
    requires Lists(order, args)
    ensures ReplaceFrom(s, |s|, AllPairs(box, args, order)) == ""
  {
    ReplaceStep(s, |s|, AllPairs(box, args, order));
  }

  /** The built-in names stand for the box's own coordinates, whatever the arguments are. */
  lemma BuiltinsStand(box: Box, args: Args, order: seq<string>)
    requires Lists(order, args)
    ensures Replacer.Replace(":service", AllPairs(box, args, order)) == box.service
    ensures Replacer.Replace(":stage", AllPairs(box, args, order)) == box.stage
    ensures Replacer.Replace(":template", AllPairs(box, args, order)) == box.template
  {
    BuiltinStands(box, args, order, ":service", box.service);
    BuiltinStands(box, args, order, ":stage", box.stage);
    BuiltinStands(box, args, order, ":template", box.template);
  }

  lemma BuiltinStands(box: Box, args: Args, order: seq<string>, name: string, value: string)
    requires Lists(order, args) && Pair(name, value) in Builtins(box)
    ensures Replacer.Replace(name, AllPairs(box, args, order)) == value
  {
    var pairs := AllPairs(box, args, order);
    TakenAppend(name, 0, Builtins(box), ArgPairs(args, order));
    BuiltinTaken(box, name, value);
    ReplaceTaken(name, pairs, Pair(name, value));
    NothingAtEnd("", pairs);
    assert name[|name|..] == "" && value + "" == value;
  }

  lemma BuiltinTaken(box: Box, name: string, value: string)
    requires Pair(name, value) in Builtins(box)
    ensures Taken(name, 0, Builtins(box)) == Some(Pair(name, value))
  {
    var pairs := Builtins(box);
    PickIsFirst(name, 0, pairs);
    assert name[0..] == name;
    var n :| 0 <= n < |pairs| && pairs[n] == Pair(name, value);
    assert OccursAt(name, 0, pairs[n].old_);
    var j := PickAt(name, 0, pairs).value;
    assert j <= n && pairs[j].old_ <= name;
    assert pairs[0].old_[1..3] == "se" && pairs[1].old_[1..3] == "st" && pairs[2].old_[1..3] == "te";
    assert name[1..3] == pairs[j].old_[1..3] == pairs[n].old_[1..3];
  }

  // ------------------------------------------------------------ when the text changes

  /** No name contains a colon, so that no name can start inside another one. */
  predicate PlainNames(args: Args) {
    forall k :: k in args ==> ':' !in TrimSpace(k)
  }

  /** Taking the shorter of two names and copying what is left of the longer one gives the
      longer one's value. */
  predicate Settled(args: Args, a: string, b: string)
    requires a in args && b in args
  {
    HasPrefix(ArgName(b), ArgName(a)) && !Shadowed(ArgName(b)) ==>
      args[b] == args[a] + ArgName(b)[|ArgName(a)|..]
  }

  predicate AllSettled(args: Args) {
    forall a, b :: a in args && b in args ==> Settled(args, a, b)
  }

  /** For every template, every order gives the same text. */
  ghost predicate TextFree(box: Box, args: Args) {
    forall tmpl: string, o1: seq<string>, o2: seq<string> :: Lists(o1, args) && Lists(o2, args) ==>
      Replacer.Replace(tmpl, AllPairs(box, args, o1)) == Replacer.Replace(tmpl, AllPairs(box, args, o2))
  }

  function PairOf(args: Args, k: string): Pair
    requires k in args
  {
    Pair(ArgName(k), args[k])
  }

  lemma AllColoned(box: Box, args: Args, order: seq<string>)
    requires Lists(order, args)
    ensures Coloned(AllPairs(box, args, order))
  {
    assert Coloned(Builtins(box)) && Coloned(ArgPairs(args, order));
  }

  /** The argument that is taken where no built-in name occurs, or none if none occurs. */
  lemma ArgChosen(s: string, i: nat, box: Box, args: Args, order: seq<string>)
    returns (k: Option<string>)
    requires i <= |s| && Lists(order, args) && Taken(s, i, Builtins(box)).None?
    ensures k.None? ==> Taken(s, i, AllPairs(box, args, order)).None?
    ensures k.None? ==> forall a :: a in args ==> !OccursAt(s, i, ArgName(a))
    ensures k.Some? ==> k.value in args && OccursAt(s, i, ArgName(k.value)) && !Shadowed(ArgName(k.value))
    ensures k.Some? ==> Taken(s, i, AllPairs(box, args, order)) == Some(PairOf(args, k.value))
  {
    var pairs := ArgPairs(args, order);
    TakenAppend(s, i, Builtins(box), pairs);
    PickIsFirst(s, i, pairs);
    if PickAt(s, i, pairs).Some? {
      var j := PickAt(s, i, pairs).value;
      assert order[j] in order;
      k := Some(order[j]);
      BuiltinsTaken(s, i, box, ArgName(order[j]));
    } else {
      k := None;
      forall a | a in args ensures !OccursAt(s, i, ArgName(a)) {
        var n :| 0 <= n < |order| && order[n] == a;
        assert !OccursAt(s, i, pairs[n].old_);
      }
    }
  }

  // ------------------------------------------------------------ names of any kind

  /** Whatever follows the longer name b, taking b gives the same text as taking the shorter
      name a and replacing the rest, in every order, where no built-in name comes first. */
  ghost predicate Interchange(box: Box, args: Args, a: string, b: string)
    requires a in args && b in args
  {
    HasPrefix(ArgName(b), ArgName(a)) ==>
      forall rest: string, o: seq<string> :: Lists(o, args) && !Shadowed(ArgName(b) + rest) ==>
        args[b] + Replacer.Replace(rest, AllPairs(box, args, o)) ==
        args[a] + Replacer.Replace(ArgName(b)[|ArgName(a)|..] + rest, AllPairs(box, args, o))
  }

  ghost predicate AllInterchange(box: Box, args: Args) {
    forall a, b :: a in args && b in args ==> Interchange(box, args, a, b)
  }

  lemma LongerFirst(s: string, short: string, long: string)
    requires long <= s && short <= long
    ensures s == long + s[|long|..] && s[|short|..] == long[|short|..] + s[|long|..]
  {
  }

  lemma SumSplits(short: string, long: string, rest: string)
    requires short <= long
    ensures short <= long + rest && (long + rest)[|long|..] == rest
    ensures (long + rest)[|short|..] == long[|short|..] + rest
  {
  }

  /** Where one order takes a and another b, which starts with a, the texts are the same if
      they are after b. */
  lemma InterchangeAt(s: string, box: Box, args: Args, o1: seq<string>, o2: seq<string>, a: string, b: string)
    requires Lists(o1, args) && Lists(o2, args) && a in args && b in args && Interchange(box, args, a, b)
    requires HasPrefix(ArgName(b), ArgName(a)) && ArgName(b) <= s && !Shadowed(s)
    requires Taken(s, 0, AllPairs(box, args, o1)) == Some(PairOf(args, a))
    requires Taken(s, 0, AllPairs(box, args, o2)) == Some(PairOf(args, b))
    requires var rest := s[|ArgName(b)|..];
             Replacer.Replace(rest, AllPairs(box, args, o1)) == Replacer.Replace(rest, AllPairs(box, args, o2))
    ensures Replacer.Replace(s, AllPairs(box, args, o1)) == Replacer.Replace(s, AllPairs(box, args, o2))
  {
    LongerFirst(s, ArgName(a), ArgName(b));
    ReplaceTaken(s, AllPairs(box, args, o1), PairOf(args, a));
    ReplaceTaken(s, AllPairs(box, args, o2), PairOf(args, b));
  }

  lemma NothingShadows(s: string, box: Box)
    ensures Taken(s, 0, Builtins(box)).None? <==> !Shadowed(s)
  {
    PickIsFirst(s, 0, Builtins(box));
    assert s[0..] == s;
    var pairs := Builtins(box);
    assert pairs[0].old_ == ":service" && pairs[1].old_ == ":stage" && pairs[2].old_ == ":template";
  }

  /** What two orders take first of a text: the same, or two names that it starts with. */
  lemma TakenFirst(s: string, box: Box, args: Args, o1: seq<string>, o2: seq<string>)
    returns (k: Option<(string, string)>)
    requires Lists(o1, args) && Lists(o2, args)
    ensures k.None? ==> Taken(s, 0, AllPairs(box, args, o1)) == Taken(s, 0, AllPairs(box, args, o2))
    ensures k.Some? ==> k.value.0 in args && k.value.1 in args && !Shadowed(s)
    ensures k.Some? ==> ArgName(k.value.0) <= s && ArgName(k.value.1) <= s
    ensures k.Some? ==> Taken(s, 0, AllPairs(box, args, o1)) == Some(PairOf(args, k.value.0))
    ensures k.Some? ==> Taken(s, 0, AllPairs(box, args, o2)) == Some(PairOf(args, k.value.1))
  {
    k := None;
    assert s[0..] == s;
    NothingShadows(s, box);
    if Shadowed(s) {
      TakenAppend(s, 0, Builtins(box), ArgPairs(args, o1));
      TakenAppend(s, 0, Builtins(box), ArgPairs(args, o2));
    } else {
      var x := ArgChosen(s, 0, box, args, o1);
      var y := ArgChosen(s, 0, box, args, o2);
      if x.Some? && y.Some? {
        k := Some((x.value, y.value));
      }
    }
  }

  lemma SameFirst(s: string, p: seq<Pair>, q: seq<Pair>) returns (n: nat)
    requires Proper(p) && Proper(q) && Taken(s, 0, p) == Taken(s, 0, q) && s != ""
    ensures 0 < n <= |s|
    ensures Replacer.Replace(s[n..], p) == Replacer.Replace(s[n..], q) ==>
              Replacer.Replace(s, p) == Replacer.Replace(s, q)
  {
    match Taken(s, 0, p)
    case Some(x) =>
      ReplaceTaken(s, p, x);
      ReplaceTaken(s, q, x);
      n := |x.old_|;
    case None =>
      ReplaceCopied(s, p);
      ReplaceCopied(s, q);
      n := 1;
  }

  lemma {:induction false} SameByInterchange(s: string, box: Box, args: Args, o1: seq<string>, o2: seq<string>)
    requires Lists(o1, args) && Lists(o2, args) && AllInterchange(box, args)
    ensures Replacer.Replace(s, AllPairs(box, args, o1)) == Replacer.Replace(s, AllPairs(box, args, o2))
    decreases |s|
  {
    if s == "" {
      NothingAtEnd(s, AllPairs(box, args, o1));
      NothingAtEnd(s, AllPairs(box, args, o2));
    } else {
      var k := TakenFirst(s, box, args, o1, o2);
      if k.None? {
        var n := SameFirst(s, AllPairs(box, args, o1), AllPairs(box, args, o2));
        SameByInterchange(s[n..], box, args, o1, o2);
      } else {
        var a, b := k.value.0, k.value.1;
        if HasPrefix(ArgName(b), ArgName(a)) {
          SameByInterchange(s[|ArgName(b)|..], box, args, o1, o2);
          InterchangeAt(s, box, args, o1, o2, a, b);
        } else {
          SameByInterchange(s[|ArgName(a)|..], box, args, o1, o2);
          InterchangeAt(s, box, args, o2, o1, b, a);
        }
      }
    }
  }

  /** Where the text does not depend on the order, either of two names may be taken. */
  lemma FreeInterchange(box: Box, args: Args, a: string, b: string, rest: string, o: seq<string>)
    requires TextFree(box, args) && a in args && b in args && HasPrefix(ArgName(b), ArgName(a))
    requires Lists(o, args) && !Shadowed(ArgName(b) + rest)
    ensures args[b] + Replacer.Replace(rest, AllPairs(box, args, o)) ==
            args[a] + Replacer.Replace(ArgName(b)[|ArgName(a)|..] + rest, AllPairs(box, args, o))
  {
    var s := ArgName(b) + rest;
    SumSplits(ArgName(a), ArgName(b), rest);
    var o1 := TakenWhenFirst(s, box, args, a, o);
    var o2 := TakenWhenFirst(s, box, args, b, o);
    assert Replacer.Replace(s, AllPairs(box, args, o1)) == Replacer.Replace(s, AllPairs(box, args, o2));
  }

  /** With k first, it is taken wherever the text starts with its name. */
  lemma TakenWhenFirst(s: string, box: Box, args: Args, k: string, o: seq<string>) returns (order: seq<string>)
    requires TextFree(box, args) && k in args && ArgName(k) <= s && !Shadowed(s) && Lists(o, args)
    ensures Lists(order, args)
    ensures Replacer.Replace(s, AllPairs(box, args, order)) ==
            args[k] + Replacer.Replace(s[|ArgName(k)|..], AllPairs(box, args, o))
  {
    order := ListingFrom(args, k);
    var pairs := AllPairs(box, args, order);
    FirstAfterBuiltins(s, box, ArgPairs(args, order));
    ReplaceTaken(s, pairs, PairOf(args, k));
    var rest := s[|ArgName(k)|..];
    assert Replacer.Replace(rest, pairs) == Replacer.Replace(rest, AllPairs(box, args, o));
  }

  /** For names of any kind, every order gives the same text for every template if and only
      if, of two names that start alike, either may be taken, whatever follows. */
  lemma TextFreeByInterchange(box: Box, args: Args)
    ensures TextFree(box, args) <==> AllInterchange(box, args)
  {
    if AllInterchange(box, args) {
      forall tmpl: string, o1: seq<string>, o2: seq<string> | Lists(o1, args) && Lists(o2, args)
        ensures Replacer.Replace(tmpl, AllPairs(box, args, o1)) == Replacer.Replace(tmpl, AllPairs(box, args, o2))
      {
        SameByInterchange(tmpl, box, args, o1, o2);
      }
    }
    if TextFree(box, args) {
      forall a, b | a in args && b in args ensures Interchange(box, args, a, b) {
        FreeIsInterchange(box, args, a, b);
      }
    }
  }

  lemma FreeIsInterchange(box: Box, args: Args, a: string, b: string)
    requires TextFree(box, args) && a in args && b in args
    ensures Interchange(box, args, a, b)
  {
    if HasPrefix(ArgName(b), ArgName(a)) {
      forall rest: string, o: seq<string> | Lists(o, args) && !Shadowed(ArgName(b) + rest)
        ensures args[b] + Replacer.Replace(rest, AllPairs(box, args, o)) ==
                args[a] + Replacer.Replace(ArgName(b)[|ArgName(a)|..] + rest, AllPairs(box, args, o))
      {
        FreeInterchange(box, args, a, b, rest, o);
      }
    }
  }

  // ------------------------------------------------------------ names without a colon

  lemma NoColonAfter(k: string, n: nat)
    requires ':' !in TrimSpace(k) && 1 <= n <= |ArgName(k)|
    ensures ':' !in ArgName(k)[n..]
  {
    var name := ArgName(k);
    assert name[1..] == TrimSpace(k);
    assert forall m :: n <= m < |name| ==> name[m] == name[1..][m - 1];
  }

  /** Text without a colon, in front of any other, is copied. */
  lemma CopiedBefore(text: string, rest: string, pairs: seq<Pair>)
    requires Proper(pairs) && Coloned(pairs) && ':' !in text
    ensures Replacer.Replace(text + rest, pairs) == text + Replacer.Replace(rest, pairs)
  {
    var s := text + rest;
    assert s[|text|..] == rest && s[0..|text|] == text;
    forall m | 0 <= m < |text| ensures s[m] != ':' {
      assert s[m] == text[m];
    }
    CopiedThrough(s, 0, |text|, pairs);
    ReplaceRest(s, |text|, rest, 0, |text|, pairs);
  }

  /** With what is left of b copied, interchanging a and b comes down to their values. */
  lemma InterchangeOfPlain(box: Box, args: Args, a: string, b: string, rest: string, o: seq<string>)
    requires a in args && b in args && HasPrefix(ArgName(b), ArgName(a)) && ':' !in TrimSpace(b) && Lists(o, args)
    ensures var more := ArgName(b)[|ArgName(a)|..];
            (args[b] + Replacer.Replace(rest, AllPairs(box, args, o)) ==
             args[a] + Replacer.Replace(more + rest, AllPairs(box, args, o))) <==> args[b] == args[a] + more
  {
    var more, after := ArgName(b)[|ArgName(a)|..], Replacer.Replace(rest, AllPairs(box, args, o));
    NoColonAfter(b, |ArgName(a)|);
    AllColoned(box, args, o);
    CopiedBefore(more, rest, AllPairs(box, args, o));
    Regrouped(args[a], more, after);
    SameBefore(args[b], args[a] + more, after);
  }

  lemma ShadowedBefore(name: string, rest: string)
    requires Shadowed(name)
    ensures Shadowed(name + rest)
  {
    forall w | HasPrefix(name, w) ensures HasPrefix(name + rest, w) {
      assert (name + rest)[..|w|] == name[..|w|] == w;
    }
  }

  lemma SettledInterchange(box: Box, args: Args, a: string, b: string)
    requires a in args && b in args && ':' !in TrimSpace(b)
    ensures Interchange(box, args, a, b) <==> Settled(args, a, b)
  {
    if HasPrefix(ArgName(b), ArgName(a)) {
      forall rest: string, o: seq<string> | Lists(o, args) && Settled(args, a, b) && !Shadowed(ArgName(b) + rest)
        ensures args[b] + Replacer.Replace(rest, AllPairs(box, args, o)) ==
                args[a] + Replacer.Replace(ArgName(b)[|ArgName(a)|..] + rest, AllPairs(box, args, o))
      {
        if Shadowed(ArgName(b)) {
          ShadowedBefore(ArgName(b), rest);
        }
        InterchangeOfPlain(box, args, a, b, rest, o);
      }
      var o := ListingFrom(args, a);
      InterchangeOfPlain(box, args, a, b, "", o);
      assert ArgName(b) + "" == ArgName(b);
    }
  }

  /** With names that contain no colon, every order gives the same text for every template
      if and only if, for each name that starts with another one and with no built-in name,
      its value is the other one's followed by the rest of the name. */
  lemma TextFreeExactly(box: Box, args: Args)
    requires PlainNames(args)
    ensures TextFree(box, args) <==> AllSettled(args)
  {
    TextFreeByInterchange(box, args);
    forall a, b | a in args && b in args ensures Interchange(box, args, a, b) <==> Settled(args, a, b) {
      SettledInterchange(box, args, a, b);
    }
  }

  /** The template with the built-in names and the arguments replaced. */
  method VarsBuilder(tmpl: string, box: Box, args: Args) returns (expanded: string, ghost order: seq<string>)
    ensures Lists(order, args)
    ensures expanded == Replacer.Replace(tmpl, AllPairs(box, args, order))
    ensures Independent(args) ==>
              forall o :: Lists(o, args) ==> expanded == Replacer.Replace(tmpl, AllPairs(box, args, o))
  {
    var pairs;
    pairs, order := OldNew(box, args);
    expanded := Replacer.Replace(tmpl, pairs);
    if Independent(args) {
      forall o | Lists(o, args) ensures expanded == Replacer.Replace(tmpl, AllPairs(box, args, o)) {
        OrderIrrelevant(tmpl, box, args, order, o);
      }
    }
  }

  method OldNew(box: Box, args: Args) returns (pairs: seq<Pair>, ghost order: seq<string>)
    ensures Lists(order, args) && pairs == AllPairs(box, args, order)
  {
    pairs, order := Builtins(box), [];
    var left := args.Keys;
    while left != {}
      invariant left <= args.Keys
      invariant forall i, j :: 0 <= i < j < |order| ==> order[i] != order[j]
      invariant forall k :: k in order <==> k in args && k !in left
      invariant pairs == AllPairs(box, args, order)
      decreases |left|
    {
      var k :| k in left;
      left := left - {k};
      PairsNext(box, args, order, k);
      pairs := pairs + [Pair(ArgName(k), args[k])];
      order := order + [k];
    }
  }

  lemma PairsNext(box: Box, args: Args, order: seq<string>, k: string)
    requires k in args && forall n :: n in order ==> n in args
    ensures AllPairs(box, args, order + [k]) == AllPairs(box, args, order) + [Pair(ArgName(k), args[k])]
  {
    assert ArgPairs(args, order + [k]) == ArgPairs(args, order) + [Pair(ArgName(k), args[k])];
  }

  // -------------------------------------------------------------------- rendering

  /** How values are written into a file of some format, and what the format accepts. */
  datatype Strategy = Strategy(transform: string -> string, valid: string -> bool)

  datatype Outcome =
    | Content(text: string)
    | TemplateNotFound
    | RetrieveFailed
    | MissingVariables(names: seq<string>)
    | InvalidSyntax

  /** The stored value of a key as the format writes it; nothing if there is none. */
  function Written(t: Rows, strategy: Strategy, key: string): string {
    match Lookup(t, key)
    case Some(e) => strategy.transform(e.value)
    case None => ""
  }

  /** Each hole of the template filled from the table. */
  function Rendered(t: Rows, strategy: Strategy, ts: seq<Token>): string {
    if ts == [] then ""
    else
      (match ts[0] case Letter(c) => [c] case Hole(v) => Written(t, strategy, TrimSpace(v))) +
      Rendered(t, strategy, ts[1..])
  }

  ghost predicate FilledFrom(values: Values, found: map<string, Entry>, strategy: Strategy) {
    && (forall k :: k in found ==> found[k].key in values)
    && (forall n :: n in values ==>
          exists k :: k in found && found[k].key == n && values[n] == strategy.transform(found[k].value))
  }

  /** The values by key, in whatever order the map yields the entries. */
  method Tree(found: map<string, Entry>, strategy: Strategy) returns (values: Values)
    ensures FilledFrom(values, found, strategy)
  {
    values := map[];
    var left := found.Keys;
    while left != {}
      invariant left <= found.Keys
      invariant FilledFrom(values, found - left, strategy)
      decreases |left|
    {
      var k :| k in left;
      NextEntry(values, found, left, k, strategy);
      left := left - {k};
      values := values[found[k].key := strategy.transform(found[k].value)];
    }
    assert found - {} == found;
  }

  lemma NextEntry(values: Values, found: map<string, Entry>, left: set<string>, k: string, strategy: Strategy)
    requires k in left && left <= found.Keys && FilledFrom(values, found - left, strategy)
    ensures FilledFrom(values[found[k].key := strategy.transform(found[k].value)], found - (left - {k}), strategy)
  {
    var before, after := found - left, found - (left - {k});
    assert k in after && forall n :: n in before ==> n in after && after[n] == before[n];
    assert forall n :: n in after ==> n == k || n in before;
  }

  /** The tree has the right value for each of the keys. */
  ghost predicate Agrees(values: Values, t: Rows, strategy: Strategy, keys: seq<string>) {
    forall k :: k in keys ==> (k in values <==> Lookup(t, k).Some?) && ValueOf(values, k) == Written(t, strategy, k)
  }

  lemma LookupName(t: Rows, k: string)
    requires Canonical(k) && Lookup(t, k).Some?
    ensures Lookup(t, k).value.key == k
  {
    RowOfKey(k);
  }

  /** Each entry was found under its own key. */
  ghost predicate OwnKeys(found: map<string, Entry>) {
    forall k :: k in found ==> found[k].key == k
  }

  lemma FoundByOwnKey(found: map<string, Entry>, t: Rows, keys: seq<string>)
    requires CanonicalKeys(keys) && Pointwise(t, keys, found) && PointwiseValues(t, found)
    ensures OwnKeys(found)
  {
    forall k | k in found ensures found[k].key == k {
      assert Lookup(t, k) == Some(found[k]);
      CanonicalMember(keys, k);
      LookupName(t, k);
    }
  }

  /** What the tree holds for one key. */
  lemma TreeAt(values: Values, found: map<string, Entry>, strategy: Strategy, k: string)
    requires OwnKeys(found) && FilledFrom(values, found, strategy)
    ensures k in values <==> k in found
    ensures k in found ==> values[k] == strategy.transform(found[k].value)
  {
    if k in values {
      var n :| n in found && found[n].key == k && values[k] == strategy.transform(found[n].value);
      assert n == k;
    }
    if k in found {
      assert found[k].key in values;
    }
  }

  lemma TreeAgrees(values: Values, found: map<string, Entry>, t: Rows, strategy: Strategy, keys: seq<string>)
    requires CanonicalKeys(keys) && Pointwise(t, keys, found) && PointwiseValues(t, found)
    requires FilledFrom(values, found, strategy)
    ensures Agrees(values, t, strategy, keys)
  {
    FoundByOwnKey(found, t, keys);
    forall k | k in keys
      ensures (k in values <==> Lookup(t, k).Some?) && ValueOf(values, k) == Written(t, strategy, k)
    {
      TreeAt(values, found, strategy, k);
    }
  }

  lemma {:induction false} FillIsRendered(values: Values, t: Rows, strategy: Strategy, ts: seq<Token>)
    requires forall v :: v in Holes(ts) ==> ValueOf(values, TrimSpace(v)) == Written(t, strategy, TrimSpace(v))
    ensures FillFrom(ts, values) == Rendered(t, strategy, ts)
  {
    if ts == [] {
    } else {
      if ts[0].Hole? {
        assert Holes(ts) == [ts[0].inner] + Holes(ts[1..]);
      }
      FillIsRendered(values, t, strategy, ts[1..]);
    }
  }

  lemma AgreesRendered(values: Values, t: Rows, strategy: Strategy, ts: seq<Token>)
    requires Agrees(values, t, strategy, TrimAll(Holes(ts)))
    ensures FillFrom(ts, values) == Rendered(t, strategy, ts)
  {
    forall v | v in Holes(ts) ensures ValueOf(values, TrimSpace(v)) == Written(t, strategy, TrimSpace(v)) {
      var i :| 0 <= i < |Holes(ts)| && Holes(ts)[i] == v;
      assert TrimAll(Holes(ts))[i] == TrimSpace(v);
    }
    FillIsRendered(values, t, strategy, ts);
  }

  lemma {:induction false} AbsentExact(keys: seq<string>, values: Values, k: string)
    ensures k in Absent(keys, values) <==> k in keys && k !in values
  {
    if keys == [] {
    } else {
      AbsentExact(keys[..|keys| - 1], values, k);
      assert k in keys <==> k in keys[..|keys| - 1] || k == keys[|keys| - 1];
    }
  }

  /** The keys a template asks for. */
  function KeysOf(tmpl: string): seq<string> {
    TrimAll(Holes(Tokens(tmpl, 0)))
  }

  /** If the keys of the expanded template are canonical, the content is the template with
      every placeholder replaced by the transformed stored value, and in strict mode names
      are missing exactly when some key is not stored. */
  method BuildBox(svc: TableService, raw: Option<string>, box: Box, args: Args, strict: bool, strategy: Strategy)
    returns (out: Outcome, ghost expanded: string, ghost order: seq<string>)
    modifies svc`getCalls, svc`refused
    ensures raw.None? <==> out.TemplateNotFound?
    ensures raw.Some? ==> Lists(order, args) && expanded == Replacer.Replace(raw.value, AllPairs(box, args, order))
    ensures out.Content? && CanonicalKeys(KeysOf(expanded)) ==>
              out.text == Rendered(svc.rows, strategy, Tokens(expanded, 0))
    ensures out.MissingVariables? && CanonicalKeys(KeysOf(expanded)) ==>
              forall k :: k in out.names <==> k in KeysOf(expanded) && Lookup(svc.rows, k).None?
    ensures strict && out.Content? && CanonicalKeys(KeysOf(expanded)) ==>
              strategy.valid(out.text) && forall k :: k in KeysOf(expanded) ==> Lookup(svc.rows, k).Some?
    ensures out.InvalidSyntax? && CanonicalKeys(KeysOf(expanded)) ==>
              && !strategy.valid(Rendered(svc.rows, strategy, Tokens(expanded, 0)))
              && forall k :: k in KeysOf(expanded) ==> Lookup(svc.rows, k).Some?
    ensures !strict ==> !out.MissingVariables? && !out.InvalidSyntax?
    ensures out.MissingVariables? ==> out.names != []
    ensures svc.refused >= old(svc.refused) && (out.RetrieveFailed? ==> svc.refused > old(svc.refused))
  {
    expanded, order := "", [];
    if raw.None? {
      return TemplateNotFound, expanded, order;
    }
    var tmpl;
    tmpl, order := VarsBuilder(raw.value, box, args);
    expanded := tmpl;
    out := RenderExpanded(svc, tmpl, strict, strategy);
  }

  method RenderExpanded(svc: TableService, tmpl: string, strict: bool, strategy: Strategy) returns (out: Outcome)
    modifies svc`getCalls, svc`refused
    ensures !out.TemplateNotFound?
    ensures out.Content? && CanonicalKeys(KeysOf(tmpl)) ==> out.text == Rendered(svc.rows, strategy, Tokens(tmpl, 0))
    ensures out.MissingVariables? && CanonicalKeys(KeysOf(tmpl)) ==>
              forall k :: k in out.names <==> k in KeysOf(tmpl) && Lookup(svc.rows, k).None?
    ensures strict && out.Content? && CanonicalKeys(KeysOf(tmpl)) ==>
              strategy.valid(out.text) && forall k :: k in KeysOf(tmpl) ==> Lookup(svc.rows, k).Some?
    ensures out.InvalidSyntax? && CanonicalKeys(KeysOf(tmpl)) ==>
              && !strategy.valid(Rendered(svc.rows, strategy, Tokens(tmpl, 0)))
              && forall k :: k in KeysOf(tmpl) ==> Lookup(svc.rows, k).Some?
    ensures !strict ==> !out.MissingVariables? && !out.InvalidSyntax?
    ensures out.MissingVariables? ==> out.names != []
    ensures svc.refused >= old(svc.refused) && (out.RetrieveFailed? ==> svc.refused > old(svc.refused))
  {
    var proc := new Processor(tmpl);
    var keys := proc.GetKeys();
    var found, ok := RetrieveMany(svc, keys);
    if !ok {
      return RetrieveFailed;
    }
    var values := Tree(found, strategy);
    if CanonicalKeys(keys) {
      TreeAgrees(values, found, svc.rows, strategy, keys);
    }
    out := Finish(proc, values, strict, strategy, svc.rows);
  }

  /** The last part of rendering, from the values on. */
  method Finish(proc: Processor, values: Values, strict: bool, strategy: Strategy, ghost t: Rows) returns (out: Outcome)
    requires proc.Valid()
    requires CanonicalKeys(KeysOf(proc.tmpl)) ==> Agrees(values, t, strategy, KeysOf(proc.tmpl))
    ensures out.Content? || out.MissingVariables? || out.InvalidSyntax?
    ensures out.Content? && CanonicalKeys(KeysOf(proc.tmpl)) ==> out.text == Rendered(t, strategy, Tokens(proc.tmpl, 0))
    ensures out.MissingVariables? && CanonicalKeys(KeysOf(proc.tmpl)) ==>
              forall k :: k in out.names <==> k in KeysOf(proc.tmpl) && Lookup(t, k).None?
    ensures strict && out.Content? && CanonicalKeys(KeysOf(proc.tmpl)) ==>
              strategy.valid(out.text) && forall k :: k in KeysOf(proc.tmpl) ==> Lookup(t, k).Some?
    ensures out.InvalidSyntax? && CanonicalKeys(KeysOf(proc.tmpl)) ==>
              && !strategy.valid(Rendered(t, strategy, Tokens(proc.tmpl, 0)))
              && forall k :: k in KeysOf(proc.tmpl) ==> Lookup(t, k).Some?
    ensures !strict ==> !out.MissingVariables? && !out.InvalidSyntax?
    ensures out.MissingVariables? ==> out.names != []
  {
    ghost var keys := KeysOf(proc.tmpl);
    forall k ensures k in Absent(keys, values) <==> k in keys && k !in values {
      AbsentExact(keys, values, k);
    }
    if strict {
      var missing := proc.GetMissingVars(values);
      if |missing| > 0 {
        return MissingVariables(missing);
      }
    }
    var content := proc.Replace(values);
    if Agrees(values, t, strategy, keys) {
      AgreesRendered(values, t, strategy, Tokens(proc.tmpl, 0));
    }
    if strict && !strategy.valid(content) {
      return InvalidSyntax;
    }
    out := Content(content);
  }
}
