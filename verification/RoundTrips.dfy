/** Exactly which keys survive being split into a row and put together again, and what
    that means for the report of a write that failed. */
module RoundTrips {
  import opened Text
  import opened Paths
  import opened Table
  import opened KeyTree
  import opened FirstWins
  import opened EntryStore
  import opened UpsertReport

  /** A cleaned relative path: ".." only at the front, otherwise normal segments. */
  predicate CleanRelative(segs: seq<string>) {
    forall i :: 0 <= i < |segs| ==> RelativeAt(segs, i)
  }

  predicate RelativeAt(segs: seq<string>, i: nat)
    requires i < |segs|
  {
    NormalSegment(segs[i]) || (segs[i] == ".." && (i == 0 || segs[i - 1] == ".."))
  }

  lemma CleanRelativePush(acc: seq<string>, s: string)
    requires CleanRelative(acc)
    requires NormalSegment(s) || (s == ".." && (acc == [] || acc[|acc| - 1] == ".."))
    ensures CleanRelative(acc + [s])
  {
    forall i | 0 <= i < |acc| + 1 ensures RelativeAt(acc + [s], i) {
      if i < |acc| {
        assert RelativeAt(acc, i);
      }
    }
  }

  lemma CleanRelativePop(acc: seq<string>)
    requires CleanRelative(acc) && acc != []
    ensures CleanRelative(acc[..|acc| - 1])
  {
    var front := acc[..|acc| - 1];
    forall i | 0 <= i < |front| ensures RelativeAt(front, i) {
      assert RelativeAt(acc, i);
    }
  }

  lemma {:induction false} CleanGivesRelative(segs: seq<string>, acc: seq<string>)
    requires CleanRelative(acc)
    requires forall i :: 0 <= i < |segs| ==> SlashFree(segs[i])
    ensures CleanRelative(CleanSegments(segs, false, acc))
    decreases |segs|
  {
    if segs == [] {
    } else {
      var s := segs[0];
      assert SlashFree(s);
      if s == "" || s == "." {
        CleanGivesRelative(segs[1..], acc);
      } else if s != ".." {
        CleanRelativePush(acc, s);
        CleanGivesRelative(segs[1..], acc + [s]);
      } else if acc != [] && acc[|acc| - 1] != ".." {
        CleanRelativePop(acc);
        CleanGivesRelative(segs[1..], acc[..|acc| - 1]);
      } else {
        CleanRelativePush(acc, "..");
        CleanGivesRelative(segs[1..], acc + [".."]);
      }
    }
  }

  /** Cleaning leaves a cleaned path alone. */
  lemma {:induction false} CleanRelativeAgain(segs: seq<string>, acc: seq<string>)
    requires CleanRelative(acc + segs)
    ensures CleanSegments(segs, false, acc) == acc + segs
    decreases |segs|
  {
    if segs == [] {
      assert acc + segs == acc;
    } else {
      var s, all := segs[0], acc + segs;
      assert all[|acc|] == s && RelativeAt(all, |acc|);
      assert s == ".." && acc != [] ==> all[|acc| - 1] == acc[|acc| - 1];
      assert acc + [s] + segs[1..] == all;
      CleanRelativeAgain(segs[1..], acc + [s]);
    }
  }

  lemma SplitAtLast(k: string) returns (d: string, b: string)
    requires Trimmed(k) && !SlashFree(k)
    ensures k == d + "/" + b && d != "" && d[0] != '/' && SlashFree(b) && b != ""
    ensures k[..LastSlash(k) + 1] == d + "/"
  {
    assert k[0..] == k;
    var i := LastSlash(k);
    d, b := k[..i], k[i + 1..];
    assert k[i] == '/';
    assert k == d + "/" + b;
  }

  /** Segments of a relative path before its last one, after cleaning. */
  lemma DirSegments(d: string)
    requires d != "" && d[0] != '/'
    ensures var out := CleanSegments(Split(d), false, []);
            && CleanRelative(out)
            && Clean(d + "/") == if out == [] then "." else Join(out)
  {
    SplitSegments(d);
    CleanGivesRelative(Split(d), []);
    SplitAppend(d, "");
    assert d + "/" + "" == d + "/";
    CleanSegmentsAppend(Split(d), [""], false, []);
  }

  /** Cleaning the directory first makes no difference to the whole. */
  lemma CleanInParts(d: string, b: string)
    requires d != "" && d[0] != '/' && SlashFree(b) && b != ""
    ensures Clean(Clean(d + "/") + "/" + b) == Clean(d + "/" + b)
  {
    var out := CleanSegments(Split(d), false, []);
    DirSegments(d);
    SplitAppend(d, b);
    CleanSegmentsAppend(Split(d), Split(b), false, []);
    if out == [] {
      CleanFromDot(b);
    } else {
      CleanFromRelative(out, b);
    }
  }

  /** A relative path whose front cleans to out cleans to what out and its last segment
      clean to. */
  lemma CleanFromRelative(out: seq<string>, b: string)
    requires CleanRelative(out) && out != []
    ensures Clean(Join(out) + "/" + b) ==
            var all := CleanSegments(Split(b), false, out); if all == [] then "." else Join(all)
  {
    RelativeSegments(out);
    SplitAppend(Join(out), b);
    CleanSegmentsAppend(out, Split(b), false, []);
    CleanRelativeStable(out);
  }

  lemma CleanRelativeStable(out: seq<string>)
    requires CleanRelative(out)
    ensures CleanSegments(out, false, []) == out
  {
    assert [] + out == out;
    CleanRelativeAgain(out, []);
  }

  lemma CleanFromDot(b: string)
    ensures Clean("." + "/" + b) ==
            var all := CleanSegments(Split(b), false, []); if all == [] then "." else Join(all)
  {
    SplitSlashFree(".");
    SplitAppend(".", b);
    CleanSegmentsAppend(["."], Split(b), false, []);
  }

  lemma RelativeSegments(out: seq<string>)
    requires CleanRelative(out) && out != []
    ensures Split(Join(out)) == out && Join(out) != "" && Join(out)[0] != '/'
  {
    forall i | 0 <= i < |out| ensures SlashFree(out[i]) && out[i] != "" {
      assert RelativeAt(out, i);
    }
    SplitJoin(out);
    JoinEnds(out);
    assert out[0][0] in out[0];
  }

  /** Among slash-trimmed keys, the row gives the key back exactly for single segments and
      for paths that cleaning leaves alone, unless their directory is the escaped one. */
  lemma RoundTripExact(k: string)
    requires Trimmed(k) && k != ""
    ensures Concat(PathWithoutKey(k), BaseKey(k)) == k <==>
            SlashFree(k) || (Clean(k) == k && PathWithoutKey(k) != EMPTY_PATH)
  {
    if SlashFree(k) {
      assert TrimRight(k, Slashes) == k;
      assert LastSlash(k) == -1;
    } else {
      var d, b := SplitAtLast(k);
      BaseOfChild(d, b);
      SlashFreeEnd(b);
      if PathWithoutKey(k) != EMPTY_PATH {
        CleanInParts(d, b);
        DirNotEmpty(d);
      } else {
        assert |b| < |k|;
      }
    }
  }

  lemma DirNotEmpty(d: string)
    requires d != "" && d[0] != '/'
    ensures Clean(d + "/") != ""
  {
    DirSegments(d);
    var out := CleanSegments(Split(d), false, []);
    if out != [] {
      RelativeSegments(out);
    }
  }

  // ---------------------------------------------- the report of a write that is lost

  lemma MarkerNameEnds(q: string)
    ensures FullKey(MarkerRow(q)) != "" && FullKey(MarkerRow(q))[|FullKey(MarkerRow(q))| - 1] == '/'
  {
    var b := BaseKey(q);
    assert (b + "/")[|b|..] == "/";
  }

  lemma MarkerIsNotNamed(qs: seq<string>, s: Stamp, i: nat, k: string)
    requires Trimmed(k) && i < |qs|
    ensures FullKey(MarkerClaims(qs, s)[i].request.row) != k
  {
    MarkerNameEnds(qs[i]);
  }

  /** In a batch of one entry, only the leaf request can be reported under the key. */
  lemma OneEntryNames(e: Entry, s: Stamp, reqs: seq<WriteRequest>, k: string)
    requires k == Sanitize(e.key) && Trimmed(k)
    requires Enumerates(reqs, AddEntry(map[], k, e, s))
    ensures k in NamesOf(reqs) <==> FullKey(LeafRow(k)) == k
  {
    var acc := AddLeaf(map[], k, e, s);
    var cs := MarkerClaims(Prefixes(k), s);
    var leaf := Put(LeafRow(k), LeafRecord(e, s));
    AddAllCases(acc, cs, LeafId(k));
    assert leaf in reqs;
    var n :| 0 <= n < |reqs| && reqs[n] == leaf;
    assert NamesOf(reqs)[n] == FullKey(LeafRow(k));
    if k in NamesOf(reqs) {
      var i :| 0 <= i < |reqs| && NamesOf(reqs)[i] == k;
      RequestOfOne(e, s, k, reqs, reqs[i]);
    }
  }

  lemma RequestOfOne(e: Entry, s: Stamp, k: string, reqs: seq<WriteRequest>, q: WriteRequest)
    requires Enumerates(reqs, AddEntry(map[], k, e, s)) && q in reqs && Trimmed(k)
    ensures q.row == LeafRow(k) || FullKey(q.row) != k
  {
    var acc := AddLeaf(map[], k, e, s);
    var cs := MarkerClaims(Prefixes(k), s);
    var id :| id in AddAll(acc, cs) && AddAll(acc, cs)[id] == q;
    AddAllCases(acc, cs, id);
    if id in acc {
      assert q == Put(LeafRow(k), LeafRecord(e, s));
    } else {
      var i :| 0 <= i < |cs| && cs[i].id == id && AddAll(acc, cs)[id] == cs[i].request;
      MarkerIsNotNamed(Prefixes(k), s, i, k);
    }
  }

  lemma OneEntryRequests(e: Entry, s: Stamp)
    ensures RequestsOf([e], s) == AddEntry(map[], Sanitize(e.key), e, s)
  {
    assert [e][..0] == [];
  }

  lemma OneEntryReport(e: Entry, names: seq<string>)
    ensures var k := Sanitize(e.key);
            var report := FailKeys(Optimistic([e]), names);
            k in report && report[k] == if k in names then ReportFailed(k) else ReportUpdated(k, e)
  {
    ReportsAt(SanitizedKeys([e]), [e], 0);
    FailKeysAt(Optimistic([e]), names, Sanitize(e.key));
  }

  /** When the service does nothing of a one-entry write, the caller is told so if and only
      if the key survives the round trip; otherwise the key is reported as updated. */
  lemma LostWriteReport(e: Entry, s: Stamp, reqs: seq<WriteRequest>, k: string)
    requires k == Sanitize(e.key) && k != "" && Enumerates(reqs, RequestsOf([e], s))
    ensures k in MarkFailed(Optimistic([e]), reqs)
    ensures MarkFailed(Optimistic([e]), reqs)[k] ==
            if SlashFree(k) || (Clean(k) == k && PathWithoutKey(k) != EMPTY_PATH)
            then ReportFailed(k) else ReportUpdated(k, e)
  {
    assert Trimmed(k) by { TrimmedIsStable(TrimSpace(ToLower(e.key))); }
    OneEntryRequests(e, s);
    OneEntryNames(e, s, reqs, k);
    OneEntryReport(e, NamesOf(reqs));
    RoundTripExact(k);
  }
}
