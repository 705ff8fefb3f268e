/** Listing one folder at a time, and how far that gets a reader who follows the folders. */
module EntryLevels {
  import opened Text
  import opened Paths
  import opened Canonicalize
  import opened Table
  import opened TableKit
  import opened KeyTree
  import opened EntryStore
  import opened EntryReads

  /** The rows that a listing of one directory shows: leaves and folder markers, no locks. */
  function LevelRows(t: Rows, dir: string): set<RowKey> {
    set r | r in t && r.path == dir && !HasPrefix(r.key, LOCK_PREFIX)
  }

  function LevelDir(pfx: string): string {
    EscapeEmptyPath(TrimSuffix(pfx, "/"))
  }

  /** One directory; rows is the order in which its pages arrived. */
  method ListLevel(svc: TableService, pfx: string)
    returns (entries: seq<Entry>, ok: bool, ghost rows: seq<RowKey>)
    modifies svc`queries, svc`refused
    ensures svc.refused == old(svc.refused) + if ok then 0 else 1
    ensures ok ==> EntriesOf(svc.rows, LevelRows(svc.rows, LevelDir(pfx)), entries)
    ensures ok ==> NoRepeats(rows) && forall r :: r in rows <==> r in svc.rows && r.path == LevelDir(pfx)
    ensures ok ==> entries == Leaves(svc.rows, LevelRows(svc.rows, LevelDir(pfx)), rows)
  {
    var pages;
    pages, ok := svc.Query(LevelDir(pfx));
    var all := Flatten(pages);
    rows := all;
    entries := FilterLevel(svc, LevelDir(pfx), all);
    if ok {
      LeavesAreEntries(svc.rows, LevelRows(svc.rows, LevelDir(pfx)), rows);
    }
  }

  method FilterLevel(svc: TableService, dir: string, all: seq<RowKey>) returns (entries: seq<Entry>)
    requires forall r :: r in all ==> r in svc.rows && r.path == dir
    ensures entries == Leaves(svc.rows, LevelRows(svc.rows, dir), all)
  {
    entries := [];
    for i := 0 to |all|
      invariant entries == Leaves(svc.rows, LevelRows(svc.rows, dir), all[..i])
    {
      LeavesNext(svc.rows, LevelRows(svc.rows, dir), all, i);
      var r := all[i];
      if !HasPrefix(r.key, LOCK_PREFIX) {
        entries := entries + [EntryOf(Item(r, svc.rows[r]))];
      }
    }
    assert all[..|all|] == all;
  }

  /** Leaves of a whole subtree on request, but never for the root. */
  method List(svc: TableService, pfx: string, leavesOnly: bool)
    returns (entries: seq<Entry>, ok: bool, ghost rows: seq<RowKey>)
    modifies svc`queries, svc`refused
    ensures svc.refused == old(svc.refused) + if ok then 0 else 1
    ensures ok ==> EntriesOf(svc.rows, ListedRows(svc.rows, pfx, leavesOnly), entries)
    ensures ok ==> NoRepeats(rows) && forall r :: r in ListedRows(svc.rows, pfx, leavesOnly) ==> r in rows
    ensures ok ==> entries == Leaves(svc.rows, ListedRows(svc.rows, pfx, leavesOnly), rows)
  {
    if leavesOnly && TrimSlashes(TrimSpace(pfx)) != "" {
      entries, ok, rows := ListLeaves(svc, pfx);
    } else {
      entries, ok, rows := ListLevel(svc, pfx);
    }
  }

  function ListedRows(t: Rows, pfx: string, leavesOnly: bool): (rows: set<RowKey>)
    ensures rows <= t.Keys
  {
    var folder := TrimSlashes(TrimSpace(pfx));
    if leavesOnly && folder != "" then Kept(t, folder) else LevelRows(t, LevelDir(pfx))
  }

  lemma FirstSegment(rest: string) returns (seg: string)
    ensures seg == Split(rest)[0]
    ensures rest == seg || HasPrefix(rest, seg + "/")
  {
    seg := Split(rest)[0];
    JoinSplit(rest);
    if |Split(rest)| > 1 {
      assert Join(Split(rest)) == seg + "/" + Join(Split(rest)[1..]);
    }
  }

  lemma ChildHolds(k: string, seg: string, rest: string)
    requires rest == seg || HasPrefix(rest, seg + "/")
    ensures InSubtree(k + "/" + seg, k + "/" + rest)
  {
    if rest != seg {
      var q := k + "/" + seg + "/";
      assert rest[..|seg| + 1] == seg + "/";
      assert q == k + "/" + (seg + "/");
      assert (k + "/" + rest)[..|q|] == q;
    }
  }

  lemma FirstIsGood(k: string, rest: string)
    requires Canonical(k + "/" + rest)
    ensures GoodSegment(Split(rest)[0])
  {
    SplitAppend(k, rest);
    assert Split(k + "/" + rest)[|Split(k)|] == Split(rest)[0];
  }

  /** The folder directly in k that holds p. */
  lemma ChildTowards(k: string, p: string) returns (q: string)
    requires Canonical(k) && Canonical(p) && HasPrefix(p, k + "/")
    ensures Canonical(q) && PathWithoutKey(q) == k && InSubtree(q, p)
  {
    var rest := p[|k| + 1..];
    assert p == k + "/" + rest;
    FirstIsGood(k, rest);
    var seg := FirstSegment(rest);
    q := k + "/" + seg;
    CanonicalAppend(k, seg);
    SplitChild(k, seg);
    ChildHolds(k, seg, rest);
  }

  /** On a closed table the listing of a folder leads to everything below it: each row is in
      the folder itself, or below a folder whose marker is in it. */
  lemma LevelLeadsEverywhere(t: Rows, k: string, r: RowKey)
    requires CanonicalRows(t) && AncestorClosed(t) && Canonical(k) && r in t && InSubtree(k, r.path)
    ensures r.path == k || exists q :: MarkerRow(q) in t && MarkerRow(q).path == k && InSubtree(q, r.path)
  {
    if r.path != k {
      SubtreeNotEmptyPath(k, r.path);
      var q := ChildTowards(k, r.path);
      RowName(r);
      SubtreeOfChild(r.path, Segment(r), q);
      NotShorter(q, r.path, Segment(r));
      PrefixesExact(Name(r), q);
      assert MarkerRow(q) in t;
    }
  }

  lemma NotShorter(q: string, p: string, b: string)
    requires InSubtree(q, p)
    ensures q != p + "/" + b
  {
  }

  /** A folder whose name starts like a lock is not shown, although what it holds is listed
      among the leaves: the lock rule looks at the last segment only. */
  lemma LockFolderIsHidden(t: Rows, k: string, seg: string, r: RowKey)
    requires CanonicalRows(t) && AncestorClosed(t) && Canonical(k) && GoodSegment(seg) && HasPrefix(seg, LOCK_PREFIX)
    requires r in t && r.path == k + "/" + seg && Listed(Item(r, t[r]))
    ensures MarkerRow(k + "/" + seg) in t && MarkerRow(k + "/" + seg) !in LevelRows(t, k)
    ensures r in Kept(t, k)
  {
    var q := k + "/" + seg;
    CanonicalAppend(k, seg);
    SplitChild(k, seg);
    RowName(r);
    PrefixesExact(Name(r), q);
    assert HasPrefix(Name(r), q + "/");
    CanonicalShape(k);
    assert HasPrefix(q, k + "/");
    assert HasPrefix(seg + "/", LOCK_PREFIX);
  }

  lemma SlashTrimmed(q: string)
    requires Canonical(q)
    ensures TrimSlashes(TrimSpace(q + "/")) == q
  {
    CanonicalShape(q);
    CanonicalCharacters(q);
    SpaceTrimmed(q + "/");
    OneSlashTrimmed(q);
  }

  lemma SpaceTrimmed(s: string)
    requires s != "" && !IsSpace(s[0]) && !IsSpace(s[|s| - 1])
    ensures TrimSpace(s) == s
  {
  }

  lemma OneSlashTrimmed(q: string)
    requires q != "" && q[0] != '/' && q[|q| - 1] != '/'
    ensures TrimSlashes(q + "/") == q
  {
    var s := q + "/";
    assert TrimLeft(s, Slashes) == s;
    assert LastKept(s, Slashes, |q|) == |q|;
    assert s[..|q|] == q;
  }

  lemma FolderNames(k: string)
    requires Canonical(k)
    ensures TrimSlashes(TrimSpace(k)) == k && TrimSlashes(TrimSpace(k + "/")) == k && k != ""
    ensures TrimSuffix(k, "/") == k && TrimSuffix(k + "/", "/") == k
  {
    CanonicalShape(k);
    CanonicalIsStable(k);
    SlashTrimmed(k);
    TrimSlashOnce(k);
  }

  lemma ShortUntrimmed(s: string)
    requires |s| <= 1 && AllCut(s, Slashes)
    ensures TrimSpace(s) == s
  {
    if s == "" {
      FirstKeptIs(s, Spaces, 0, 0);
    } else {
      SpaceTrimmed(s);
    }
  }

  lemma ShortSuffix(s: string)
    requires |s| <= 1 && AllCut(s, Slashes)
    ensures TrimSuffix(s, "/") == ""
  {
    assert s != "" ==> s == "/";
  }

  lemma RootName(s: string)
    requires |s| <= 1 && AllCut(s, Slashes)
    ensures TrimSlashes(TrimSpace(s)) == "" && LevelDir(s) == EMPTY_PATH
  {
    OnlySlashes(s);
    ShortUntrimmed(s);
    ShortSuffix(s);
  }

  lemma OnlySlashes(s: string)
    requires AllCut(s, Slashes)
    ensures TrimSlashes(s) == ""
  {
    FirstKeptIs(s, Slashes, 0, |s|);
    assert TrimLeft(s, Slashes) == "";
  }

  /** What is listed for a folder, with or without the slash at its end, and for the root:
      leaves are only listed below a folder. */
  lemma ListedFor(t: Rows, k: string, leavesOnly: bool)
    requires Canonical(k)
    ensures ListedRows(t, k, leavesOnly) == if leavesOnly then Kept(t, k) else LevelRows(t, k)
    ensures ListedRows(t, k + "/", leavesOnly) == ListedRows(t, k, leavesOnly)
    ensures ListedRows(t, "", leavesOnly) == ListedRows(t, "/", leavesOnly) == LevelRows(t, " ")
  {
    FolderNames(k);
    RootName("");
    RootName("/");
  }
}
