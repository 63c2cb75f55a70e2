/**
 * What an extraction accepts and what it leaves behind, told from the entries: which names are
 * refused, which directories and files every entry needs, and what the tree holds afterwards.
 */
module OciOutcome {
  import opened Common
  import opened Paths
  import opened OciPackage

  // ---------------------------------------------------------------------------------------------
  // Where names lead
  // ---------------------------------------------------------------------------------------------

  /** An absolute name, or one that leaves the directory it starts from. */
  predicate Escapes(name: string) {
    "/" <= name || (Clean(name) != [] && Clean(name)[0] == "..")
  }

  /** The name leads to `path`, counted from the sub-path. */
  predicate Lands(subPath: string, name: string, path: Path) {
    path != [] &&
    if subPath == "" then Clean(name) == path
    else AllPlain(path) && Join(Clean(name)) == subPath + "/" + Join(path)
  }

  lemma CleanNameIsPlain(name: string)
    requires !Escapes(name)
    ensures AllPlain(Clean(name))
  {
    SplitSlashFree(name);
    CleanFromCleaned([], Split(name));
    NoParents(Clean(name));
  }

  lemma PlaceLands(subPath: string, name: string, path: Path)
    ensures Place(subPath, name).Refuse? <==> Escapes(name)
    ensures Place(subPath, name) == At(path) <==> !Escapes(name) && Lands(subPath, name, path)
  {
    if !Escapes(name) && Clean(name) != [] && subPath != "" {
      CleanNameIsPlain(name);
      PlaceLandsBelow(subPath, name, path);
    }
  }

  lemma PlaceLandsBelow(subPath: string, name: string, path: Path)
    requires !Escapes(name) && AllPlain(Clean(name)) && Clean(name) != [] && subPath != ""
    ensures Place(subPath, name) == At(path) <==> Lands(subPath, name, path)
  {
    var clean := Clean(name);
    var whole := Join(clean);
    if subPath + "/" <= whole {
      var rest := whole[|subPath| + 1..];
      assert whole == subPath + "/" + rest && whole != subPath;
      SuffixIsPlain(clean, subPath, rest);
      RestIsRendered(clean, subPath, rest);
      assert Place(subPath, name) == At(Clean(rest));
      if Lands(subPath, name, path) {
        assert whole[|subPath| + 1..] == Join(path);
        CleanJoin(path);
      }
    }
  }

  lemma RestIsRendered(clean: Path, a: string, b: string)
    requires clean != [] && AllPlain(clean) && Join(clean) == a + "/" + b
    ensures Join(Clean(b)) == b
  {
    SplitConcat(a, b);
    SplitJoin(clean);
    assert Split(b) == clean[|Split(a)|..];
    assert forall p <- Split(b) :: p in clean;
    CleanPlain([], Split(b));
    assert [] + Split(b) == Split(b);
    JoinSplit(b);
  }

  // ---------------------------------------------------------------------------------------------
  // What an entry needs
  // ---------------------------------------------------------------------------------------------

  ghost predicate Inside(subPath: string, name: string) {
    exists path :: Lands(subPath, name, path)
  }

  /** A directory entry needs directories down to itself, a file entry down to its parent. */
  ghost predicate NeedsDir(o: Options, e: Entry, q: Path) {
    exists path :: Lands(o.subPath, e.name, path) && DirOf(e, o.destDir + path, q)
  }

  predicate DirOf(e: Entry, dest: Path, q: Path) {
    q <= dest && (e.kind.TypeDir? || (e.kind.TypeReg? && q != dest))
  }

  ghost predicate NeedsFile(o: Options, e: Entry, q: Path) {
    e.kind.TypeReg? && exists path :: Lands(o.subPath, e.name, path) && q == o.destDir + path
  }

  /** The entry can be read, does not escape, and is no link under the sub-path. */
  ghost predicate Decent(o: Options, e: Entry) {
    !e.kind.Unreadable? && !Escapes(e.name) && !(e.kind.TypeLink? && Inside(o.subPath, e.name))
  }

  /** No path is needed both as a directory and as a file, by the entries and what is there already. */
  ghost predicate OutOfTheWay(o: Options, fs: Files, entries: seq<Entry>) {
    && (forall d <- entries, e <- entries, q: Path :: !(NeedsDir(o, d, q) && NeedsFile(o, e, q)))
    && (forall e <- entries, q <- fs :: Suits(o, fs, e, q))
  }

  ghost predicate Suits(o: Options, fs: Files, e: Entry, q: Path)
    requires q in fs
  {
    (NeedsDir(o, e, q) ==> fs[q].Directory?) && (NeedsFile(o, e, q) ==> fs[q].Regular?)
  }

  ghost predicate Acceptable(o: Options, fs: Files, entries: seq<Entry>) {
    (forall e <- entries :: Decent(o, e)) && OutOfTheWay(o, fs, entries)
  }

  /** The bytes of the regular entries under the sub-path. */
  ghost function Bytes(o: Options, entries: seq<Entry>): nat {
    if entries == [] then 0
    else
      (if entries[0].kind.TypeReg? && Inside(o.subPath, entries[0].name) then |entries[0].kind.content| else 0) +
      Bytes(o, entries[1..])
  }

  /** A tree: every node but the root lies in a directory. */
  predicate Rooted(fs: Files) {
    [] !in fs && forall p <- fs, n | 0 < n < |p| :: p[..n] in fs && fs[p[..n]].Directory?
  }

  // ---------------------------------------------------------------------------------------------
  // One entry
  // ---------------------------------------------------------------------------------------------

  /** No file on the way to `p` and at it. */
  predicate Clear(fs: Files, p: Path) {
    forall n | 0 < n <= |p| :: p[..n] in fs ==> fs[p[..n]].Directory?
  }

  /** The missing directories down to `p` were added. */
  ghost predicate Made(fs: Files, gs: Files, p: Path) {
    forall q: Path ::
      && (q in gs <==> q in fs || (q != [] && q <= p))
      && (q in gs ==> gs[q] == if q in fs then fs[q] else Directory)
  }

  lemma {:induction false} MkdirMeans(fs: Files, p: Path)
    requires Rooted(fs)
    ensures MkdirAll(fs, p).Some? <==> Clear(fs, p)
    ensures MkdirAll(fs, p).Some? ==> Made(fs, MkdirAll(fs, p).value, p) && Rooted(MkdirAll(fs, p).value)
    decreases |p|
  {
    if p == [] {
    } else if p in fs {
      KnownDirectory(fs, p);
    } else {
      MkdirMeans(fs, Parent(p));
      ClearParent(fs, p);
      var made := MkdirAll(fs, Parent(p));
      if made.Some? { MadeOneMore(fs, made.value, p); }
    }
  }

  lemma KnownDirectory(fs: Files, p: Path)
    requires Rooted(fs) && p in fs
    ensures Clear(fs, p) <==> fs[p].Directory?
    ensures fs[p].Directory? ==> Made(fs, fs, p)
  {
    assert p[..|p|] == p;
    if fs[p].Directory? {
      forall q: Path | q != [] && q <= p ensures q in fs { assert q == p[..|q|]; }
    }
  }

  lemma ClearParent(fs: Files, p: Path)
    requires p != [] && p !in fs
    ensures Clear(fs, p) <==> Clear(fs, Parent(p))
  {
    assert p[..|p|] == p;
    forall n | 0 < n < |p| ensures p[..n] == Parent(p)[..n] {
    }
  }

  lemma MadeOneMore(fs: Files, g: Files, p: Path)
    requires p != [] && p !in fs && Made(fs, g, Parent(p)) && Rooted(g) && Clear(fs, Parent(p))
    ensures Made(fs, g[p := Directory], p) && Rooted(g[p := Directory])
  {
    var h := g[p := Directory];
    forall q: Path
      ensures q in h <==> q in fs || (q != [] && q <= p)
      ensures q in h ==> h[q] == if q in fs then fs[q] else Directory
    {
      PrefixOfParent(q, p);
    }
    forall n | 0 < n < |p| ensures p[..n] in h && h[p[..n]].Directory? {
      assert p[..n] == Parent(p)[..n] && Parent(p)[..n] <= Parent(p);
    }
  }

  lemma PrefixOfParent(q: Path, p: Path)
    requires p != []
    ensures q <= p <==> q == p || q <= Parent(p)
  {
    if q <= Parent(p) { assert q == Parent(p)[..|q|] == p[..|q|]; }
    if q <= p && q != p { assert q == p[..|q|] == Parent(p)[..|q|]; }
  }

  lemma LandsAt(o: Options, e: Entry, path: Path)
    requires Place(o.subPath, e.name) == At(path)
    ensures !Escapes(e.name) && Inside(o.subPath, e.name)
    ensures forall q: Path :: NeedsDir(o, e, q) <==> DirOf(e, o.destDir + path, q)
    ensures forall q: Path :: NeedsFile(o, e, q) <==> e.kind.TypeReg? && q == o.destDir + path
  {
    PlaceLands(o.subPath, e.name, path);
    assert Lands(o.subPath, e.name, path);
    forall other | Lands(o.subPath, e.name, other) ensures other == path { PlaceLands(o.subPath, e.name, other); }
  }

  lemma LandsNowhere(o: Options, e: Entry)
    requires Place(o.subPath, e.name) == Skip
    ensures !Escapes(e.name) && !Inside(o.subPath, e.name)
    ensures forall q: Path :: !NeedsDir(o, e, q) && !NeedsFile(o, e, q)
  {
    PlaceLands(o.subPath, e.name, []);
    forall path ensures !Lands(o.subPath, e.name, path) { PlaceLands(o.subPath, e.name, path); }
  }

  /** The tree after one entry: missing directories added, its own file written. */
  ghost predicate Placed(o: Options, fs: Files, e: Entry, gs: Files) {
    forall q: Path :: PlacedAt(o, fs, e, gs, q)
  }

  ghost predicate PlacedAt(o: Options, fs: Files, e: Entry, gs: Files, q: Path) {
    && (q in gs <==> q in fs || (q != [] && (NeedsDir(o, e, q) || NeedsFile(o, e, q))))
    && (q in gs && !NeedsFile(o, e, q) ==> gs[q] == if q in fs then fs[q] else Directory)
    && (q in gs && NeedsFile(o, e, q) ==> gs[q] == Regular(ModeAt(fs, q, e), e.kind.content))
  }

  /** A file keeps its mode; a new one gets the entry's permission bits and no others. */
  function ModeAt(fs: Files, q: Path, e: Entry): Mode
    requires e.kind.TypeReg?
  {
    if q in fs && fs[q].Regular? then fs[q].mode else Mode(e.kind.mode.perm, false)
  }

  lemma PutDirMeans(o: Options, fs: Files, e: Entry, path: Path)
    requires Rooted(fs) && e.kind.TypeDir? && Place(o.subPath, e.name) == At(path)
    ensures var r := Put(o, fs, e);
            && (r.Some? <==> forall q <- fs :: Suits(o, fs, e, q))
            && (r.Some? ==> Rooted(r.value) && Placed(o, fs, e, r.value))
  {
    var dest := o.destDir + path;
    LandsAt(o, e, path);
    MkdirMeans(fs, dest);
    ClearMeans(fs, dest);
  }

  lemma ClearMeans(fs: Files, p: Path)
    requires [] !in fs
    ensures Clear(fs, p) <==> forall q <- fs :: q <= p ==> fs[q].Directory?
  {
    if Clear(fs, p) {
      forall q <- fs | q <= p ensures fs[q].Directory? { assert q == p[..|q|]; }
    }
    if forall q <- fs :: q <= p ==> fs[q].Directory? {
      forall n | 0 < n <= |p| && p[..n] in fs ensures fs[p[..n]].Directory? { assert p[..n] <= p; }
    }
  }

  lemma PutFileMeans(o: Options, fs: Files, e: Entry, path: Path)
    requires Rooted(fs) && e.kind.TypeReg? && Place(o.subPath, e.name) == At(path) && path != []
    ensures var r := Put(o, fs, e);
            && (r.Some? <==> forall q <- fs :: Suits(o, fs, e, q))
            && (r.Some? ==> Rooted(r.value) && Placed(o, fs, e, r.value))
  {
    var dest := o.destDir + path;
    LandsAt(o, e, path);
    MkdirMeans(fs, Parent(dest));
    ClearMeans(fs, Parent(dest));
    forall q <- fs ensures DirOf(e, dest, q) <==> q <= Parent(dest) { PrefixOfParent(q, dest); }
    assert !(dest <= Parent(dest));
    var made := MkdirAll(fs, Parent(dest));
    if made.Some? {
      assert dest in made.value <==> dest in fs;
      if Put(o, fs, e).Some? { FilePlaced(o, fs, made.value, e, dest, Put(o, fs, e).value); }
    }
  }

  lemma FilePlaced(o: Options, fs: Files, g: Files, e: Entry, dest: Path, h: Files)
    requires dest != [] && e.kind.TypeReg? && Rooted(g) && Made(fs, g, Parent(dest)) && Clear(fs, Parent(dest))
    requires forall q: Path :: NeedsDir(o, e, q) <==> DirOf(e, dest, q)
    requires forall q: Path :: NeedsFile(o, e, q) <==> q == dest
    requires dest in g ==> g[dest].Regular?
    requires h == g[dest := Regular(if dest in g then g[dest].mode else Perm(e.kind.mode), e.kind.content)]
    ensures Rooted(h) && Placed(o, fs, e, h)
  {
    assert !(dest <= Parent(dest));
    forall q: Path ensures DirOf(e, dest, q) <==> q <= Parent(dest) { PrefixOfParent(q, dest); }
    forall n | 0 < n < |dest| ensures dest[..n] in h && h[dest[..n]].Directory? {
      assert dest[..n] == Parent(dest)[..n] && Parent(dest)[..n] <= Parent(dest);
    }
    forall p <- h, n | 0 < n < |p| ensures p[..n] in h && h[p[..n]].Directory? {
      if p != dest { assert p in g; }
    }
  }

  lemma PutMeans(o: Options, fs: Files, e: Entry)
    requires Rooted(fs)
    ensures var r := Put(o, fs, e);
            && (r.Some? <==> Decent(o, e) && forall q <- fs :: Suits(o, fs, e, q))
            && (r.Some? ==> Rooted(r.value) && Placed(o, fs, e, r.value))
  {
    match Place(o.subPath, e.name) {
      case Refuse => PlaceLands(o.subPath, e.name, []);
      case Skip => LandsNowhere(o, e);
      case At(path) =>
        LandsAt(o, e, path);
        PlaceLands(o.subPath, e.name, path);
        if e.kind.TypeDir? { PutDirMeans(o, fs, e, path); }
        if e.kind.TypeReg? { PutFileMeans(o, fs, e, path); }
    }
  }

  // ---------------------------------------------------------------------------------------------
  // Any list of entries
  // ---------------------------------------------------------------------------------------------

  lemma NeedsApart(o: Options, e: Entry, q: Path)
    ensures !(NeedsDir(o, e, q) && NeedsFile(o, e, q))
    ensures NeedsFile(o, e, q) ==> q != []
  {
    if NeedsDir(o, e, q) && NeedsFile(o, e, q) {
      var p :| Lands(o.subPath, e.name, p) && DirOf(e, o.destDir + p, q);
      var r :| Lands(o.subPath, e.name, r) && q == o.destDir + r;
      SameLanding(o.subPath, e.name, p, r);
    }
  }

  lemma SameLanding(subPath: string, name: string, p: Path, r: Path)
    requires Lands(subPath, name, p) && Lands(subPath, name, r)
    ensures p == r
  {
    if subPath != "" {
      var whole := Join(Clean(name));
      assert Join(p) == whole[|subPath| + 1..] == Join(r);
      CleanJoin(p);
      CleanJoin(r);
    }
  }

  lemma RestAcceptable(o: Options, fs: Files, e: Entry, rest: seq<Entry>, gs: Files)
    requires Rooted(fs) && Placed(o, fs, e, gs) && Acceptable(o, fs, [e] + rest)
    ensures Acceptable(o, gs, rest)
  {
    var all := [e] + rest;
    assert forall x <- rest :: x in all;
    assert e in all;
    forall x <- rest, q <- gs ensures Suits(o, gs, x, q) {
      assert PlacedAt(o, fs, e, gs, q);
      if q in fs { assert Suits(o, fs, x, q); }
      NeedsApart(o, e, q);
    }
  }

  lemma WholeAcceptable(o: Options, fs: Files, e: Entry, rest: seq<Entry>, gs: Files)
    requires Rooted(fs) && Placed(o, fs, e, gs) && Acceptable(o, gs, rest)
    requires Decent(o, e) && forall q <- fs :: Suits(o, fs, e, q)
    ensures Acceptable(o, fs, [e] + rest)
  {
    var all := [e] + rest;
    forall x <- all ensures Decent(o, x) { assert x == e || x in rest; }
    forall x <- all, q <- fs ensures Suits(o, fs, x, q) {
      assert PlacedAt(o, fs, e, gs, q);
      if x in rest { assert Suits(o, gs, x, q); }
    }
    forall d <- all, x <- all, q: Path ensures !(NeedsDir(o, d, q) && NeedsFile(o, x, q)) {
      assert PlacedAt(o, fs, e, gs, q);
      NeedsApart(o, e, q);
      NeedsApart(o, x, q);
      if q in gs {
        if x in rest { assert Suits(o, gs, x, q); }
        if d in rest { assert Suits(o, gs, d, q); }
      }
    }
  }

  /** The file at `q` was last written by entry `i`. */
  ghost predicate LastAt(o: Options, entries: seq<Entry>, q: Path, i: nat)
    requires i < |entries|
  {
    NeedsFile(o, entries[i], q) && forall j | i < j < |entries| :: !NeedsFile(o, entries[j], q)
  }

  ghost predicate FirstAt(o: Options, entries: seq<Entry>, q: Path, i: nat)
    requires i < |entries|
  {
    NeedsFile(o, entries[i], q) && forall j | 0 <= j < i :: !NeedsFile(o, entries[j], q)
  }

  ghost predicate Filed(o: Options, entries: seq<Entry>, q: Path) {
    exists e <- entries :: NeedsFile(o, e, q)
  }

  ghost predicate Needed(o: Options, entries: seq<Entry>, q: Path) {
    q != [] && exists e <- entries :: NeedsDir(o, e, q) || NeedsFile(o, e, q)
  }

  /**
   * What a successful extraction leaves: nothing is gone; the new nodes are what the entries need;
   * a file has the content of its last entry, and the mode it had or that of its first entry.
   */
  ghost predicate Leaves(o: Options, fs: Files, entries: seq<Entry>, gs: Files) {
    forall q: Path :: LeavesAt(o, fs, entries, gs, q)
  }

  ghost predicate LeavesAt(o: Options, fs: Files, entries: seq<Entry>, gs: Files, q: Path) {
    && (q in gs <==> q in fs || Needed(o, entries, q))
    && (q in gs && !Filed(o, entries, q) ==> gs[q] == if q in fs then fs[q] else Directory)
    && (forall i | 0 <= i < |entries| :: LastAt(o, entries, q, i) ==>
          q in gs && gs[q].Regular? && gs[q].content == entries[i].kind.content)
    && (forall i | 0 <= i < |entries| :: FirstAt(o, entries, q, i) ==>
          q in gs && gs[q].Regular? && gs[q].mode == ModeAt(fs, q, entries[i]))
  }

  lemma {:induction false} PutAllMeans(o: Options, fs: Files, entries: seq<Entry>)
    requires Rooted(fs)
    ensures PutAll(o, fs, entries).Some? <==> Acceptable(o, fs, entries)
    ensures PutAll(o, fs, entries).Some? ==> Leaves(o, fs, entries, PutAll(o, fs, entries).value)
    decreases |entries|
  {
    if entries != [] {
      var e, rest := entries[0], entries[1..];
      assert entries == [e] + rest;
      PutMeans(o, fs, e);
      if Put(o, fs, e).Some? {
        var gs := Put(o, fs, e).value;
        PutAllMeans(o, gs, rest);
        if Acceptable(o, fs, entries) { RestAcceptable(o, fs, e, rest, gs); }
        if Acceptable(o, gs, rest) {
          WholeAcceptable(o, fs, e, rest, gs);
          LeavesMore(o, fs, e, rest, gs, PutAll(o, gs, rest).value);
        }
      } else {
        assert e in entries;
      }
    }
  }

  lemma LeavesMore(o: Options, fs: Files, e: Entry, rest: seq<Entry>, gs: Files, hs: Files)
    requires Placed(o, fs, e, gs) && Leaves(o, gs, rest, hs)
    ensures Leaves(o, fs, [e] + rest, hs)
  {
    forall q: Path ensures LeavesAt(o, fs, [e] + rest, hs, q) {
      assert PlacedAt(o, fs, e, gs, q) && LeavesAt(o, gs, rest, hs, q);
      LeavesMoreAt(o, fs, e, rest, gs, hs, q);
    }
  }

  lemma LeavesMoreAt(o: Options, fs: Files, e: Entry, rest: seq<Entry>, gs: Files, hs: Files, q: Path)
    requires PlacedAt(o, fs, e, gs, q) && LeavesAt(o, gs, rest, hs, q)
    ensures LeavesAt(o, fs, [e] + rest, hs, q)
  {
    LeavesNodes(o, fs, e, rest, gs, hs, q);
    forall i | 0 <= i <= |rest| && LastAt(o, [e] + rest, q, i)
      ensures q in hs && hs[q].Regular? && hs[q].content == ([e] + rest)[i].kind.content
    {
      LeavesLast(o, fs, e, rest, gs, hs, q, i);
    }
    forall i | 0 <= i <= |rest| && FirstAt(o, [e] + rest, q, i)
      ensures q in hs && hs[q].Regular? && hs[q].mode == ModeAt(fs, q, ([e] + rest)[i])
    {
      LeavesFirst(o, fs, e, rest, gs, hs, q, i);
    }
  }

  lemma LeavesNodes(o: Options, fs: Files, e: Entry, rest: seq<Entry>, gs: Files, hs: Files, q: Path)
    requires PlacedAt(o, fs, e, gs, q) && LeavesAt(o, gs, rest, hs, q)
    ensures q in hs <==> q in fs || Needed(o, [e] + rest, q)
    ensures q in hs && !Filed(o, [e] + rest, q) ==> hs[q] == if q in fs then fs[q] else Directory
  {
    NeedsApart(o, e, q);
    NeededMore(o, e, rest, q);
  }

  lemma NeededMore(o: Options, e: Entry, rest: seq<Entry>, q: Path)
    ensures Filed(o, [e] + rest, q) <==> NeedsFile(o, e, q) || Filed(o, rest, q)
    ensures Needed(o, [e] + rest, q) <==>
            (q != [] && (NeedsDir(o, e, q) || NeedsFile(o, e, q))) || Needed(o, rest, q)
  {
    var all := [e] + rest;
    assert e in all && forall x <- rest :: x in all;
    assert forall x <- all :: x == e || x in rest;
  }

  lemma LastShift(o: Options, e: Entry, rest: seq<Entry>, q: Path, i: nat)
    requires i <= |rest| && LastAt(o, [e] + rest, q, i)
    ensures if i == 0 then NeedsFile(o, e, q) && !Filed(o, rest, q) else LastAt(o, rest, q, i - 1)
  {
    var all := [e] + rest;
    assert forall j | 0 <= j < |rest| :: rest[j] == all[j + 1];
  }

  lemma FirstShift(o: Options, e: Entry, rest: seq<Entry>, q: Path, i: nat)
    requires i <= |rest| && FirstAt(o, [e] + rest, q, i)
    ensures if i == 0 then NeedsFile(o, e, q) else !NeedsFile(o, e, q) && FirstAt(o, rest, q, i - 1)
  {
    var all := [e] + rest;
    assert forall j | 0 <= j < |rest| :: rest[j] == all[j + 1];
    if i > 0 { assert all[0] == e; }
  }

  lemma LeavesLast(o: Options, fs: Files, e: Entry, rest: seq<Entry>, gs: Files, hs: Files, q: Path, i: nat)
    requires PlacedAt(o, fs, e, gs, q) && LeavesAt(o, gs, rest, hs, q)
    requires i <= |rest| && LastAt(o, [e] + rest, q, i)
    ensures q in hs && hs[q].Regular? && hs[q].content == ([e] + rest)[i].kind.content
  {
    NeedsApart(o, e, q);
    LastShift(o, e, rest, q, i);
  }

  lemma LeavesFirst(o: Options, fs: Files, e: Entry, rest: seq<Entry>, gs: Files, hs: Files, q: Path, i: nat)
    requires PlacedAt(o, fs, e, gs, q) && LeavesAt(o, gs, rest, hs, q)
    requires i <= |rest| && FirstAt(o, [e] + rest, q, i)
    ensures q in hs && hs[q].Regular? && hs[q].mode == ModeAt(fs, q, ([e] + rest)[i])
  {
    NeedsApart(o, e, q);
    FirstShift(o, e, rest, q, i);
    if i == 0 && Filed(o, rest, q) {
      var k := FindFirst(o, rest, q);
      assert FirstAt(o, rest, q, k);
    }
  }

  lemma {:induction false} FindFirst(o: Options, entries: seq<Entry>, q: Path) returns (i: nat)
    requires Filed(o, entries, q)
    ensures i < |entries| && FirstAt(o, entries, q, i)
  {
    if NeedsFile(o, entries[0], q) {
      i := 0;
    } else {
      var rest := entries[1..];
      assert forall e <- entries :: e == entries[0] || e in rest;
      var k := FindFirst(o, rest, q);
      i := k + 1;
      assert forall j | 0 < j < |entries| :: entries[j] == rest[j - 1];
    }
  }

  lemma {:induction false} BytesAdmitted(o: Options, entries: seq<Entry>)
    requires forall e <- entries :: !Escapes(e.name)
    ensures Bytes(o, entries) == Admitted(o.subPath, entries)
  {
    if entries != [] {
      var e := entries[0];
      match Place(o.subPath, e.name) {
        case At(path) => LandsAt(o, e, path);
        case Skip => LandsNowhere(o, e);
        case Refuse => PlaceLands(o.subPath, e.name, []);
      }
      BytesAdmitted(o, entries[1..]);
    }
  }

  /**
   * An extraction succeeds exactly when every entry can be read, none escapes, none under the
   * sub-path is a link, no path is needed both as a directory and as a file, and the regular entries
   * under the sub-path fit under the cap; and then it leaves exactly what the entries say.
   */
  lemma SucceedsExactly(o: Options, fs: Files, entries: seq<Entry>)
    requires Rooted(fs)
    ensures var p := ExtractAll(o, fs, 0, entries);
            && (p.ok <==> Acceptable(o, fs, entries) && Bytes(o, entries) <= o.maxBytes)
            && (p.ok ==> Leaves(o, fs, entries, p.fs) && p.written == Bytes(o, entries))
  {
    CapIsOnTheSum(o, fs, 0, entries);
    PutAllMeans(o, fs, entries);
    if Acceptable(o, fs, entries) { BytesAdmitted(o, entries); }
  }

  /** One absolute, escaping or unreadable entry, or one link under the sub-path, refuses the whole image. */
  lemma {:induction false} OneBadEntryRefuses(o: Options, fs: Files, written: nat, entries: seq<Entry>, e: Entry)
    requires e in entries && !Decent(o, e)
    ensures !ExtractAll(o, fs, written, entries).ok
    decreases |entries|
  {
    if entries[0] == e {
      match Place(o.subPath, e.name) {
        case At(path) => LandsAt(o, e, path);
        case Skip => LandsNowhere(o, e);
        case Refuse =>
      }
    } else {
      var p := ExtractOne(o, fs, written, entries[0]);
      if p.ok { OneBadEntryRefuses(o, p.fs, p.written, entries[1..], e); }
    }
  }
}
