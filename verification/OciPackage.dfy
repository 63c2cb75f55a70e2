/**
 * Function packages as OCI layers: a directory tree packed into a list of tar entries, and the
 * extraction of an entry list into a destination directory under a root, with an optional sub-path
 * and a cap on the bytes written. Compression and the registry are the identity on entry lists.
 */
module OciPackage {
  import opened Common
  import opened Paths

  type Path = seq<string>

  datatype Kind = TypeDir(mode: Mode) | TypeReg(mode: Mode, content: Bytes) | TypeLink | TypeOther | Unreadable

  datatype Entry = Entry(name: string, kind: Kind)

  /** Permission bits, and whether setuid, setgid or sticky is set. */
  datatype Mode = Mode(perm: nat, special: bool)

  function Perm(mode: Mode): Mode {
    Mode(mode.perm, false)
  }

  // ---------------------------------------------------------------------------------------------
  // Packing
  // ---------------------------------------------------------------------------------------------

  datatype Tree = Leaf(mode: Mode, content: Bytes) | Branch(mode: Mode, children: Forest) | Special

  /** The entries of a directory in lexical order. */
  datatype Forest = Nil | Cons(name: string, tree: Tree, rest: Forest)

  predicate Has(f: Forest, name: string) {
    f.Cons? && (f.name == name || Has(f.rest, name))
  }

  predicate Valid(f: Forest) {
    f.Cons? ==> Plain(f.name) && !Has(f.rest, f.name) && Valid(f.rest) && (f.tree.Branch? ==> Valid(f.tree.children))
  }

  /** Directories and regular files only. */
  predicate Packable(f: Forest) {
    f.Cons? ==> !f.tree.Special? && Packable(f.rest) && (f.tree.Branch? ==> Packable(f.tree.children))
  }

  function Pack(at: Path, f: Forest): seq<Entry>
    decreases f
  {
    match f
    case Nil => []
    case Cons(name, tree, rest) => PackTree(at + [name], tree) + Pack(at, rest)
  }

  function PackTree(at: Path, t: Tree): seq<Entry>
    decreases t
  {
    match t
    case Leaf(mode, content) => [Entry(Join(at), TypeReg(Perm(mode), content))]
    case Branch(mode, children) => [Entry(Join(at) + "/", TypeDir(Perm(mode)))] + Pack(at, children)
    case Special => []
  }

  class TarWriter {
    var entries: seq<Entry>

    constructor ()
      ensures entries == []
    {
      entries := [];
    }

    /** The walk: a directory's header precedes its contents; anything special refuses the package. */
    method Walk(at: Path, f: Forest) returns (ok: bool)
      modifies this
      ensures ok <==> Packable(f)
      ensures ok ==> entries == old(entries) + Pack(at, f)
      decreases f
    {
      match f {
        case Nil =>
          return true;
        case Cons(name, tree, rest) =>
          var path := at + [name];
          match tree {
            case Leaf(mode, content) =>
              entries := entries + [Entry(Join(path), TypeReg(Perm(mode), content))];
            case Branch(mode, children) =>
              entries := entries + [Entry(Join(path) + "/", TypeDir(Perm(mode)))];
              ok := Walk(path, children);
              if !ok {
                return false;
              }
            case Special =>
              return false;
          }
          assert entries == old(entries) + PackTree(path, tree);
          ok := Walk(at, rest);
          if ok {
            assert entries == old(entries) + (PackTree(path, tree) + Pack(at, rest));
          }
      }
    }
  }

  // ---------------------------------------------------------------------------------------------
  // Extracting
  // ---------------------------------------------------------------------------------------------

  datatype Node = Directory | Regular(mode: Mode, content: Bytes)

  /** The nodes below the destination root; the root itself is the empty path. */
  type Files = map<Path, Node>

  predicate IsDir(fs: Files, p: Path) {
    p == [] || (p in fs && fs[p].Directory?)
  }

  function Parent(p: Path): Path
    requires p != []
  {
    p[..|p| - 1]
  }

  /** Fails when a regular file is in the way. */
  function MkdirAll(fs: Files, p: Path): Option<Files>
    decreases |p|
  {
    if IsDir(fs, p) then Some(fs)
    else if p in fs then None
    else match MkdirAll(fs, Parent(p))
         case None => None
         case Some(g) => Some(g[p := Directory])
  }

  /** Creates the parents, then creates or truncates the file; an existing file keeps its mode. */
  function CreateFile(fs: Files, p: Path, mode: Mode, content: Bytes): Option<Files>
    requires p != []
  {
    match MkdirAll(fs, Parent(p))
    case None => None
    case Some(g) =>
      if p in g && g[p].Directory? then None
      else Some(g[p := Regular(if p in g then g[p].mode else Perm(mode), content)])
  }

  datatype Placement = Skip | Refuse | At(path: Path)

  /** Where an entry goes, relative to the destination directory. */
  function Place(subPath: string, name: string): Placement {
    if "/" <= name then Refuse
    else
      var clean := Clean(name);
      if clean == [] then Skip
      else if clean[0] == ".." then Refuse
      else if subPath == "" then At(clean)
      else if Join(clean) == subPath || !(subPath + "/" <= Join(clean)) then Skip
      else At(Clean(Join(clean)[|subPath| + 1..]))
  }

  datatype Options = Options(destDir: Path, subPath: string, maxBytes: nat)

  /** What one entry does to the tree when the cap is not in the way; None refuses the image. */
  function Put(o: Options, fs: Files, e: Entry): Option<Files> {
    if e.kind.Unreadable? then None
    else
      match Place(o.subPath, e.name)
      case Refuse => None
      case Skip => Some(fs)
      case At(path) =>
        var dest := o.destDir + path;
        match e.kind
        case TypeDir(_) => MkdirAll(fs, dest)
        case TypeReg(mode, content) => if dest == [] then None else CreateFile(fs, dest, mode, content)
        case TypeLink => None
        case _ => Some(fs)
  }

  /** The bytes an entry asks to write. */
  function Weight(subPath: string, e: Entry): nat {
    if Place(subPath, e.name).At? && e.kind.TypeReg? then |e.kind.content| else 0
  }

  /** The tree and the byte count reached, and whether extraction may go on. */
  datatype Progress = Progress(fs: Files, written: nat, ok: bool)

  function ExtractOne(o: Options, fs: Files, written: nat, e: Entry): Progress {
    var total := written + Weight(o.subPath, e);
    if total > o.maxBytes then Progress(fs, written, false)
    else
      match Put(o, fs, e)
      case None => Progress(fs, written, false)
      case Some(gs) => Progress(gs, total, true)
  }

  function ExtractAll(o: Options, fs: Files, written: nat, entries: seq<Entry>): Progress
    decreases |entries|
  {
    if entries == [] then Progress(fs, written, true)
    else
      var p := ExtractOne(o, fs, written, entries[0]);
      if p.ok then ExtractAll(o, p.fs, p.written, entries[1..]) else p
  }

  class Root {
    var files: Files

    constructor (files: Files)
      ensures this.files == files
    {
      this.files := files;
    }

    method MakeDirectories(dest: Path) returns (ok: bool)
      modifies this
      ensures ok == MkdirAll(old(files), dest).Some?
      ensures files == if ok then MkdirAll(old(files), dest).value else old(files)
    {
      var made := MkdirAll(files, dest);
      ok := made.Some?;
      if ok {
        files := made.value;
      }
    }

    /** One turn of the extraction loop. */
    method ExtractEntry(o: Options, e: Entry, written: nat) returns (ok: bool, total: nat)
      requires written <= o.maxBytes
      modifies this
      ensures Progress(files, total, ok) == ExtractOne(o, old(files), written, e)
    {
      total := written;
      if e.kind.Unreadable? {
        return false, written;
      }
      var place := Place(o.subPath, e.name);
      if place.Refuse? || place.Skip? {
        return place.Skip?, written;
      }
      var dest := o.destDir + place.path;
      match e.kind {
        case TypeDir(_) =>
          ok := MakeDirectories(dest);
        case TypeReg(mode, content) =>
          if written + |content| > o.maxBytes || dest == [] {
            return false, written;
          }
          var created := CreateFile(files, dest, mode, content);
          if created.None? {
            return false, written;
          }
          files := created.value;
          return true, written + |content|;
        case TypeLink =>
          ok := false;
        case _ =>
          ok := true;
      }
    }

    method ExtractTar(entries: seq<Entry>, destDir: Path, subPath: string, maxBytes: nat)
        returns (ok: bool, written: nat)
      modifies this
      ensures MkdirAll(old(files), destDir).None? ==> !ok && files == old(files) && written == 0
      ensures MkdirAll(old(files), destDir).Some? ==>
                Progress(files, written, ok) ==
                ExtractAll(Options(destDir, Trim(subPath, '/'), maxBytes), MkdirAll(old(files), destDir).value, 0,
                           entries)
    {
      written := 0;
      ok := MakeDirectories(destDir);
      if !ok {
        return;
      }
      ghost var start := files;
      var o := Options(destDir, Trim(subPath, '/'), maxBytes);
      for i := 0 to |entries|
        invariant ok && written <= maxBytes
        invariant ExtractAll(o, files, written, entries[i..]) == ExtractAll(o, start, 0, entries)
      {
        assert entries[i..][1..] == entries[i + 1..];
        ok, written := ExtractEntry(o, entries[i], written);
        if !ok {
          return;
        }
      }
    }
  }

  // ---------------------------------------------------------------------------------------------
  // Confinement and the cap, for any entry list
  // ---------------------------------------------------------------------------------------------

  /** Everything that is not as before lies below `dest`, along plain names. */
  predicate Confined(before: Files, after: Files, dest: Path) {
    && (forall p <- before :: p in after && (before[p].Directory? ==> after[p].Directory?))
    && (forall p <- after :: (p in before && after[p] == before[p]) || (dest < p && AllPlain(p[|dest|..])))
  }

  lemma ConfinedTransitive(a: Files, b: Files, c: Files, dest: Path)
    requires Confined(a, b, dest) && Confined(b, c, dest)
    ensures Confined(a, c, dest)
  {
  }

  lemma {:induction false} MkdirConfined(fs: Files, dest: Path, path: Path)
    requires IsDir(fs, dest) && AllPlain(path)
    ensures var r := MkdirAll(fs, dest + path); r.Some? ==> Confined(fs, r.value, dest) && IsDir(r.value, dest + path)
    decreases |path|
  {
    if path == [] {
      assert dest + path == dest;
    } else {
      assert Parent(dest + path) == dest + Parent(path);
      assert forall p <- Parent(path) :: p in path;
      MkdirConfined(fs, dest, Parent(path));
      assert (dest + path)[|dest|..] == path && dest < dest + path;
    }
  }

  /** A placed entry lies at a non-empty plain path, whatever the entry name and the sub-path. */
  lemma PlacedIsPlain(subPath: string, name: string)
    requires Place(subPath, name).At?
    ensures Place(subPath, name).path != [] && AllPlain(Place(subPath, name).path)
  {
    var clean := Clean(name);
    SplitSlashFree(name);
    CleanFromCleaned([], Split(name));
    NoParents(clean);
    if subPath != "" { SuffixIsPlain(clean, subPath, Join(clean)[|subPath| + 1..]); }
  }

  lemma SuffixIsPlain(clean: Path, a: string, b: string)
    requires clean != [] && AllPlain(clean) && Join(clean) == a + "/" + b
    ensures Clean(b) != [] && AllPlain(Clean(b))
  {
    SplitConcat(a, b);
    SplitJoin(clean);
    var n := |Split(a)|;
    assert Split(b) == clean[n..];
    assert forall p <- Split(b) :: p in clean;
    CleanPlain([], Split(b));
  }

  lemma CreateConfined(fs: Files, dest: Path, path: Path, mode: Mode, content: Bytes)
    requires IsDir(fs, dest) && path != [] && AllPlain(path)
    ensures var r := CreateFile(fs, dest + path, mode, content); r.Some? ==> Confined(fs, r.value, dest)
  {
    assert Parent(dest + path) == dest + Parent(path);
    assert forall p <- Parent(path) :: p in path;
    MkdirConfined(fs, dest, Parent(path));
    assert (dest + path)[|dest|..] == path && dest < dest + path;
  }

  lemma PutConfined(o: Options, fs: Files, e: Entry)
    requires IsDir(fs, o.destDir)
    ensures var r := Put(o, fs, e); r.Some? ==> Confined(fs, r.value, o.destDir)
  {
    var place := Place(o.subPath, e.name);
    if place.At? {
      PlacedIsPlain(o.subPath, e.name);
      MkdirConfined(fs, o.destDir, place.path);
      if e.kind.TypeReg? { CreateConfined(fs, o.destDir, place.path, e.kind.mode, e.kind.content); }
    }
  }

  lemma {:induction false} ExtractAllConfined(o: Options, fs: Files, written: nat, entries: seq<Entry>)
    requires IsDir(fs, o.destDir) && written <= o.maxBytes
    ensures var p := ExtractAll(o, fs, written, entries); Confined(fs, p.fs, o.destDir) && p.written <= o.maxBytes
    decreases |entries|
  {
    if entries != [] {
      PutConfined(o, fs, entries[0]);
      var p := ExtractOne(o, fs, written, entries[0]);
      if p.ok {
        ExtractAllConfined(o, p.fs, p.written, entries[1..]);
        ConfinedTransitive(fs, p.fs, ExtractAll(o, fs, written, entries).fs, o.destDir);
      }
    }
  }

  /** The bytes of the regular entries that the sub-path admits. */
  function Admitted(subPath: string, entries: seq<Entry>): nat {
    if entries == [] then 0 else Weight(subPath, entries[0]) + Admitted(subPath, entries[1..])
  }

  /** Extraction without the cap. */
  function PutAll(o: Options, fs: Files, entries: seq<Entry>): Option<Files>
    decreases |entries|
  {
    if entries == [] then Some(fs)
    else
      var r := Put(o, fs, entries[0]);
      if r.Some? then PutAll(o, r.value, entries[1..]) else None
  }

  /** The cap only decides whether extraction succeeds, and it does so on the sum alone. */
  lemma {:induction false} CapIsOnTheSum(o: Options, fs: Files, written: nat, entries: seq<Entry>)
    requires written <= o.maxBytes
    ensures var p, r, total :=
            ExtractAll(o, fs, written, entries), PutAll(o, fs, entries), written + Admitted(o.subPath, entries);
            && (p.ok <==> r.Some? && total <= o.maxBytes)
            && (p.ok ==> p.fs == r.value && p.written == total)
    decreases |entries|
  {
    if entries != [] {
      var p := ExtractOne(o, fs, written, entries[0]);
      if p.ok { CapIsOnTheSum(o, p.fs, p.written, entries[1..]); }
    }
  }

  /**
   * For any entry list: whether extraction succeeds or not, every node that is new or changed lies
   * strictly below the destination directory along plain names, nothing is removed, and the bytes
   * written stay within the cap. It succeeds exactly when it would without the cap and the admitted
   * regular entries fit under it, and then has written exactly their bytes.
   */
  lemma ExtractionIsConfined(o: Options, fs: Files, entries: seq<Entry>)
    requires IsDir(fs, o.destDir)
    ensures var p := ExtractAll(o, fs, 0, entries);
            && Confined(fs, p.fs, o.destDir)
            && p.written <= o.maxBytes
            && (p.ok <==> PutAll(o, fs, entries).Some? && Admitted(o.subPath, entries) <= o.maxBytes)
            && (p.ok ==> p.written == Admitted(o.subPath, entries))
  {
    ExtractAllConfined(o, fs, 0, entries);
    CapIsOnTheSum(o, fs, 0, entries);
  }

  // ---------------------------------------------------------------------------------------------
  // Extracting a packed tree
  // ---------------------------------------------------------------------------------------------

  /** What a tree looks like on disk below `at`: directory modes are not restored. */
  function FilesOf(at: Path, f: Forest): Files
    decreases f
  {
    match f
    case Nil => map[]
    case Cons(name, tree, rest) => FilesOfTree(at + [name], tree) + FilesOf(at, rest)
  }

  function FilesOfTree(at: Path, t: Tree): Files
    decreases t
  {
    match t
    case Leaf(mode, content) => map[at := Regular(Mode(mode.perm, false), content)]
    case Branch(_, children) => map[at := Directory] + FilesOf(at, children)
    case Special => map[]
  }

  function Size(f: Forest): nat
    decreases f
  {
    match f
    case Nil => 0
    case Cons(_, tree, rest) => SizeOfTree(tree) + Size(rest)
  }

  function SizeOfTree(t: Tree): nat
    decreases t
  {
    match t
    case Leaf(_, content) => |content|
    case Branch(_, children) => Size(children)
    case Special => 0
  }

  /** `p` lies below `at`, at or under a name of `f`. */
  predicate Under(at: Path, f: Forest, p: Path) {
    at < p && Has(f, p[|at|])
  }

  /** Nothing is in the way of `f` below `at`. */
  predicate Free(fs: Files, at: Path, f: Forest) {
    forall p <- fs :: !Under(at, f, p)
  }

  lemma PrefixStep(at: Path, name: string, p: Path)
    requires at + [name] <= p
    ensures at < p && p[|at|] == name
  {
    var below := at + [name];
    assert p[..|below|] == below;
    assert p[..|at|] == below[..|at|] == at && p[|at|] == below[|at|];
  }

  lemma {:induction false} FilesAreUnder(at: Path, f: Forest)
    ensures forall p <- FilesOf(at, f) :: Under(at, f, p)
    decreases f
  {
    if f.Cons? {
      var below := at + [f.name];
      TreeIsAtOrBelow(below, f.tree);
      FilesAreUnder(at, f.rest);
      forall p <- FilesOfTree(below, f.tree) ensures Under(at, f, p) { PrefixStep(at, f.name, p); }
    }
  }

  lemma {:induction false} TreeIsAtOrBelow(at: Path, t: Tree)
    ensures forall p <- FilesOfTree(at, t) :: at <= p
    decreases t
  {
    if t.Branch? { FilesAreUnder(at, t.children); }
  }

  lemma RelativeName(parts: Path)
    requires parts != [] && AllPlain(parts)
    ensures !("/" <= Join(parts)) && !("/" <= Join(parts) + "/")
  {
    assert parts[0] in parts;
    assert Join(parts)[0] == parts[0][0];
  }

  lemma {:induction false} NoTrailingSlash(parts: Path)
    requires parts != [] && AllPlain(parts)
    ensures Join(parts) != "" && Join(parts)[|Join(parts)| - 1] != '/'
  {
    assert parts[0] in parts;
    if |parts| > 1 {
      NoTrailingSlash(parts[1..]);
    } else {
      var p := parts[0];
      assert p[|p| - 1] in p;
    }
  }

  lemma TrimSurrounded(s: string)
    requires s != "" && s[0] != '/' && s[|s| - 1] != '/'
    ensures Trim(s, '/') == s && Trim("/" + s + "/", '/') == s
  {
    var t := "/" + s + "/";
    assert t[1..] == s + "/" && (s + "/")[..|s|] == s;
    assert TrimLeft(s, '/') == s && TrimRight(s, '/') == s;
    assert TrimLeft(t, '/') == TrimLeft(s + "/", '/') == s + "/";
    assert TrimRight(s + "/", '/') == TrimRight(s, '/');
  }

  /** A sub-path may be written with or without surrounding slashes. */
  lemma SubPathForms(path: Path)
    requires path != [] && AllPlain(path)
    ensures Selects(Trim(Join(path), '/'), path) && Selects(Trim("/" + Join(path) + "/", '/'), path)
  {
    RelativeName(path);
    NoTrailingSlash(path);
    TrimSurrounded(Join(path));
  }

  /** `subPath` asks for the directory `q`. */
  predicate Selects(subPath: string, q: Path) {
    AllPlain(q) && subPath == Join(q)
  }

  /** An entry below the selected directory is placed at its path relative to it. */
  lemma PlacedBelow(subPath: string, q: Path, r: Path)
    requires Selects(subPath, q) && AllPlain(r) && r != []
    ensures Place(subPath, Join(q + r)) == At(r) && Place(subPath, Join(q + r) + "/") == At(r)
  {
    var clean := q + r;
    CleanJoin(clean);
    RelativeName(clean);
    assert clean[0] in clean;
    if q == [] {
      assert clean == r;
    } else {
      assert q[0] in q && subPath != "";
      JoinConcat(q, r);
      CleanJoin(r);
      assert Join(clean)[|subPath| + 1..] == Join(r);
    }
  }

  /** An entry that is not strictly below it is skipped. */
  lemma PlacedOutside(subPath: string, q: Path, clean: Path)
    requires Selects(subPath, q) && q != [] && AllPlain(clean) && clean != [] && !(q < clean)
    ensures Place(subPath, Join(clean)) == Skip && Place(subPath, Join(clean) + "/") == Skip
  {
    CleanJoin(clean);
    RelativeName(clean);
    assert clean[0] in clean && q[0] in q && subPath != "";
    if subPath + "/" <= Join(clean) {
      var rest := Join(clean)[|subPath| + 1..];
      assert Join(clean) == subPath + "/" + rest;
      SplitConcat(subPath, rest);
      SplitJoin(clean);
      SplitJoin(q);
      assert false;
    }
  }

  /** Extraction goes through these entries and carries on from this tree. */
  ghost predicate Yields(o: Options, fs: Files, entries: seq<Entry>, gs: Files) {
    forall rest: seq<Entry> :: PutAll(o, fs, entries + rest) == PutAll(o, gs, rest)
  }

  lemma YieldsNone(o: Options, fs: Files)
    ensures Yields(o, fs, [], fs)
  {
    forall rest: seq<Entry> ensures PutAll(o, fs, [] + rest) == PutAll(o, fs, rest) {
      assert [] + rest == rest;
    }
  }

  lemma YieldsOne(o: Options, fs: Files, e: Entry)
    requires Put(o, fs, e).Some?
    ensures Yields(o, fs, [e], Put(o, fs, e).value)
  {
    forall rest: seq<Entry> ensures PutAll(o, fs, [e] + rest) == PutAll(o, Put(o, fs, e).value, rest) {
      assert ([e] + rest)[1..] == rest;
    }
  }

  lemma YieldsBoth(o: Options, fs: Files, a: seq<Entry>, gs: Files, b: seq<Entry>, hs: Files)
    requires Yields(o, fs, a, gs) && Yields(o, gs, b, hs)
    ensures Yields(o, fs, a + b, hs)
  {
    forall rest: seq<Entry> ensures PutAll(o, fs, (a + b) + rest) == PutAll(o, hs, rest) {
      assert (a + b) + rest == a + (b + rest);
    }
  }

  lemma YieldsMerged(o: Options, fs: Files, a: seq<Entry>, files: Files, b: seq<Entry>, more: Files)
    requires Yields(o, fs, a, fs + files) && Yields(o, fs + files, b, fs + files + more)
    ensures Yields(o, fs, a + b, fs + (files + more))
  {
    YieldsBoth(o, fs, a, fs + files, b, fs + files + more);
    MergeAssociates(fs, files, more);
  }

  lemma MergeAssociates(a: Files, b: Files, c: Files)
    ensures a + b + c == a + (b + c)
  {
  }

  /** Extracting a packed forest below the selected directory restores it. */
  lemma {:induction false} RestoresForest(o: Options, q: Path, r: Path, f: Forest, fs: Files)
    requires Selects(o.subPath, q) && AllPlain(r) && Valid(f) && Packable(f)
    requires IsDir(fs, o.destDir + r) && Free(fs, o.destDir + r, f)
    ensures Yields(o, fs, Pack(q + r, f), fs + FilesOf(o.destDir + r, f))
    decreases f
  {
    var at := o.destDir + r;
    if f.Cons? {
      var files := FilesOfTree(at + [f.name], f.tree);
      FreeAfterTree(fs, at, f);
      RestoresTree(o, q, r, f.name, f.tree, fs);
      RestoresForest(o, q, r, f.rest, fs + files);
      YieldsMerged(o, fs, PackTree(q + r + [f.name], f.tree), files, Pack(q + r, f.rest), FilesOf(at, f.rest));
    } else {
      YieldsNone(o, fs);
      assert fs + map[] == fs;
    }
  }

  predicate Vacant(fs: Files, at: Path) {
    forall p <- fs :: !(at <= p)
  }

  lemma FreeAfterTree(fs: Files, at: Path, f: Forest)
    requires f.Cons? && Valid(f) && IsDir(fs, at) && Free(fs, at, f)
    ensures Vacant(fs, at + [f.name])
    ensures var gs := fs + FilesOfTree(at + [f.name], f.tree); IsDir(gs, at) && Free(gs, at, f.rest)
  {
    var below := at + [f.name];
    TreeIsAtOrBelow(below, f.tree);
    forall p <- FilesOfTree(below, f.tree) ensures at < p && p[|at|] == f.name { PrefixStep(at, f.name, p); }
    forall p <- fs ensures !Under(at, f.rest, p) && !(below <= p) {
      assert !Under(at, f, p);
      if below <= p { PrefixStep(at, f.name, p); assert false; }
    }
  }

  lemma {:induction false} RestoresTree(o: Options, q: Path, r: Path, name: string, t: Tree, fs: Files)
    requires Selects(o.subPath, q) && AllPlain(r) && Plain(name) && !t.Special?
    requires t.Branch? ==> Valid(t.children) && Packable(t.children)
    requires IsDir(fs, o.destDir + r) && Vacant(fs, o.destDir + r + [name])
    ensures Yields(o, fs, PackTree(q + r + [name], t), fs + FilesOfTree(o.destDir + r + [name], t))
    decreases t
  {
    var s := r + [name];
    var dest, src := o.destDir + s, q + s;
    assert o.destDir + r + [name] == dest && q + r + [name] == src && Parent(dest) == o.destDir + r;
    PlacedBelow(o.subPath, q, s);
    if t.Leaf? {
      RestoresLeaf(o, src, s, t, fs);
    } else {
      VacantIsFree(fs, dest, t.children);
      RestoresForest(o, q, s, t.children, fs + map[dest := Directory]);
      RestoresBranch(o, src, s, t, fs);
    }
  }

  lemma RestoresLeaf(o: Options, src: Path, s: Path, t: Tree, fs: Files)
    requires t.Leaf? && s != [] && Place(o.subPath, Join(src)) == At(s)
    requires o.destDir + s !in fs && IsDir(fs, Parent(o.destDir + s))
    ensures Yields(o, fs, PackTree(src, t), fs + FilesOfTree(o.destDir + s, t))
  {
    var e := Entry(Join(src), TypeReg(Perm(t.mode), t.content));
    PutFile(o, fs, e, s, o.destDir + s);
    YieldsOne(o, fs, e);
  }

  lemma RestoresBranch(o: Options, src: Path, s: Path, t: Tree, fs: Files)
    requires t.Branch? && s != [] && Place(o.subPath, Join(src) + "/") == At(s)
    requires o.destDir + s !in fs && IsDir(fs, Parent(o.destDir + s))
    requires var dest := o.destDir + s;
             Yields(o, fs + map[dest := Directory], Pack(src, t.children),
                    fs + map[dest := Directory] + FilesOf(dest, t.children))
    ensures Yields(o, fs, PackTree(src, t), fs + FilesOfTree(o.destDir + s, t))
  {
    var e, dest := Entry(Join(src) + "/", TypeDir(Perm(t.mode))), o.destDir + s;
    PutDirectory(o, fs, e, s, dest);
    YieldsOne(o, fs, e);
    YieldsMerged(o, fs, [e], map[dest := Directory], Pack(src, t.children), FilesOf(dest, t.children));
  }

  lemma PutDirectory(o: Options, fs: Files, e: Entry, path: Path, dest: Path)
    requires e.kind.TypeDir? && Place(o.subPath, e.name) == At(path) && path != []
    requires dest == o.destDir + path && dest !in fs && IsDir(fs, Parent(dest))
    ensures Put(o, fs, e) == Some(fs + map[dest := Directory])
  {
    MkdirOne(fs, dest);
  }

  lemma MkdirOne(fs: Files, dest: Path)
    requires dest != [] && dest !in fs && IsDir(fs, Parent(dest))
    ensures MkdirAll(fs, dest) == Some(fs + map[dest := Directory])
  {
    var parent := Parent(dest);
    assert MkdirAll(fs, parent) == Some(fs);
    assert fs[dest := Directory] == fs + map[dest := Directory];
  }

  lemma PutFile(o: Options, fs: Files, e: Entry, path: Path, dest: Path)
    requires e.kind.TypeReg? && Place(o.subPath, e.name) == At(path) && path != []
    requires dest == o.destDir + path && dest !in fs && IsDir(fs, Parent(dest))
    ensures Put(o, fs, e) == Some(fs + map[dest := Regular(Perm(e.kind.mode), e.kind.content)])
  {
    var node := Regular(Perm(e.kind.mode), e.kind.content);
    assert MkdirAll(fs, Parent(dest)) == Some(fs);
    assert CreateFile(fs, dest, e.kind.mode, e.kind.content) == Some(fs[dest := node]);
    assert fs[dest := node] == fs + map[dest := node];
  }

  lemma VacantIsFree(fs: Files, at: Path, f: Forest)
    requires Vacant(fs, at)
    ensures Free(fs + map[at := Directory], at, f)
  {
  }

  // The entries outside the selected directory

  /** The paths part before either ends. */
  predicate Apart(p: Path, q: Path) {
    !(p <= q) && !(q <= p)
  }

  /** Entries that leave the tree alone and weigh nothing. */
  ghost predicate Idle(o: Options, entries: seq<Entry>) {
    (forall fs :: Yields(o, fs, entries, fs)) && Admitted(o.subPath, entries) == 0
  }

  lemma IdleBoth(o: Options, a: seq<Entry>, b: seq<Entry>)
    requires Idle(o, a) && Idle(o, b)
    ensures Idle(o, a + b)
  {
    forall fs ensures Yields(o, fs, a + b, fs) { YieldsBoth(o, fs, a, fs, b, fs); }
    AdmittedConcat(o.subPath, a, b);
  }

  lemma IdleOne(o: Options, e: Entry)
    requires (e.kind.TypeDir? || e.kind.TypeReg?) && Place(o.subPath, e.name) == Skip
    ensures Idle(o, [e])
  {
    forall fs ensures Yields(o, fs, [e], fs) { YieldsOne(o, fs, e); }
    assert [e][1..] == [];
  }

  lemma {:induction false} AdmittedConcat(subPath: string, a: seq<Entry>, b: seq<Entry>)
    ensures Admitted(subPath, a + b) == Admitted(subPath, a) + Admitted(subPath, b)
  {
    if a == [] {
      assert a + b == b;
    } else {
      assert (a + b)[1..] == a[1..] + b;
      AdmittedConcat(subPath, a[1..], b);
    }
  }

  lemma {:induction false} SkipsForest(o: Options, q: Path, at: Path, f: Forest)
    requires Selects(o.subPath, q) && AllPlain(at) && Valid(f) && Packable(f)
    requires Apart(at, q) || (at < q && !Has(f, q[|at|]))
    ensures Idle(o, Pack(at, f))
    decreases f
  {
    if f.Cons? {
      var below := at + [f.name];
      assert below[..|at|] == at && below[|at|] == f.name;
      SkipsTree(o, q, below, f.tree);
      SkipsForest(o, q, at, f.rest);
      IdleBoth(o, PackTree(below, f.tree), Pack(at, f.rest));
    } else {
      forall fs ensures Yields(o, fs, [], fs) { YieldsNone(o, fs); }
    }
  }

  lemma {:induction false} SkipsTree(o: Options, q: Path, at: Path, t: Tree)
    requires Selects(o.subPath, q) && at != [] && AllPlain(at) && !t.Special? && Apart(at, q)
    requires t.Branch? ==> Valid(t.children) && Packable(t.children)
    ensures Idle(o, PackTree(at, t))
    decreases t
  {
    PlacedOutside(o.subPath, q, at);
    if t.Branch? {
      var e := Entry(Join(at) + "/", TypeDir(Perm(t.mode)));
      IdleOne(o, e);
      SkipsForest(o, q, at, t.children);
      IdleBoth(o, [e], Pack(at, t.children));
    } else {
      IdleOne(o, Entry(Join(at), TypeReg(Perm(t.mode), t.content)));
    }
  }

  /** The contents of the directory at `path` below a forest. */
  function Find(f: Forest, path: Path): Option<Forest>
    decreases f
  {
    if path == [] then Some(f)
    else
      match f
      case Nil => None
      case Cons(name, tree, rest) =>
        if name == path[0] then (if tree.Branch? then Find(tree.children, path[1..]) else None)
        else Find(rest, path)
  }

  /** The same extraction, from any tree and with the same bytes. */
  ghost predicate Alike(o: Options, a: seq<Entry>, b: seq<Entry>) {
    (forall fs, gs :: Yields(o, fs, a, gs) ==> Yields(o, fs, b, gs)) && Admitted(o.subPath, a) == Admitted(o.subPath, b)
  }

  lemma AlikeAround(o: Options, a: seq<Entry>, before: seq<Entry>, b: seq<Entry>, after: seq<Entry>)
    requires Alike(o, a, b) && Idle(o, before) && Idle(o, after)
    ensures Alike(o, a, before + b + after)
  {
    forall fs, gs | Yields(o, fs, a, gs) ensures Yields(o, fs, before + b + after, gs) {
      YieldsBoth(o, fs, before, fs, b, gs);
      YieldsBoth(o, fs, before + b, gs, after, gs);
    }
    AdmittedConcat(o.subPath, before, b);
    AdmittedConcat(o.subPath, before + b, after);
  }

  /** Only the entries below the selected directory matter. */
  lemma {:induction false} SelectsDirectory(o: Options, at: Path, path: Path, f: Forest)
    requires path != [] && Selects(o.subPath, at + path) && Valid(f) && Packable(f) && Find(f, path).Some?
    ensures Alike(o, Pack(at + path, Find(f, path).value), Pack(at, f))
    decreases f
  {
    var q, below, selected := at + path, at + [f.name], Pack(at + path, Find(f, path).value);
    assert AllPlain(at) by { assert forall p <- at :: p in q; }
    assert q[|at|] == path[0] && below[|at|] == f.name && at < q;
    var tree, rest := PackTree(below, f.tree), Pack(at, f.rest);
    if f.name == path[0] {
      SelectsChild(o, at, path, f);
      SkipsForest(o, q, at, f.rest);
      IdleNone(o);
      AlikeAround(o, selected, [], tree, rest);
      assert [] + tree == tree;
    } else {
      SkipsTree(o, q, below, f.tree);
      SelectsDirectory(o, at, path, f.rest);
      IdleNone(o);
      AlikeAround(o, selected, tree, rest, []);
      assert tree + rest + [] == tree + rest;
    }
  }

  lemma IdleNone(o: Options)
    ensures Idle(o, [])
  {
    forall fs ensures Yields(o, fs, [], fs) { YieldsNone(o, fs); }
  }

  lemma {:induction false} SelectsChild(o: Options, at: Path, path: Path, f: Forest)
    requires path != [] && Selects(o.subPath, at + path) && Valid(f) && Packable(f) && Find(f, path).Some?
    requires f.Cons? && f.name == path[0]
    ensures Alike(o, Pack(at + path, Find(f, path).value), PackTree(at + [f.name], f.tree))
    decreases f, 0
  {
    var q, below, selected := at + path, at + [f.name], Pack(at + path, Find(f, path).value);
    assert below == q[..|at| + 1] && below + path[1..] == q;
    assert AllPlain(below) by { assert forall p <- below :: p in q; }
    if path[1..] == [] {
      assert below == q;
    } else {
      SelectsDirectory(o, below, path[1..], f.tree.children);
    }
    SkipsHeader(o, q, below, f.tree, selected);
  }

  lemma SkipsHeader(o: Options, q: Path, at: Path, t: Tree, selected: seq<Entry>)
    requires t.Branch? && Selects(o.subPath, q) && q != [] && AllPlain(at) && at != [] && !(q < at)
    requires Alike(o, selected, Pack(at, t.children))
    ensures Alike(o, selected, PackTree(at, t))
  {
    var e, children := Entry(Join(at) + "/", TypeDir(Perm(t.mode))), Pack(at, t.children);
    PlacedOutside(o.subPath, q, at);
    IdleOne(o, e);
    IdleNone(o);
    AlikeAround(o, selected, [e], children, []);
    assert [e] + children + [] == [e] + children;
  }

  lemma {:induction false} SizeIsAdmitted(subPath: string, q: Path, r: Path, f: Forest)
    requires Selects(subPath, q) && AllPlain(r) && Valid(f) && Packable(f)
    ensures Admitted(subPath, Pack(q + r, f)) == Size(f)
    decreases f
  {
    if f.Cons? {
      var s := r + [f.name];
      assert q + r + [f.name] == q + s;
      PlacedBelow(subPath, q, s);
      AdmittedConcat(subPath, PackTree(q + s, f.tree), Pack(q + r, f.rest));
      SizeIsAdmitted(subPath, q, r, f.rest);
      if f.tree.Branch? {
        SizeIsAdmitted(subPath, q, s, f.tree.children);
        assert PackTree(q + s, f.tree)[1..] == Pack(q + s, f.tree.children);
      }
    }
  }

  /**
   * Extracting a packed tree into an empty directory, whole or through the sub-path of one of its
   * directories, succeeds exactly when the selected contents fit under the cap, and then adds
   * exactly those contents below the destination and nothing else.
   */
  lemma RoundTrip(o: Options, f: Forest, path: Path, fs: Files)
    requires Valid(f) && Packable(f) && Selects(o.subPath, path) && Find(f, path).Some?
    requires IsDir(fs, o.destDir) && forall p <- fs :: !(o.destDir < p)
    ensures var p, found := ExtractAll(o, fs, 0, Pack([], f)), Find(f, path).value;
            && (p.ok <==> Size(found) <= o.maxBytes)
            && (p.ok ==> p.fs == fs + FilesOf(o.destDir, found) && p.written == Size(found))
  {
    SelectionRestored(o, f, path, fs);
    CapIsOnTheSum(o, fs, 0, Pack([], f));
  }

  /** Without the cap the selected contents are restored, and they are what the entries weigh. */
  lemma SelectionRestored(o: Options, f: Forest, path: Path, fs: Files)
    requires Valid(f) && Packable(f) && Selects(o.subPath, path) && Find(f, path).Some?
    requires IsDir(fs, o.destDir) && forall p <- fs :: !(o.destDir < p)
    ensures var found := Find(f, path).value;
            && PutAll(o, fs, Pack([], f)) == Some(fs + FilesOf(o.destDir, found))
            && Admitted(o.subPath, Pack([], f)) == Size(found)
  {
    var found := Find(f, path).value;
    var gs, all := fs + FilesOf(o.destDir, found), Pack([], f);
    FoundIsValid(f, path);
    assert [] + path == path && path + [] == path && o.destDir + [] == o.destDir;
    RestoresForest(o, path, [], found, fs);
    SizeIsAdmitted(o.subPath, path, [], found);
    if path != [] { SelectsDirectory(o, [], path, f); }
    YieldsAll(o, fs, all, gs);
  }

  lemma YieldsAll(o: Options, fs: Files, entries: seq<Entry>, gs: Files)
    requires Yields(o, fs, entries, gs)
    ensures PutAll(o, fs, entries) == Some(gs)
  {
    assert entries + [] == entries;
    assert PutAll(o, fs, entries + []) == PutAll(o, gs, []);
  }

  lemma {:induction false} FoundIsValid(f: Forest, path: Path)
    requires Valid(f) && Packable(f) && Find(f, path).Some?
    ensures Valid(Find(f, path).value) && Packable(Find(f, path).value)
    decreases f
  {
    if path != [] {
      if f.name == path[0] { FoundIsValid(f.tree.children, path[1..]); } else { FoundIsValid(f.rest, path); }
    }
  }
}
