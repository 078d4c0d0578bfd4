/**
  `Ingestor`: collects the text of the "useful" files of a single file, a
  local folder or a cloned repository, keyed by name or by relative path.
  A folder's result is the map together with its key order (`KeyOrder`),
  the insertion order a Python dict keeps.

  A folder is given as the tree of entries `os.walk` would list (each file
  with what opening and reading it gives). The walk is top-down: the files
  of a directory come first, in listing order, then each kept
  sub-directory's walk in turn; sub-directories whose name is ignored are
  pruned before they are entered.

  The three ignore lists are the fields `__init__` sets on an `Ingestor`;
  they are carried as a `Filters` value so that everything below holds for
  any lists, and `Defaults` holds the ones the source installs.
*/
module Ingestor {
  import opened PyText
  import opened Payloads
  import opened Seqs

  datatype Filters = Filters(directories: set<string>, files: set<string>, extensions: set<string>)

  /** `IGNORED_DIRECTORIES`, `IGNORED_FILES` and `IGNORED_EXTENSIONS`. */
  const Defaults: Filters := Filters(
    {".git", "__pycache__", "node_modules", ".vscode", ".idea",
     "build", "dist", "env", "venv"},
    {".gitignore", "package-lock.json", "yarn.lock", ".DS_Store",
     "LICENSE", "README.md"},
    {".pyc", ".pyo", ".so", ".o", ".a", ".dll", ".exe",
     ".jpg", ".jpeg", ".png", ".gif", ".bmp", ".tiff", ".ico", ".svg",
     ".pdf", ".doc", ".docx", ".xls", ".xlsx", ".ppt", ".pptx",
     ".zip", ".tar", ".gz", ".rar", ".7z",
     ".mp3", ".mp4", ".avi", ".mov", ".wav", ".flac",
     ".ttf", ".otf", ".woff", ".woff2",
     ".lock", ".log"})

  /** `_is_useful_file`: the file name is not an ignored name (compared
      exactly) and its extension, lower-cased, is not an ignored extension. */
  predicate IsUsefulFile(filters: Filters, filepath: string)
  {
    var filename := BaseName(filepath);
    filename !in filters.files && Lower(Extension(filename)) !in filters.extensions
  }

  /** A file name with no extension, a dotfile such as ".gitignore" among
      them, is judged by the ignored names alone. */
  lemma DotStemJudgedByName(filters: Filters, filepath: string)
    requires var n := BaseName(filepath); forall j | 0 <= j < RFind(n, '.') :: n[j] == '.'
    ensures IsUsefulFile(filters, filepath) <==>
              BaseName(filepath) !in filters.files && "" !in filters.extensions
  {
    DotStemHasNoExtension(BaseName(filepath));
  }

  /** With the installed lists, a name without an extension is skipped
      exactly when it is one of the ignored names. */
  lemma DefaultsJudgeDotStemsByName(filepath: string)
    requires var n := BaseName(filepath); forall j | 0 <= j < RFind(n, '.') :: n[j] == '.'
    ensures IsUsefulFile(Defaults, filepath) <==> BaseName(filepath) !in Defaults.files
  {
    DotStemJudgedByName(Defaults, filepath);
    assert forall e | e in Defaults.extensions :: |e| > 0;
  }

  /** ".gitignore" is skipped by its name. */
  lemma DefaultsSkipGitignore()
    ensures !IsUsefulFile(Defaults, ".gitignore")
  {
    RFindAbsent(".gitignore", '/');
  }

  /** ".lock" is kept: it has no extension and is not an ignored name. */
  lemma DefaultsKeepDotLock()
    ensures IsUsefulFile(Defaults, ".lock")
  {
    RFindAbsent(".lock", '/');
    RFindAbsent("lock", '.');
    RFindAt(".lock", '.', 0);
    DefaultsJudgeDotStemsByName(".lock");
  }

  /** "x.lock" is skipped by its extension. */
  lemma DefaultsSkipLockFile()
    ensures !IsUsefulFile(Defaults, "x.lock")
  {
    RFindAbsent("x.lock", '/');
    RFindAbsent("lock", '.');
    RFindAt("x.lock", '.', 1);
    assert "x.lock"[0] != '.';
    assert Extension("x.lock") == ".lock";
    assert Lower(".lock") == ".lock";
  }

  /** `ingest_file`: `{name: content}` for a useful, readable file, else `{}`. */
  function IngestFile(filters: Filters, filepath: string, read: ReadOutcome): (r: map<string, string>)
    ensures r.Keys <= {BaseName(filepath)}
    ensures BaseName(filepath) in r <==> IsUsefulFile(filters, filepath) && read.Content?
    ensures forall k | k in r :: read.Content? && r[k] == read.text
  {
    if IsUsefulFile(filters, filepath) && read.Content? then map[BaseName(filepath) := read.text] else map[]
  }

  // ---------------------------------------------------------------------
  // Paths

  /** `"/".join(parts)`. */
  function JoinPath(parts: seq<string>): (r: string)
  {
    if parts == [] then ""
    else if |parts| == 1 then parts[0]
    else parts[0] + "/" + JoinPath(parts[1..])
  }

  lemma BaseNameAfterSlash(a: string, b: string)
    requires a != [] && a[|a| - 1] == '/'
    ensures BaseName(a + b) == BaseName(b)
  {
    var r := RFind(a + b, '/');
    var rb := RFind(b, '/');
    if rb >= 0 {
      assert (a + b)[|a| + rb] == '/';
      assert r == |a| + rb;
      assert (a + b)[r + 1..] == b[rb + 1..];
    } else {
      assert (a + b)[|a| - 1] == '/';
      assert forall j | |a| <= j < |a + b| :: (a + b)[j] == b[j - |a|];
      assert r == |a| - 1;
      assert (a + b)[r + 1..] == b;
    }
  }

  /** The base name of a joined path is its last component. */
  lemma {:induction false} JoinPathEndsWithLast(parts: seq<string>)
    requires parts != [] && '/' !in parts[|parts| - 1]
    ensures BaseName(JoinPath(parts)) == parts[|parts| - 1]
  {
    if |parts| > 1 {
      JoinPathEndsWithLast(parts[1..]);
      var rest := JoinPath(parts[1..]);
      assert JoinPath(parts) == (parts[0] + "/") + rest;
      BaseNameAfterSlash(parts[0] + "/", rest);
    } else {
      assert RFind(parts[0], '/') == -1;
    }
  }

  // ---------------------------------------------------------------------
  // The tree and the walk over it

  /** A directory entry: a file (with what opening and reading it gives) or
      a sub-directory with its own entries, in listing order. */
  datatype Entry = FileEntry(name: string, read: ReadOutcome) | DirEntry(name: string, entries: seq<Entry>)

  /** A file reached by the walk: the directory names leading to it from the
      root, its name and what reading it gives. */
  datatype Hit = Hit(dirs: seq<string>, name: string, read: ReadOutcome)

  /** `os.path.relpath(os.path.join(dirpath, filename), root_dir)`. */
  function RelPath(h: Hit): (r: string)
  {
    JoinPath(h.dirs + [h.name])
  }

  /** The regular files of a listing, in order. */
  function Files(entries: seq<Entry>): (r: seq<Entry>)
  {
    ConcatMap(entries, (e: Entry) => if e.FileEntry? then [e] else [])
  }

  /** The sub-directories of a listing, in order. */
  function SubDirs(entries: seq<Entry>): (r: seq<Entry>)
  {
    ConcatMap(entries, (e: Entry) => if e.DirEntry? then [e] else [])
  }

  /** The comprehension that prunes `dirnames` in place: the sub-directories
      whose name is not ignored, in order. */
  function Kept(filters: Filters, dirs: seq<Entry>): (r: seq<Entry>)
  {
    ConcatMap(dirs, (e: Entry) => if e.name !in filters.directories then [e] else [])
  }

  /** The hits for a list of files of the directory `dirs`, in order. */
  function HitsOf(dirs: seq<string>, files: seq<Entry>): (r: seq<Hit>)
  {
    ConcatMap(files, (e: Entry) => if e.FileEntry? then [Hit(dirs, e.name, e.read)] else [])
  }

  /** The hits for the files listed directly in a directory. */
  function FileHits(dirs: seq<string>, entries: seq<Entry>): (r: seq<Hit>)
  {
    HitsOf(dirs, Files(entries))
  }

  /** The files `os.walk` yields, top-down, with ignored directories pruned:
      those of this directory, then those of each kept sub-directory. */
  function Walk(filters: Filters, dirs: seq<string>, entries: seq<Entry>): (r: seq<Hit>)
    decreases entries, 1
  {
    FileHits(dirs, entries) + DirHits(filters, dirs, entries)
  }

  function DirHits(filters: Filters, dirs: seq<string>, entries: seq<Entry>): (r: seq<Hit>)
    decreases entries, 0
  {
    if entries == [] then []
    else
      var e := entries[0];
      (if e.DirEntry? && e.name !in filters.directories then Walk(filters, dirs + [e.name], e.entries) else [])
      + DirHits(filters, dirs, entries[1..])
  }

  /** Every file of the tree, in the same order, without pruning. */
  function Tree(dirs: seq<string>, entries: seq<Entry>): (r: seq<Hit>)
    decreases entries, 1
  {
    FileHits(dirs, entries) + TreeDirHits(dirs, entries)
  }

  function TreeDirHits(dirs: seq<string>, entries: seq<Entry>): (r: seq<Hit>)
    decreases entries, 0
  {
    if entries == [] then []
    else
      var e := entries[0];
      (if e.DirEntry? then Tree(dirs + [e.name], e.entries) else []) + TreeDirHits(dirs, entries[1..])
  }

  /** No directory entered below depth `base` of the hit's path is ignored. */
  predicate OutsideIgnored(filters: Filters, base: nat, h: Hit)
  {
    forall i | base <= i < |h.dirs| :: h.dirs[i] !in filters.directories
  }

  /** The hits that do not lie beneath an ignored directory entered below
      depth `base`, in order. */
  function Visible(filters: Filters, base: nat, hits: seq<Hit>): (r: seq<Hit>)
  {
    ConcatMap(hits, (h: Hit) => if OutsideIgnored(filters, base, h) then [h] else [])
  }

  /** The walk of one sub-directory entry. */
  function SubtreeHits(filters: Filters, dirs: seq<string>, d: Entry): (r: seq<Hit>)
  {
    if d.DirEntry? then Walk(filters, dirs + [d.name], d.entries) else []
  }

  /** The walks of a list of sub-directories, in order. */
  function SubtreesHits(filters: Filters, dirs: seq<string>, ds: seq<Entry>): (r: seq<Hit>)
  {
    ConcatMap(ds, (d: Entry) => SubtreeHits(filters, dirs, d))
  }

  /** The dictionary built from a sequence of hits: a useful, readable file
      is stored under its relative path; a later hit overwrites an earlier one. */
  function Collect(filters: Filters, hits: seq<Hit>): (r: map<string, string>)
  {
    if hits == [] then map[]
    else
      var h := hits[|hits| - 1];
      var m := Collect(filters, hits[..|hits| - 1]);
      if IsUsefulFile(filters, RelPath(h)) && h.read.Content? then m[RelPath(h) := h.read.text] else m
  }

  // ---------------------------------------------------------------------
  // The stack of pending directories

  /** A pending directory of the walk: its path from the root and its entries. */
  datatype Frame = Frame(dirs: seq<string>, entries: seq<Entry>)

  /** The files still to be yielded for a stack of pending directories (the
      top of the stack, last in the sequence, comes first). */
  function Pending(filters: Filters, stack: seq<Frame>): (r: seq<Hit>)
  {
    if stack == [] then []
    else
      var top := stack[|stack| - 1];
      Walk(filters, top.dirs, top.entries) + Pending(filters, stack[..|stack| - 1])
  }

  /** The number of entries in a listing, counted through every sub-directory. */
  function Size(entries: seq<Entry>): (r: nat)
  {
    if entries == [] then 0
    else
      (if entries[0].DirEntry? then 1 + Size(entries[0].entries) else 1) + Size(entries[1..])
  }

  function Weight(stack: seq<Frame>): (r: nat)
  {
    if stack == [] then 0
    else Weight(stack[..|stack| - 1]) + 1 + Size(stack[|stack| - 1].entries)
  }

  lemma {:induction false} SizeAppend(a: seq<Entry>, b: seq<Entry>)
    ensures Size(a + b) == Size(a) + Size(b)
  {
    if a == [] {
      assert a + b == b;
    } else {
      assert (a + b)[0] == a[0];
      assert (a + b)[1..] == a[1..] + b;
      SizeAppend(a[1..], b);
    }
  }

  /** Keeping some entries of a listing never makes it larger. */
  lemma {:induction false} SizeOfSelection(es: seq<Entry>, keep: Entry -> bool)
    ensures Size(ConcatMap(es, (e: Entry) => if keep(e) then [e] else [])) <= Size(es)
  {
    if es != [] {
      var init, last := es[..|es| - 1], es[|es| - 1];
      SizeOfSelection(init, keep);
      assert es == init + [last];
      SizeAppend(init, [last]);
      var sel := ConcatMap(init, (e: Entry) => if keep(e) then [e] else []);
      SizeAppend(sel, if keep(last) then [last] else []);
    }
  }

  lemma KeptSubDirsSize(filters: Filters, es: seq<Entry>)
    ensures Size(Kept(filters, SubDirs(es))) <= Size(es)
  {
    var isDir := (e: Entry) => e.DirEntry?;
    SizeOfSelection(es, isDir);
    ConcatMapCongruence(es, (e: Entry) => if isDir(e) then [e] else [],
                            (e: Entry) => if e.DirEntry? then [e] else []);
    var notIgnored := (e: Entry) => e.name !in filters.directories;
    SizeOfSelection(SubDirs(es), notIgnored);
    ConcatMapCongruence(SubDirs(es), (e: Entry) => if notIgnored(e) then [e] else [],
                                     (e: Entry) => if e.name !in filters.directories then [e] else []);
  }

  lemma ListingsAreSplit(filters: Filters, es: seq<Entry>)
    ensures forall e | e in Files(es) :: e.FileEntry? && e in es
    ensures forall e | e in Kept(filters, SubDirs(es)) :: e.DirEntry? && e.name !in filters.directories && e in es
  {
    ConcatMapOrigin(es, (e: Entry) => if e.FileEntry? then [e] else []);
    ConcatMapOrigin(es, (e: Entry) => if e.DirEntry? then [e] else []);
    ConcatMapOrigin(SubDirs(es), (e: Entry) => if e.name !in filters.directories then [e] else []);
  }

  /** Walking the kept sub-directories one after the other is what `DirHits`
      describes. */
  lemma {:induction false} DirHitsAreKeptSubtrees(filters: Filters, dirs: seq<string>, es: seq<Entry>)
    ensures DirHits(filters, dirs, es) == SubtreesHits(filters, dirs, Kept(filters, SubDirs(es)))
  {
    if es != [] {
      var e := es[0];
      DirHitsAreKeptSubtrees(filters, dirs, es[1..]);
      var sd := if e.DirEntry? then [e] else [];
      ConcatMapCons(es, (e: Entry) => if e.DirEntry? then [e] else []);
      ConcatMapAppend(sd, SubDirs(es[1..]), (e: Entry) => if e.name !in filters.directories then [e] else []);
      var kept := Kept(filters, sd);
      ConcatMapAppend(kept, Kept(filters, SubDirs(es[1..])), (d: Entry) => SubtreeHits(filters, dirs, d));
      if e.DirEntry? {
        ConcatMapSingle(e, (e: Entry) => if e.name !in filters.directories then [e] else []);
        ConcatMapSingle(e, (d: Entry) => SubtreeHits(filters, dirs, d));
      }
    }
  }

  lemma PendingPush(filters: Filters, stack: seq<Frame>, fr: Frame)
    ensures Pending(filters, stack + [fr]) == Walk(filters, fr.dirs, fr.entries) + Pending(filters, stack)
    ensures Weight(stack + [fr]) == Weight(stack) + 1 + Size(fr.entries)
  {
    assert (stack + [fr])[..|stack|] == stack;
  }

  lemma SubtreesCons(filters: Filters, dirs: seq<string>, ds: seq<Entry>)
    requires ds != [] && ds[0].DirEntry?
    ensures SubtreesHits(filters, dirs, ds) ==
              Walk(filters, dirs + [ds[0].name], ds[0].entries) + SubtreesHits(filters, dirs, ds[1..])
    ensures Size(ds) == 1 + Size(ds[0].entries) + Size(ds[1..])
  {
    ConcatMapCons(ds, (d: Entry) => SubtreeHits(filters, dirs, d));
  }

  /** One push of the loop in `PushSubdirectories` keeps its invariant. */
  lemma PushStep(filters: Filters, stack0: seq<Frame>, stack: seq<Frame>, dirs: seq<string>, subdirs: seq<Entry>, k: nat)
    requires 0 < k <= |subdirs| && subdirs[k - 1].DirEntry?
    requires Pending(filters, stack) == SubtreesHits(filters, dirs, subdirs[k..]) + Pending(filters, stack0)
    requires Weight(stack) == Weight(stack0) + Size(subdirs[k..])
    ensures var fr := Frame(dirs + [subdirs[k - 1].name], subdirs[k - 1].entries);
      && Pending(filters, stack + [fr]) == SubtreesHits(filters, dirs, subdirs[k - 1..]) + Pending(filters, stack0)
      && Weight(stack + [fr]) == Weight(stack0) + Size(subdirs[k - 1..])
  {
    var d := subdirs[k - 1];
    var fr := Frame(dirs + [d.name], d.entries);
    PendingPush(filters, stack, fr);
    assert subdirs[k - 1..][1..] == subdirs[k..];
    SubtreesCons(filters, dirs, subdirs[k - 1..]);
    PrependAssoc(Walk(filters, fr.dirs, fr.entries), Pending(filters, stack),
                 SubtreesHits(filters, dirs, subdirs[k..]), Pending(filters, stack0),
                 SubtreesHits(filters, dirs, subdirs[k - 1..]));
  }

  lemma PrependAssoc<T>(w: seq<T>, p: seq<T>, t: seq<T>, q: seq<T>, s: seq<T>)
    requires p == t + q && s == w + t
    ensures w + p == s + q
  {
  }

  /** One step of the walk: the files of the top directory, then the walks
      of its kept sub-directories, then the rest of the stack. */
  lemma PendingPop(filters: Filters, stack: seq<Frame>)
    requires stack != []
    ensures var top := stack[|stack| - 1];
      Pending(filters, stack) == FileHits(top.dirs, top.entries)
                        + SubtreesHits(filters, top.dirs, Kept(filters, SubDirs(top.entries)))
                        + Pending(filters, stack[..|stack| - 1])
    ensures var top := stack[|stack| - 1];
      Weight(stack) > Weight(stack[..|stack| - 1]) + Size(Kept(filters, SubDirs(top.entries)))
  {
    var top := stack[|stack| - 1];
    DirHitsAreKeptSubtrees(filters, top.dirs, top.entries);
    KeptSubDirsSize(filters, top.entries);
  }

  /** The walk invariant `done + Pending(stack)` survives one directory. */
  lemma WalkStep(done: seq<Hit>, files: seq<Hit>, subtrees: seq<Hit>, rest: seq<Hit>, whole: seq<Hit>)
    requires done + (files + subtrees + rest) == whole
    ensures (done + files) + (subtrees + rest) == whole
  {
    assert done + (files + subtrees + rest) == (done + files) + (subtrees + rest);
  }

  lemma CollectSnoc(filters: Filters, hits: seq<Hit>, h: Hit)
    ensures Collect(filters, hits + [h]) ==
      if IsUsefulFile(filters, RelPath(h)) && h.read.Content? then Collect(filters, hits)[RelPath(h) := h.read.text]
      else Collect(filters, hits)
  {
    assert (hits + [h])[..|hits|] == hits;
  }

  /** The keys of `Collect(filters, hits)` in the order the dict keeps
      them: a path takes its place when it is first stored, and storing it
      again replaces the text without moving it. */
  function KeyOrder(filters: Filters, hits: seq<Hit>): (r: seq<string>)
  {
    if hits == [] then []
    else
      var h := hits[|hits| - 1];
      var ks := KeyOrder(filters, hits[..|hits| - 1]);
      if IsUsefulFile(filters, RelPath(h)) && h.read.Content? && RelPath(h) !in ks then ks + [RelPath(h)] else ks
  }

  lemma KeyOrderSnoc(filters: Filters, hits: seq<Hit>, h: Hit)
    ensures KeyOrder(filters, hits + [h]) ==
      var ks := KeyOrder(filters, hits);
      if IsUsefulFile(filters, RelPath(h)) && h.read.Content? && RelPath(h) !in ks then ks + [RelPath(h)] else ks
  {
    assert (hits + [h])[..|hits|] == hits;
  }

  /** The ordered keys are the map's keys, each once. */
  lemma {:induction false} KeyOrderIsKeys(filters: Filters, hits: seq<Hit>)
    ensures forall k :: k in KeyOrder(filters, hits) <==> k in Collect(filters, hits)
    ensures Distinct(KeyOrder(filters, hits))
  {
    if hits != [] {
      var init, h := hits[..|hits| - 1], hits[|hits| - 1];
      KeyOrderIsKeys(filters, init);
      KeysStep(KeyOrder(filters, init), Collect(filters, init), RelPath(h),
               if h.read.Content? then h.read.text else "", IsUsefulFile(filters, RelPath(h)) && h.read.Content?);
    }
  }

  /** One stored (or skipped) file keeps the ordered keys and the map's
      keys together. */
  lemma KeysStep(ks: seq<string>, m: map<string, string>, k: string, v: string, store: bool)
    requires forall x :: x in ks <==> x in m
    requires Distinct(ks)
    ensures var ks' := if store && k !in ks then ks + [k] else ks;
      var m' := if store then m[k := v] else m;
      (forall x :: x in ks' <==> x in m') && Distinct(ks')
  {
  }

  /** Files met earlier keep their keys in front: the keys stored by the
      first `n` hits are a prefix of the keys. */
  lemma {:induction false} KeyOrderPrefix(filters: Filters, hits: seq<Hit>, n: nat)
    requires n <= |hits|
    ensures KeyOrder(filters, hits[..n]) <= KeyOrder(filters, hits)
  {
    if n == |hits| {
      assert hits[..n] == hits;
    } else {
      var init := hits[..|hits| - 1];
      KeyOrderPrefix(filters, init, n);
      assert init[..n] == hits[..n];
      var ks := KeyOrder(filters, init);
      assert ks <= KeyOrder(filters, hits);
    }
  }



  lemma HitsOfSnoc(dirs: seq<string>, files: seq<Entry>, j: nat)
    requires j < |files| && files[j].FileEntry?
    ensures HitsOf(dirs, files[..j + 1]) == HitsOf(dirs, files[..j]) + [Hit(dirs, files[j].name, files[j].read)]
  {
    assert files[..j + 1][..j] == files[..j];
  }

  // ---------------------------------------------------------------------
  // The methods

  /** The loop over the files of one directory: each useful, readable file
      is stored under its relative path. */
  method IngestFiles(filters: Filters, data0: map<string, string>, order0: seq<string>, ghost done: seq<Hit>,
                     dirs: seq<string>, files: seq<Entry>)
    returns (data: map<string, string>, order: seq<string>)
    requires data0 == Collect(filters, done) && order0 == KeyOrder(filters, done)
    requires forall f | f in files :: f.FileEntry?
    ensures data == Collect(filters, done + HitsOf(dirs, files))
    ensures order == KeyOrder(filters, done + HitsOf(dirs, files))
  {
    data, order := data0, order0;
    var j := 0;
    assert done + HitsOf(dirs, files[..0]) == done by {
      assert files[..0] == [];
    }
    while j < |files|
      invariant 0 <= j <= |files|
      invariant data == Collect(filters, done + HitsOf(dirs, files[..j]))
      invariant order == KeyOrder(filters, done + HitsOf(dirs, files[..j]))
    {
      var f := files[j];
      var relativePath := JoinPath(dirs + [f.name]);
      ghost var h := Hit(dirs, f.name, f.read);
      ghost var before := done + HitsOf(dirs, files[..j]);
      HitsOfSnoc(dirs, files, j);
      assert done + HitsOf(dirs, files[..j + 1]) == before + [h];
      CollectSnoc(filters, before, h);
      KeyOrderSnoc(filters, before, h);
      KeyOrderIsKeys(filters, before);
      if IsUsefulFile(filters, relativePath) && f.read.Content? {
        // a new key goes last; an existing key keeps its place
        if relativePath !in data {
          order := order + [relativePath];
        }
        data := data[relativePath := f.read.text];
      }
      j := j + 1;
    }
    assert files[..j] == files;
  }

  /** `os.walk` resuming after a directory: its remaining sub-directories are
      pushed last first, so that the first of them is walked next. */
  method PushSubdirectories(filters: Filters, stack0: seq<Frame>, dirs: seq<string>, subdirs: seq<Entry>)
    returns (stack: seq<Frame>)
    requires forall d | d in subdirs :: d.DirEntry?
    ensures Pending(filters, stack) == SubtreesHits(filters, dirs, subdirs) + Pending(filters, stack0)
    ensures Weight(stack) == Weight(stack0) + Size(subdirs)
  {
    stack := stack0;
    var k := |subdirs|;
    assert SubtreesHits(filters, dirs, subdirs[k..]) == [] && Size(subdirs[k..]) == 0 by {
      assert subdirs[k..] == [];
    }
    while k > 0
      invariant 0 <= k <= |subdirs|
      invariant Pending(filters, stack) == SubtreesHits(filters, dirs, subdirs[k..]) + Pending(filters, stack0)
      invariant Weight(stack) == Weight(stack0) + Size(subdirs[k..])
    {
      assert subdirs[k - 1] in subdirs;
      PushStep(filters, stack0, stack, dirs, subdirs, k);
      var d := subdirs[k - 1];
      stack := stack + [Frame(dirs + [d.name], d.entries)];
      k := k - 1;
    }
  }

  /** `ingest_folder`: walks the tree top-down with a stack of pending
      directories, pruning ignored sub-directories before they are entered,
      and stores every useful, readable file under its relative path. */
  method IngestFolder(filters: Filters, root: seq<Entry>) returns (data: map<string, string>, order: seq<string>)
    ensures data == Collect(filters, Walk(filters, [], root))
    ensures order == KeyOrder(filters, Walk(filters, [], root))
  {
    data, order := map[], [];
    ghost var whole := Walk(filters, [], root);
    ghost var done: seq<Hit> := [];
    var stack := [Frame([], root)];
    PendingPush(filters, [], Frame([], root));
    assert [] + [Frame([], root)] == stack;
    while stack != []
      invariant done + Pending(filters, stack) == whole
      invariant data == Collect(filters, done) && order == KeyOrder(filters, done)
      decreases Weight(stack)
    {
      PendingPop(filters, stack);
      var top := stack[|stack| - 1];
      stack := stack[..|stack| - 1];
      var dirnames := SubDirs(top.entries);
      var filenames := Files(top.entries);
      // ignored sub-directories are pruned before the walk enters them
      dirnames := Kept(filters, dirnames);
      ListingsAreSplit(filters, top.entries);
      data, order := IngestFiles(filters, data, order, done, top.dirs, filenames);
      ghost var rest := Pending(filters, stack);
      stack := PushSubdirectories(filters, stack, top.dirs, dirnames);
      WalkStep(done, FileHits(top.dirs, top.entries), SubtreesHits(filters, top.dirs, dirnames), rest, whole);
      done := done + FileHits(top.dirs, top.entries);
    }
    assert done + [] == done;
  }

  /** `ingest_github_repo`: the clone is given as its outcome (the cloned
      tree, or `None` when cloning failed); a failed clone gives `{}`. */
  method IngestGithubRepo(filters: Filters, clone: Option<seq<Entry>>)
    returns (data: map<string, string>, order: seq<string>)
    ensures clone.None? ==> data == map[] && order == []
    ensures clone.Some? ==> data == Collect(filters, Walk(filters, [], clone.value))
    ensures clone.Some? ==> order == KeyOrder(filters, Walk(filters, [], clone.value))
  {
    if clone.None? {
      return map[], [];
    }
    data, order := IngestFolder(filters, clone.value);
  }

  // ---------------------------------------------------------------------
  // What the walk visits

  lemma FileHitsDirs(dirs: seq<string>, es: seq<Entry>)
    ensures forall h | h in FileHits(dirs, es) :: h.dirs == dirs
  {
    ConcatMapOrigin(Files(es), (e: Entry) => if e.FileEntry? then [Hit(dirs, e.name, e.read)] else []);
  }

  /** Every file of a tree lies below the path of its root. */
  lemma {:induction false} TreePrefix(dirs: seq<string>, es: seq<Entry>)
    ensures forall h | h in Tree(dirs, es) :: |dirs| <= |h.dirs| && h.dirs[..|dirs|] == dirs
    decreases es, 1
  {
    FileHitsDirs(dirs, es);
    TreeDirHitsPrefix(dirs, es);
  }

  lemma {:induction false} TreeDirHitsPrefix(dirs: seq<string>, es: seq<Entry>)
    ensures forall h | h in TreeDirHits(dirs, es) :: |dirs| <= |h.dirs| && h.dirs[..|dirs|] == dirs
    decreases es, 0
  {
    if es != [] {
      var e := es[0];
      TreeDirHitsPrefix(dirs, es[1..]);
      if e.DirEntry? {
        var sub := dirs + [e.name];
        TreePrefix(sub, e.entries);
        forall h | h in Tree(sub, e.entries)
          ensures h.dirs[..|dirs|] == dirs
        {
          assert h.dirs[..|dirs|] == h.dirs[..|sub|][..|dirs|];
        }
      }
    }
  }

  lemma VisibleAll(filters: Filters, base: nat, hits: seq<Hit>)
    requires forall h | h in hits :: OutsideIgnored(filters, base, h)
    ensures Visible(filters, base, hits) == hits
  {
    ConcatMapCongruence(hits, (h: Hit) => if OutsideIgnored(filters, base, h) then [h] else [], (h: Hit) => [h]);
    ConcatMapOfSingletons(hits);
  }

  lemma {:induction false} ConcatMapOfSingletons(hits: seq<Hit>)
    ensures ConcatMap(hits, (h: Hit) => [h]) == hits
  {
    if hits != [] {
      ConcatMapOfSingletons(hits[..|hits| - 1]);
      assert hits == hits[..|hits| - 1] + [hits[|hits| - 1]];
    }
  }

  lemma VisibleNone(filters: Filters, base: nat, hits: seq<Hit>)
    requires forall h | h in hits :: !OutsideIgnored(filters, base, h)
    ensures Visible(filters, base, hits) == []
  {
    ConcatMapNone(hits, (h: Hit) => if OutsideIgnored(filters, base, h) then [h] else []);
  }

  /** Below a directory that is not ignored, only deeper directories decide. */
  lemma VisibleShift(filters: Filters, base: nat, hits: seq<Hit>)
    requires forall h | h in hits :: base < |h.dirs| && h.dirs[base] !in filters.directories
    ensures Visible(filters, base, hits) == Visible(filters, base + 1, hits)
  {
    forall h | h in hits
      ensures OutsideIgnored(filters, base, h) == OutsideIgnored(filters, base + 1, h)
    {
    }
    ConcatMapCongruence(hits, (h: Hit) => if OutsideIgnored(filters, base, h) then [h] else [],
                              (h: Hit) => if OutsideIgnored(filters, base + 1, h) then [h] else []);
  }

  lemma VisibleAppend(filters: Filters, base: nat, a: seq<Hit>, b: seq<Hit>)
    ensures Visible(filters, base, a + b) == Visible(filters, base, a) + Visible(filters, base, b)
  {
    ConcatMapAppend(a, b, (h: Hit) => if OutsideIgnored(filters, base, h) then [h] else []);
  }

  /** Pruning ignored directories while walking yields exactly the files of
      the whole tree that do not lie beneath an ignored directory, in the
      same order. */
  lemma {:induction false} WalkIsVisibleTree(filters: Filters, dirs: seq<string>, es: seq<Entry>)
    ensures Walk(filters, dirs, es) == Visible(filters, |dirs|, Tree(dirs, es))
    decreases es, 1
  {
    var fh := FileHits(dirs, es);
    FileHitsDirs(dirs, es);
    VisibleAll(filters, |dirs|, fh);
    VisibleAppend(filters, |dirs|, fh, TreeDirHits(dirs, es));
    DirHitsAreVisible(filters, dirs, es);
  }

  lemma {:induction false} DirHitsAreVisible(filters: Filters, dirs: seq<string>, es: seq<Entry>)
    ensures DirHits(filters, dirs, es) == Visible(filters, |dirs|, TreeDirHits(dirs, es))
    decreases es, 0
  {
    if es != [] {
      var e := es[0];
      var a := if e.DirEntry? then Tree(dirs + [e.name], e.entries) else [];
      DirHitsAreVisible(filters, dirs, es[1..]);
      VisibleAppend(filters, |dirs|, a, TreeDirHits(dirs, es[1..]));
      if e.DirEntry? {
        SubtreeBelow(filters, dirs, e.name, e.entries);
      }
    }
  }

  /** A sub-directory's walk is its visible files if its name is kept, and
      nothing if its name is ignored. */
  lemma {:induction false} SubtreeBelow(filters: Filters, dirs: seq<string>, name: string, es: seq<Entry>)
    ensures Visible(filters, |dirs|, Tree(dirs + [name], es)) ==
              if name in filters.directories then [] else Walk(filters, dirs + [name], es)
    decreases es, 2
  {
    var sub := dirs + [name];
    var t := Tree(sub, es);
    TreePrefix(sub, es);
    forall h | h in t
      ensures |dirs| < |h.dirs| && h.dirs[|dirs|] == name
    {
      assert h.dirs[|dirs|] == h.dirs[..|sub|][|dirs|];
    }
    if name in filters.directories {
      VisibleNone(filters, |dirs|, t);
    } else {
      WalkIsVisibleTree(filters, sub, es);
      VisibleShift(filters, |dirs|, t);
    }
  }

  /** A file is walked exactly when it is in the tree and no directory on
      its path is ignored. */
  lemma WalkMembership(filters: Filters, root: seq<Entry>)
    ensures forall h :: h in Walk(filters, [], root) <==> h in Tree([], root) && OutsideIgnored(filters, 0, h)
  {
    WalkIsVisibleTree(filters, [], root);
    var keep := (h: Hit) => if OutsideIgnored(filters, 0, h) then [h] else [];
    ConcatMapOrigin(Tree([], root), keep);
    ConcatMapComplete(Tree([], root), keep);
  }

  /** With no ignored directory names nothing is pruned. */
  lemma WalkWithoutIgnoredDirectories(filters: Filters, dirs: seq<string>, root: seq<Entry>)
    requires filters.directories == {}
    ensures Walk(filters, dirs, root) == Tree(dirs, root)
  {
    WalkIsVisibleTree(filters, dirs, root);
    VisibleAll(filters, |dirs|, Tree(dirs, root));
  }

  // ---------------------------------------------------------------------
  // What the dictionary holds

  /** A hit is stored when its file is useful and could be read. */
  predicate Stored(filters: Filters, h: Hit)
  {
    IsUsefulFile(filters, RelPath(h)) && h.read.Content?
  }

  /** Files are judged by their own name, wherever they lie in the tree. */
  lemma RelPathJudgedByName(filters: Filters, h: Hit)
    requires '/' !in h.name
    ensures IsUsefulFile(filters, RelPath(h)) == IsUsefulFile(filters, h.name)
  {
    JoinPathEndsWithLast(h.dirs + [h.name]);
    assert BaseName(h.name) == h.name;
  }

  /** The keys of the dictionary are the relative paths of the stored hits. */
  lemma {:induction false} CollectKeys(filters: Filters, hits: seq<Hit>)
    ensures forall k :: k in Collect(filters, hits) <==> exists h | h in hits :: Stored(filters, h) && RelPath(h) == k
  {
    if hits != [] {
      var init, last := hits[..|hits| - 1], hits[|hits| - 1];
      CollectKeys(filters, init);
      assert hits == init + [last];
      forall k
        ensures k in Collect(filters, hits) <==> exists h | h in hits :: Stored(filters, h) && RelPath(h) == k
      {
        if k in Collect(filters, hits) && !(Stored(filters, last) && RelPath(last) == k) {
          assert k in Collect(filters, init);
          var h :| h in init && Stored(filters, h) && RelPath(h) == k;
          assert h in hits;
        }
        if exists h | h in hits :: Stored(filters, h) && RelPath(h) == k {
          var h :| h in hits && Stored(filters, h) && RelPath(h) == k;
          if h != last {
            assert h in init;
          }
        }
      }
    }
  }

  /** A stored hit's text is what the dictionary holds under its path unless
      a later stored hit has the same path: the last one wins. */
  lemma {:induction false} CollectLastWins(filters: Filters, hits: seq<Hit>, i: nat)
    requires i < |hits| && Stored(filters, hits[i])
    requires forall j | i < j < |hits| :: Stored(filters, hits[j]) ==> RelPath(hits[j]) != RelPath(hits[i])
    ensures RelPath(hits[i]) in Collect(filters, hits)
    ensures Collect(filters, hits)[RelPath(hits[i])] == hits[i].read.text
  {
    var init, last := hits[..|hits| - 1], hits[|hits| - 1];
    assert hits == init + [last];
    CollectSnoc(filters, init, last);
    if i < |hits| - 1 {
      assert forall j | i <= j < |init| :: init[j] == hits[j];
      CollectLastWins(filters, init, i);
      assert Stored(filters, last) ==> RelPath(last) != RelPath(hits[i]);
    }
  }

  /** `ingest_folder`'s dictionary: its keys are the relative paths of the
      useful, readable files of the tree that lie beneath no ignored
      directory. */
  lemma FolderKeys(filters: Filters, root: seq<Entry>, k: string)
    ensures k in Collect(filters, Walk(filters, [], root)) <==>
              exists h | h in Tree([], root) :: OutsideIgnored(filters, 0, h) && Stored(filters, h) && RelPath(h) == k
  {
    CollectKeys(filters, Walk(filters, [], root));
    WalkMembership(filters, root);
  }
}
