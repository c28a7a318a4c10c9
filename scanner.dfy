/**
 * The directory scanner (`list_dirs` and `list_files`): walks every base
 * directory registered for a folder type and returns sorted, de-duplicated
 * relative paths.
 */
module Scanner {
  import opened Wrappers
  import opened Strings
  import opened Sorting
  import opened FileSystem

  /** `os.path.relpath(os.path.join(root, name), base).replace("\\", "/")`. */
  function RelName(root: string, name: string): string {
    ReplaceAll(Join(root, name), "\\", "/")
  }

  /** The relative paths of the first names of one walk step. */
  function NamesUnder(root: string, names: seq<string>): set<string> {
    if names == [] then {}
    else NamesUnder(root, names[..|names| - 1]) + {RelName(root, names[|names| - 1])}
  }

  /** Every sub-directory one walk reports, relative to its base. */
  function WalkDirs(walk: seq<Entry>): set<string> {
    if walk == [] then {}
    else WalkDirs(walk[..|walk| - 1]) + NamesUnder(walk[|walk| - 1].root, walk[|walk| - 1].subdirs)
  }

  /** The union of the sub-directories of all `bases`. */
  function BasesDirs(fs: Fs, bases: seq<string>): set<string> {
    if bases == [] then {}
    else BasesDirs(fs, bases[..|bases| - 1]) + WalkDirs(WalkOf(fs, bases[|bases| - 1]))
  }

  lemma ToSetAppend(s: seq<string>, x: string)
    ensures ToSet(s + [x]) == ToSet(s) + {x}
  {
  }

  /** Sub-directory paths are reported with forward slashes only. */
  lemma {:induction false} NamesUnderClean(root: string, names: seq<string>)
    ensures forall d | d in NamesUnder(root, names) :: '\\' !in d
  {
    if names != [] {
      NamesUnderClean(root, names[..|names| - 1]);
      ReplaceCharRemoves(Join(root, names[|names| - 1]), '\\', "/");
    }
  }

  lemma {:induction false} WalkDirsClean(walk: seq<Entry>)
    ensures forall d | d in WalkDirs(walk) :: '\\' !in d
  {
    if walk != [] {
      WalkDirsClean(walk[..|walk| - 1]);
      NamesUnderClean(walk[|walk| - 1].root, walk[|walk| - 1].subdirs);
    }
  }

  lemma {:induction false} BasesDirsClean(fs: Fs, bases: seq<string>)
    ensures forall d | d in BasesDirs(fs, bases) :: '\\' !in d
  {
    if bases != [] {
      BasesDirsClean(fs, bases[..|bases| - 1]);
      WalkDirsClean(WalkOf(fs, bases[|bases| - 1]));
    }
  }

  /**
   * `list_dirs(folder_type)`: "" (the base itself) and every sub-directory of
   * every base, sorted, each once.
   */
  method ListDirs(fs: Fs, folderType: string) returns (r: seq<string>)
    ensures StrictlySorted(r)
    ensures ToSet(r) == {""} + BasesDirs(fs, Bases(fs, folderType))
    ensures r != [] && r[0] == ""
  {
    var dirs: set<string> := {""};
    var bases := Bases(fs, folderType);
    for i := 0 to |bases|
      invariant dirs == {""} + BasesDirs(fs, bases[..i])
    {
      assert bases[..i + 1][..i] == bases[..i];
      var walk := WalkOf(fs, bases[i]);
      for j := 0 to |walk|
        invariant dirs == {""} + BasesDirs(fs, bases[..i]) + WalkDirs(walk[..j])
      {
        assert walk[..j + 1][..j] == walk[..j];
        dirs := DirStep(walk[j], dirs);
      }
      assert walk[..|walk|] == walk;
    }
    assert bases[..|bases|] == bases;
    r := SortSet(dirs);
    EmptyFirst(r);
  }

  /** Every sub-directory one walk reports, relative to its base, with its names as they are. */
  function WalkedDirs(walk: seq<Entry>): set<string> {
    set e, d | e in walk && d in e.subdirs :: Join(e.root, d)
  }

  /**
   * `os.path.isdir(os.path.join(base, rel_dir) if rel_dir else base)`. The
   * path is tested as given: a directory `a\b`, which `list_dirs` reports
   * as "a/b", is not found under "a/b".
   */
  predicate IsDir(fs: Fs, base: string, relDir: string) {
    base in fs.walks && (relDir == "" || relDir in WalkedDirs(fs.walks[base]))
  }

  /** The walk step visits `relDir` or a directory below it. */
  predicate InSubtree(root: string, relDir: string) {
    relDir == "" || root == relDir || StartsWith(root, relDir + "/")
  }

  /** `os.path.relpath(root, dir_path)` for a step inside `relDir`. */
  function Reroot(root: string, relDir: string): string
    requires InSubtree(root, relDir)
  {
    if relDir == "" then root
    else if root == relDir then ""
    else root[|relDir| + 1..]
  }

  /** The steps of `os.walk(dir_path)`: the base's steps inside `relDir`, in the same order. */
  function SubWalk(walk: seq<Entry>, relDir: string): (r: seq<Entry>)
    ensures forall e | e in r :: e in walk && InSubtree(e.root, relDir)
  {
    if walk == [] then []
    else
      var last := walk[|walk| - 1];
      SubWalk(walk[..|walk| - 1], relDir) + (if InSubtree(last.root, relDir) then [last] else [])
  }

  /**
   * What `list_files` appends for file `f` of a step under `relDir`:
   * the path relative to `dir_path`, put back under `rel_dir` when that is not "".
   */
  function ListedName(root: string, f: string, relDir: string): string
    requires InSubtree(root, relDir)
  {
    var rel := ReplaceAll(Join(Reroot(root, relDir), f), "\\", "/");
    if relDir == "" then rel else ReplaceAll(PathJoin(relDir, rel), "\\", "/")
  }

  function NamesListed(root: string, names: seq<string>, relDir: string): set<string>
    requires InSubtree(root, relDir)
  {
    if names == [] then {}
    else
      var f := names[|names| - 1];
      NamesListed(root, names[..|names| - 1], relDir) + (if Eligible(f) then {ListedName(root, f, relDir)} else {})
  }

  function WalkListed(walk: seq<Entry>, relDir: string): set<string>
    requires forall e | e in walk :: InSubtree(e.root, relDir)
  {
    if walk == [] then {}
    else
      var e := walk[|walk| - 1];
      WalkListed(walk[..|walk| - 1], relDir) + NamesListed(e.root, e.fnames, relDir)
  }

  function BasesListed(fs: Fs, bases: seq<string>, relDir: string): set<string> {
    if bases == [] then {}
    else
      var b := bases[|bases| - 1];
      BasesListed(fs, bases[..|bases| - 1], relDir) +
      (if IsDir(fs, b, relDir) then WalkListed(SubWalk(WalkOf(fs, b), relDir), relDir) else {})
  }

  /** The set `list_files(folder_type, rel_dir)` lists. */
  function ListedFiles(fs: Fs, folderType: string, relDir: string): set<string> {
    BasesListed(fs, Bases(fs, folderType), relDir)
  }

  /**
   * `list_files(folder_type, rel_dir)`: eligible files at or below `rel_dir`
   * in every base where `rel_dir` is a directory, sorted, each once. A type
   * where `rel_dir` is nowhere a directory yields the empty list, not an error.
   */
  method ListFiles(fs: Fs, folderType: string, relDir: string) returns (r: seq<string>)
    ensures StrictlySorted(r)
    ensures ToSet(r) == ListedFiles(fs, folderType, relDir)
    ensures (forall b | b in Bases(fs, folderType) :: !IsDir(fs, b, relDir)) ==> r == []
  {
    var files: seq<string> := [];
    var bases := Bases(fs, folderType);
    for i := 0 to |bases|
      invariant ToSet(files) == BasesListed(fs, bases[..i], relDir)
    {
      assert bases[..i + 1][..i] == bases[..i];
      var base := bases[i];
      assert BasesListed(fs, bases[..i + 1], relDir) == BasesListed(fs, bases[..i], relDir) +
        (if IsDir(fs, base, relDir) then WalkListed(SubWalk(WalkOf(fs, base), relDir), relDir) else {});
      if !IsDir(fs, base, relDir) {
        continue;
      }
      files := WalkFiles(SubWalk(WalkOf(fs, base), relDir), relDir, files);
    }
    assert bases[..|bases|] == bases;
    r := SortSet(ToSet(files));
    if forall b | b in bases :: !IsDir(fs, b, relDir) {
      NoDirNoFiles(fs, bases, relDir);
      HeadInSet(r);
    }
  }

  /** The innermost loop of `list_dirs`: the sub-directories of one walk step, added to the set. */
  method DirStep(e: Entry, dirs0: set<string>) returns (dirs: set<string>)
    ensures dirs == dirs0 + NamesUnder(e.root, e.subdirs)
  {
    dirs := dirs0;
    for k := 0 to |e.subdirs|
      invariant dirs == dirs0 + NamesUnder(e.root, e.subdirs[..k])
    {
      assert e.subdirs[..k + 1][..k] == e.subdirs[..k];
      dirs := dirs + {RelName(e.root, e.subdirs[k])};
    }
    assert e.subdirs[..|e.subdirs|] == e.subdirs;
  }

  /** The walk loop of `list_files` for one base: every step's eligible files, appended in order. */
  method WalkFiles(walk: seq<Entry>, relDir: string, files0: seq<string>) returns (files: seq<string>)
    requires forall e | e in walk :: InSubtree(e.root, relDir)
    ensures ToSet(files) == ToSet(files0) + WalkListed(walk, relDir)
  {
    files := files0;
    for j := 0 to |walk|
      invariant ToSet(files) == ToSet(files0) + WalkListed(walk[..j], relDir)
    {
      assert walk[..j + 1][..j] == walk[..j];
      files := ListStep(walk[j], relDir, files);
    }
    assert walk[..|walk|] == walk;
  }

  /** The innermost loop of `list_files`: the eligible files of one walk step, appended in order. */
  method ListStep(e: Entry, relDir: string, files0: seq<string>) returns (files: seq<string>)
    requires InSubtree(e.root, relDir)
    ensures ToSet(files) == ToSet(files0) + NamesListed(e.root, e.fnames, relDir)
  {
    files := files0;
    for k := 0 to |e.fnames|
      invariant ToSet(files) == ToSet(files0) + NamesListed(e.root, e.fnames[..k], relDir)
    {
      var f := e.fnames[k];
      assert e.fnames[..k + 1] == e.fnames[..k] + [f];
      ListedStep(files, files0, e.root, e.fnames[..k], f, relDir);
      if !Eligible(f) {
        continue;
      }
      files := files + [ListedName(e.root, f, relDir)];
    }
    assert e.fnames[..|e.fnames|] == e.fnames;
  }

  /** One file of a walk step keeps the loop invariant of `ListStep`. */
  lemma ListedStep(files: seq<string>, files0: seq<string>, root: string, names: seq<string>, f: string, relDir: string)
    requires InSubtree(root, relDir)
    requires ToSet(files) == ToSet(files0) + NamesListed(root, names, relDir)
    ensures ToSet(if Eligible(f) then files + [ListedName(root, f, relDir)] else files) ==
            ToSet(files0) + NamesListed(root, names + [f], relDir)
  {
    NamesListedSnoc(root, names, f, relDir);
    if Eligible(f) {
      ToSetAppend(files, ListedName(root, f, relDir));
    }
  }

  lemma NamesListedSnoc(root: string, names: seq<string>, f: string, relDir: string)
    requires InSubtree(root, relDir)
    ensures NamesListed(root, names + [f], relDir) ==
      NamesListed(root, names, relDir) + (if Eligible(f) then {ListedName(root, f, relDir)} else {})
  {
    assert (names + [f])[..|names|] == names;
  }

  lemma {:induction false} NoDirNoFiles(fs: Fs, bases: seq<string>, relDir: string)
    requires forall b | b in bases :: !IsDir(fs, b, relDir)
    ensures BasesListed(fs, bases, relDir) == {}
  {
    if bases != [] {
      NoDirNoFiles(fs, bases[..|bases| - 1], relDir);
    }
  }
}

/** What the scanner promises about the paths it lists. */
module ScannerFacts {
  import opened Wrappers
  import opened Strings
  import opened FileSystem
  import opened Scanner

  /** A usable selection value: a clean relative path that exists under one of `bases`. */
  predicate Resolvable(fs: Fs, bases: seq<string>, x: string) {
    x != "" && x != "<none>" && '\\' !in x && !IsAbs(x) && FirstExisting(fs, bases, x).Some?
  }

  /** What a listed path promises when its file's names hold no backslash. */
  predicate ListedOk(fs: Fs, bases: seq<string>, relDir: string, x: string) {
    Eligible(Basename(x)) && Resolvable(fs, bases, x) && (relDir != "" ==> StartsWith(x, relDir + "/"))
  }

  /**
   * `x` is what `list_files` appends for an eligible file `f` of a walk step
   * `e` inside `rel_dir` of one of `bases`; when neither the step's
   * directory nor `f` holds a backslash, `x` is the file's own path
   * relative to the base and `ListedOk` holds.
   */
  ghost predicate ListedFrom(fs: Fs, bases: seq<string>, relDir: string, x: string) {
    exists b, e, f | b in bases && b in fs.walks && e in fs.walks[b] && f in e.fnames ::
      Eligible(f) && InSubtree(e.root, relDir) && x == ListedName(e.root, f, relDir) &&
      ('\\' !in e.root && '\\' !in f ==> x == Join(e.root, f) && ListedOk(fs, bases, relDir, x))
  }

  /** A text ending with a text that holds a dot holds a dot. */
  lemma TailKeepsDot(s: string, tail: string)
    requires '.' in tail && |tail| <= |s| && s[|s| - |tail|..] == tail
    ensures '.' in s
  {
    var k :| 0 <= k < |tail| && tail[k] == '.';
    assert s[|s| - |tail| + k] == '.';
  }

  /** The relative path of an eligible file of a well-formed walk step with plain names. */
  lemma FilePathFacts(root: string, f: string)
    requires RootOk(root) && NameOk(f) && Eligible(f) && '\\' !in root && '\\' !in f
    ensures Basename(Join(root, f)) == f
    ensures Join(root, f) != "" && Join(root, f) != "<none>"
    ensures '\\' !in Join(root, f) && !IsAbs(Join(root, f))
  {
    JoinSplitsBack(root, f);
    EligibleIsChoice(f);
    TailKeepsDot(Join(root, f), f);
    DotNotSentinel(Join(root, f));
    if root != "" {
      assert Join(root, f)[|root|] == '/';
    }
  }

  /** A step strictly below `rel_dir` splits as `rel_dir + "/" + sub` with clean halves. */
  lemma InnerRootSplits(root: string, relDir: string)
    requires RootOk(root) && '\\' !in root && relDir != "" && root != relDir && StartsWith(root, relDir + "/")
    ensures root == relDir + "/" + root[|relDir| + 1..]
    ensures root[|relDir| + 1..] != "" && root[|relDir| + 1..][0] != '/'
    ensures relDir[|relDir| - 1] != '/'
    ensures '\\' !in relDir && '\\' !in root[|relDir| + 1..]
  {
    var sub := root[|relDir| + 1..];
    assert root[..|relDir| + 1] == relDir + "/";
    assert root == root[..|relDir| + 1] + sub;
    assert root[|relDir|] == '/';
    assert |root| - 1 != |relDir|;
    assert sub[0] == root[|relDir| + 1];
    assert !(root[|relDir|] == '/' && root[|relDir| + 1] == '/');
    assert relDir[|relDir| - 1] == root[|relDir| - 1];
    assert !(root[|relDir|] == '/' && root[|relDir| - 1] == '/');
    assert forall i :: 0 <= i < |relDir| ==> relDir[i] == root[i];
    assert forall i :: 0 <= i < |sub| ==> sub[i] == root[|relDir| + 1 + i];
  }

  lemma InnerListedName(root: string, f: string, relDir: string)
    requires RootOk(root) && NameOk(f) && '\\' !in root && '\\' !in f
    requires relDir != "" && root != relDir && StartsWith(root, relDir + "/")
    ensures ListedName(root, f, relDir) == Join(root, f)
  {
    var sub := root[|relDir| + 1..];
    InnerRootSplits(root, relDir);
    assert Reroot(root, relDir) == sub;
    var rel := Join(sub, f);
    assert '\\' !in rel;
    ReplaceCharAbsent(rel, '\\', "/");
    assert PathJoin(relDir, rel) == relDir + "/" + rel;
    assert relDir + "/" + rel == Join(root, f);
    ReplaceCharAbsent(Join(root, f), '\\', "/");
  }

  /** Under `rel_dir`, re-rooting and joining back gives the path relative to the base. */
  lemma ListedNameIsPath(root: string, f: string, relDir: string)
    requires RootOk(root) && NameOk(f) && '\\' !in root && '\\' !in f && InSubtree(root, relDir)
    ensures ListedName(root, f, relDir) == Join(root, f)
    ensures relDir != "" ==> StartsWith(Join(root, f), relDir + "/")
  {
    if relDir == "" {
      ReplaceCharAbsent(Join(root, f), '\\', "/");
    } else if root == relDir {
      ReplaceCharAbsent(f, '\\', "/");
      assert PathJoin(relDir, f) == relDir + "/" + f;
      ReplaceCharAbsent(relDir + "/" + f, '\\', "/");
    } else {
      InnerListedName(root, f, relDir);
      assert Join(root, f)[..|relDir| + 1] == root[..|relDir| + 1];
    }
  }

  /** A joined path ends with the name joined on. */
  lemma JoinEnds(dir: string, name: string)
    ensures |name| <= |Join(dir, name)| && Join(dir, name)[|Join(dir, name)| - |name|..] == name
    ensures |name| <= |PathJoin(dir, name)| && PathJoin(dir, name)[|PathJoin(dir, name)| - |name|..] == name
  {
  }

  /** Turning backslashes into slashes keeps every dot and leaves no backslash. */
  lemma SlashedKeepsDot(s: string)
    requires '.' in s
    ensures '.' in ReplaceAll(s, "\\", "/") && '\\' !in ReplaceAll(s, "\\", "/")
  {
    ReplaceCharKeeps(s, '\\', "/", '.');
    ReplaceCharRemoves(s, '\\', "/");
  }

  /**
   * Whatever the names hold, a listed path keeps a dot of the file name and
   * has every backslash turned into a slash.
   */
  lemma ListedNameShape(root: string, f: string, relDir: string)
    requires '.' in f && InSubtree(root, relDir)
    ensures '.' in ListedName(root, f, relDir) && '\\' !in ListedName(root, f, relDir)
  {
    var rel := ReplaceAll(Join(Reroot(root, relDir), f), "\\", "/");
    JoinSlashedKeepsDot(Reroot(root, relDir), f);
    if relDir != "" {
      PathJoinSlashedKeepsDot(relDir, rel);
    }
  }

  /** Joining a dotted name on a folder and turning backslashes into slashes keeps the dot. */
  lemma JoinSlashedKeepsDot(dir: string, name: string)
    requires '.' in name
    ensures '.' in ReplaceAll(Join(dir, name), "\\", "/") && '\\' !in ReplaceAll(Join(dir, name), "\\", "/")
  {
    JoinEnds(dir, name);
    TailKeepsDot(Join(dir, name), name);
    SlashedKeepsDot(Join(dir, name));
  }

  /** As `JoinSlashedKeepsDot`, for the `os.path.join` of the folder argument. */
  lemma PathJoinSlashedKeepsDot(dir: string, name: string)
    requires '.' in name
    ensures '.' in ReplaceAll(PathJoin(dir, name), "\\", "/") && '\\' !in ReplaceAll(PathJoin(dir, name), "\\", "/")
  {
    JoinEnds(dir, name);
    TailKeepsDot(PathJoin(dir, name), name);
    SlashedKeepsDot(PathJoin(dir, name));
  }

  /** The facts `ListedFilesFacts` states, for every path one walk step lists. */
  ghost predicate ListedFacts(fs: Fs, bases: seq<string>, relDir: string, x: string) {
    x != "" && x != "<none>" && '\\' !in x && ListedFrom(fs, bases, relDir, x)
  }

  /** One eligible file of a walk step: its listed path has the listed facts. */
  lemma FileListed(fs: Fs, bases: seq<string>, base: string, e: Entry, f: string, relDir: string)
    requires WellFormed(fs) && base in fs.walks && e in fs.walks[base] && base in bases
    requires InSubtree(e.root, relDir) && f in e.fnames && Eligible(f)
    ensures ListedFacts(fs, bases, relDir, ListedName(e.root, f, relDir))
  {
    var x := ListedName(e.root, f, relDir);
    EligibleIsChoice(f);
    ListedNameShape(e.root, f, relDir);
    DotNotSentinel(x);
    if '\\' !in e.root && '\\' !in f {
      assert WalkOk(fs.walks[base]);
      ListedNameIsPath(e.root, f, relDir);
      FilePathFacts(e.root, f);
      var k :| 0 <= k < |bases| && bases[k] == base;
      assert Exists(fs, PathJoin(bases[k], Join(e.root, f)));
      assert ListedOk(fs, bases, relDir, x);
    }
    assert base in bases && base in fs.walks && e in fs.walks[base] && f in e.fnames &&
      Eligible(f) && InSubtree(e.root, relDir) && x == ListedName(e.root, f, relDir) &&
      ('\\' !in e.root && '\\' !in f ==> x == Join(e.root, f) && ListedOk(fs, bases, relDir, x));
  }

  lemma {:induction false} NamesListedFacts(fs: Fs, bases: seq<string>, base: string, e: Entry, names: seq<string>, relDir: string)
    requires WellFormed(fs) && base in fs.walks && e in fs.walks[base] && base in bases
    requires InSubtree(e.root, relDir)
    requires forall f | f in names :: f in e.fnames
    ensures forall x | x in NamesListed(e.root, names, relDir) :: ListedFacts(fs, bases, relDir, x)
  {
    if names != [] {
      NamesListedFacts(fs, bases, base, e, names[..|names| - 1], relDir);
      var f := names[|names| - 1];
      if Eligible(f) {
        FileListed(fs, bases, base, e, f, relDir);
      }
    }
  }

  lemma {:induction false} WalkListedFacts(fs: Fs, bases: seq<string>, base: string, walk: seq<Entry>, relDir: string)
    requires WellFormed(fs) && base in fs.walks && base in bases
    requires forall e | e in walk :: e in fs.walks[base] && InSubtree(e.root, relDir)
    ensures forall x | x in WalkListed(walk, relDir) :: ListedFacts(fs, bases, relDir, x)
  {
    if walk != [] {
      WalkListedFacts(fs, bases, base, walk[..|walk| - 1], relDir);
      var e := walk[|walk| - 1];
      NamesListedFacts(fs, bases, base, e, e.fnames, relDir);
    }
  }

  lemma {:induction false} BasesListedFacts(fs: Fs, bases: seq<string>, prefix: seq<string>, relDir: string)
    requires WellFormed(fs)
    requires forall b | b in prefix :: b in bases
    ensures forall x | x in BasesListed(fs, prefix, relDir) :: ListedFacts(fs, bases, relDir, x)
  {
    if prefix != [] {
      BasesListedFacts(fs, bases, prefix[..|prefix| - 1], relDir);
      var b := prefix[|prefix| - 1];
      if IsDir(fs, b, relDir) {
        WalkListedFacts(fs, bases, b, SubWalk(WalkOf(fs, b), relDir), relDir);
      }
    }
  }

  /**
   * Every path `list_files(folder_type, rel_dir)` lists is a valid choice
   * without backslashes, made from an eligible file of some base. For a
   * file whose names hold no backslash it is that file's path relative to
   * its base: eligible, below `rel_dir + "/"` when `rel_dir` is not "", and
   * found under one of the folder type's bases.
   */
  lemma ListedFilesFacts(fs: Fs, folderType: string, relDir: string)
    requires WellFormed(fs)
    ensures forall x | x in ListedFiles(fs, folderType, relDir) ::
      x != "" && x != "<none>" && '\\' !in x && ListedFrom(fs, Bases(fs, folderType), relDir, x)
    ensures NoBackslashes(fs, Bases(fs, folderType)) ==>
      forall x | x in ListedFiles(fs, folderType, relDir) :: ListedOk(fs, Bases(fs, folderType), relDir, x)
  {
    var bases := Bases(fs, folderType);
    BasesListedFacts(fs, bases, bases, relDir);
    if NoBackslashes(fs, bases) {
      forall x | x in ListedFiles(fs, folderType, relDir) ensures ListedOk(fs, bases, relDir, x) {
        assert ListedFrom(fs, bases, relDir, x);
        var b, e, f :| b in bases && b in fs.walks && e in fs.walks[b] && f in e.fnames &&
          Eligible(f) && InSubtree(e.root, relDir) && x == ListedName(e.root, f, relDir) &&
          ('\\' !in e.root && '\\' !in f ==> x == Join(e.root, f) && ListedOk(fs, bases, relDir, x));
        assert PlainWalk(WalkOf(fs, b));
      }
    }
  }

  /**
   * A base `/m` of the `loras` folder type holding one file, `a\b.pt`: a
   * legal POSIX name with a backslash in it.
   */
  function BackslashFs(): Fs {
    Fs(map["loras" := ["/m"]], map["/m" := [Entry("", [], ["a\\b.pt"])]], {"/m/a\\b.pt"})
  }

  lemma BackslashFsWellFormed()
    ensures WellFormed(BackslashFs())
  {
    var fs := BackslashFs();
    var f := "a\\b.pt";
    var e := Entry("", [], [f]);
    assert fs.walks == map["/m" := [e]];
    BackslashWalkOk();
    BackslashFileExists();
    forall b | b in fs.walks
      ensures WalkOk(fs.walks[b])
      ensures forall e1, g | e1 in fs.walks[b] && g in e1.fnames :: Exists(fs, PathJoin(b, Join(e1.root, g)))
    {
      assert b == "/m" && fs.walks[b] == [e];
      forall e1, g | e1 in fs.walks[b] && g in e1.fnames ensures Exists(fs, PathJoin(b, Join(e1.root, g))) {
        assert e1 == e && g == f;
      }
    }
  }

  /** The one walk step is well formed: its name holds no `/`, and a file is no directory. */
  lemma BackslashWalkOk()
    ensures WalkOk([Entry("", [], ["a\\b.pt"])])
  {
    var f := "a\\b.pt";
    var e := Entry("", [], [f]);
    assert Components("") == [] by {
      assert Split("", '/') == [""];
    }
    assert NameOk(f) by { assert '/' !in f; }
    forall e1 | e1 in [e]
      ensures RootOk(e1.root) && (forall d | d in e1.subdirs :: NameOk(d)) && (forall g | g in e1.fnames :: NameOk(g))
    {
      assert e1 == e;
    }
    forall e1, e2, g | e1 in [e] && e2 in [e] && g in e1.fnames
      ensures !(Components(e1.root) + [g] <= Components(e2.root))
    {
      assert e1 == e && e2 == e;
    }
  }

  /** The file is present at its own path under the base. */
  lemma BackslashFileExists()
    ensures Exists(BackslashFs(), PathJoin("/m", Join("", "a\\b.pt")))
  {
    var f := "a\\b.pt";
    assert Join("", f) == f;
    assert !IsAbs(f) && "/m"[1] != '/';
    assert PathJoin("/m", f) == "/m" + "/" + f;
    assert "/m" + "/" + f == "/m/a\\b.pt";
  }

  lemma BackslashNameEligible()
    ensures Eligible("a\\b.pt")
  {
    var f := "a\\b.pt";
    assert Lower(f) == f;
    assert '/' !in f;
    BasenamePlain(f);
    assert LastIndexOf(f, '.') == 3 by {
      assert f[..5] == "a\\b.p" && f[..5][..4] == "a\\b.";
    }
    assert HasNonDot(f[..3]) by { assert f[..3][0] == 'a'; }
    assert f[3..] == ".pt";
  }

  /** The rewrite the scanner and the tree builder apply turns `a\b.pt` into `a/b.pt`. */
  lemma BackslashRewritten()
    ensures ReplaceAll("a\\b.pt", "\\", "/") == "a/b.pt"
  {
    var f := "a\\b.pt";
    var g := "\\b.pt";
    assert f[..1][0] == 'a' && f[1..] == g;
    assert ReplaceAll(f, "\\", "/") == "a" + ReplaceAll(g, "\\", "/");
    assert g[..1] == "\\" && g[1..] == "b.pt";
    assert ReplaceAll(g, "\\", "/") == "/" + ReplaceAll("b.pt", "\\", "/");
    ReplaceCharAbsent("b.pt", '\\', "/");
  }

  lemma BackslashNameListed()
    ensures ListedName("", "a\\b.pt", "") == "a/b.pt"
  {
    assert Reroot("", "") == "" && Join("", "a\\b.pt") == "a\\b.pt";
    BackslashRewritten();
  }

  /** `list_files("loras", "")` lists the one file, under its rewritten name. */
  lemma BackslashListed()
    ensures ListedFiles(BackslashFs(), "loras", "") == {"a/b.pt"}
  {
    var fs := BackslashFs();
    var f := "a\\b.pt";
    var e := Entry("", [], [f]);
    BackslashNameEligible();
    BackslashNameListed();
    assert Bases(fs, "loras") == ["/m"] && IsDir(fs, "/m", "") && WalkOf(fs, "/m") == [e];
    assert SubWalk([e], "") == [e] by {
      assert [e][..0] == [];
    }
    assert NamesListed("", [f], "") == {"a/b.pt"} by {
      assert [f][..0] == [];
    }
    assert WalkListed([e], "") == {"a/b.pt"} by {
      assert [e][..0] == [];
    }
    assert ["/m"][..0] == [];
  }

  /** The rewritten name is not a file under the base. */
  lemma BackslashNotFound()
    ensures FirstExisting(BackslashFs(), ["/m"], "a/b.pt").None?
  {
    assert PathJoin("/m", "a/b.pt") == "/m/a/b.pt";
    assert "/m/a/b.pt" != "/m/a\\b.pt" by { assert "/m/a/b.pt"[4] != "/m/a\\b.pt"[4]; }
    assert ["/m"][1..] == [];
  }

  /**
   * `list_files` rewrites a backslash in a file name to `/`
   * (tree_utils.py:40-42), so the file `a\b.pt` of a base is listed as
   * `a/b.pt`, a path that does not exist under that base.
   */
  lemma BackslashNameMisresolves()
    ensures WellFormed(BackslashFs()) && Bases(BackslashFs(), "loras") == ["/m"]
    ensures "a/b.pt" in ListedFiles(BackslashFs(), "loras", "")
    ensures FirstExisting(BackslashFs(), ["/m"], "a/b.pt").None?
  {
    BackslashFsWellFormed();
    BackslashListed();
    BackslashNotFound();
  }
}
