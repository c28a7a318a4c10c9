/**
 * `build_tree`: walks every base directory registered for a folder type and
 * assembles the nested folder/file tree the tree-select widget shows.
 */
module TreeBuilder {
  import opened Wrappers
  import opened Strings
  import opened FileSystem
  import opened Naming
  import opened ScannerFacts
  import opened Tree

  /**
   * What a leaf value should promise: it names an eligible file by its path
   * relative to a base directory, its folder is that file's directory ("root"
   * at the top), its child id is the per-folder combo id of that directory,
   * and the path resolves under the folder type's bases.
   */
  predicate LeafOk(fs: Fs, folderType: string, fileId: string, v: Leaf) {
    var dir := Parent(v.file);
    Eligible(Basename(v.file)) &&
    v.folder == (if dir == "" then "root" else dir) &&
    v.childId == ChildId(fileId, SanitizeRelDir(dir)) &&
    Resolvable(fs, Bases(fs, folderType), v.file)
  }

  /**
   * Every node below is a folder or a leaf: a node with a value has no
   * children (so a node with children has no value), and every leaf value
   * satisfies `LeafOk`.
   */
  predicate NodeOk(fs: Fs, folderType: string, fileId: string, t: TreeNode) {
    (t.value.Some? ==> t.children == [] && LeafOk(fs, folderType, fileId, t.value.value)) &&
    AllOk(fs, folderType, fileId, t.children)
  }

  predicate AllOk(fs: Fs, folderType: string, fileId: string, ts: seq<TreeNode>) {
    forall i :: 0 <= i < |ts| ==> NodeOk(fs, folderType, fileId, ts[i])
  }

  /** `os.path.basename(base) or folder_type`. */
  function BaseCaption(base: string, folderType: string): string {
    if Basename(base) != "" then Basename(base) else folderType
  }

  /** `rel_root` of a walk step: its directory relative to the base with `\` turned into `/`. */
  function RelRoot(e: Entry): string {
    ReplaceAll(e.root, "\\", "/")
  }

  /** A walk step adds something below the base node: a folder on its path or an eligible file. */
  predicate StepAdds(e: Entry) {
    Components(RelRoot(e)) != [] || AnyEligible(e.fnames)
  }

  predicate AnyEligible(names: seq<string>) {
    exists f | f in names :: Eligible(f)
  }

  lemma AnyEligibleSnoc(names: seq<string>, f: string)
    ensures AnyEligible(names + [f]) <==> AnyEligible(names) || Eligible(f)
  {
    assert f in names + [f];
    assert forall g | g in names + [f] :: g in names || g == f;
    assert forall g | g in names :: g in names + [f];
  }

  predicate Contributes(walk: seq<Entry>) {
    exists e | e in walk :: StepAdds(e)
  }

  lemma ContributesSnoc(walk: seq<Entry>, e: Entry)
    ensures Contributes(walk + [e]) <==> Contributes(walk) || StepAdds(e)
  {
    assert e in walk + [e];
    assert forall g | g in walk + [e] :: g in walk || g == e;
    assert forall g | g in walk :: g in walk + [e];
  }

  /** `q` is the path of a step's directory, or lies on the way to one. */
  predicate OnWalk(q: seq<string>, walk: seq<Entry>) {
    exists e | e in walk :: q <= Components(RelRoot(e))
  }

  /**
   * The node `_ensure_branch` finds for the step's directory is there, at the
   * directory's path, and is a folder when `folder` holds.
   */
  ghost predicate Reached(slots: seq<Slot>, paths: seq<seq<string>>, e: Entry, folder: bool) {
    var f := Follow(slots, 0, Split(RelRoot(e), '/'));
    |paths| == |slots| && f.Some? && f.value < |slots| &&
    paths[f.value] == Components(RelRoot(e)) && (folder ==> slots[f.value].value.None?)
  }

  /** A reached directory stays reached while the arena only grows. */
  lemma ReachedGrows(a: seq<Slot>, pa: seq<seq<string>>, b: seq<Slot>, pb: seq<seq<string>>, e: Entry, folder: bool)
    requires Linked(a) && Grows(a, b) && |pb| == |b| && |pa| <= |pb| && pb[..|pa|] == pa
    requires Reached(a, pa, e, folder)
    ensures Reached(b, pb, e, folder)
  {
    FollowGrows(a, b, 0, Split(RelRoot(e), '/'));
    var f := Follow(a, 0, Split(RelRoot(e), '/')).value;
    assert pb[f] == pb[..|pa|][f];
  }

  /** The bases `build_tree` makes a top-level node for, in order: those whose walk adds something. */
  function ContribBases(fs: Fs, bases: seq<string>): seq<string> {
    if bases == [] then []
    else
      var last := bases[|bases| - 1];
      ContribBases(fs, bases[..|bases| - 1]) + (if Contributes(WalkOf(fs, last)) then [last] else [])
  }

  /** The leaf dictionary `build_tree` appends for file `fname` of the step at `relRoot`. */
  function MakeLeaf(fileId: string, relRoot: string, fname: string): Leaf {
    var relPath := if relRoot == "" then fname else relRoot + "/" + fname;
    var folderVal := if relRoot != "" then relRoot else "root";
    Leaf(folderVal, ReplaceAll(relPath, "\\", "/"), ChildId(fileId, SanitizeRelDir(relRoot)))
  }

  /**
   * The leaves one walk step should add, in file order: one per eligible
   * name, at the components of `relRoot` followed by the name.
   */
  function FilesPlaced(fileId: string, relRoot: string, fnames: seq<string>): seq<(seq<string>, Leaf)> {
    if fnames == [] then []
    else
      var f := fnames[|fnames| - 1];
      FilesPlaced(fileId, relRoot, fnames[..|fnames| - 1]) + FilePlaced(fileId, relRoot, f)
  }

  /** The leaf one file name adds: none for a name that is not eligible. */
  function FilePlaced(fileId: string, relRoot: string, f: string): seq<(seq<string>, Leaf)> {
    if Eligible(f) then [(Components(relRoot) + [f], MakeLeaf(fileId, relRoot, f))] else []
  }

  /** The leaves a whole walk should add below its base node, step after step. */
  function WalkPlaced(fileId: string, walk: seq<Entry>): seq<(seq<string>, Leaf)> {
    if walk == [] then []
    else
      var e := walk[|walk| - 1];
      WalkPlaced(fileId, walk[..|walk| - 1]) + FilesPlaced(fileId, RelRoot(e), e.fnames)
  }

  /** Every leaf a walk places comes from an eligible file of one of its steps. */
  lemma {:induction false} WalkPlacedFrom(fileId: string, walk: seq<Entry>, x: (seq<string>, Leaf))
    requires x in WalkPlaced(fileId, walk)
    ensures exists e, f :: e in walk && f in e.fnames && Eligible(f) &&
              x == (Components(RelRoot(e)) + [f], MakeLeaf(fileId, RelRoot(e), f))
  {
    var e := walk[|walk| - 1];
    var init := walk[..|walk| - 1];
    if x in WalkPlaced(fileId, init) {
      WalkPlacedFrom(fileId, init, x);
      var e', f :| e' in init && f in e'.fnames && Eligible(f) &&
                   x == (Components(RelRoot(e')) + [f], MakeLeaf(fileId, RelRoot(e'), f));
      assert e' in walk;
    } else {
      FilesPlacedFrom(fileId, RelRoot(e), e.fnames, x);
    }
  }

  lemma {:induction false} FilesPlacedFrom(fileId: string, relRoot: string, fnames: seq<string>, x: (seq<string>, Leaf))
    requires x in FilesPlaced(fileId, relRoot, fnames)
    ensures exists f :: f in fnames && Eligible(f) && x == (Components(relRoot) + [f], MakeLeaf(fileId, relRoot, f))
  {
    var init := fnames[..|fnames| - 1];
    if x in FilesPlaced(fileId, relRoot, init) {
      FilesPlacedFrom(fileId, relRoot, init, x);
      var f :| f in init && Eligible(f) && x == (Components(relRoot) + [f], MakeLeaf(fileId, relRoot, f));
      assert f in fnames;
    }
  }

  /** Every eligible file of every step of a walk is placed. */
  lemma {:induction false} WalkPlacesAll(fileId: string, walk: seq<Entry>, e: Entry, f: string)
    requires e in walk && f in e.fnames && Eligible(f)
    ensures (Components(RelRoot(e)) + [f], MakeLeaf(fileId, RelRoot(e), f)) in WalkPlaced(fileId, walk)
  {
    var init := walk[..|walk| - 1];
    if e == walk[|walk| - 1] {
      FilesPlacesAll(fileId, RelRoot(e), e.fnames, f);
    } else {
      assert e in init by {
        var k :| 0 <= k < |walk| && walk[k] == e;
        assert init[k] == e;
      }
      WalkPlacesAll(fileId, init, e, f);
    }
  }

  lemma {:induction false} FilesPlacesAll(fileId: string, relRoot: string, fnames: seq<string>, f: string)
    requires f in fnames && Eligible(f)
    ensures (Components(relRoot) + [f], MakeLeaf(fileId, relRoot, f)) in FilesPlaced(fileId, relRoot, fnames)
  {
    var init := fnames[..|fnames| - 1];
    if f != fnames[|fnames| - 1] {
      assert f in init by {
        var k :| 0 <= k < |fnames| && fnames[k] == f;
        assert init[k] == f;
      }
      FilesPlacesAll(fileId, relRoot, init, f);
    }
  }

  /**
   * No file path lies on a directory path, as the builder sees both after
   * rewriting backslashes: the branch for a step's directory never runs
   * through a leaf, so no leaf is ever given children.
   */
  predicate DirsClear(walk: seq<Entry>) {
    forall e, e2, f | e in walk && e2 in walk && f in e.fnames && Eligible(f) ::
      !(Components(RelRoot(e)) + [f] <= Components(RelRoot(e2)))
  }

  /** A well-formed plain walk is clear: there the rewrite changes nothing. */
  lemma PlainDirsClear(fs: Fs, base: string)
    requires WellFormed(fs) && PlainWalk(WalkOf(fs, base))
    ensures DirsClear(WalkOf(fs, base))
  {
    var walk := WalkOf(fs, base);
    forall e | e in walk ensures RelRoot(e) == e.root {
      ReplaceCharAbsent(e.root, '\\', "/");
    }
  }

  /** Before step `wi` of a clear walk, no leaf placed so far lies on that step's directory path. */
  lemma WalkOffPath(fileId: string, walk: seq<Entry>, wi: nat)
    requires wi < |walk| && DirsClear(walk)
    ensures OffPath(WalkPlaced(fileId, walk[..wi]), Components(RelRoot(walk[wi])))
  {
    forall x | x in WalkPlaced(fileId, walk[..wi]) ensures !(x.0 <= Components(RelRoot(walk[wi]))) {
      WalkPlacedFrom(fileId, walk[..wi], x);
      var e, f :| e in walk[..wi] && f in e.fnames && Eligible(f) &&
                  x == (Components(RelRoot(e)) + [f], MakeLeaf(fileId, RelRoot(e), f));
      assert e in walk;
      assert walk[wi] in walk;
    }
  }

  /** A walk that adds nothing places no leaf, so a base left out of the tree loses no file. */
  lemma {:induction false} QuietWalkPlacesNothing(fileId: string, walk: seq<Entry>)
    requires !Contributes(walk)
    ensures WalkPlaced(fileId, walk) == []
  {
    if walk != [] {
      var e := walk[|walk| - 1];
      var init := walk[..|walk| - 1];
      assert e in walk;
      assert !Contributes(init) by {
        forall e' | e' in init ensures !StepAdds(e') {
          var k :| 0 <= k < |init| && init[k] == e';
          assert walk[k] == e';
        }
      }
      QuietWalkPlacesNothing(fileId, init);
      QuietFilesPlaceNothing(fileId, RelRoot(e), e.fnames);
    }
  }

  lemma {:induction false} QuietFilesPlaceNothing(fileId: string, relRoot: string, fnames: seq<string>)
    requires !AnyEligible(fnames)
    ensures FilesPlaced(fileId, relRoot, fnames) == []
  {
    if fnames != [] {
      var init := fnames[..|fnames| - 1];
      assert fnames[|fnames| - 1] in fnames;
      assert !AnyEligible(init) by {
        forall g | g in init ensures !Eligible(g) {
          var k :| 0 <= k < |init| && init[k] == g;
          assert fnames[k] == g;
        }
      }
      QuietFilesPlaceNothing(fileId, relRoot, init);
    }
  }

  /** The leaf `build_tree` makes for an eligible file of a plain walk step is a good leaf. */
  lemma LeafFacts(fs: Fs, folderType: string, fileId: string, base: string, e: Entry, f: string)
    requires WellFormed(fs) && base in Bases(fs, folderType) && base in fs.walks && e in fs.walks[base]
    requires f in e.fnames && Eligible(f) && '\\' !in e.root && '\\' !in f
    ensures RelRoot(e) == e.root
    ensures MakeLeaf(fileId, e.root, f).file == Join(e.root, f)
    ensures LeafOk(fs, folderType, fileId, MakeLeaf(fileId, e.root, f))
  {
    ReplaceCharAbsent(e.root, '\\', "/");
    FilePathFacts(e.root, f);
    ReplaceCharAbsent(Join(e.root, f), '\\', "/");
    JoinSplitsBack(e.root, f);
    var bases := Bases(fs, folderType);
    var k :| 0 <= k < |bases| && bases[k] == base;
    assert Exists(fs, PathJoin(bases[k], Join(e.root, f)));
  }

  /** Under a plain walk every leaf the walk places is a good leaf. */
  lemma PlacedLeavesOk(fs: Fs, folderType: string, fileId: string, base: string)
    requires WellFormed(fs) && base in Bases(fs, folderType) && PlainWalk(WalkOf(fs, base))
    ensures forall x | x in WalkPlaced(fileId, WalkOf(fs, base)) :: LeafOk(fs, folderType, fileId, x.1)
  {
    forall x | x in WalkPlaced(fileId, WalkOf(fs, base)) ensures LeafOk(fs, folderType, fileId, x.1) {
      WalkPlacedFrom(fileId, WalkOf(fs, base), x);
      var e, f :| e in WalkOf(fs, base) && f in e.fnames && Eligible(f) &&
                  x == (Components(RelRoot(e)) + [f], MakeLeaf(fileId, RelRoot(e), f));
      LeafFacts(fs, folderType, fileId, base, e, f);
    }
  }

  /** A shaped tree all of whose placed leaves are good satisfies `NodeOk`. */
  lemma {:induction false} PlacedOk(fs: Fs, folderType: string, fileId: string, t: TreeNode, at: seq<string>)
    requires Shaped(t) && forall x | x in Placed(t, at) :: LeafOk(fs, folderType, fileId, x.1)
    ensures NodeOk(fs, folderType, fileId, t)
    decreases t, 1
  {
    if t.value.Some? {
      assert (at, t.value.value) in Placed(t, at);
    }
    assert forall i :: 0 <= i < |t.children| ==> t.children[i] in t.children;
    PlacedAllOk(fs, folderType, fileId, t.children, at);
  }

  lemma {:induction false} PlacedAllOk(fs: Fs, folderType: string, fileId: string, ts: seq<TreeNode>, at: seq<string>)
    requires forall i :: 0 <= i < |ts| ==> Shaped(ts[i])
    requires forall x | x in PlacedAll(ts, at) :: LeafOk(fs, folderType, fileId, x.1)
    ensures AllOk(fs, folderType, fileId, ts)
    decreases ts, 0
  {
    if ts != [] {
      PlacedOk(fs, folderType, fileId, ts[0], at + [ts[0].caption]);
      assert forall i :: 0 <= i < |ts[1..]| ==> ts[1..][i] == ts[i + 1];
      PlacedAllOk(fs, folderType, fileId, ts[1..], at);
      forall i | 0 <= i < |ts| ensures NodeOk(fs, folderType, fileId, ts[i]) {
        if i > 0 { assert ts[i] == ts[1..][i - 1]; }
      }
    }
  }

  /**
   * The top-level node made for `base`: a folder labelled `BaseCaption` with
   * children, holding exactly the leaves the walk of `base` places, each as
   * many times and at the same path; a node at the path of every walked
   * directory, a folder unless a file path of the walk lies on one of its
   * directory paths; no folder anywhere but on the way to a walked directory;
   * childless leaves when no file path lies on a directory path; and, when no
   * name of the walk holds a backslash, good leaves only.
   */
  predicate TopNodeOk(fs: Fs, folderType: string, fileId: string, base: string, t: TreeNode) {
    t.caption == BaseCaption(base, folderType) && t.value.None? && t.children != [] &&
    multiset(Placed(t, [])) == multiset(WalkPlaced(fileId, WalkOf(fs, base))) &&
    (forall e | e in WalkOf(fs, base) ::
       (Components(RelRoot(e)), true) in Outline(t, []) ||
       (!DirsClear(WalkOf(fs, base)) && (Components(RelRoot(e)), false) in Outline(t, []))) &&
    (forall x | x in Outline(t, []) && x.1 :: OnWalk(x.0, WalkOf(fs, base))) &&
    (DirsClear(WalkOf(fs, base)) ==> Shaped(t)) &&
    (PlainWalk(WalkOf(fs, base)) ==> NodeOk(fs, folderType, fileId, t))
  }

  /** What one iteration of the `for fname in fnames` loop does to the arena: a leaf appended below `target` when the name is eligible. */
  ghost function FileStep(s: seq<Slot>, p: seq<seq<string>>, target: nat, fileId: string, relRoot: string, f: string): (r: (seq<Slot>, seq<seq<string>>))
    requires target < |s| == |p|
    ensures |s| <= |r.0| == |r.1|
  {
    if Eligible(f) then (AddChild(s, target, Slot(f, Some(MakeLeaf(fileId, relRoot, f)), [])), p + [p[target] + [f]])
    else (s, p)
  }

  /** The whole `for fname in fnames` loop: one `FileStep` per name, in order. */
  ghost function FileSteps(s: seq<Slot>, p: seq<seq<string>>, target: nat, fileId: string, relRoot: string, fnames: seq<string>): (r: (seq<Slot>, seq<seq<string>>))
    requires target < |s| == |p|
    ensures |s| <= |r.0| == |r.1|
  {
    if fnames == [] then (s, p)
    else
      var q := FileSteps(s, p, target, fileId, relRoot, fnames[..|fnames| - 1]);
      FileStep(q.0, q.1, target, fileId, relRoot, fnames[|fnames| - 1])
  }

  /** The loop keeps the arena one tree, with every old node kept. */
  lemma {:induction false} FileStepsArena(s: seq<Slot>, p: seq<seq<string>>, target: nat, fileId: string, relRoot: string, fnames: seq<string>)
    requires ArenaOk(s, p) && target < |s|
    ensures var r := FileSteps(s, p, target, fileId, relRoot, fnames);
      ArenaOk(r.0, r.1) && Grows(s, r.0)
  {
    if fnames == [] {
      assert forall i :: 0 <= i < |s| ==> s[i].children <= s[i].children;
    } else {
      var init, f := fnames[..|fnames| - 1], fnames[|fnames| - 1];
      var q := FileSteps(s, p, target, fileId, relRoot, init);
      FileStepsArena(s, p, target, fileId, relRoot, init);
      if Eligible(f) {
        var slot := Slot(f, Some(MakeLeaf(fileId, relRoot, f)), []);
        ArenaAddChild(q.0, q.1, target, slot);
        AddChildGrows(q.0, target, slot);
        GrowsTransitive(s, q.0, FileSteps(s, p, target, fileId, relRoot, fnames).0);
      }
    }
  }

  /**
   * The loop keeps every old path and adds the leaves `FilesPlaced` lists,
   * in order, after the older ones.
   */
  lemma {:induction false} FileStepsLeaves(s: seq<Slot>, p: seq<seq<string>>, target: nat, fileId: string, relRoot: string, fnames: seq<string>)
    requires target < |s| == |p| && p[target] == Components(relRoot)
    ensures var r := FileSteps(s, p, target, fileId, relRoot, fnames);
      r.1[..|p|] == p && Leaves(r.0, r.1) == Leaves(s, p) + FilesPlaced(fileId, relRoot, fnames)
  {
    if fnames == [] {
      assert p[..|p|] == p;
    } else {
      var init, f := fnames[..|fnames| - 1], fnames[|fnames| - 1];
      var q := FileSteps(s, p, target, fileId, relRoot, init);
      FileStepsLeaves(s, p, target, fileId, relRoot, init);
      assert q.1[target] == q.1[..|p|][target];
      FileStepLeaves(q.0, q.1, target, fileId, relRoot, f);
      var r := FileStep(q.0, q.1, target, fileId, relRoot, f);
      assert r.1[..|p|] == r.1[..|q.1|][..|p|];
      AppendAssoc(Leaves(s, p), FilesPlaced(fileId, relRoot, init), FilePlaced(fileId, relRoot, f));
    }
  }

  /** One iteration of the loop keeps the old paths and appends the leaf it places, if any. */
  lemma FileStepLeaves(s: seq<Slot>, p: seq<seq<string>>, target: nat, fileId: string, relRoot: string, f: string)
    requires target < |s| == |p| && p[target] == Components(relRoot)
    ensures var r := FileStep(s, p, target, fileId, relRoot, f);
      r.1[..|p|] == p && Leaves(r.0, r.1) == Leaves(s, p) + FilePlaced(fileId, relRoot, f)
  {
    if Eligible(f) {
      LeavesAddChild(s, p, target, Slot(f, Some(MakeLeaf(fileId, relRoot, f)), []), p[target] + [f]);
      assert (p + [p[target] + [f]])[..|p|] == p;
    } else {
      assert p[..|p|] == p;
    }
  }

  /** The base node has a child after the loop exactly when it had one or the loop appends an eligible name below it. */
  lemma {:induction false} FileStepsRoot(s: seq<Slot>, p: seq<seq<string>>, target: nat, fileId: string, relRoot: string, fnames: seq<string>)
    requires target < |s| == |p|
    ensures FileSteps(s, p, target, fileId, relRoot, fnames).0[0].children != [] <==>
              s[0].children != [] || (target == 0 && AnyEligible(fnames))
  {
    if fnames == [] {
      assert !AnyEligible(fnames);
    } else {
      var init, f := fnames[..|fnames| - 1], fnames[|fnames| - 1];
      assert init + [f] == fnames;
      AnyEligibleSnoc(init, f);
      FileStepsRoot(s, p, target, fileId, relRoot, init);
    }
  }

  /** Every node from index `n` on is a leaf. */
  ghost predicate LeavesFrom(slots: seq<Slot>, n: nat) {
    forall j :: n <= j < |slots| ==> slots[j].value.Some?
  }

  /** The loop appends leaves only. */
  lemma {:induction false} FileStepsNew(s: seq<Slot>, p: seq<seq<string>>, target: nat, fileId: string, relRoot: string, fnames: seq<string>)
    requires target < |s| == |p|
    ensures LeavesFrom(FileSteps(s, p, target, fileId, relRoot, fnames).0, |s|)
  {
    if fnames != [] {
      var init, f := fnames[..|fnames| - 1], fnames[|fnames| - 1];
      FileStepsNew(s, p, target, fileId, relRoot, init);
      var q := FileSteps(s, p, target, fileId, relRoot, init);
      var r := FileSteps(s, p, target, fileId, relRoot, fnames);
      assert r == FileStep(q.0, q.1, target, fileId, relRoot, f);
      if Eligible(f) {
        var slot := Slot(f, Some(MakeLeaf(fileId, relRoot, f)), []);
        assert r.0 == AddChild(q.0, target, slot);
        forall j | |s| <= j < |r.0| ensures r.0[j].value.Some? {
          if j < |q.0| {
            assert r.0[j].value == q.0[j].value;
          } else {
            assert j == |q.0|;
            assert r.0[j] == slot;
          }
        }
      } else {
        assert r == q;
      }
    }
  }

  /** Appending leaves below a folder keeps every leaf childless, and the folder a folder. */
  lemma {:induction false} FileStepsBare(s: seq<Slot>, p: seq<seq<string>>, target: nat, fileId: string, relRoot: string, fnames: seq<string>)
    requires target < |s| == |p| && LeavesBare(s) && s[target].value.None?
    ensures var r := FileSteps(s, p, target, fileId, relRoot, fnames);
      LeavesBare(r.0) && r.0[target].value.None?
  {
    if fnames != [] {
      var init, f := fnames[..|fnames| - 1], fnames[|fnames| - 1];
      FileStepsBare(s, p, target, fileId, relRoot, init);
      var q := FileSteps(s, p, target, fileId, relRoot, init);
      if Eligible(f) {
        AddChildBare(q.0, target, Slot(f, Some(MakeLeaf(fileId, relRoot, f)), []));
      }
    }
  }

  /** The `for fname in fnames` loop of one walk step, appending to `target`. */
  method AddFiles(forest: Forest, fileId: string, relRoot: string, fnames: seq<string>, target: nat)
    requires forest.Valid() && target < |forest.slots| && forest.paths[target] == Components(relRoot)
    modifies forest
    ensures forest.Valid() && (forest.slots, forest.paths) == FileSteps(old(forest.slots), old(forest.paths), target, fileId, relRoot, fnames)
    ensures Grows(old(forest.slots), forest.slots)
    ensures Leaves(forest.slots, forest.paths) == Leaves(old(forest.slots), old(forest.paths)) + FilesPlaced(fileId, relRoot, fnames)
    ensures forest.slots[0].children != [] <==> old(forest.slots[0].children) != [] || (target == 0 && AnyEligible(fnames))
    ensures LeavesBare(old(forest.slots)) && old(forest.slots)[target].value.None? ==> LeavesBare(forest.slots)
    ensures forest.paths[..|old(forest.paths)|] == old(forest.paths)
    ensures forall j :: |old(forest.slots)| <= j < |forest.slots| ==> forest.slots[j].value.Some?
  {
    ghost var s0, p0 := forest.slots, forest.paths;
    for fi := 0 to |fnames|
      invariant forest.Valid() && (forest.slots, forest.paths) == FileSteps(s0, p0, target, fileId, relRoot, fnames[..fi])
    {
      assert fnames[..fi + 1][..fi] == fnames[..fi];
      AddFile(forest, fileId, relRoot, target, fnames[fi]);
    }
    assert fnames[..|fnames|] == fnames;
    FileStepsArena(s0, p0, target, fileId, relRoot, fnames);
    FileStepsLeaves(s0, p0, target, fileId, relRoot, fnames);
    FileStepsRoot(s0, p0, target, fileId, relRoot, fnames);
    FileStepsNew(s0, p0, target, fileId, relRoot, fnames);
    assert LeavesFrom(forest.slots, |s0|);
    if LeavesBare(s0) && s0[target].value.None? {
      FileStepsBare(s0, p0, target, fileId, relRoot, fnames);
    }
  }

  /** One iteration: skip a name whose extension is not allowed, else append its leaf. */
  method AddFile(forest: Forest, fileId: string, relRoot: string, target: nat, fname: string)
    requires forest.Valid() && target < |forest.slots|
    modifies forest
    ensures forest.Valid() && (forest.slots, forest.paths) == FileStep(old(forest.slots), old(forest.paths), target, fileId, relRoot, fname)
  {
    var ext := Extension(Lower(fname));
    if ext !in AllowedExtensions {
      return;
    }
    var leaf := MakeLeaf(fileId, relRoot, fname);
    forest.AppendLeaf(target, leaf, fname);
  }

  /**
   * One `os.walk` step of `build_tree`: ensure the branch for the step's
   * directory, then append a leaf for every eligible file name in order. The
   * step's directory then has its node (a folder when no leaf lies on the way
   * to it), and every folder added lies on the way to that directory.
   */
  method WalkStep(forest: Forest, fileId: string, e: Entry)
    requires forest.Valid()
    modifies forest
    ensures forest.Valid() && Grows(old(forest.slots), forest.slots)
    ensures Leaves(forest.slots, forest.paths) == Leaves(old(forest.slots), old(forest.paths)) + FilesPlaced(fileId, RelRoot(e), e.fnames)
    ensures forest.slots[0].children != [] <==> old(forest.slots[0].children) != [] || StepAdds(e)
    ensures LeavesBare(old(forest.slots)) && OffPath(Leaves(old(forest.slots), old(forest.paths)), Components(RelRoot(e))) ==>
              LeavesBare(forest.slots)
    ensures forest.paths[..|old(forest.paths)|] == old(forest.paths)
    ensures Reached(forest.slots, forest.paths, e,
              LeavesBare(old(forest.slots)) && OffPath(Leaves(old(forest.slots), old(forest.paths)), Components(RelRoot(e))))
    ensures forall j :: |old(forest.slots)| <= j < |forest.slots| && forest.slots[j].value.None? ==>
              forest.paths[j] <= Components(RelRoot(e))
  {
    var relRoot := ReplaceAll(e.root, "\\", "/");
    ghost var s0, p0 := forest.slots, forest.paths;
    var target := forest.EnsureBranch(Split(relRoot, '/'));
    ghost var s1, p1 := forest.slots, forest.paths;
    assert |s0[0].children| <= |s1[0].children|;
    BranchNew(s0, p0, Split(relRoot, '/'));
    AddFiles(forest, fileId, relRoot, e.fnames, target);
    GrowsTransitive(s0, s1, forest.slots);
    StepOutcome(s0, p0, s1, p1, target, forest.slots, forest.paths, e,
                LeavesBare(s0) && OffPath(Leaves(s0, p0), Components(relRoot)));
  }

  /**
   * The arena after one walk step: the branch for the step's directory, then
   * leaves only. Old paths stay, the directory is reached, and the folders
   * added lie on the way to it.
   */
  lemma StepOutcome(s0: seq<Slot>, p0: seq<seq<string>>, s1: seq<Slot>, p1: seq<seq<string>>, cursor: nat,
                    s2: seq<Slot>, p2: seq<seq<string>>, e: Entry, folder: bool)
    requires Linked(s1) && |s0| == |p0| <= |s1| == |p1| && p1[..|p0|] == p0
    requires Follow(s1, 0, Split(RelRoot(e), '/')) == Some(cursor) && cursor < |s1| && p1[cursor] == Components(RelRoot(e))
    requires folder ==> s1[cursor].value.None?
    requires forall j :: |s0| <= j < |s1| ==> p1[j] <= Components(RelRoot(e))
    requires Grows(s1, s2) && |p2| == |s2| && |p1| <= |p2| && p2[..|p1|] == p1
    requires forall j :: |s1| <= j < |s2| ==> s2[j].value.Some?
    ensures p2[..|p0|] == p0
    ensures Reached(s2, p2, e, folder)
    ensures forall j :: |s0| <= j < |s2| && s2[j].value.None? ==> p2[j] <= Components(RelRoot(e))
  {
    assert p2[..|p0|] == p2[..|p1|][..|p0|];
    assert Reached(s1, p1, e, folder);
    ReachedGrows(s1, p1, s2, p2, e, folder);
    forall j | |s0| <= j < |s2| && s2[j].value.None? ensures p2[j] <= Components(RelRoot(e)) {
      assert j < |s1|;
      assert p2[j] == p2[..|p1|][j];
    }
  }

  /**
   * The top-level node `build_tree` makes for one base: present exactly when
   * the walk adds something, and then a node for `base` (`TopNodeOk`); a
   * base with no node places no leaf.
   */
  method BaseNode(fs: Fs, folderType: string, fileId: string, base: string) returns (node: Option<TreeNode>)
    requires WellFormed(fs) && base in Bases(fs, folderType)
    ensures node.Some? <==> Contributes(WalkOf(fs, base))
    ensures node.None? ==> WalkPlaced(fileId, WalkOf(fs, base)) == []
    ensures node.Some? ==> TopNodeOk(fs, folderType, fileId, base, node.value)
  {
    var forest := new Forest(BaseCaption(base, folderType));
    assert LeavesBare(forest.slots);
    AddWalk(forest, fileId, WalkOf(fs, base));
    assert [] + WalkPlaced(fileId, WalkOf(fs, base)) == WalkPlaced(fileId, WalkOf(fs, base));
    TopNodeOfArena(fs, folderType, fileId, base, forest.slots, forest.paths);
    if forest.slots[0].children == [] {
      return None;
    }
    return Some(Materialize(forest.slots, 0));
  }

  /** What the walk loop has done after its first `n` steps, starting from arena `s0`/`p0`. */
  ghost predicate WalkedSoFar(s0: seq<Slot>, p0: seq<seq<string>>, s: seq<Slot>, p: seq<seq<string>>, fileId: string, walk: seq<Entry>, n: nat) {
    n <= |walk| && 0 < |s0| == |p0| && |s| == |p| && Grows(s0, s) &&
    Leaves(s, p) == Leaves(s0, p0) + WalkPlaced(fileId, walk[..n]) &&
    (s[0].children != [] <==> s0[0].children != [] || Contributes(walk[..n]))
  }

  /** Nothing walked yet. */
  lemma WalkedNothing(s0: seq<Slot>, p0: seq<seq<string>>, fileId: string, walk: seq<Entry>)
    requires 0 < |s0| == |p0|
    ensures WalkedSoFar(s0, p0, s0, p0, fileId, walk, 0)
  {
    assert Leaves(s0, p0) + [] == Leaves(s0, p0);
    assert forall i :: 0 <= i < |s0| ==> s0[i].children <= s0[i].children;
    assert !Contributes(walk[..0]);
  }

  /** One more walk step, as `WalkStep` promises it, keeps `WalkedSoFar` one step further. */
  lemma WalkedStep(s0: seq<Slot>, p0: seq<seq<string>>, s1: seq<Slot>, p1: seq<seq<string>>, s2: seq<Slot>, p2: seq<seq<string>>,
                   fileId: string, walk: seq<Entry>, wi: nat)
    requires wi < |walk| && WalkedSoFar(s0, p0, s1, p1, fileId, walk, wi) && |s2| == |p2| && Grows(s1, s2)
    requires Leaves(s2, p2) == Leaves(s1, p1) + FilesPlaced(fileId, RelRoot(walk[wi]), walk[wi].fnames)
    requires s2[0].children != [] <==> s1[0].children != [] || StepAdds(walk[wi])
    ensures WalkedSoFar(s0, p0, s2, p2, fileId, walk, wi + 1)
  {
    PrefixSnoc(walk, wi);
    assert walk[..wi + 1][..wi] == walk[..wi];
    ContributesSnoc(walk[..wi], walk[wi]);
    AppendAssoc(Leaves(s0, p0), WalkPlaced(fileId, walk[..wi]), FilesPlaced(fileId, RelRoot(walk[wi]), walk[wi].fnames));
    GrowsTransitive(s0, s1, s2);
  }

  /** One more walk step keeps every walked directory reached and every new folder on the way to one. */
  lemma DirsSoFar(s0: seq<Slot>, s1: seq<Slot>, p1: seq<seq<string>>, s2: seq<Slot>, p2: seq<seq<string>>,
                  walk: seq<Entry>, wi: nat, clear: bool)
    requires wi < |walk| && Linked(s1) && |p1| == |s1| && Grows(s1, s2) && |p2| == |s2| && |p1| <= |p2| && p2[..|p1|] == p1
    requires forall e | e in walk[..wi] :: Reached(s1, p1, e, clear)
    requires forall j :: |s0| <= j < |s1| && s1[j].value.None? ==> OnWalk(p1[j], walk[..wi])
    requires Reached(s2, p2, walk[wi], clear)
    requires forall j :: |s1| <= j < |s2| && s2[j].value.None? ==> p2[j] <= Components(RelRoot(walk[wi]))
    ensures forall e | e in walk[..wi + 1] :: Reached(s2, p2, e, clear)
    ensures forall j :: |s0| <= j < |s2| && s2[j].value.None? ==> OnWalk(p2[j], walk[..wi + 1])
  {
    assert walk[..wi + 1] == walk[..wi] + [walk[wi]];
    forall e | e in walk[..wi + 1] ensures Reached(s2, p2, e, clear) {
      if e in walk[..wi] {
        ReachedGrows(s1, p1, s2, p2, e, clear);
      }
    }
    forall j | |s0| <= j < |s2| && s2[j].value.None? ensures OnWalk(p2[j], walk[..wi + 1]) {
      assert walk[wi] in walk[..wi + 1];
      if j < |s1| {
        assert p2[j] == p2[..|p1|][j];
        assert forall e | e in walk[..wi] :: e in walk[..wi + 1];
      }
    }
  }

  /** The `for root, _dirs, fnames in os.walk(base)` loop: one `WalkStep` per step, in walk order. */
  method AddWalk(forest: Forest, fileId: string, walk: seq<Entry>)
    requires forest.Valid()
    modifies forest
    ensures forest.Valid() && Grows(old(forest.slots), forest.slots)
    ensures Leaves(forest.slots, forest.paths) == Leaves(old(forest.slots), old(forest.paths)) + WalkPlaced(fileId, walk)
    ensures forest.slots[0].children != [] <==> old(forest.slots[0].children) != [] || Contributes(walk)
    ensures LeavesBare(old(forest.slots)) && Leaves(old(forest.slots), old(forest.paths)) == [] && DirsClear(walk) ==>
              LeavesBare(forest.slots)
    ensures forall e | e in walk ::
              Reached(forest.slots, forest.paths, e,
                      LeavesBare(old(forest.slots)) && Leaves(old(forest.slots), old(forest.paths)) == [] && DirsClear(walk))
    ensures forall j :: |old(forest.slots)| <= j < |forest.slots| && forest.slots[j].value.None? ==> OnWalk(forest.paths[j], walk)
  {
    ghost var s0, p0 := forest.slots, forest.paths;
    ghost var clear := LeavesBare(s0) && Leaves(s0, p0) == [] && DirsClear(walk);
    WalkedNothing(s0, p0, fileId, walk);
    for wi := 0 to |walk|
      invariant forest.Valid() && WalkedSoFar(s0, p0, forest.slots, forest.paths, fileId, walk, wi)
      invariant clear ==> LeavesBare(forest.slots)
      invariant forall e | e in walk[..wi] :: Reached(forest.slots, forest.paths, e, clear)
      invariant forall j :: |s0| <= j < |forest.slots| && forest.slots[j].value.None? ==> OnWalk(forest.paths[j], walk[..wi])
    {
      ghost var s1, p1 := forest.slots, forest.paths;
      if clear {
        WalkOffPath(fileId, walk, wi);
        assert Leaves(s1, p1) == WalkPlaced(fileId, walk[..wi]);
      }
      WalkStep(forest, fileId, walk[wi]);
      WalkedStep(s0, p0, s1, p1, forest.slots, forest.paths, fileId, walk, wi);
      DirsSoFar(s0, s1, p1, forest.slots, forest.paths, walk, wi, clear);
    }
    assert walk[..|walk|] == walk;
  }

  /**
   * The arena the walk of `base` leaves behind: with no child below the base
   * node the walk placed nothing, and otherwise the nested tree is the base's
   * top-level node.
   */
  lemma TopNodeOfArena(fs: Fs, folderType: string, fileId: string, base: string, slots: seq<Slot>, paths: seq<seq<string>>)
    requires WellFormed(fs) && base in Bases(fs, folderType) && ArenaOk(slots, paths)
    requires slots[0].caption == BaseCaption(base, folderType)
    requires Leaves(slots, paths) == WalkPlaced(fileId, WalkOf(fs, base))
    requires DirsClear(WalkOf(fs, base)) ==> LeavesBare(slots)
    requires slots[0].children != [] ==> Contributes(WalkOf(fs, base))
    requires forall e | e in WalkOf(fs, base) :: Reached(slots, paths, e, DirsClear(WalkOf(fs, base)))
    requires forall j :: 1 <= j < |slots| && slots[j].value.None? ==> OnWalk(paths[j], WalkOf(fs, base))
    ensures slots[0].children == [] ==> WalkPlaced(fileId, WalkOf(fs, base)) == []
    ensures slots[0].children != [] ==> TopNodeOk(fs, folderType, fileId, base, Materialize(slots, 0))
  {
    var walk := WalkOf(fs, base);
    TreePlacesLeaves(slots, paths);
    var t := Materialize(slots, 0);
    if slots[0].children == [] {
      assert Placed(t, []) == [];
      assert |multiset(WalkPlaced(fileId, walk))| == 0;
    } else {
      if DirsClear(walk) {
        MaterializeShaped(slots, 0);
      }
      OutlineOfArena(slots, paths, walk);
      if PlainWalk(walk) {
        PlainDirsClear(fs, base);
        PlacedLeavesOk(fs, folderType, fileId, base);
        forall x | x in Placed(t, []) ensures LeafOk(fs, folderType, fileId, x.1) {
          assert x in multiset(Placed(t, []));
        }
        PlacedOk(fs, folderType, fileId, t, []);
      }
    }
  }

  /**
   * The folder half of `TopNodeOk` for the arena a walk leaves: every walked
   * directory has its node, a folder when `DirsClear` holds, and every folder
   * lies on the way to a walked directory.
   */
  lemma OutlineOfArena(slots: seq<Slot>, paths: seq<seq<string>>, walk: seq<Entry>)
    requires ArenaOk(slots, paths) && Contributes(walk)
    requires forall e | e in walk :: Reached(slots, paths, e, DirsClear(walk))
    requires forall j :: 1 <= j < |slots| && slots[j].value.None? ==> OnWalk(paths[j], walk)
    ensures var t := Materialize(slots, 0);
      (forall e | e in walk ::
         (Components(RelRoot(e)), true) in Outline(t, []) ||
         (!DirsClear(walk) && (Components(RelRoot(e)), false) in Outline(t, []))) &&
      (forall x | x in Outline(t, []) && x.1 :: OnWalk(x.0, walk))
  {
    var t := Materialize(slots, 0);
    forall e | e in walk
      ensures (Components(RelRoot(e)), true) in Outline(t, []) ||
              (!DirsClear(walk) && (Components(RelRoot(e)), false) in Outline(t, []))
    {
      OutlineListed(slots, paths, Follow(slots, 0, Split(RelRoot(e), '/')).value);
    }
    forall x | x in Outline(t, []) && x.1 ensures OnWalk(x.0, walk) {
      var j := OutlineNode(slots, paths, x);
      if j == 0 {
        var e :| e in walk && StepAdds(e);
      }
    }
  }

  /** One more base keeps the top-level nodes made so far paired with the contributing bases. */
  lemma TopsSnoc(fs: Fs, folderType: string, fileId: string, bases: seq<string>, b: string, tree: seq<TreeNode>, node: Option<TreeNode>)
    requires |tree| == |ContribBases(fs, bases)|
    requires forall i :: 0 <= i < |tree| ==> TopNodeOk(fs, folderType, fileId, ContribBases(fs, bases)[i], tree[i])
    requires node.Some? <==> Contributes(WalkOf(fs, b))
    requires node.Some? ==> TopNodeOk(fs, folderType, fileId, b, node.value)
    ensures var more := if node.Some? then tree + [node.value] else tree;
      |more| == |ContribBases(fs, bases + [b])| &&
      forall i :: 0 <= i < |more| ==> TopNodeOk(fs, folderType, fileId, ContribBases(fs, bases + [b])[i], more[i])
  {
    assert (bases + [b])[..|bases|] == bases;
  }

  /**
   * `build_tree(folder_type, file_id, extra_roots)`: one top-level folder
   * node per base whose walk adds anything, in base order, each holding
   * exactly that base's leaves (`TopNodeOk`), followed by `extra_roots`.
   */
  method BuildTree(fs: Fs, folderType: string, fileId: string, extraRoots: seq<TreeNode>) returns (tree: seq<TreeNode>)
    requires WellFormed(fs)
    ensures var top := ContribBases(fs, Bases(fs, folderType));
      |tree| == |top| + |extraRoots| && tree[|top|..] == extraRoots &&
      forall i :: 0 <= i < |top| ==> TopNodeOk(fs, folderType, fileId, top[i], tree[i])
  {
    tree := [];
    var bases := Bases(fs, folderType);
    for bi := 0 to |bases|
      invariant |tree| == |ContribBases(fs, bases[..bi])|
      invariant forall i :: 0 <= i < |tree| ==> TopNodeOk(fs, folderType, fileId, ContribBases(fs, bases[..bi])[i], tree[i])
    {
      var node := BaseNode(fs, folderType, fileId, bases[bi]);
      TopsSnoc(fs, folderType, fileId, bases[..bi], bases[bi], tree, node);
      assert bases[..bi + 1] == bases[..bi] + [bases[bi]];
      if node.Some? {
        tree := tree + [node.value];
      }
    }
    assert bases[..|bases|] == bases;
    var top := tree;
    if extraRoots != [] {
      tree := tree + extraRoots;
    }
    assert tree[|top|..] == extraRoots;
  }

  /**
   * The leaf `build_tree` makes for the file `a\b.pt` at the top of a base
   * names `a/b.pt` (tree_utils.py:91-93), which is not found under that base:
   * the tree has a leaf for the file, placed under its real name, whose
   * selection does not resolve.
   */
  lemma BackslashLeafMisresolves(fileId: string)
    ensures "a\\b.pt" in WalkOf(BackslashFs(), "/m")[0].fnames && Eligible("a\\b.pt")
    ensures var x := (Components("") + ["a\\b.pt"], MakeLeaf(fileId, "", "a\\b.pt"));
      x in WalkPlaced(fileId, WalkOf(BackslashFs(), "/m")) && x.1.file == "a/b.pt" &&
      FirstExisting(BackslashFs(), Bases(BackslashFs(), "loras"), x.1.file).None?
  {
    var e := Entry("", [], ["a\\b.pt"]);
    assert WalkOf(BackslashFs(), "/m") == [e];
    assert RelRoot(e) == "" by { ReplaceCharAbsent("", '\\', "/"); }
    BackslashNameEligible();
    WalkPlacesAll(fileId, [e], e, "a\\b.pt");
    BackslashRewritten();
    BackslashNotFound();
  }
}

