/**
 * The VAE loader's folder -> file dynamic combo, its own resolver (which
 * never raises on a dictionary of strings: it defaults to the
 * `pixel_space` preset and, when no base holds the file, hands back the
 * relative string) and the dispatch of `VAELoader.execute` on the
 * resolved value.
 */
module Vae {
  import opened Wrappers
  import opened Strings
  import opened Values
  import opened FileSystem
  import opened Naming
  import opened Scanner
  import opened ScannerFacts
  import opened Resolver

  /** One option of the dynamic combo: a folder label with its child file combo. */
  datatype ComboOption = ComboOption(caption: string, childId: string, choices: seq<string>)

  /** The built-in presets, in the order the combo lists them. */
  const Builtins: seq<string> := ["pixel_space", "taesd", "taesdxl", "taesd3", "taef1"]

  /** The tiny autoencoders `load_taesd` knows (`VAELoader.image_taes`). */
  const ImageTaes: seq<string> := ["taesd", "taesdxl", "taesd3", "taef1"]

  /** The folder types scanned for VAE files, in scanning order. */
  const VaeFolderTypes: seq<string> := ["vae", "vae_approx"]

  /** `f"{folder_type}/{rel_dir}" if rel_dir else folder_type`. */
  function FolderLabel(folderType: string, relDir: string): string {
    if relDir != "" then folderType + "/" + relDir else folderType
  }

  /** The option built for the files `list_files(folder_type, rel_dir)` lists. */
  predicate OptionFor(fs: Fs, fileId: string, folderType: string, relDir: string, o: ComboOption) {
    o.caption == FolderLabel(folderType, relDir) &&
    o.childId == ChildId(fileId, SanitizeRelDir(o.caption)) &&
    o.choices != [] && StrictlySorted(o.choices) && ToSet(o.choices) == ListedFiles(fs, folderType, relDir)
  }

  /** The directories `list_dirs(folder_type)` reports. */
  function DirsOf(fs: Fs, folderType: string): set<string> {
    {""} + BasesDirs(fs, Bases(fs, folderType))
  }

  /** Each option is the one built for the directory at the same position. */
  predicate OptionsFor(fs: Fs, fileId: string, folderType: string, dirs: seq<string>, opts: seq<ComboOption>) {
    |opts| == |dirs| && forall k :: 0 <= k < |opts| ==> OptionFor(fs, fileId, folderType, dirs[k], opts[k])
  }

  /** `dirs` are the directories among `seen` that list files, in increasing order. */
  ghost predicate KeptDirs(fs: Fs, folderType: string, seen: seq<string>, dirs: seq<string>) {
    StrictlySorted(dirs) && forall d :: d in dirs <==> d in seen && ListedFiles(fs, folderType, d) != {}
  }

  /**
   * The inner loop of `build_vae_input` for one folder type: one option per
   * directory of `list_dirs`, in its order, skipping directories without
   * files.
   */
  method FolderOptions(fs: Fs, fileId: string, folderType: string) returns (opts: seq<ComboOption>, ghost dirs: seq<string>)
    ensures |opts| == |dirs| && StrictlySorted(dirs)
    ensures forall k :: 0 <= k < |opts| ==> OptionFor(fs, fileId, folderType, dirs[k], opts[k])
    ensures forall d :: d in dirs <==> d in DirsOf(fs, folderType) && ListedFiles(fs, folderType, d) != {}
  {
    var all := ListDirs(fs, folderType);
    opts, dirs := [], [];
    for i := 0 to |all|
      invariant OptionsFor(fs, fileId, folderType, dirs, opts)
      invariant KeptDirs(fs, folderType, all[..i], dirs)
    {
      var relDir := all[i];
      var files := ListFiles(fs, folderType, relDir);
      if files == [] {
        assert ToSet(files) == {};
        DirsSkip(fs, folderType, all, i, dirs);
        continue;
      }
      assert files[0] in ToSet(files);
      var caption := if relDir != "" then folderType + "/" + relDir else folderType;
      var childId := fileId + "__" + SanitizeRelDir(caption);
      DirsTake(fs, folderType, all, i, dirs);
      OptionsSnoc(fs, fileId, folderType, dirs, opts, relDir, ComboOption(caption, childId, files));
      opts := opts + [ComboOption(caption, childId, files)];
      dirs := dirs + [relDir];
    }
    assert all[..|all|] == all;
    AllDirs(fs, folderType, all, dirs);
  }

  /** Kept from the whole of `list_dirs`, the directories are those of `DirsOf` that list files. */
  lemma AllDirs(fs: Fs, folderType: string, all: seq<string>, dirs: seq<string>)
    requires ToSet(all) == DirsOf(fs, folderType) && KeptDirs(fs, folderType, all, dirs)
    ensures forall d :: d in dirs <==> d in DirsOf(fs, folderType) && ListedFiles(fs, folderType, d) != {}
  {
    forall d ensures d in all <==> d in DirsOf(fs, folderType) {
      assert d in all <==> d in ToSet(all);
    }
  }

  /** Appending the option built for `d` keeps each option matched with its directory. */
  lemma OptionsSnoc(fs: Fs, fileId: string, folderType: string, dirs: seq<string>, opts: seq<ComboOption>, d: string, o: ComboOption)
    requires OptionsFor(fs, fileId, folderType, dirs, opts) && OptionFor(fs, fileId, folderType, d, o)
    ensures OptionsFor(fs, fileId, folderType, dirs + [d], opts + [o])
  {
  }

  /** A directory without files leaves the kept directories as they were. */
  lemma DirsSkip(fs: Fs, folderType: string, all: seq<string>, i: nat, dirs: seq<string>)
    requires i < |all| && ListedFiles(fs, folderType, all[i]) == {}
    requires KeptDirs(fs, folderType, all[..i], dirs)
    ensures KeptDirs(fs, folderType, all[..i + 1], dirs)
  {
    assert all[..i + 1] == all[..i] + [all[i]];
  }

  /** A directory with files is kept after every earlier one, and the kept ones stay in increasing order. */
  lemma DirsTake(fs: Fs, folderType: string, all: seq<string>, i: nat, dirs: seq<string>)
    requires StrictlySorted(all) && i < |all| && ListedFiles(fs, folderType, all[i]) != {}
    requires KeptDirs(fs, folderType, all[..i], dirs)
    ensures KeptDirs(fs, folderType, all[..i + 1], dirs + [all[i]])
  {
    assert all[..i + 1] == all[..i] + [all[i]];
    forall k | 0 <= k < |dirs| ensures Less(dirs[k], all[i]) {
      EarlierIsLess(all, i, dirs[k]);
    }
  }

  /** In a strictly increasing listing, whatever precedes position `i` is less than its entry. */
  lemma EarlierIsLess(all: seq<string>, i: nat, x: string)
    requires StrictlySorted(all) && i < |all| && x in all[..i]
    ensures Less(x, all[i])
  {
    var j :| 0 <= j < i && all[..i][j] == x;
  }

  /** Where an option of the combo comes from: the builtins, or a folder type and directory. */
  datatype Origin = BuiltinsOrigin | FolderOrigin(folderType: string, relDir: string)

  /** `Origin` order: builtins first, then by folder type in scanning order, then by directory. */
  predicate Before(a: Origin, b: Origin) {
    (a.BuiltinsOrigin? && b.FolderOrigin?) ||
    (a.FolderOrigin? && b.FolderOrigin? &&
      ((a.folderType == "vae" && b.folderType == "vae_approx") ||
       (a.folderType == b.folderType && Less(a.relDir, b.relDir))))
  }

  /** The origins of one folder type's options. */
  function FolderOrigins(folderType: string, dirs: seq<string>): (r: seq<Origin>)
    ensures |r| == |dirs| && forall k :: 0 <= k < |r| ==> r[k] == FolderOrigin(folderType, dirs[k])
  {
    seq(|dirs|, k requires 0 <= k < |dirs| => FolderOrigin(folderType, dirs[k]))
  }

  /** What `build_vae_input` has built once the first `t` folder types are scanned. */
  ghost predicate BuildInv(fs: Fs, fileId: string, options: seq<ComboOption>, origins: seq<Origin>, t: nat) {
    t <= |VaeFolderTypes| &&
    |options| == |origins| >= 1 &&
    options[0] == ComboOption("builtins", fileId + "__builtins", Builtins) && origins[0] == BuiltinsOrigin &&
    (forall k :: 1 <= k < |options| ==>
      origins[k].FolderOrigin? && origins[k].folderType in VaeFolderTypes[..t] &&
      OptionFor(fs, fileId, origins[k].folderType, origins[k].relDir, options[k])) &&
    (forall k, j :: 0 <= k < j < |origins| ==> Before(origins[k], origins[j])) &&
    (forall u, d :: u in VaeFolderTypes[..t] ==>
      (FolderOrigin(u, d) in origins <==> d in DirsOf(fs, u) && ListedFiles(fs, u, d) != {})) &&
    (forall u, d :: u !in VaeFolderTypes[..t] ==> FolderOrigin(u, d) !in origins)
  }

  /** Scanning one more folder type keeps `BuildInv`. */
  lemma BuildStep(fs: Fs, fileId: string, options: seq<ComboOption>, origins: seq<Origin>, t: nat,
                  opts: seq<ComboOption>, dirs: seq<string>)
    requires BuildInv(fs, fileId, options, origins, t) && t < |VaeFolderTypes|
    requires |opts| == |dirs| && StrictlySorted(dirs)
    requires forall k :: 0 <= k < |opts| ==> OptionFor(fs, fileId, VaeFolderTypes[t], dirs[k], opts[k])
    requires forall d :: d in dirs <==> d in DirsOf(fs, VaeFolderTypes[t]) && ListedFiles(fs, VaeFolderTypes[t], d) != {}
    ensures BuildInv(fs, fileId, options + opts, origins + FolderOrigins(VaeFolderTypes[t], dirs), t + 1)
  {
    var folderType := VaeFolderTypes[t];
    var added := FolderOrigins(folderType, dirs);
    assert VaeFolderTypes[..t + 1] == VaeFolderTypes[..t] + [folderType];
    AppendOrigins(origins, added, folderType, dirs, VaeFolderTypes[..t], t);
    var os, gs := options + opts, origins + added;
    forall k | 1 <= k < |os|
      ensures gs[k].FolderOrigin? && gs[k].folderType in VaeFolderTypes[..t + 1] &&
              OptionFor(fs, fileId, gs[k].folderType, gs[k].relDir, os[k])
    {
      if k >= |options| {
        assert os[k] == opts[k - |options|] && gs[k] == added[k - |options|];
      }
    }
  }

  /**
   * `build_vae_input(folder_id, file_id)`: the builtins option first, then
   * one option per directory of "vae" and then of "vae_approx" that holds
   * files, in `list_dirs` order.
   */
  method BuildVaeInput(fs: Fs, fileId: string) returns (options: seq<ComboOption>, ghost origins: seq<Origin>)
    ensures |options| == |origins| && options != []
    ensures options[0] == ComboOption("builtins", fileId + "__builtins", Builtins) && origins[0] == BuiltinsOrigin
    ensures forall k :: 1 <= k < |options| ==>
      origins[k].FolderOrigin? && origins[k].folderType in VaeFolderTypes &&
      OptionFor(fs, fileId, origins[k].folderType, origins[k].relDir, options[k])
    ensures forall k, j :: 0 <= k < j < |origins| ==> Before(origins[k], origins[j])
    ensures forall t, d :: t in VaeFolderTypes ==>
      (FolderOrigin(t, d) in origins <==> d in DirsOf(fs, t) && ListedFiles(fs, t, d) != {})
  {
    options := [ComboOption("builtins", fileId + "__builtins", Builtins)];
    origins := [BuiltinsOrigin];
    for t := 0 to |VaeFolderTypes|
      invariant BuildInv(fs, fileId, options, origins, t)
    {
      var folderType := VaeFolderTypes[t];
      var opts, dirs := FolderOptions(fs, fileId, folderType);
      BuildStep(fs, fileId, options, origins, t, opts, dirs);
      options := options + opts;
      origins := origins + FolderOrigins(folderType, dirs);
    }
    assert VaeFolderTypes[..|VaeFolderTypes|] == VaeFolderTypes;
  }

  /** The ordering and membership facts one folder type's options add. */
  lemma AppendOrigins(origins: seq<Origin>, added: seq<Origin>, folderType: string, dirs: seq<string>,
                      done: seq<string>, t: nat)
    requires t < |VaeFolderTypes| && done == VaeFolderTypes[..t] && folderType == VaeFolderTypes[t]
    requires |added| == |dirs| && StrictlySorted(dirs)
    requires forall k :: 0 <= k < |added| ==> added[k] == FolderOrigin(folderType, dirs[k])
    requires origins != [] && origins[0] == BuiltinsOrigin
    requires forall k :: 1 <= k < |origins| ==> origins[k].FolderOrigin? && origins[k].folderType in done
    requires forall k, j :: 0 <= k < j < |origins| ==> Before(origins[k], origins[j])
    ensures forall k, j :: 0 <= k < j < |origins + added| ==> Before((origins + added)[k], (origins + added)[j])
    ensures forall d :: FolderOrigin(folderType, d) in origins + added <==> d in dirs
    ensures forall u, d :: u != folderType ==> (FolderOrigin(u, d) in origins + added <==> FolderOrigin(u, d) in origins)
  {
    var all := origins + added;
    forall k, j | 0 <= k < j < |all| ensures Before(all[k], all[j]) {
      if j >= |origins| && k >= |origins| {
        assert all[k] == added[k - |origins|] && all[j] == added[j - |origins|];
      } else if j >= |origins| {
        assert all[j] == FolderOrigin(folderType, dirs[j - |origins|]);
        if k > 0 {
          assert origins[k].folderType in done;
          assert t == 1 && origins[k].folderType == "vae";
        }
      }
    }
    forall d ensures FolderOrigin(folderType, d) in all <==> d in dirs {
      if d in dirs {
        var k :| 0 <= k < |dirs| && dirs[k] == d;
        assert all[|origins| + k] == added[k];
      }
    }
  }
}
