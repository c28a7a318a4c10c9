/**
 * `build_file_input`, shared by the LoRA, checkpoint and diffusion-model
 * loaders: one flat combo over every eligible file of a folder type, plus
 * the tree the front end shows, built with the same input id.
 */
module FileInput {
  import opened Strings
  import opened Sorting
  import opened FileSystem
  import opened Scanner
  import opened ScannerFacts
  import opened Tree
  import opened TreeBuilder

  /**
   * The combo half of `build_file_input`: the sorted, de-duplicated files
   * under the folder type, or exactly `["<none>"]` when there are none. Each
   * choice is a listed path (`ListedFacts`); when no name under the bases
   * holds a backslash, each is an eligible file found under the bases.
   */
  method ComboChoices(fs: Fs, folderType: string) returns (choices: seq<string>)
    requires WellFormed(fs)
    ensures ListedFiles(fs, folderType, "") == {} ==> choices == ["<none>"]
    ensures ListedFiles(fs, folderType, "") != {} ==>
      StrictlySorted(choices) && ToSet(choices) == ListedFiles(fs, folderType, "") &&
      (forall x | x in choices :: ListedFacts(fs, Bases(fs, folderType), "", x)) &&
      (NoBackslashes(fs, Bases(fs, folderType)) ==> forall x | x in choices :: ListedOk(fs, Bases(fs, folderType), "", x))
  {
    var files := ListFiles(fs, folderType, "");
    var options: seq<string> := [];
    for i := 0 to |files|
      invariant options == files[..i]
    {
      options := options + [files[i]];
    }
    assert options == files;
    if options == [] {
      options := ["<none>"];
      assert ListedFiles(fs, folderType, "") == {} by {
        assert ToSet(files) == {};
      }
    } else {
      assert ListedFiles(fs, folderType, "") != {} by {
        assert files[0] in ToSet(files);
      }
    }
    choices := SortSet(ToSet(options));
    if files == [] {
      SortedUnique(choices, options);
    } else {
      ChoicesListed(fs, folderType, choices);
    }
  }

  /** Choices that are exactly the listed files have the facts every listed file has. */
  lemma ChoicesListed(fs: Fs, folderType: string, choices: seq<string>)
    requires WellFormed(fs) && ToSet(choices) == ListedFiles(fs, folderType, "")
    ensures forall x | x in choices :: ListedFacts(fs, Bases(fs, folderType), "", x)
    ensures NoBackslashes(fs, Bases(fs, folderType)) ==> forall x | x in choices :: ListedOk(fs, Bases(fs, folderType), "", x)
  {
    ListedFilesFacts(fs, folderType, "");
    assert forall x | x in choices :: x in ToSet(choices);
  }

  /**
   * `build_file_input(input_id, folder_type)`: the combo's options are the
   * sorted, de-duplicated files under the folder type, or exactly
   * `["<none>"]` when there are none; every leaf of the tree carries a
   * child id under `input_id`.
   */
  method BuildFileInput(fs: Fs, inputId: string, folderType: string) returns (choices: seq<string>, tree: seq<TreeNode>)
    requires WellFormed(fs)
    ensures ListedFiles(fs, folderType, "") == {} ==> choices == ["<none>"]
    ensures ListedFiles(fs, folderType, "") != {} ==>
      StrictlySorted(choices) && ToSet(choices) == ListedFiles(fs, folderType, "") &&
      (forall x | x in choices :: ListedFacts(fs, Bases(fs, folderType), "", x)) &&
      (NoBackslashes(fs, Bases(fs, folderType)) ==> forall x | x in choices :: ListedOk(fs, Bases(fs, folderType), "", x))
    ensures var top := ContribBases(fs, Bases(fs, folderType));
      |tree| == |top| && forall i :: 0 <= i < |top| ==> TopNodeOk(fs, folderType, inputId, top[i], tree[i])
  {
    choices := ComboChoices(fs, folderType);
    tree := BuildTree(fs, folderType, inputId, []);
  }
}
