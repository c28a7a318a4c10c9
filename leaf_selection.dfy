/**
 * What the resolver makes of the selections the tree widget produces: a
 * leaf's `{folder, file, child_id}` value, sent back as the folder combo
 * plus the folder's child combo (or as the child combo alone), resolves to
 * the leaf's file under the first base directory that holds it.
 */
module LeafSelection {
  import opened Wrappers
  import opened Strings
  import opened Values
  import opened FileSystem
  import opened Naming
  import opened ScannerFacts
  import opened Tree
  import opened TreeBuilder
  import opened Resolver

  /** The selection map for a leaf: `{folder_id: folder, child_id: file}`. */
  function LeafSelectionMap(folderId: string, v: Leaf): Value {
    VDict([(folderId, VStr(v.folder)), (v.childId, VStr(v.file))])
  }

  /** The folder value a leaf records leads the resolver back to the leaf's own child id. */
  lemma LeafFolderLeadsToChild(fileId: string, v: Leaf, show: Value -> string)
    requires v.folder == (if Parent(v.file) == "" then "root" else Parent(v.file))
    requires v.childId == ChildId(fileId, SanitizeRelDir(Parent(v.file)))
    ensures ChildId(fileId, SanitizeRelDir(RelDirOf(VStr(v.folder), show))) == v.childId
  {
    var dir := Parent(v.file);
    if dir == "root" {
      SanitizePlainName("root");
    }
  }

  /** A leaf's file is already a clean relative path: the resolver probes it unchanged. */
  lemma LeafProbe(fs: Fs, folderType: string, fileId: string, v: Leaf)
    requires LeafOk(fs, folderType, fileId, v)
    ensures ReplaceAll(v.file, "\\", "/") == v.file && !IsAbs(v.file)
    ensures FirstExisting(fs, Bases(fs, folderType), v.file).Some?
  {
    ReplaceCharAbsent(v.file, '\\', "/");
  }

  /** The primary lookups on a two-entry map whose folder names the child entry's key. */
  lemma PrimaryOfPair(folderId: string, fileId: string, folder: string, childId: string, file: string,
                      show: Value -> string)
    requires folderId != childId && file != ""
    requires ChildId(fileId, SanitizeRelDir(RelDirOf(VStr(folder), show))) == childId
    ensures PrimaryFile([(folderId, VStr(folder)), (childId, VStr(file))], folderId, fileId, show) == VStr(file)
  {
    var items := [(folderId, VStr(folder)), (childId, VStr(file))];
    assert Get(items, folderId) == VStr(folder);
    assert items[1].0 == childId;
    assert Get(items, childId) == VStr(file);
  }

  /**
   * Round trip: the tree's leaf, selected through the folder combo and the
   * folder's child combo, resolves to the leaf's file under the first base
   * that holds it.
   */
  lemma LeafResolves(fs: Fs, folderType: string, folderId: string, fileId: string, v: Leaf, show: Value -> string)
    requires LeafOk(fs, folderType, fileId, v) && folderId != v.childId
    ensures ResolveSpec(fs, folderType, LeafSelectionMap(folderId, v), folderId, fileId, show) ==
            Ok(FirstExisting(fs, Bases(fs, folderType), v.file).value)
  {
    assert v.file != "";
    LeafFolderLeadsToChild(fileId, v, show);
    PrimaryOfPair(folderId, fileId, v.folder, v.childId, v.file, show);
    LeafProbe(fs, folderType, fileId, v);
  }

  /**
   * Round trip with only the child combo: without a folder entry the scan
   * over `file_id__*` keys finds the leaf's child id.
   */
  lemma ChildOnlyResolves(fs: Fs, folderType: string, folderId: string, fileId: string, v: Leaf, show: Value -> string)
    requires LeafOk(fs, folderType, fileId, v) && folderId != v.childId
    ensures ResolveSpec(fs, folderType, VDict([(v.childId, VStr(v.file))]), folderId, fileId, show) ==
            Ok(FirstExisting(fs, Bases(fs, folderType), v.file).value)
  {
    var items := [(v.childId, VStr(v.file))];
    assert !HasKey(items, folderId);
    assert v.childId != fileId by {
      assert |v.childId| > |fileId|;
    }
    assert !HasKey(items, fileId);
    assert StartsWith(v.childId, fileId + "__") by {
      assert v.childId[..|fileId + "__"|] == fileId + "__";
    }
    assert FirstQualifying(items, fileId + "__") == Some(0);
    LeafProbe(fs, folderType, fileId, v);
  }
}
