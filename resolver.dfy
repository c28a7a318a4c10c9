/**
 * `resolve_selected_path` of the shared tree utilities: turns the selection
 * map a folder/file widget sends back into one path under the folder type's
 * base directories, or raises.
 */
module Resolver {
  import opened Wrappers
  import opened Strings
  import opened Values
  import opened FileSystem
  import opened Naming

  /**
   * `"" if folder_sel in (None, "root", "") else str(folder_sel)`; `show` is
   * Python's `str()` of a value that is not a string.
   */
  function RelDirOf(folderSel: Value, show: Value -> string): string {
    if folderSel == VNone || folderSel == VStr("root") || folderSel == VStr("") then ""
    else if folderSel.VStr? then folderSel.s
    else show(folderSel)
  }

  /** The file the primary lookups pick: the folder's child combo, else the plain file key. */
  function PrimaryFile(items: seq<(string, Value)>, folderId: string, fileId: string, show: Value -> string): Value {
    var folderSel := Get(items, folderId);
    if folderSel.VNone? then Get(items, fileId)
    else Or(Get(items, ChildId(fileId, SanitizeRelDir(RelDirOf(folderSel, show)))), Get(items, fileId))
  }

  /** An entry the fallback scan accepts: a key under `prefix` holding a valid choice. */
  predicate Qualifies(item: (string, Value), prefix: string) {
    StartsWith(item.0, prefix) && ValidChoice(item.1)
  }

  /** The position of the first entry, in map order, that the fallback scan accepts. */
  function FirstQualifying(items: seq<(string, Value)>, prefix: string): (r: Option<nat>)
    ensures r.Some? ==> r.value < |items| && Qualifies(items[r.value], prefix) &&
                        forall j :: 0 <= j < r.value ==> !Qualifies(items[j], prefix)
    ensures r.None? ==> forall j :: 0 <= j < |items| ==> !Qualifies(items[j], prefix)
  {
    if items == [] then None
    else if Qualifies(items[0], prefix) then Some(0)
    else
      var rest := FirstQualifying(items[1..], prefix);
      assert forall j :: 1 <= j < |items| ==> items[j] == items[1..][j - 1];
      match rest
      case None => None
      case Some(i) => Some(i + 1)
  }

  /** The file name the resolver settles on before probing, if any. */
  function ChosenFile(items: seq<(string, Value)>, folderId: string, fileId: string, show: Value -> string): (r: Option<string>)
    ensures r.Some? ==> r.value != "" && r.value != "<none>"
  {
    var primary := PrimaryFile(items, folderId, fileId, show);
    if ValidChoice(primary) then Some(primary.s)
    else
      match FirstQualifying(items, fileId + "__")
      case Some(i) => Some(items[i].1.s)
      case None => None
  }

  const NotResolved := "Could not resolve path for selection: "

  /** What `resolve_selected_path(folder_type, selection, folder_id, file_id)` returns or raises. */
  function ResolveSpec(fs: Fs, folderType: string, selection: Value, folderId: string, fileId: string,
                       show: Value -> string): Result<string, PyError>
  {
    if !selection.VDict? then Err(ValueError("Invalid selection"))
    else
      match ChosenFile(selection.items, folderId, fileId, show)
      case None => Err(FileNotFoundError("No file selected"))
      case Some(f) =>
        var relPath := ReplaceAll(f, "\\", "/");
        if IsAbs(relPath) && Exists(fs, relPath) then Ok(relPath)
        else
          match FirstExisting(fs, Bases(fs, folderType), relPath)
          case Some(p) => Ok(p)
          case None => Err(FileNotFoundError(NotResolved + relPath))
  }

  /**
   * The fallback scan of the resolver: the entries in map order, the first
   * `file_id__*` key with a valid value replaces `primary`; with no folder
   * selected, the key's suffix also becomes the relative folder.
   */
  method ScanFallback(items: seq<(string, Value)>, prefix: string, primary: Value, folderSel: Value, relDir: string)
    returns (fileRel: Value, dir: string)
    ensures fileRel == match FirstQualifying(items, prefix)
                       case Some(i) => items[i].1
                       case None => primary
  {
    fileRel, dir := primary, relDir;
    for k := 0 to |items|
      invariant fileRel == primary
      invariant forall j :: 0 <= j < k ==> !Qualifies(items[j], prefix)
    {
      var (key, val) := items[k];
      if !StartsWith(key, prefix) {
        continue;
      }
      if !ValidChoice(val) {
        continue;
      }
      fileRel := val;
      if folderSel.VNone? {
        var suffix := key[|prefix|..];
        if suffix != "root" && suffix != "" {
          dir := ReplaceAll(suffix, "__", "/");
        }
      }
      assert FirstQualifying(items, prefix) == Some(k);
      return;
    }
  }

  /** The primary lookups of the resolver, with the relative folder they derive. */
  method PrimaryLookup(items: seq<(string, Value)>, folderId: string, fileId: string, show: Value -> string)
    returns (fileRel: Value, folderSel: Value, relDir: string)
    ensures fileRel == PrimaryFile(items, folderId, fileId, show)
    ensures folderSel == Get(items, folderId) && relDir == RelDirOf(folderSel, show)
  {
    folderSel := Get(items, folderId);
    relDir := if folderSel == VNone || folderSel == VStr("root") || folderSel == VStr("") then ""
              else if folderSel.VStr? then folderSel.s else show(folderSel);
    fileRel := if folderSel.VNone? then Get(items, fileId) else VNone;
    if !folderSel.VNone? {
      var childId := ChildId(fileId, SanitizeRelDir(relDir));
      fileRel := Or(Get(items, childId), Get(items, fileId));
    }
  }

  /**
   * The resolver as written: primary lookups, then a scan of the entries in
   * map order for the first valid `file_id__*` value, then the probe.
   */
  method ResolveSelectedPath(fs: Fs, folderType: string, selection: Value, folderId: string, fileId: string,
                             show: Value -> string) returns (r: Result<string, PyError>)
    ensures r == ResolveSpec(fs, folderType, selection, folderId, fileId, show)
  {
    if !selection.VDict? {
      return Err(ValueError("Invalid selection"));
    }
    var items := selection.items;
    var fileRel, folderSel, relDir := PrimaryLookup(items, folderId, fileId, show);
    if !ValidChoice(fileRel) {
      fileRel, relDir := ScanFallback(items, fileId + "__", fileRel, folderSel, relDir);
    }
    ghost var chosen := ChosenFile(items, folderId, fileId, show);
    assert chosen == if ValidChoice(fileRel) then Some(fileRel.s) else None;
    if !ValidChoice(fileRel) {
      return Err(FileNotFoundError("No file selected"));
    }
    var relPath := ReplaceAll(fileRel.s, "\\", "/");
    if IsAbs(relPath) && Exists(fs, relPath) {
      return Ok(relPath);
    }
    var found := Probe(fs, Bases(fs, folderType), relPath);
    if found.Some? {
      return Ok(found.value);
    }
    return Err(FileNotFoundError(NotResolved + relPath));
  }

  /**
   * The three ways the resolver ends: `ValueError` exactly for a selection
   * that is not a dictionary (a flat combo's plain string included), "No
   * file selected" exactly when no primary or `file_id__*` entry holds a
   * valid string, and otherwise an existing path or an error naming the
   * relative path.
   */
  lemma ResolveOutcomes(fs: Fs, folderType: string, selection: Value, folderId: string, fileId: string,
                        show: Value -> string)
    ensures var r := ResolveSpec(fs, folderType, selection, folderId, fileId, show);
      (r == Err(ValueError("Invalid selection")) <==> !selection.VDict?) &&
      (r == Err(FileNotFoundError("No file selected")) <==>
         selection.VDict? && ChosenFile(selection.items, folderId, fileId, show).None?) &&
      (r.Ok? ==> Exists(fs, r.value)) &&
      (selection.VDict? && ChosenFile(selection.items, folderId, fileId, show).Some? ==>
         var relPath := ReplaceAll(ChosenFile(selection.items, folderId, fileId, show).value, "\\", "/");
         (r.Ok? <==> (IsAbs(relPath) && Exists(fs, relPath)) || exists k :: 0 <= k < |Bases(fs, folderType)| &&
                                                                 Exists(fs, PathJoin(Bases(fs, folderType)[k], relPath))) &&
         (r.Err? ==> r.error == FileNotFoundError(NotResolved + relPath)))
  {
    var r := ResolveSpec(fs, folderType, selection, folderId, fileId, show);
    if selection.VDict? && ChosenFile(selection.items, folderId, fileId, show).Some? {
      var relPath := ReplaceAll(ChosenFile(selection.items, folderId, fileId, show).value, "\\", "/");
      assert (NotResolved + relPath)[0] == 'C';
      assert "No file selected"[0] == 'N';
    }
  }

  /**
   * "No file selected" is decided before any path is probed: it does not
   * depend on the filesystem or on the folder type.
   */
  lemma NoFileBeforeProbe(fs1: Fs, fs2: Fs, folderType1: string, folderType2: string, selection: Value,
                          folderId: string, fileId: string, show: Value -> string)
    requires ResolveSpec(fs1, folderType1, selection, folderId, fileId, show) == Err(FileNotFoundError("No file selected"))
    ensures ResolveSpec(fs2, folderType2, selection, folderId, fileId, show) == Err(FileNotFoundError("No file selected"))
  {
    ResolveOutcomes(fs1, folderType1, selection, folderId, fileId, show);
    ResolveOutcomes(fs2, folderType2, selection, folderId, fileId, show);
  }
}
