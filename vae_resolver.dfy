/**
 * The VAE loader's own `resolve_selected_path` and the builtin dispatch of
 * `VAELoader.execute`.
 */
module VaeResolver {
  import opened Wrappers
  import opened Strings
  import opened Values
  import opened FileSystem
  import opened Naming
  import opened Resolver
  import opened Vae

  const NoReplace := "object has no attribute 'replace'"
  const NoSplit := "object has no attribute 'split'"

  /**
   * The primary lookups: the builtins child (or the plain file key) for the
   * `builtins` folder, the folder's child combo for any other truthy folder
   * (which `_sanitize` can only read when it is a string), nothing otherwise.
   */
  function VaePrimary(items: seq<(string, Value)>, folderSel: Value, fileId: string): Result<Value, PyError> {
    if folderSel == VStr("builtins") then Ok(Or(Get(items, fileId + "__builtins"), Get(items, fileId)))
    else if !Truthy(folderSel) then Ok(VNone)
    else if !folderSel.VStr? then Err(AttributeError(NoReplace))
    else Ok(Or(Get(items, ChildId(fileId, SanitizeRelDir(folderSel.s))), Get(items, fileId)))
  }

  /** The folder a fallback key's suffix names: "builtins", or the suffix with `__` read as `/`. */
  function SuffixFolder(suffix: string): string {
    if suffix == "builtins" then "builtins" else ReplaceAll(suffix, "__", "/")
  }

  /**
   * The fallback scan, run only when the primary lookups gave `None` or
   * "<none>": the first `file_id__*` entry with a valid string supplies the
   * file, and also the folder when none (or `builtins`) was selected.
   */
  function VaeFallback(items: seq<(string, Value)>, fileId: string, fileRel: Value, folderSel: Value): (Value, Value) {
    if fileRel != VNone && fileRel != VStr("<none>") then (fileRel, folderSel)
    else
      match FirstQualifying(items, fileId + "__")
      case None => (fileRel, folderSel)
      case Some(i) =>
        var folder := if !Truthy(folderSel) || folderSel == VStr("builtins")
                      then VStr(SuffixFolder(items[i].0[|fileId + "__"|..])) else folderSel;
        (items[i].1, folder)
  }

  /**
   * The probe: only the bases of the folder's first segment, in registry
   * order; when none holds the file, the relative value comes back as is.
   */
  function VaeProbe(fs: Fs, folder: string, fileRel: string): Value {
    match FirstExisting(fs, Bases(fs, FirstSegment(folder)), ReplaceAll(fileRel, "\\", "/"))
    case Some(p) => VStr(p)
    case None => VStr(fileRel)
  }

  /**
   * The end of the resolver once the file and folder are settled: the
   * `pixel_space` default for a falsy or "<none>" file, the builtins
   * passthrough, then the probe (`split` and `replace` need strings).
   */
  function VaeFinish(fs: Fs, fileRel: Value, folder: Value): Result<Value, PyError> {
    if !Truthy(fileRel) || fileRel == VStr("<none>") then Ok(VStr("pixel_space"))
    else if folder == VStr("builtins") then Ok(fileRel)
    else if !folder.VStr? then Err(AttributeError(NoSplit))
    else if !fileRel.VStr? then Err(AttributeError(NoReplace))
    else Ok(VaeProbe(fs, folder.s, fileRel.s))
  }

  /** What the VAE `resolve_selected_path(selection, folder_id, file_id)` returns or raises. */
  function VaeResolveSpec(fs: Fs, selection: Value, folderId: string, fileId: string): Result<Value, PyError> {
    if !selection.VDict? then Err(ValueError("Invalid selection"))
    else
      var items := selection.items;
      var folderSel := GetOr(items, folderId, VStr("builtins"));
      match VaePrimary(items, folderSel, fileId)
      case Err(e) => Err(e)
      case Ok(primary) =>
        var (fileRel, folder) := VaeFallback(items, fileId, primary, folderSel);
        VaeFinish(fs, fileRel, folder)
  }

  /** The fallback scan as written: a loop over the entries that stops at the first valid one. */
  method VaeScan(items: seq<(string, Value)>, fileId: string, fileRel: Value, folderSel: Value)
    returns (file: Value, folder: Value)
    requires fileRel == VNone || fileRel == VStr("<none>")
    ensures (file, folder) == VaeFallback(items, fileId, fileRel, folderSel)
  {
    file, folder := fileRel, folderSel;
    var prefix := fileId + "__";
    for k := 0 to |items|
      invariant file == fileRel && folder == folderSel
      invariant forall j :: 0 <= j < k ==> !Qualifies(items[j], prefix)
    {
      var (key, v) := items[k];
      if StartsWith(key, prefix) && v.VStr? && v.s != "" && v.s != "<none>" {
        file := v;
        if !Truthy(folder) || folder == VStr("builtins") {
          var suffix := key[|prefix|..];
          folder := VStr(if suffix == "builtins" then "builtins" else ReplaceAll(suffix, "__", "/"));
        }
        assert FirstQualifying(items, prefix) == Some(k);
        return;
      }
    }
  }

  /**
   * The VAE resolver as written: primary lookups, the fallback scan, the
   * `pixel_space` default, the builtins passthrough and the probe.
   */
  method VaeResolveSelectedPath(fs: Fs, selection: Value, folderId: string, fileId: string)
    returns (r: Result<Value, PyError>)
    ensures r == VaeResolveSpec(fs, selection, folderId, fileId)
  {
    if !selection.VDict? {
      return Err(ValueError("Invalid selection"));
    }
    var items := selection.items;
    var folderSel := GetOr(items, folderId, VStr("builtins"));
    var fileRel := VNone;
    if folderSel == VStr("builtins") {
      fileRel := Or(Get(items, fileId + "__builtins"), Get(items, fileId));
    } else if Truthy(folderSel) {
      if !folderSel.VStr? {
        return Err(AttributeError(NoReplace));
      }
      var childId := fileId + "__" + SanitizeRelDir(folderSel.s);
      fileRel := Or(Get(items, childId), Get(items, fileId));
    }
    assert VaePrimary(items, folderSel, fileId) == Ok(fileRel);
    if fileRel == VNone || fileRel == VStr("<none>") {
      fileRel, folderSel := VaeScan(items, fileId, fileRel, folderSel);
    }
    r := Finish(fs, fileRel, folderSel);
  }

  /** The end of the resolver as written. */
  method Finish(fs: Fs, file: Value, folder: Value) returns (r: Result<Value, PyError>)
    ensures r == VaeFinish(fs, file, folder)
  {
    var fileRel, folderSel := file, folder;
    if !Truthy(fileRel) || fileRel == VStr("<none>") {
      fileRel := VStr("pixel_space");
      folderSel := VStr("builtins");
    }
    if folderSel == VStr("builtins") {
      return Ok(fileRel);
    }
    if !folderSel.VStr? {
      return Err(AttributeError(NoSplit));
    }
    var folderType := FirstSegment(folderSel.s);
    if !fileRel.VStr? {
      return Err(AttributeError(NoReplace));
    }
    var relPath := ReplaceAll(fileRel.s, "\\", "/");
    var found := Probe(fs, Bases(fs, folderType), relPath);
    if found.Some? {
      return Ok(VStr(found.value));
    }
    return Ok(fileRel);
  }

  /** What `VAELoader.execute` does with the resolved value. */
  datatype VaeSource = PixelSpace | Taesd(name: string) | LoadFile(path: Value)

  /**
   * The builtin dispatch: the five presets are recognised by name,
   * `pixel_space` builds the pass-through VAE, the four tiny autoencoders
   * are loaded by name, anything else is loaded as a file.
   */
  function VaeDispatch(resolved: Value): Result<VaeSource, PyError> {
    if resolved.VStr? && resolved.s in Builtins then
      if resolved.s == "pixel_space" then Ok(PixelSpace)
      else if resolved.s in ImageTaes then Ok(Taesd(resolved.s))
      else Err(FileNotFoundError("Unknown builtin VAE: " + resolved.s))
    else Ok(LoadFile(resolved))
  }

  /** Every preset the combo offers is dispatched: "Unknown builtin VAE" cannot be raised. */
  lemma DispatchTotal(resolved: Value)
    ensures VaeDispatch(resolved).Ok?
    ensures resolved == VStr("pixel_space") <==> VaeDispatch(resolved) == Ok(PixelSpace)
    ensures forall n :: n in ImageTaes ==> (resolved == VStr(n) <==> VaeDispatch(resolved) == Ok(Taesd(n)))
    ensures !(resolved.VStr? && resolved.s in Builtins) <==> VaeDispatch(resolved) == Ok(LoadFile(resolved))
  {
  }
}
