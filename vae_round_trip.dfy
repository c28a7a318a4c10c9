/**
 * What the VAE resolver guarantees: it raises only on a selection that is
 * not a dictionary (for dictionaries of strings), falls back to the
 * `pixel_space` preset, passes builtin names through without probing, and
 * resolves every option `build_vae_input` offers back to its file, whether
 * the folder entry is sent or only the child combo.
 */
module VaeRoundTrip {
  import opened Wrappers
  import opened Strings
  import opened Values
  import opened FileSystem
  import opened Naming
  import opened Scanner
  import opened ScannerFacts
  import opened Resolver
  import opened Vae
  import opened VaeResolver

  /** A string or `None`: what the combo widgets put in a selection map. */
  predicate IsStrOrNone(v: Value) {
    v.VStr? || v.VNone?
  }

  predicate StringValued(items: seq<(string, Value)>) {
    forall i :: 0 <= i < |items| ==> IsStrOrNone(items[i].1)
  }

  lemma GetStringValued(items: seq<(string, Value)>, key: string, default: Value)
    requires StringValued(items) && IsStrOrNone(default)
    ensures IsStrOrNone(GetOr(items, key, default))
  {
  }

  /** On a dictionary of strings the primary lookups give a string or `None`, and `None` without a folder. */
  lemma PrimaryStringValued(items: seq<(string, Value)>, folderSel: Value, fileId: string)
    requires StringValued(items) && IsStrOrNone(folderSel)
    ensures VaePrimary(items, folderSel, fileId).Ok?
    ensures IsStrOrNone(VaePrimary(items, folderSel, fileId).value)
    ensures !Truthy(folderSel) ==> VaePrimary(items, folderSel, fileId).value == VNone
  {
    GetStringValued(items, fileId + "__builtins", VNone);
    GetStringValued(items, fileId, VNone);
    if folderSel.VStr? && folderSel.s != "" {
      GetStringValued(items, ChildId(fileId, SanitizeRelDir(folderSel.s)), VNone);
    }
  }

  /** After the scan, a usable file always comes with a folder that is a string. */
  lemma FallbackStringValued(items: seq<(string, Value)>, fileId: string, primary: Value, folderSel: Value)
    requires StringValued(items) && IsStrOrNone(primary) && IsStrOrNone(folderSel)
    requires !Truthy(folderSel) ==> primary == VNone
    ensures var (f, d) := VaeFallback(items, fileId, primary, folderSel);
      IsStrOrNone(f) && (Truthy(f) && f != VStr("<none>") ==> d.VStr?)
  {
  }

  /**
   * `ValueError` exactly for a selection that is not a dictionary; a
   * dictionary of strings never makes the VAE resolver raise.
   */
  lemma VaeOutcomes(fs: Fs, selection: Value, folderId: string, fileId: string)
    ensures VaeResolveSpec(fs, selection, folderId, fileId) == Err(ValueError("Invalid selection")) <==> !selection.VDict?
    ensures selection.VDict? && StringValued(selection.items) ==> VaeResolveSpec(fs, selection, folderId, fileId).Ok?
  {
    if selection.VDict? {
      var items := selection.items;
      var folderSel := GetOr(items, folderId, VStr("builtins"));
      var primary := VaePrimary(items, folderSel, fileId);
      if StringValued(items) {
        GetStringValued(items, folderId, VStr("builtins"));
        PrimaryStringValued(items, folderSel, fileId);
        FallbackStringValued(items, fileId, primary.value, folderSel);
        var (f, d) := VaeFallback(items, fileId, primary.value, folderSel);
        assert VaeFinish(fs, f, d).Ok?;
      } else if primary.Ok? {
        var (f, d) := VaeFallback(items, fileId, primary.value, folderSel);
        assert VaeFinish(fs, f, d) != Err(ValueError("Invalid selection"));
      }
    }
  }

  /** A lookup in a map without valid strings finds none. */
  lemma GetNotValid(items: seq<(string, Value)>, key: string)
    requires forall i :: 0 <= i < |items| ==> !ValidChoice(items[i].1)
    ensures !ValidChoice(Get(items, key))
  {
  }

  /** An empty map, or one without a single valid string, resolves to the `pixel_space` preset. */
  lemma VaeNothingValid(fs: Fs, items: seq<(string, Value)>, folderId: string, fileId: string)
    requires StringValued(items)
    requires forall i :: 0 <= i < |items| ==> !ValidChoice(items[i].1)
    ensures VaeResolveSpec(fs, VDict(items), folderId, fileId) == Ok(VStr("pixel_space"))
  {
    var folderSel := GetOr(items, folderId, VStr("builtins"));
    GetStringValued(items, folderId, VStr("builtins"));
    PrimaryStringValued(items, folderSel, fileId);
    GetNotValid(items, fileId + "__builtins");
    GetNotValid(items, fileId);
    if folderSel.VStr? && folderSel.s != "" {
      GetNotValid(items, ChildId(fileId, SanitizeRelDir(folderSel.s)));
    }
    var primary := VaePrimary(items, folderSel, fileId).value;
    assert !ValidChoice(primary);
    assert FirstQualifying(items, fileId + "__").None?;
    assert VaeFallback(items, fileId, primary, folderSel) == (primary, folderSel);
  }

  /**
   * With the `builtins` folder the chosen name comes back unchanged and the
   * filesystem is never consulted; each preset reaches its own branch of
   * the dispatch.
   */
  lemma VaeBuiltinsPassthrough(fs: Fs, folderId: string, fileId: string, name: string)
    requires name in Builtins && folderId != fileId + "__builtins"
    ensures var sel := VDict([(folderId, VStr("builtins")), (fileId + "__builtins", VStr(name))]);
      VaeResolveSpec(fs, sel, folderId, fileId) == Ok(VStr(name)) &&
      VaeDispatch(VStr(name)) == if name == "pixel_space" then Ok(PixelSpace) else Ok(Taesd(name))
  {
    var items := [(folderId, VStr("builtins")), (fileId + "__builtins", VStr(name))];
    assert Get(items, folderId) == VStr("builtins");
    assert items[1].0 == fileId + "__builtins";
    assert Get(items, fileId + "__builtins") == VStr(name);
  }

  /**
   * A file folder selected with its child combo: the resolver probes only
   * the bases of the folder's first segment and, when none holds the file,
   * returns the relative string.
   */
  lemma VaeFolderProbe(fs: Fs, folderId: string, fileId: string, folder: string, file: string)
    requires folder != "" && folder != "builtins" && ValidChoice(VStr(file))
    requires folderId != ChildId(fileId, SanitizeRelDir(folder))
    ensures var sel := VDict([(folderId, VStr(folder)), (ChildId(fileId, SanitizeRelDir(folder)), VStr(file))]);
      VaeResolveSpec(fs, sel, folderId, fileId) == Ok(VaeProbe(fs, folder, file))
  {
    var childId := ChildId(fileId, SanitizeRelDir(folder));
    var items := [(folderId, VStr(folder)), (childId, VStr(file))];
    assert GetOr(items, folderId, VStr("builtins")) == VStr(folder);
    assert items[1].0 == childId;
    assert Get(items, childId) == VStr(file);
  }

  /**
   * Only the child combo sent: the folder defaults to `builtins`, the scan
   * takes the child entry and reads the folder back from its key's suffix.
   */
  lemma VaeChildOnlyProbe(fs: Fs, folderId: string, fileId: string, suffix: string, file: string)
    requires suffix != "builtins" && SuffixFolder(suffix) != "builtins" && ValidChoice(VStr(file))
    requires folderId != ChildId(fileId, suffix)
    ensures VaeResolveSpec(fs, VDict([(ChildId(fileId, suffix), VStr(file))]), folderId, fileId) ==
            Ok(VaeProbe(fs, SuffixFolder(suffix), file))
  {
    var childId := ChildId(fileId, suffix);
    var items := [(childId, VStr(file))];
    var prefix := fileId + "__";
    assert childId[|prefix|..] == suffix;
    assert !HasKey(items, folderId);
    assert childId != fileId + "__builtins";
    assert childId != fileId by {
      assert |childId| > |fileId|;
    }
    assert StartsWith(childId, prefix) by {
      assert childId[..|prefix|] == prefix;
    }
    assert FirstQualifying(items, prefix) == Some(0);
    assert VaePrimary(items, VStr("builtins"), fileId) == Ok(VNone);
    assert VaeFallback(items, fileId, VNone, VStr("builtins")) == (VStr(file), VStr(SuffixFolder(suffix)));
    assert VaeFinish(fs, VStr(file), VStr(SuffixFolder(suffix))) == Ok(VaeProbe(fs, SuffixFolder(suffix), file));
  }

  /** The two VAE folder types are plain names without `__`. */
  lemma FolderTypesPlain(folderType: string)
    requires folderType in VaeFolderTypes
    ensures folderType != "" && folderType[0] == 'v' && '/' !in folderType && '\\' !in folderType
    ensures NoDoubleUnderscore(folderType)
  {
    if folderType == "vae_approx" {
      assert forall i :: 0 <= i < 9 ==> folderType[i] != '_' || i == 3;
    }
  }

  /** An option's label is a folder of its own folder type, never `builtins`. */
  lemma CaptionFacts(folderType: string, relDir: string)
    requires folderType in VaeFolderTypes
    ensures var caption := FolderLabel(folderType, relDir);
      caption != "" && caption != "builtins" && FirstSegment(caption) == folderType
  {
    FolderTypesPlain(folderType);
    FirstSegmentOf(folderType, relDir);
    assert FolderLabel(folderType, relDir)[0] == 'v';
  }

  /**
   * A listed file is a valid choice that `replace("\\", "/")` leaves alone,
   * and, when no name under the bases holds a backslash, one of the bases
   * holds it.
   */
  lemma ChoiceFacts(fs: Fs, folderType: string, relDir: string, x: string)
    requires WellFormed(fs) && x in ListedFiles(fs, folderType, relDir)
    ensures ValidChoice(VStr(x)) && ReplaceAll(x, "\\", "/") == x
    ensures NoBackslashes(fs, Bases(fs, folderType)) ==> FirstExisting(fs, Bases(fs, folderType), x).Some?
  {
    ListedFilesFacts(fs, folderType, relDir);
    ReplaceCharAbsent(x, '\\', "/");
  }

  /** The facts about an option of the combo the round trips need. */
  lemma OptionFacts(fs: Fs, fileId: string, folderType: string, relDir: string, o: ComboOption, x: string)
    requires WellFormed(fs) && folderType in VaeFolderTypes
    requires OptionFor(fs, fileId, folderType, relDir, o) && x in o.choices
    ensures o.caption != "" && o.caption != "builtins" && FirstSegment(o.caption) == folderType
    ensures ValidChoice(VStr(x)) && ReplaceAll(x, "\\", "/") == x
    ensures NoBackslashes(fs, Bases(fs, folderType)) ==> FirstExisting(fs, Bases(fs, folderType), x).Some?
  {
    assert x in ToSet(o.choices);
    CaptionFacts(folderType, relDir);
    ChoiceFacts(fs, folderType, relDir, x);
  }

  /**
   * Round trip: an option `build_vae_input` offers, sent back as the folder
   * label and the file its child combo lists, resolves to the file under
   * the first base of its folder type that holds it, or to the relative
   * path when none does; when no name under the bases holds a backslash,
   * one always does.
   */
  lemma VaeOptionResolves(fs: Fs, folderId: string, fileId: string, folderType: string, relDir: string,
                          o: ComboOption, x: string)
    requires WellFormed(fs) && folderType in VaeFolderTypes
    requires OptionFor(fs, fileId, folderType, relDir, o) && x in o.choices
    requires folderId != o.childId
    ensures var p := FirstExisting(fs, Bases(fs, folderType), x);
      VaeResolveSpec(fs, VDict([(folderId, VStr(o.caption)), (o.childId, VStr(x))]), folderId, fileId) ==
        Ok(if p.Some? then VStr(p.value) else VStr(x))
    ensures NoBackslashes(fs, Bases(fs, folderType)) ==> FirstExisting(fs, Bases(fs, folderType), x).Some?
  {
    OptionFacts(fs, fileId, folderType, relDir, o, x);
    VaeFolderProbe(fs, folderId, fileId, o.caption, x);
  }

  /** The folder the fallback scan reads back from an option's child id has the option's folder type first. */
  lemma SuffixRecoversFolderType(folderType: string, relDir: string)
    requires folderType in VaeFolderTypes && '\\' !in relDir
    ensures SanitizeRelDir(FolderLabel(folderType, relDir)) != "builtins"
    ensures SuffixFolder(SanitizeRelDir(FolderLabel(folderType, relDir))) != "builtins"
    ensures FirstSegment(SuffixFolder(SanitizeRelDir(FolderLabel(folderType, relDir)))) == folderType
  {
    FolderTypesPlain(folderType);
    if relDir == "" {
      SuffixOfTopFolder(folderType);
    } else {
      SuffixOfSubfolder(folderType, relDir);
    }
    FirstSegmentOf("builtins", "");
  }

  /** `SuffixRecoversFolderType` for the folder type's own top folder. */
  lemma SuffixOfTopFolder(folderType: string)
    requires folderType in VaeFolderTypes
    ensures SanitizeRelDir(FolderLabel(folderType, ""))[0] == 'v'
    ensures FirstSegment(SuffixFolder(SanitizeRelDir(FolderLabel(folderType, "")))) == folderType
  {
    FolderTypesPlain(folderType);
    SanitizePlainName(folderType);
    ReplaceUnderscoresNone(folderType);
    FirstSegmentOf(folderType, "");
  }

  /** `SuffixRecoversFolderType` for a sub-folder below the folder type's top folder. */
  lemma SuffixOfSubfolder(folderType: string, relDir: string)
    requires folderType in VaeFolderTypes && '\\' !in relDir && relDir != ""
    ensures SanitizeRelDir(FolderLabel(folderType, relDir))[0] == 'v'
    ensures FirstSegment(SuffixFolder(SanitizeRelDir(FolderLabel(folderType, relDir)))) == folderType
  {
    FolderTypesPlain(folderType);
    var caption := FolderLabel(folderType, relDir);
    ReplaceCharAbsent(caption, '\\', "/");
    ReplaceSlashAfter(folderType, relDir);
    var rest := ReplaceAll(relDir, "/", "__");
    assert SanitizeRelDir(caption) == folderType + "__" + rest;
    ReplaceUnderscoresAfter(folderType, rest);
    FirstSegmentOf(folderType, ReplaceAll(rest, "__", "/"));
  }

  /**
   * Round trip with only the child combo: with no folder entry the scan
   * finds the option's child id and reads the folder type back from it.
   */
  lemma VaeChildOnlyResolves(fs: Fs, folderId: string, fileId: string, folderType: string, relDir: string,
                             o: ComboOption, x: string)
    requires WellFormed(fs) && folderType in VaeFolderTypes && relDir in DirsOf(fs, folderType)
    requires OptionFor(fs, fileId, folderType, relDir, o) && x in o.choices
    requires folderId != o.childId
    ensures var p := FirstExisting(fs, Bases(fs, folderType), x);
      VaeResolveSpec(fs, VDict([(o.childId, VStr(x))]), folderId, fileId) ==
        Ok(if p.Some? then VStr(p.value) else VStr(x))
    ensures NoBackslashes(fs, Bases(fs, folderType)) ==> FirstExisting(fs, Bases(fs, folderType), x).Some?
  {
    OptionFacts(fs, fileId, folderType, relDir, o, x);
    BasesDirsClean(fs, Bases(fs, folderType));
    SuffixRecoversFolderType(folderType, relDir);
    VaeChildOnlyProbe(fs, folderId, fileId, SanitizeRelDir(o.caption), x);
  }
}
