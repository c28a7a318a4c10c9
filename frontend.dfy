/**
 * The browser side of the tree picker: `getTree` finds the tree a combo
 * widget carries, `makeMenuItems` turns it into context-menu entries and
 * `valueToPath` turns a clicked leaf's value into the string written back to
 * the combo. Values are JSON as JavaScript sees it, with JavaScript's
 * truthiness and its `||`, `&&` and `??` operators.
 *
 * As written, the script does not parse: the regular-expression literal in
 * the last line of `valueToPath` ends early (`RegexLiteral`). The model
 * describes the script with that literal repaired.
 */
module Frontend {
  import opened Wrappers
  import opened Strings
  import opened FileSystem
  import opened ScannerFacts
  import opened Tree
  import opened TreeBuilder

  /** A JavaScript value reached from parsed JSON. */
  datatype Json =
    | JNull
    | JUndefined
    | JBool(b: bool)
    | JNum(n: real)
    | JStr(s: string)
    | JArr(elems: seq<Json>)
    | JObj(fields: seq<(string, Json)>)

  /** JavaScript truthiness (NaN is not modelled: every number here is a real). */
  predicate Truthy(j: Json) {
    match j
    case JNull => false
    case JUndefined => false
    case JBool(b) => b
    case JNum(n) => n != 0.0
    case JStr(s) => s != ""
    case _ => true
  }

  /** `a || b`. */
  function Or(a: Json, b: Json): Json {
    if Truthy(a) then a else b
  }

  /** `a && b`. */
  function And(a: Json, b: Json): Json {
    if Truthy(a) then b else a
  }

  /** `a ?? b`. */
  function Coalesce(a: Json, b: Json): Json {
    if a.JNull? || a.JUndefined? then b else a
  }

  /** `typeof n === "object"` for a truthy `n`: arrays and objects. */
  predicate IsObject(n: Json) {
    n.JArr? || n.JObj?
  }

  /** A size that strictly shrinks from a value to anything read out of it. */
  function Size(j: Json): (r: nat)
    ensures r >= 1
    decreases j
  {
    match j
    case JArr(e) => 1 + SizeSeq(e)
    case JObj(f) => 1 + SizeFields(f)
    case _ => 1
  }

  function SizeSeq(e: seq<Json>): nat
    decreases e
  {
    if e == [] then 0 else Size(e[0]) + SizeSeq(e[1..])
  }

  function SizeFields(f: seq<(string, Json)>): nat
    decreases f
  {
    if f == [] then 0 else SizeFields(f[..|f| - 1]) + SizeField(f[|f| - 1])
  }

  function SizeField(p: (string, Json)): nat
    decreases p
  {
    1 + Size(p.1)
  }

  /**
   * A property of a parsed object: the last field with that key, as
   * `JSON.parse` keeps the last of duplicated keys; `undefined` when absent.
   */
  function Lookup(fields: seq<(string, Json)>, key: string): (r: Json)
    ensures r == JUndefined || Size(r) < SizeFields(fields)
    ensures r != JUndefined ==> exists i :: 0 <= i < |fields| && fields[i] == (key, r)
    ensures (forall i :: 0 <= i < |fields| ==> fields[i].0 != key) ==> r == JUndefined
    ensures (exists i :: 0 <= i < |fields| && fields[i].0 == key) ==>
              exists i :: 0 <= i < |fields| && fields[i] == (key, r) &&
                forall j :: i < j < |fields| ==> fields[j].0 != key
  {
    if fields == [] then JUndefined
    else if fields[|fields| - 1].0 == key then fields[|fields| - 1].1
    else Lookup(fields[..|fields| - 1], key)
  }

  /** `o?.key`: only objects have the properties read here. */
  function Prop(o: Json, key: string): (r: Json)
    ensures r == JUndefined || Size(r) < Size(o)
    ensures !o.JObj? ==> r == JUndefined
  {
    if o.JObj? then Lookup(o.fields, key) else JUndefined
  }

  /** Reading a property of a three-field object. */
  lemma Lookup3(k0: string, v0: Json, k1: string, v1: Json, k2: string, v2: Json, key: string)
    ensures Lookup([(k0, v0), (k1, v1), (k2, v2)], key) ==
            if key == k2 then v2 else if key == k1 then v1 else if key == k0 then v0 else JUndefined
  {
    var f := [(k0, v0), (k1, v1), (k2, v2)];
    var f2, f1: seq<(string, Json)> := [(k0, v0), (k1, v1)], [(k0, v0)];
    assert f[..2] == f2 && f2[..1] == f1 && f1[..0] == [];
    assert Lookup(f1, key) == if key == k0 then v0 else JUndefined;
    assert Lookup(f2, key) == if key == k1 then v1 else Lookup(f1, key);
  }

  /**
   * `getTree(widget)`: the tree under `widget.extra.sk_tree` when that is
   * truthy, else `widget._sk_tree` when truthy, else `null`.
   */
  function GetTree(widget: Json): (r: Json)
    ensures var attached := Prop(Prop(widget, "extra"), "sk_tree");
      var own := Prop(widget, "_sk_tree");
      (Truthy(attached) ==> r == attached) &&
      (!Truthy(attached) && Truthy(own) ==> r == own) &&
      (!Truthy(attached) && !Truthy(own) ==> r == JNull)
    ensures r == JNull || Truthy(r)
  {
    var extra := Prop(widget, "extra");
    Or(Or(And(extra, Prop(extra, "sk_tree")), Prop(widget, "_sk_tree")), JNull)
  }

  /** A context-menu entry: a submenu, or an entry whose callback hands `value` to `onSelect`. */
  datatype MenuItem = Submenu(content: Json, options: seq<MenuItem>) | Pick(content: Json, value: Json)

  /** `makeMenuItems(tree, onSelect)`: filter objects, map each to an entry or `null`, drop the nulls. */
  function MakeMenuItems(tree: seq<Json>): (r: seq<MenuItem>)
    ensures |r| <= |tree|
    decreases SizeSeq(tree), 1
  {
    if tree == [] then []
    else
      var head := if Truthy(tree[0]) && IsObject(tree[0]) then ItemOf(tree[0]) else None;
      (if head.Some? then [head.value] else []) + MakeMenuItems(tree[1..])
  }

  /** The `map` callback of `makeMenuItems` on one object node. */
  function ItemOf(n: Json): Option<MenuItem>
    decreases Size(n), 0
  {
    var children := Prop(n, "children");
    if children.JArr? && |children.elems| > 0 then
      Some(Submenu(Coalesce(Prop(n, "label"), JStr("folder")), MakeMenuItems(children.elems)))
    else if !Truthy(Prop(n, "value")) then None
    else
      var value := Prop(n, "value");
      Some(Pick(Coalesce(Prop(n, "label"), Coalesce(Prop(value, "file"), JStr("file"))), value))
  }

  /** The entries of a concatenation are the concatenated entries: order is kept. */
  lemma {:induction false} MenuConcat(a: seq<Json>, b: seq<Json>)
    ensures MakeMenuItems(a + b) == MakeMenuItems(a) + MakeMenuItems(b)
    decreases |a|
  {
    if a == [] {
      assert a + b == b;
    } else {
      assert (a + b)[0] == a[0];
      assert (a + b)[1..] == a[1..] + b;
      var head := if Truthy(a[0]) && IsObject(a[0]) then ItemOf(a[0]) else None;
      var first := if head.Some? then [head.value] else [];
      assert MakeMenuItems(a) == first + MakeMenuItems(a[1..]);
      assert MakeMenuItems(a + b) == first + MakeMenuItems(a[1..] + b);
      MenuConcat(a[1..], b);
    }
  }

  /** Entries that are not objects (`null`, strings, numbers, booleans) never reach the menu. */
  lemma {:induction false} NonObjectsDropped(tree: seq<Json>)
    requires forall i :: 0 <= i < |tree| ==> !IsObject(tree[i])
    ensures MakeMenuItems(tree) == []
    decreases |tree|
  {
    if tree != [] {
      NonObjectsDropped(tree[1..]);
    }
  }

  /**
   * The captions and callbacks of one entry: a node with a non-empty
   * `children` array is a submenu captioned `label ?? "folder"`; otherwise a
   * node with a truthy `value` is a pick captioned
   * `label ?? value.file ?? "file"` that selects that value; any other
   * node is dropped.
   */
  lemma EntryShapes(n: Json)
    requires IsObject(n)
    ensures var children := Prop(n, "children");
      var value := Prop(n, "value");
      var caption := Prop(n, "label");
      var r := MakeMenuItems([n]);
      (children.JArr? && children.elems != [] ==>
         r == [Submenu(if caption.JNull? || caption.JUndefined? then JStr("folder") else caption,
                       MakeMenuItems(children.elems))]) &&
      (!(children.JArr? && children.elems != []) && Truthy(value) ==>
         r == [Pick(if !(caption.JNull? || caption.JUndefined?) then caption
                    else if !(Prop(value, "file").JNull? || Prop(value, "file").JUndefined?) then Prop(value, "file")
                    else JStr("file"), value)]) &&
      (!(children.JArr? && children.elems != []) && !Truthy(value) ==> r == [])
  {
    assert [n][1..] == [];
  }

  /** A leaf's selection value as the UI receives it. */
  function LeafJson(v: Leaf): Json {
    JObj([("folder", JStr(v.folder)), ("file", JStr(v.file)), ("child_id", JStr(v.childId))])
  }

  /** A tree node as the UI receives it: `{"label", "value", "children"}`. */
  function NodeJson(t: TreeNode): Json
    decreases t
  {
    JObj([("label", JStr(t.caption)),
          ("value", if t.value.Some? then LeafJson(t.value.value) else JNull),
          ("children", JArr(NodesJson(t.children)))])
  }

  /** The JSON list of a list of nodes, element by element. */
  function NodesJson(ts: seq<TreeNode>): (r: seq<Json>)
    ensures |r| == |ts| && forall i :: 0 <= i < |ts| ==> r[i] == NodeJson(ts[i])
    decreases ts
  {
    if ts == [] then [] else [NodeJson(ts[0])] + NodesJson(ts[1..])
  }

  /**
   * The menu a server-built tree should give, read off the tree directly: a
   * node with children is a submenu under its label, a leaf is a pick of
   * its selection value, a childless folder shows nothing.
   */
  function MenuOf(ts: seq<TreeNode>): (r: seq<MenuItem>)
    ensures |r| <= |ts|
    decreases ts
  {
    if ts == [] then [] else MenuOfNode(ts[0]) + MenuOf(ts[1..])
  }

  function MenuOfNode(t: TreeNode): (r: seq<MenuItem>)
    ensures |r| <= 1
    decreases t
  {
    if t.children != [] then [Submenu(JStr(t.caption), MenuOf(t.children))]
    else if t.value.Some? then [Pick(JStr(t.caption), LeafJson(t.value.value))]
    else []
  }

  /** `makeMenuItems` on the JSON of a tree gives exactly the menu read off the tree. */
  lemma {:induction false} MenuMirrorsTree(ts: seq<TreeNode>)
    ensures MakeMenuItems(NodesJson(ts)) == MenuOf(ts)
    decreases ts
  {
    if ts != [] {
      var js := NodesJson(ts);
      assert js[0] == NodeJson(ts[0]) && js[1..] == NodesJson(ts[1..]);
      MenuMirrorsNode(ts[0]);
      MenuMirrorsTree(ts[1..]);
    }
  }

  lemma {:induction false} MenuMirrorsNode(t: TreeNode)
    ensures var item := ItemOf(NodeJson(t));
      (if item.Some? then [item.value] else []) == MenuOfNode(t)
    decreases t, 0
  {
    NodeProps(t);
    if t.children != [] {
      MenuMirrorsTree(t.children);
    }
  }

  /** The three properties of a node's JSON object. */
  lemma NodeProps(t: TreeNode)
    ensures Prop(NodeJson(t), "label") == JStr(t.caption)
    ensures Prop(NodeJson(t), "value") == if t.value.Some? then LeafJson(t.value.value) else JNull
    ensures Prop(NodeJson(t), "children") == JArr(NodesJson(t.children))
  {
    var value := if t.value.Some? then LeafJson(t.value.value) else JNull;
    var children := JArr(NodesJson(t.children));
    Lookup3("label", JStr(t.caption), "value", value, "children", children, "children");
    Lookup3("label", JStr(t.caption), "value", value, "children", children, "label");
    Lookup3("label", JStr(t.caption), "value", value, "children", children, "value");
    assert "label"[0] != "children"[0] && "label"[0] != "value"[0] && "value"[0] != "children"[0];
  }

  /**
   * Where a regular-expression literal ends (section 12.8.5 of ECMAScript
   * 2022, RegularExpressionLiteral): scanning the body from `i`, a backslash
   * takes the next character with it, a `/` inside `[...]` does not close
   * the literal, and a line break or the end of the text leaves it
   * unterminated. The result is the index of the closing `/`.
   */
  function RegexClose(s: string, i: nat, inClass: bool): (r: Option<nat>)
    ensures r.Some? ==> i <= r.value < |s| && s[r.value] == '/'
    decreases |s| - i
  {
    if i >= |s| || s[i] == '\n' then None
    else if s[i] == '\\' then
      if i + 1 < |s| && s[i + 1] != '\n' then RegexClose(s, i + 2, inClass) else None
    else if inClass then RegexClose(s, i + 1, s[i] != ']')
    else if s[i] == '/' then Some(i)
    else RegexClose(s, i + 1, s[i] == '[')
  }

  /** The first argument of `folder.replace` at web/comfyui_sk_loader.js:39, as written. */
  const Line39Regex := "/^\\\\/+|\\\\/+$|^\\\\/+/"

  /**
   * As written, the literal is `/^\\/`: the escape `\\` takes the second
   * backslash, so the third slash closes it. What follows, `+|` and then a
   * backslash that does not begin a `\u` escape, is no JavaScript token, so
   * the module fails to parse.
   */
  lemma RegexLiteral()
    ensures RegexClose(Line39Regex, 1, false) == Some(4)
    ensures Line39Regex[5] == '+' && Line39Regex[6] == '|'
    ensures Line39Regex[7] == '\\' && Line39Regex[8] != 'u'
  {
    assert Line39Regex[4] == '/';
    assert Line39Regex[2] == '\\' && Line39Regex[3] != '\n';
    assert Line39Regex[1] == '^';
  }

  /** The literal with each slash of the pattern escaped, which is what trimming slashes needs. */
  const RepairedRegex := "/^\\/+|\\/+$|^\\/+/"

  /** Repaired, the whole pattern `^\/+|\/+$|^\/+` is one literal, closed by its last slash. */
  lemma RepairedRegexLiteral()
    ensures RegexClose(RepairedRegex, 1, false) == Some(|RepairedRegex| - 1)
  {
    var s := RepairedRegex;
    assert |s| == 16;
    assert RegexClose(s, 15, false) == Some(15);
    assert s[14] == '+' && RegexClose(s, 14, false) == RegexClose(s, 15, false);
    assert s[12] == '\\' && RegexClose(s, 12, false) == RegexClose(s, 14, false);
    assert s[11] == '^' && RegexClose(s, 11, false) == RegexClose(s, 12, false);
    assert s[10] == '|' && RegexClose(s, 10, false) == RegexClose(s, 11, false);
    assert s[9] == '$' && RegexClose(s, 9, false) == RegexClose(s, 10, false);
    assert s[8] == '+' && RegexClose(s, 8, false) == RegexClose(s, 9, false);
    assert s[6] == '\\' && RegexClose(s, 6, false) == RegexClose(s, 8, false);
    assert s[5] == '|' && RegexClose(s, 5, false) == RegexClose(s, 6, false);
    assert s[4] == '+' && RegexClose(s, 4, false) == RegexClose(s, 5, false);
    assert s[2] == '\\' && RegexClose(s, 2, false) == RegexClose(s, 4, false);
  }

  /** The message JavaScript raises when `folder.replace` is not a function. */
  const NotAFunction := "folder.replace is not a function"

  /** `${x}` for a value that is not a string is host behaviour: `show`. */
  function JsString(j: Json, show: Json -> string): string {
    if j.JStr? then j.s else show(j)
  }

  /**
   * `valueToPath(val)`, with the slash-trimming regular expression of its
   * last line taken as repaired (see `RegexLiteral`) and left uninterpreted
   * as `strip`. A string passes through; a value that is not an object
   * gives `null`; an object gives `null` without a truthy `file || path`,
   * that file when its folder is falsy or "root", throws when the folder
   * is any other non-string, and otherwise joins the trimmed folder and
   * the file with a slash.
   */
  function ValueToPath(val: Json, strip: string -> string, show: Json -> string): (r: Result<Json, string>)
    ensures val.JStr? ==> r == Ok(val)
    ensures !val.JStr? && !(Truthy(val) && IsObject(val)) ==> r == Ok(JNull)
    ensures r.Err? ==> val.JObj?
    ensures Truthy(val) && IsObject(val) ==>
      var file := Or(Prop(val, "file"), Prop(val, "path"));
      var folder := Prop(val, "folder");
      (!Truthy(file) ==> r == Ok(JNull)) &&
      (Truthy(file) && (!Truthy(folder) || folder == JStr("root")) ==> r == Ok(file)) &&
      (Truthy(file) && Truthy(folder) && !folder.JStr? ==> r == Err(NotAFunction)) &&
      (Truthy(file) && folder.JStr? && folder.s != "" && folder.s != "root" ==>
         r == Ok(JStr(strip(folder.s) + "/" + JsString(file, show))))
  {
    if val.JStr? then Ok(val)
    else if !Truthy(val) || !IsObject(val) then Ok(JNull)
    else
      var file := Or(Prop(val, "file"), Prop(val, "path"));
      if !Truthy(file) then Ok(JNull)
      else
        var folder := Prop(val, "folder");
        if !Truthy(folder) || folder == JStr("root") then Ok(file)
        else if !folder.JStr? then Err(NotAFunction)
        else Ok(JStr(strip(folder.s) + "/" + JsString(file, show)))
  }

  /** The value's file path already begins with its folder. */
  predicate CarriesFolder(val: Json) {
    var file := Or(Prop(val, "file"), Prop(val, "path"));
    var folder := Prop(val, "folder");
    val.JObj? && file.JStr? && folder.JStr? && StartsWith(file.s, folder.s + "/")
  }

  /**
   * `valueToPath` corrected: a file path that already begins with its
   * folder is returned unchanged; every other value is handled as written.
   */
  function ValueToPathFixed(val: Json, strip: string -> string, show: Json -> string): (r: Result<Json, string>)
    ensures !CarriesFolder(val) ==> r == ValueToPath(val, strip, show)
  {
    if CarriesFolder(val) then Ok(Or(Prop(val, "file"), Prop(val, "path")))
    else ValueToPath(val, strip, show)
  }

  /** A path with a parent directory begins with that directory and a slash. */
  lemma {:induction false} ParentPrefix(p: string)
    ensures Parent(p) != "" ==> StartsWith(p, Parent(p) + "/")
    decreases |p|
  {
    if p != [] && p[|p| - 1] != '/' {
      ParentPrefix(p[..|p| - 1]);
      if Parent(p) != "" {
        assert p[..|p| - 1][..|Parent(p)| + 1] == p[..|Parent(p)| + 1];
      }
    } else if p != [] {
      assert p == p[..|p| - 1] + "/";
    }
  }

  /** The three fields of a leaf value read back from its JSON. */
  lemma LeafFields(v: Leaf)
    ensures Prop(LeafJson(v), "file") == JStr(v.file)
    ensures Prop(LeafJson(v), "path") == JUndefined
    ensures Prop(LeafJson(v), "folder") == JStr(v.folder)
  {
    var folder, file, childId := JStr(v.folder), JStr(v.file), JStr(v.childId);
    Lookup3("folder", folder, "file", file, "child_id", childId, "file");
    Lookup3("folder", folder, "file", file, "child_id", childId, "path");
    Lookup3("folder", folder, "file", file, "child_id", childId, "folder");
    assert "file"[0] != "child_id"[0] && "folder"[0] != "child_id"[0] && "folder"[1] != "file"[1];
    assert "path"[0] != "child_id"[0] && "path"[0] != "file"[0] && "path"[0] != "folder"[0];
  }

  /** `valueToPath` as written on the JSON of a leaf with a file and a folder. */
  lemma LeafValueToPath(v: Leaf, strip: string -> string, show: Json -> string)
    requires v.file != "" && v.folder != ""
    ensures ValueToPath(LeafJson(v), strip, show) ==
      if v.folder == "root" then Ok(JStr(v.file)) else Ok(JStr(strip(v.folder) + "/" + v.file))
    ensures CarriesFolder(LeafJson(v)) <==> StartsWith(v.file, v.folder + "/")
  {
    LeafFields(v);
  }

  /** The folder a well-formed leaf carries: its parent directory, or "root" at the top. */
  lemma LeafFolder(fs: Fs, folderType: string, fileId: string, v: Leaf)
    requires LeafOk(fs, folderType, fileId, v)
    ensures v.folder == if Parent(v.file) == "" then "root" else Parent(v.file)
    ensures v.file != ""
  {
  }

  /**
   * With the correction, clicking a leaf of a server-built tree writes the
   * leaf's own relative file path to the combo, and that path exists under
   * one of the folder type's bases.
   */
  lemma FixedLeafPath(fs: Fs, folderType: string, fileId: string, v: Leaf, strip: string -> string,
                      show: Json -> string)
    requires LeafOk(fs, folderType, fileId, v)
    ensures ValueToPathFixed(LeafJson(v), strip, show) == Ok(JStr(v.file))
    ensures Resolvable(fs, Bases(fs, folderType), v.file)
  {
    LeafFolder(fs, folderType, fileId, v);
    LeafValueToPath(v, strip, show);
    LeafFields(v);
    ParentPrefix(v.file);
  }

  /**
   * Once the regular expression parses, a leaf in a sub-directory (other
   * than one literally named "root") gets its folder prefixed a second
   * time: the combo receives `strip(folder) + "/" + file`, which is longer
   * than the leaf's file path.
   */
  lemma ValueToPathDoublesFolder(fs: Fs, folderType: string, fileId: string, v: Leaf, strip: string -> string,
                                 show: Json -> string)
    requires LeafOk(fs, folderType, fileId, v) && Parent(v.file) != "" && Parent(v.file) != "root"
    ensures ValueToPath(LeafJson(v), strip, show) == Ok(JStr(strip(v.folder) + "/" + v.file))
    ensures ValueToPath(LeafJson(v), strip, show) != Ok(JStr(v.file))
  {
    LeafFolder(fs, folderType, fileId, v);
    LeafValueToPath(v, strip, show);
    assert |strip(v.folder) + "/" + v.file| > |v.file|;
  }

  /** Every pick, at any depth of a menu, leads through the corrected `valueToPath` to a resolvable file. */
  predicate PicksResolve(fs: Fs, bases: seq<string>, menu: seq<MenuItem>, strip: string -> string,
                         show: Json -> string)
    decreases menu
  {
    forall i :: 0 <= i < |menu| ==>
      match menu[i]
      case Submenu(_, options) => PicksResolve(fs, bases, options, strip, show)
      case Pick(_, value) =>
        var p := ValueToPathFixed(value, strip, show);
        p.Ok? && p.value.JStr? && Resolvable(fs, bases, p.value.s)
  }

  lemma PicksConcat(fs: Fs, bases: seq<string>, a: seq<MenuItem>, b: seq<MenuItem>, strip: string -> string,
                    show: Json -> string)
    requires PicksResolve(fs, bases, a, strip, show) && PicksResolve(fs, bases, b, strip, show)
    ensures PicksResolve(fs, bases, a + b, strip, show)
  {
    forall i | 0 <= i < |a + b|
      ensures (a + b)[i] == if i < |a| then a[i] else b[i - |a|]
    {
    }
  }

  /**
   * End to end, with the correction: every pick in the menu of a tree whose
   * nodes satisfy `NodeOk` puts a path on the combo that the resolver finds.
   */
  lemma {:induction false} MenuPicksResolve(fs: Fs, folderType: string, fileId: string, ts: seq<TreeNode>,
                                            strip: string -> string, show: Json -> string)
    requires AllOk(fs, folderType, fileId, ts)
    ensures PicksResolve(fs, Bases(fs, folderType), MakeMenuItems(NodesJson(ts)), strip, show)
    decreases ts
  {
    MenuMirrorsTree(ts);
    PicksOfTree(fs, folderType, fileId, ts, strip, show);
  }

  lemma {:induction false} PicksOfTree(fs: Fs, folderType: string, fileId: string, ts: seq<TreeNode>,
                                       strip: string -> string, show: Json -> string)
    requires AllOk(fs, folderType, fileId, ts)
    ensures PicksResolve(fs, Bases(fs, folderType), MenuOf(ts), strip, show)
    decreases ts
  {
    if ts != [] {
      var t := ts[0];
      assert NodeOk(fs, folderType, fileId, t);
      assert AllOk(fs, folderType, fileId, ts[1..]) by {
        forall k | 0 <= k < |ts[1..]| ensures NodeOk(fs, folderType, fileId, ts[1..][k]) {
          assert ts[1..][k] == ts[k + 1];
        }
      }
      if t.children != [] {
        PicksOfTree(fs, folderType, fileId, t.children, strip, show);
      } else if t.value.Some? {
        FixedLeafPath(fs, folderType, fileId, t.value.value, strip, show);
      }
      PicksOfTree(fs, folderType, fileId, ts[1..], strip, show);
      PicksConcat(fs, Bases(fs, folderType), MenuOfNode(t), MenuOf(ts[1..]), strip, show);
    }
  }
}
