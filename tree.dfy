/**
 * The tree builder (`_ensure_branch`, `build_tree`): one top-level node per
 * base directory, a node at the path of every walked directory (a folder
 * unless a file path lies on the way to a directory) and a leaf per eligible
 * file carrying the selection value {folder, file, child_id}.
 *
 * Python builds the tree out of dictionaries that it mutates through aliases
 * (`_ensure_branch` returns the inner `children` list and the caller appends
 * to it). Here the dictionaries of one base live in a `Forest`: an arena of
 * node records where a node's index is its identity and `children` holds
 * indices. `Materialize` turns the arena into the nested value the UI gets.
 */
module Tree {
  import opened Wrappers
  import opened Strings
  import opened FileSystem
  import opened Naming
  import opened ScannerFacts

  /** The selection value a leaf carries: {"folder", "file", "child_id"}. */
  datatype Leaf = Leaf(folder: string, file: string, childId: string)

  /** A node as the UI receives it: {"label", "value", "children"}. */
  datatype TreeNode = TreeNode(caption: string, value: Option<Leaf>, children: seq<TreeNode>)

  /** A node dictionary inside the arena; `children` holds node indices. */
  datatype Slot = Slot(caption: string, value: Option<Leaf>, children: seq<nat>)

  /** Every child index points to a later node, so the arena holds no cycle. */
  predicate Linked(slots: seq<Slot>) {
    forall i, c :: 0 <= i < |slots| && c in slots[i].children ==> i < c < |slots|
  }

  /** `b` is `a` after appends only: same nodes first, each children list extended at its end. */
  predicate Grows(a: seq<Slot>, b: seq<Slot>) {
    |a| <= |b| &&
    forall i :: 0 <= i < |a| ==>
      b[i].caption == a[i].caption && b[i].value == a[i].value && a[i].children <= b[i].children
  }

  /**
   * `next((c for c in children if c.get("label") == part and c.get("children")
   * is not None), None)`: every node has a children list, so only the label matters.
   */
  function FirstChild(slots: seq<Slot>, cs: seq<nat>, part: string): (r: Option<nat>)
    ensures r.Some? ==> r.value in cs && r.value < |slots| && slots[r.value].caption == part
    ensures r.None? <==> forall k :: 0 <= k < |cs| ==> !(cs[k] < |slots| && slots[cs[k]].caption == part)
  {
    if cs == [] then None
    else if cs[0] < |slots| && slots[cs[0]].caption == part then Some(cs[0])
    else
      var r := FirstChild(slots, cs[1..], part);
      assert forall k :: 1 <= k < |cs| ==> cs[k] == cs[1..][k - 1];
      r
  }

  /**
   * The lookup finds nothing exactly when no child carries the label, and
   * otherwise the child found is the earliest matching one.
   */
  lemma {:induction false} FirstChildIsFirst(slots: seq<Slot>, cs: seq<nat>, part: string)
    ensures FirstChild(slots, cs, part).None? <==>
              forall k :: 0 <= k < |cs| ==> !(cs[k] < |slots| && slots[cs[k]].caption == part)
    ensures FirstChild(slots, cs, part).Some? ==>
              exists k :: 0 <= k < |cs| && cs[k] == FirstChild(slots, cs, part).value &&
                forall j :: 0 <= j < k ==> !(cs[j] < |slots| && slots[cs[j]].caption == part)
  {
    if cs == [] {
    } else if !(cs[0] < |slots| && slots[cs[0]].caption == part) {
      if FirstChild(slots, cs, part).None? {
        return;
      }
      FirstChildIsFirst(slots, cs[1..], part);
      var k :| 0 <= k < |cs[1..]| && cs[1..][k] == FirstChild(slots, cs, part).value &&
               forall j :: 0 <= j < k ==> !(cs[1..][j] < |slots| && slots[cs[1..][j]].caption == part);
      assert cs[k + 1] == cs[1..][k];
      forall j | 0 <= j < k + 1 ensures !(cs[j] < |slots| && slots[cs[j]].caption == part) {
        if j > 0 { assert cs[j] == cs[1..][j - 1]; }
      }
    } else {
      assert cs[0] == FirstChild(slots, cs, part).value;
    }
  }

  lemma GrowsTransitive(a: seq<Slot>, b: seq<Slot>, c: seq<Slot>)
    requires Grows(a, b) && Grows(b, c)
    ensures Grows(a, c)
  {
    forall i | 0 <= i < |a| ensures a[i].children <= c[i].children {
      assert b[i].children <= c[i].children;
    }
  }

  /** Lookups that succeeded keep their answer while the arena grows. */
  lemma {:induction false} FirstChildGrows(a: seq<Slot>, b: seq<Slot>, cs: seq<nat>, more: seq<nat>, part: string)
    requires Grows(a, b) && FirstChild(a, cs, part).Some?
    requires forall k :: 0 <= k < |cs| ==> cs[k] < |a|
    ensures FirstChild(b, cs + more, part) == FirstChild(a, cs, part)
  {
    assert (cs + more)[1..] == cs[1..] + more;
    assert b[cs[0]].caption == a[cs[0]].caption;
    if !(cs[0] < |a| && a[cs[0]].caption == part) {
      FirstChildGrows(a, b, cs[1..], more, part);
    }
  }

  /** A lookup over old nodes only finds the same thing in the grown arena. */
  lemma {:induction false} FirstChildOldNodes(a: seq<Slot>, b: seq<Slot>, cs: seq<nat>, part: string)
    requires Grows(a, b) && forall k :: 0 <= k < |cs| ==> cs[k] < |a|
    ensures FirstChild(b, cs, part) == FirstChild(a, cs, part)
  {
    if cs != [] {
      FirstChildOldNodes(a, b, cs[1..], part);
    }
  }

  lemma {:induction false} FirstChildAppend(slots: seq<Slot>, cs: seq<nat>, x: nat, part: string)
    requires FirstChild(slots, cs, part).None?
    ensures FirstChild(slots, cs + [x], part) == FirstChild(slots, [x], part)
  {
    if cs != [] {
      assert (cs + [x])[1..] == cs[1..] + [x];
      FirstChildAppend(slots, cs[1..], x, part);
    } else {
      assert cs + [x] == [x];
    }
  }

  /**
   * The node `_ensure_branch` ends on when every node it needs exists: from
   * `start`, skip empty parts and step to the first child labelled with each
   * other part.
   */
  function Follow(slots: seq<Slot>, start: nat, parts: seq<string>): Option<nat> {
    if parts == [] then Some(start)
    else
      match Follow(slots, start, parts[..|parts| - 1])
      case None => None
      case Some(n) =>
        var part := parts[|parts| - 1];
        if part == "" then Some(n)
        else if n < |slots| then FirstChild(slots, slots[n].children, part)
        else None
  }

  lemma {:induction false} FollowGrows(a: seq<Slot>, b: seq<Slot>, start: nat, parts: seq<string>)
    requires Linked(a) && Grows(a, b) && Follow(a, start, parts).Some?
    ensures Follow(b, start, parts) == Follow(a, start, parts)
  {
    if parts != [] {
      var init := parts[..|parts| - 1];
      FollowGrows(a, b, start, init);
      var n := Follow(a, start, init).value;
      var part := parts[|parts| - 1];
      if part != "" {
        assert forall k :: 0 <= k < |a[n].children| ==> a[n].children[k] in a[n].children;
        FirstChildGrows(a, b, a[n].children, b[n].children[|a[n].children|..], part);
        assert a[n].children + b[n].children[|a[n].children|..] == b[n].children;
      }
    }
  }

  lemma {:induction false} FollowPrefix(slots: seq<Slot>, start: nat, parts: seq<string>, i: nat)
    requires i <= |parts| && Follow(slots, start, parts).Some?
    ensures Follow(slots, start, parts[..i]).Some?
    decreases |parts| - i
  {
    if i < |parts| {
      assert parts[..|parts| - 1] == parts[..|parts| - 1];
      FollowPrefix(slots, start, parts[..|parts| - 1], i);
      assert parts[..|parts| - 1][..i] == parts[..i];
    } else {
      assert parts[..i] == parts;
    }
  }

  /** Appending a child the lookup did not find makes the path end on it. */
  lemma FollowNewChild(before: seq<Slot>, after: seq<Slot>, cursor: nat, parts: seq<string>, part: string, idx: nat)
    requires Linked(before) && Grows(before, after) && cursor < |before|
    requires Follow(before, 0, parts) == Some(cursor) && part != ""
    requires FirstChild(before, before[cursor].children, part).None?
    requires after[cursor].children == before[cursor].children + [idx]
    requires idx < |after| && after[idx].caption == part
    ensures Follow(after, 0, parts + [part]) == Some(idx)
  {
    FollowGrows(before, after, 0, parts);
    assert (parts + [part])[..|parts|] == parts;
    assert forall k :: 0 <= k < |before[cursor].children| ==> before[cursor].children[k] in before[cursor].children;
    FirstChildOldNodes(before, after, before[cursor].children, part);
    FirstChildAppend(after, before[cursor].children, idx, part);
  }

  /** The arena turned into nested nodes, from node `i` down. */
  function Materialize(slots: seq<Slot>, i: nat): (t: TreeNode)
    requires Linked(slots) && i < |slots|
    ensures t.caption == slots[i].caption && t.value == slots[i].value
    ensures |t.children| == |slots[i].children|
    decreases |slots| - i, 1
  {
    assert forall k :: 0 <= k < |slots[i].children| ==> slots[i].children[k] in slots[i].children;
    TreeNode(slots[i].caption, slots[i].value, MaterializeAll(slots, slots[i].children, i))
  }

  function MaterializeAll(slots: seq<Slot>, cs: seq<nat>, parent: nat): (ts: seq<TreeNode>)
    requires Linked(slots) && forall k :: 0 <= k < |cs| ==> parent < cs[k] < |slots|
    ensures |ts| == |cs|
    ensures forall k :: 0 <= k < |cs| ==> ts[k] == Materialize(slots, cs[k])
    decreases |slots| - parent, 0, |cs|
  {
    if cs == [] then [] else [Materialize(slots, cs[0])] + MaterializeAll(slots, cs[1..], parent)
  }

  /** `a` with node `s` appended as the last child of node `t`: the one way the arena changes. */
  function AddChild(a: seq<Slot>, t: nat, s: Slot): (r: seq<Slot>)
    requires t < |a|
    ensures |r| == |a| + 1
  {
    a[t := a[t].(children := a[t].children + [|a|])] + [s]
  }

  lemma AddChildGrows(a: seq<Slot>, t: nat, s: Slot)
    requires Linked(a) && t < |a| && s.children == []
    ensures Linked(AddChild(a, t, s)) && Grows(a, AddChild(a, t, s))
  {
    var b := AddChild(a, t, s);
    forall i, c | 0 <= i < |b| && c in b[i].children ensures i < c < |b| {
      if i != t && i < |a| { assert b[i] == a[i]; }
    }
  }

  /**
   * The part of a branch that was missing: `tail` as a chain of fresh folder
   * nodes hung below node `a`, each the only child of the one before.
   */
  function Chain(s0: seq<Slot>, a: nat, tail: seq<string>): (r: seq<Slot>)
    requires a < |s0|
    ensures |r| == |s0| + |tail|
    decreases |tail|
  {
    if tail == [] then s0
    else
      var s := Chain(s0, a, tail[..|tail| - 1]);
      AddChild(s, if |tail| == 1 then a else |s| - 1, Slot(tail[|tail| - 1], None, []))
  }

  /**
   * A chain changes one old node only, `a`, whose children gain the first new
   * node; the new nodes are folders labelled by `tail` in order, each holding
   * the next one and the last holding nothing.
   */
  lemma {:induction false} ChainShape(s0: seq<Slot>, a: nat, tail: seq<string>)
    requires a < |s0| && tail != []
    ensures Chain(s0, a, tail)[..|s0|] == s0[a := s0[a].(children := s0[a].children + [|s0|])]
    ensures forall k :: 0 <= k < |tail| ==>
              Chain(s0, a, tail)[|s0| + k] == Slot(tail[k], None, if k + 1 < |tail| then [|s0| + k + 1] else [])
    decreases |tail|
  {
    var init := tail[..|tail| - 1];
    var r := Chain(s0, a, tail);
    if |tail| > 1 {
      ChainShape(s0, a, init);
      var s := Chain(s0, a, init);
      assert r[..|s0|] == s[..|s0|];
      forall k | 0 <= k < |tail|
        ensures r[|s0| + k] == Slot(tail[k], None, if k + 1 < |tail| then [|s0| + k + 1] else [])
      {
        if k < |init| {
          assert init[k] == tail[k];
        }
      }
    }
  }

  /** The indices of the subtree at `i` in pre-order: the node, then each child's subtree in turn. */
  ghost function Pre(slots: seq<Slot>, i: nat): (r: seq<nat>)
    requires Linked(slots) && i < |slots|
    ensures forall k :: 0 <= k < |r| ==> i <= r[k] < |slots|
    decreases |slots| - i, 1
  {
    assert forall k :: 0 <= k < |slots[i].children| ==> slots[i].children[k] in slots[i].children;
    [i] + PreAll(slots, slots[i].children, i)
  }

  ghost function PreAll(slots: seq<Slot>, cs: seq<nat>, parent: nat): (r: seq<nat>)
    requires Linked(slots) && forall k :: 0 <= k < |cs| ==> parent < cs[k] < |slots|
    ensures forall k :: 0 <= k < |r| ==> parent < r[k] < |slots|
    decreases |slots| - parent, 0, |cs|
  {
    if cs == [] then [] else Pre(slots, cs[0]) + PreAll(slots, cs[1..], parent)
  }

  lemma {:induction false} PreAllSnoc(slots: seq<Slot>, cs: seq<nat>, x: nat, parent: nat)
    requires Linked(slots) && forall k :: 0 <= k < |cs| ==> parent < cs[k] < |slots|
    requires parent < x < |slots|
    ensures PreAll(slots, cs + [x], parent) == PreAll(slots, cs, parent) + Pre(slots, x)
    decreases |cs|
  {
    if cs == [] {
      assert cs + [x] == [x];
    } else {
      assert (cs + [x])[1..] == cs[1..] + [x];
      PreAllSnoc(slots, cs[1..], x, parent);
    }
  }

  /** `b` has the children lists of `a`, plus one childless node `|a|` appended below `t`. */
  ghost predicate Appended(a: seq<Slot>, b: seq<Slot>, t: nat) {
    t < |a| && |b| == |a| + 1 && b[t].children == a[t].children + [|a|] && b[|a|].children == [] &&
    forall j :: 0 <= j < |a| && j != t ==> b[j].children == a[j].children
  }

  lemma AddChildAppended(a: seq<Slot>, t: nat, s: Slot)
    requires t < |a| && s.children == []
    ensures Appended(a, AddChild(a, t, s), t)
  {
  }

  /**
   * Appending a node below `t` puts it into every subtree exactly as often as
   * `t` is there, and changes nothing else in any subtree.
   */
  lemma {:induction false} PreAddChild(a: seq<Slot>, b: seq<Slot>, t: nat, j: nat)
    requires Linked(a) && Linked(b) && Appended(a, b, t) && j < |a|
    ensures multiset(Pre(b, j)) == multiset(Pre(a, j))[|a| := multiset(Pre(a, j))[t]]
    decreases |a| - j, 1
  {
    assert forall k :: 0 <= k < |a[j].children| ==> a[j].children[k] in a[j].children;
    PreAllAddChild(a, b, t, a[j].children, j);
    if j == t {
      PreAddChildAt(a, b, t);
    } else {
      PreAddChildOther(a, b, t, j);
    }
  }

  /** The subtree of `t` itself gains the new node once, after its old descendants. */
  lemma PreAddChildAt(a: seq<Slot>, b: seq<Slot>, t: nat)
    requires Linked(a) && Linked(b) && Appended(a, b, t)
    requires forall k :: 0 <= k < |a[t].children| ==> a[t].children[k] in a[t].children
    requires var x := multiset(PreAll(a, a[t].children, t));
      multiset(PreAll(b, a[t].children, t)) == x[|a| := x[t]]
    ensures multiset(Pre(b, t)) == multiset(Pre(a, t))[|a| := multiset(Pre(a, t))[t]]
  {
    var cs := a[t].children;
    var x := multiset(PreAll(a, cs, t));
    PreAllSnoc(b, cs, |a|, t);
    assert Pre(b, |a|) == [|a|] + PreAll(b, [], |a|);
    assert x[t] == 0 && x[|a|] == 0;
    UpdateNoop(x, t, |a|);
    UpdateAddsOne(multiset{t} + x, t, |a|);
  }

  /** Any other subtree counts the new node as often as it counts `t`. */
  lemma PreAddChildOther(a: seq<Slot>, b: seq<Slot>, t: nat, j: nat)
    requires Linked(a) && Linked(b) && Appended(a, b, t) && j < |a| && j != t
    requires forall k :: 0 <= k < |a[j].children| ==> a[j].children[k] in a[j].children
    requires var x := multiset(PreAll(a, a[j].children, j));
      multiset(PreAll(b, a[j].children, j)) == x[|a| := x[t]]
    ensures multiset(Pre(b, j)) == multiset(Pre(a, j))[|a| := multiset(Pre(a, j))[t]]
  {
    assert b[j].children == a[j].children;
    UpdateShift(multiset(PreAll(a, a[j].children, j)), j, t, |a|);
  }

  /** Counting `x` again as `y` where `y` was absent and `x` was absent leaves the multiset alone. */
  lemma UpdateNoop<T>(m: multiset<T>, x: T, y: T)
    requires m[x] == 0 && m[y] == 0
    ensures m[y := m[x]] == m
  {
  }

  /** Counting `x`, present once, again as the absent `y` adds one `y`. */
  lemma UpdateAddsOne<T>(m: multiset<T>, x: T, y: T)
    requires m[x] == 1 && m[y] == 0
    ensures m[y := m[x]] == m + multiset{y}
  {
  }

  /** The update commutes with adding an element other than the two it touches. */
  lemma UpdateShift<T>(m: multiset<T>, j: T, x: T, y: T)
    requires j != x && j != y
    ensures (multiset{j} + m)[y := (multiset{j} + m)[x]] == multiset{j} + m[y := m[x]]
  {
  }

  lemma {:induction false} PreAllAddChild(a: seq<Slot>, b: seq<Slot>, t: nat, cs: seq<nat>, parent: nat)
    requires Linked(a) && Linked(b) && Appended(a, b, t) && parent < |a|
    requires forall k :: 0 <= k < |cs| ==> parent < cs[k] < |a|
    ensures multiset(PreAll(b, cs, parent)) ==
            multiset(PreAll(a, cs, parent))[|a| := multiset(PreAll(a, cs, parent))[t]]
    decreases |a| - parent, 0, |cs|
  {
    if cs != [] {
      var rest := cs[1..];
      assert forall k :: 0 <= k < |rest| ==> rest[k] == cs[k + 1];
      PreAddChild(a, b, t, cs[0]);
      PreAllAddChild(a, b, t, rest, parent);
      PreAllCons(a, cs, parent);
      PreAllCons(b, cs, parent);
      UpdateJoin(PreAll(a, cs, parent), Pre(a, cs[0]), PreAll(a, rest, parent),
                 PreAll(b, cs, parent), Pre(b, cs[0]), PreAll(b, rest, parent), t, |a|);
    }
  }

  lemma PreAllCons(slots: seq<Slot>, cs: seq<nat>, parent: nat)
    requires Linked(slots) && forall k :: 0 <= k < |cs| ==> parent < cs[k] < |slots|
    requires cs != []
    ensures PreAll(slots, cs, parent) == Pre(slots, cs[0]) + PreAll(slots, cs[1..], parent)
  {
  }

  /** Recounting `x` as `y` in two halves recounts it in their concatenation. */
  lemma UpdateJoin<T>(u: seq<T>, u1: seq<T>, u2: seq<T>, v: seq<T>, v1: seq<T>, v2: seq<T>, x: T, y: T)
    requires u == u1 + u2 && v == v1 + v2
    requires multiset(v1) == multiset(u1)[y := multiset(u1)[x]]
    requires multiset(v2) == multiset(u2)[y := multiset(u2)[x]]
    ensures multiset(v) == multiset(u)[y := multiset(u)[x]]
  {
    assert multiset(u) == multiset(u1) + multiset(u2);
    assert multiset(v) == multiset(v1) + multiset(v2);
  }

  /** Every index in `idx` names one of `n` nodes. */
  predicate Below(idx: seq<nat>, n: nat) {
    forall k :: 0 <= k < |idx| ==> idx[k] < n
  }

  /** `[0, 1, ..., n - 1]`. */
  ghost function Range(n: nat): (r: seq<nat>)
    ensures |r| == n && Below(r, n)
  {
    if n == 0 then [] else Range(n - 1) + [n - 1]
  }

  lemma {:induction false} RangeCount(n: nat, x: nat)
    ensures multiset(Range(n))[x] == if x < n then 1 else 0
  {
    if n == 0 {
      RangeEmpty();
    } else {
      RangeCount(n - 1, x);
      RangeSnocCount(n, x);
    }
  }

  lemma RangeEmpty()
    ensures multiset(Range(0)) == multiset{}
  {
    assert Range(0) == [];
  }

  lemma RangeSnocCount(n: nat, x: nat)
    requires n > 0
    ensures multiset(Range(n))[x] == multiset(Range(n - 1))[x] + if x == n - 1 then 1 else 0
  {
    SnocCount(Range(n - 1), n - 1, x);
  }

  lemma SnocCount<T>(r: seq<T>, y: T, x: T)
    ensures multiset(r + [y])[x] == multiset(r)[x] + if x == y then 1 else 0
  {
    assert multiset(r + [y]) == multiset(r) + multiset{y};
  }

  /** Node `k` as a list of leaves: its value with its path when it is a leaf, nothing otherwise. */
  ghost function Item(slots: seq<Slot>, paths: seq<seq<string>>, k: nat): seq<(seq<string>, Leaf)>
    requires |paths| == |slots| && k < |slots|
  {
    if slots[k].value.Some? then [(paths[k], slots[k].value.value)] else []
  }

  /** The leaves among the nodes `idx`, in that order, each with its path. */
  ghost function Gather(slots: seq<Slot>, paths: seq<seq<string>>, idx: seq<nat>): seq<(seq<string>, Leaf)>
    requires |paths| == |slots| && Below(idx, |slots|)
  {
    if idx == [] then [] else Item(slots, paths, idx[0]) + Gather(slots, paths, idx[1..])
  }

  lemma {:induction false} GatherConcat(slots: seq<Slot>, paths: seq<seq<string>>, x: seq<nat>, y: seq<nat>)
    requires |paths| == |slots| && Below(x, |slots|) && Below(y, |slots|)
    ensures Below(x + y, |slots|) && Gather(slots, paths, x + y) == Gather(slots, paths, x) + Gather(slots, paths, y)
  {
    if x != [] {
      assert (x + y)[1..] == x[1..] + y;
      GatherConcat(slots, paths, x[1..], y);
    } else {
      assert x + y == y;
    }
  }

  /** The leaves of a list split around one node are the leaves before it, its own, and those after it. */
  lemma {:induction false} GatherSplit(slots: seq<Slot>, paths: seq<seq<string>>, y: seq<nat>, j: nat)
    requires |paths| == |slots| && Below(y, |slots|) && j < |y|
    ensures Below(y[..j], |slots|) && Below(y[j + 1..], |slots|)
    ensures Gather(slots, paths, y) ==
            Gather(slots, paths, y[..j]) + Item(slots, paths, y[j]) + Gather(slots, paths, y[j + 1..])
  {
    var pre, post := y[..j], y[j + 1..];
    assert Below(pre, |slots|) && Below(post, |slots|) && Below([y[j]], |slots|);
    assert y == pre + ([y[j]] + post);
    GatherConcat(slots, paths, [y[j]], post);
    GatherConcat(slots, paths, pre, [y[j]] + post);
    assert Gather(slots, paths, [y[j]]) == Item(slots, paths, y[j]) + Gather(slots, paths, []);
  }

  /** Taking the same element out of two permutations of each other leaves permutations. */
  lemma RemoveOne<T>(x: seq<T>, y: seq<T>, j: nat)
    requires multiset(x) == multiset(y) && x != [] && j < |y| && y[j] == x[0]
    ensures multiset(y[..j] + y[j + 1..]) == multiset(x[1..])
  {
    assert x == [x[0]] + x[1..];
    assert y == y[..j] + [y[j]] + y[j + 1..];
    MultisetMiddle(y[..j], [y[j]], y[j + 1..]);
    var a, b := multiset(y[..j] + y[j + 1..]), multiset(x[1..]);
    assert a + multiset{x[0]} == b + multiset{x[0]};
    forall z ensures a[z] == b[z] {
      assert (a + multiset{x[0]})[z] == (b + multiset{x[0]})[z];
    }
  }

  lemma MultisetMiddle<T>(a: seq<T>, b: seq<T>, c: seq<T>)
    ensures multiset(a + b + c) == multiset(a + c) + multiset(b)
  {
  }

  /** The same nodes in another order hold the same leaves. */
  lemma {:induction false} GatherPermutes(slots: seq<Slot>, paths: seq<seq<string>>, x: seq<nat>, y: seq<nat>)
    requires |paths| == |slots| && Below(x, |slots|) && Below(y, |slots|)
    requires multiset(x) == multiset(y)
    ensures multiset(Gather(slots, paths, x)) == multiset(Gather(slots, paths, y))
    decreases |x|
  {
    if x == [] {
      assert |y| == |multiset(y)| == 0;
    } else {
      assert x[0] in multiset(y);
      var j :| 0 <= j < |y| && y[j] == x[0];
      GatherSplit(slots, paths, y, j);
      var pre, post := y[..j], y[j + 1..];
      GatherConcat(slots, paths, pre, post);
      assert y == pre + [y[j]] + post;
      RemoveOne(x, y, j);
      GatherPermutes(slots, paths, x[1..], pre + post);
      assert Gather(slots, paths, x) == Item(slots, paths, x[0]) + Gather(slots, paths, x[1..]);
      PermuteStep(Gather(slots, paths, x), Item(slots, paths, x[0]), Gather(slots, paths, x[1..]),
                  Gather(slots, paths, y), Gather(slots, paths, pre), Gather(slots, paths, post),
                  Gather(slots, paths, pre + post));
    }
  }

  lemma PermuteStep<T>(gx: seq<T>, item: seq<T>, gx1: seq<T>, gy: seq<T>, ga: seq<T>, gb: seq<T>, gab: seq<T>)
    requires gx == item + gx1 && gy == ga + item + gb && gab == ga + gb && multiset(gx1) == multiset(gab)
    ensures multiset(gx) == multiset(gy)
  {
  }

  /** Nodes whose value and path did not change hold the same leaves. */
  lemma {:induction false} GatherSame(a: seq<Slot>, pa: seq<seq<string>>, b: seq<Slot>, pb: seq<seq<string>>, idx: seq<nat>)
    requires |pa| == |a| <= |b| == |pb| && Below(idx, |a|)
    requires forall k :: 0 <= k < |a| ==> b[k].value == a[k].value && pb[k] == pa[k]
    ensures Gather(b, pb, idx) == Gather(a, pa, idx)
  {
    if idx != [] {
      GatherSame(a, pa, b, pb, idx[1..]);
    }
  }

  /** Every leaf of the arena, in the order the nodes were made, with its path. */
  ghost function Leaves(slots: seq<Slot>, paths: seq<seq<string>>): seq<(seq<string>, Leaf)>
    requires |paths| == |slots|
  {
    Gather(slots, paths, Range(|slots|))
  }

  /** Appending a node adds its leaf, if it is one, after every older leaf. */
  lemma LeavesAddChild(a: seq<Slot>, pa: seq<seq<string>>, t: nat, s: Slot, p: seq<string>)
    requires |pa| == |a| && t < |a|
    ensures Leaves(AddChild(a, t, s), pa + [p]) ==
            Leaves(a, pa) + (if s.value.Some? then [(p, s.value.value)] else [])
  {
    var b, pb := AddChild(a, t, s), pa + [p];
    assert Range(|b|) == Range(|a|) + [|a|];
    GatherConcat(b, pb, Range(|a|), [|a|]);
    assert Gather(b, pb, [|a|]) == Item(b, pb, |a|) + Gather(b, pb, []);
    forall k | 0 <= k < |a| ensures b[k].value == a[k].value && pb[k] == pa[k] {
      assert b[k] == if k == t then a[t].(children := a[t].children + [|a|]) else a[k];
    }
    GatherSame(a, pa, b, pb, Range(|a|));
  }

  /**
   * Every leaf below `t` with the labels that lead to it, `t` itself sitting
   * at `at`: the nested tree's own account of where its files are.
   */
  function Placed(t: TreeNode, at: seq<string>): seq<(seq<string>, Leaf)>
    decreases t
  {
    (if t.value.Some? then [(at, t.value.value)] else []) + PlacedAll(t.children, at)
  }

  function PlacedAll(ts: seq<TreeNode>, at: seq<string>): seq<(seq<string>, Leaf)>
    decreases ts
  {
    if ts == [] then [] else Placed(ts[0], at + [ts[0].caption]) + PlacedAll(ts[1..], at)
  }

  /** Every child's path is its parent's path and its own label. */
  ghost predicate PathsFollow(slots: seq<Slot>, paths: seq<seq<string>>) {
    |paths| == |slots| &&
    forall i, c :: 0 <= i < |slots| && c in slots[i].children && c < |slots| ==> paths[c] == paths[i] + [slots[c].caption]
  }

  /** What the nested tree from node `i` places is what the nodes of its subtree hold. */
  lemma {:induction false} MaterializePlaced(slots: seq<Slot>, paths: seq<seq<string>>, i: nat)
    requires Linked(slots) && i < |slots| && PathsFollow(slots, paths)
    ensures Placed(Materialize(slots, i), paths[i]) == Gather(slots, paths, Pre(slots, i))
    decreases |slots| - i, 1
  {
    var cs := slots[i].children;
    assert forall k :: 0 <= k < |cs| ==> cs[k] in slots[i].children;
    MaterializeAllPlaced(slots, paths, cs, i);
    GatherConcat(slots, paths, [i], PreAll(slots, cs, i));
  }

  lemma {:induction false} MaterializeAllPlaced(slots: seq<Slot>, paths: seq<seq<string>>, cs: seq<nat>, parent: nat)
    requires Linked(slots) && PathsFollow(slots, paths) && parent < |slots|
    requires forall k :: 0 <= k < |cs| ==> parent < cs[k] < |slots|
    requires forall k :: 0 <= k < |cs| ==> paths[cs[k]] == paths[parent] + [slots[cs[k]].caption]
    ensures PlacedAll(MaterializeAll(slots, cs, parent), paths[parent]) == Gather(slots, paths, PreAll(slots, cs, parent))
    decreases |slots| - parent, 0, |cs|
  {
    if cs != [] {
      var ts := MaterializeAll(slots, cs, parent);
      assert ts[0] == Materialize(slots, cs[0]);
      assert ts[1..] == MaterializeAll(slots, cs[1..], parent);
      MaterializePlaced(slots, paths, cs[0]);
      MaterializeAllPlaced(slots, paths, cs[1..], parent);
      GatherConcat(slots, paths, Pre(slots, cs[0]), PreAll(slots, cs[1..], parent));
    }
  }

  /**
   * An arena `_ensure_branch` and `build_tree` keep: the base node first, a
   * folder at the empty path; children after their parents, at their
   * parent's path and their own label; and every node reached from the base
   * node exactly once, so the arena is one tree.
   */
  ghost predicate ArenaOk(slots: seq<Slot>, paths: seq<seq<string>>) {
    |paths| == |slots| && |slots| > 0 && Linked(slots) &&
    paths[0] == [] && slots[0].value.None? && PathsFollow(slots, paths) && OneTree(slots)
  }

  /**
   * The pre-order walk from the base node meets each of the `n` nodes once.
   * Stated for the `n` that is the arena's size, so that the walk is only
   * unfolded where a proof counts nodes.
   */
  ghost predicate OneTree(slots: seq<Slot>)
    requires Linked(slots) && |slots| > 0
  {
    forall n :: n == |slots| ==> multiset(Pre(slots, 0)) == multiset(Range(n))
  }

  /** Appending a childless node keeps the arena one tree. */
  lemma ArenaAddChild(a: seq<Slot>, pa: seq<seq<string>>, t: nat, s: Slot)
    requires ArenaOk(a, pa) && t < |a| && s.children == []
    ensures ArenaOk(AddChild(a, t, s), pa + [pa[t] + [s.caption]])
  {
    var b, pb := AddChild(a, t, s), pa + [pa[t] + [s.caption]];
    AddChildGrows(a, t, s);
    forall i, c | 0 <= i < |b| && c in b[i].children && c < |b| ensures pb[c] == pb[i] + [b[c].caption] {
      if c < |a| {
        assert c in a[i].children && i < c;
      }
    }
    assert multiset(Pre(a, 0)) == multiset(Range(|a|));
    AddChildAppended(a, t, s);
    PreAddChild(a, b, t, 0);
    RangeCount(|a|, t);
    RangeCount(|a|, |a|);
    assert Range(|b|) == Range(|a|) + [|a|];
  }

  /** The nested tree a good arena materializes into places exactly the arena's leaves. */
  lemma TreePlacesLeaves(slots: seq<Slot>, paths: seq<seq<string>>)
    requires ArenaOk(slots, paths)
    ensures multiset(Placed(Materialize(slots, 0), [])) == multiset(Leaves(slots, paths))
  {
    assert multiset(Pre(slots, 0)) == multiset(Range(|slots|));
    MaterializePlaced(slots, paths, 0);
    GatherPermutes(slots, paths, Pre(slots, 0), Range(|slots|));
  }

  /** No leaf node has children: what `build_tree` keeps true of its arena. */
  ghost predicate LeavesBare(slots: seq<Slot>) {
    forall i :: 0 <= i < |slots| && slots[i].value.Some? ==> slots[i].children == []
  }

  /** No leaf sits at `q` or on the way down to it. */
  ghost predicate OffPath(leaves: seq<(seq<string>, Leaf)>, q: seq<string>) {
    forall x | x in leaves :: !(x.0 <= q)
  }

  /** A nested node with a value has no children, and neither do the leaves below it. */
  predicate Shaped(t: TreeNode) {
    (t.value.Some? ==> t.children == []) && forall c | c in t.children :: Shaped(c)
  }

  lemma {:induction false} RangeAt(n: nat, i: nat)
    requires i < n
    ensures Range(n)[i] == i
  {
    if i < n - 1 {
      RangeAt(n - 1, i);
    }
  }

  /** Every leaf node of the arena is listed by `Leaves`, with its path. */
  lemma LeafListed(slots: seq<Slot>, paths: seq<seq<string>>, i: nat)
    requires |paths| == |slots| && i < |slots|
    ensures slots[i].value.Some? ==> (paths[i], slots[i].value.value) in Leaves(slots, paths)
  {
    RangeAt(|slots|, i);
    GatherSplit(slots, paths, Range(|slots|), i);
  }

  /** Appending a childless node below a folder keeps every leaf childless. */
  lemma AddChildBare(a: seq<Slot>, t: nat, s: Slot)
    requires t < |a| && LeavesBare(a) && a[t].value.None? && s.children == []
    ensures LeavesBare(AddChild(a, t, s)) && AddChild(a, t, s)[t].value.None?
  {
    var b := AddChild(a, t, s);
    forall i | 0 <= i < |b| && b[i].value.Some? ensures b[i].children == [] {
      if i < |a| && i != t {
        assert b[i] == a[i];
      }
    }
  }

  /**
   * When no leaf sits on the way to `q`, walking any parts whose non-empty
   * ones begin `q` never steps onto a leaf: every leaf stays childless and
   * the node reached is a folder.
   */
  lemma {:induction false} BranchBare(s: seq<Slot>, p: seq<seq<string>>, parts: seq<string>, q: seq<string>)
    requires ArenaOk(s, p) && LeavesBare(s) && NonEmpty(parts) <= q && OffPath(Leaves(s, p), q)
    ensures var r := Branch(s, p, parts); LeavesBare(r.0) && r.0[r.2].value.None?
  {
    if parts != [] {
      var init, part := parts[..|parts| - 1], parts[|parts| - 1];
      assert init + [part] == parts;
      NonEmptyAppend(init, part);
      BranchBare(s, p, init, q);
      BranchKeeps(s, p, init);
      var b := Branch(s, p, init);
      if part != "" {
        var found := FirstChild(b.0, b.0[b.2].children, part);
        if found.Some? {
          var n := found.value;
          assert n in b.0[b.2].children;
          assert b.1[n] == NonEmpty(parts);
          LeafListed(b.0, b.1, n);
        } else {
          AddChildBare(b.0, b.2, Slot(part, None, []));
        }
      }
    }
  }

  /** An arena whose leaves are childless materializes into a shaped tree. */
  lemma {:induction false} MaterializeShaped(slots: seq<Slot>, i: nat)
    requires Linked(slots) && i < |slots| && LeavesBare(slots)
    ensures Shaped(Materialize(slots, i))
    decreases |slots| - i
  {
    var t := Materialize(slots, i);
    var cs := slots[i].children;
    forall c | c in t.children ensures Shaped(c) {
      var k :| 0 <= k < |t.children| && t.children[k] == c;
      assert cs[k] in cs;
      MaterializeShaped(slots, cs[k]);
    }
  }

  /**
   * Every node below `t`, `t` itself at `at`, in pre-order: the labels that
   * lead to it and whether it is a folder (a node without a value).
   */
  function Outline(t: TreeNode, at: seq<string>): seq<(seq<string>, bool)>
    decreases t
  {
    [(at, t.value.None?)] + OutlineAll(t.children, at)
  }

  function OutlineAll(ts: seq<TreeNode>, at: seq<string>): seq<(seq<string>, bool)>
    decreases ts
  {
    if ts == [] then [] else Outline(ts[0], at + [ts[0].caption]) + OutlineAll(ts[1..], at)
  }

  /** The arena nodes `idx` as `Outline` lists them. */
  ghost function OutlineOf(slots: seq<Slot>, paths: seq<seq<string>>, idx: seq<nat>): (r: seq<(seq<string>, bool)>)
    requires |paths| == |slots| && Below(idx, |slots|)
    ensures |r| == |idx|
  {
    seq(|idx|, k requires 0 <= k < |idx| => (paths[idx[k]], slots[idx[k]].value.None?))
  }

  lemma OutlineOfConcat(slots: seq<Slot>, paths: seq<seq<string>>, x: seq<nat>, y: seq<nat>)
    requires |paths| == |slots| && Below(x, |slots|) && Below(y, |slots|)
    ensures Below(x + y, |slots|) && OutlineOf(slots, paths, x + y) == OutlineOf(slots, paths, x) + OutlineOf(slots, paths, y)
  {
    assert Below(x + y, |slots|);
    var r, rx, ry := OutlineOf(slots, paths, x + y), OutlineOf(slots, paths, x), OutlineOf(slots, paths, y);
    forall k | 0 <= k < |r| ensures r[k] == (rx + ry)[k] {
      if k >= |x| {
        assert (x + y)[k] == y[k - |x|];
      }
    }
  }

  /** The outline of the nested tree from node `i` is its subtree's nodes in pre-order. */
  lemma {:induction false} MaterializeOutline(slots: seq<Slot>, paths: seq<seq<string>>, i: nat)
    requires Linked(slots) && i < |slots| && PathsFollow(slots, paths)
    ensures Outline(Materialize(slots, i), paths[i]) == OutlineOf(slots, paths, Pre(slots, i))
    decreases |slots| - i, 1
  {
    var cs := slots[i].children;
    assert forall k :: 0 <= k < |cs| ==> cs[k] in slots[i].children;
    MaterializeAllOutline(slots, paths, cs, i);
    OutlineOfConcat(slots, paths, [i], PreAll(slots, cs, i));
  }

  lemma {:induction false} MaterializeAllOutline(slots: seq<Slot>, paths: seq<seq<string>>, cs: seq<nat>, parent: nat)
    requires Linked(slots) && PathsFollow(slots, paths) && parent < |slots|
    requires forall k :: 0 <= k < |cs| ==> parent < cs[k] < |slots|
    requires forall k :: 0 <= k < |cs| ==> paths[cs[k]] == paths[parent] + [slots[cs[k]].caption]
    ensures OutlineAll(MaterializeAll(slots, cs, parent), paths[parent]) == OutlineOf(slots, paths, PreAll(slots, cs, parent))
    decreases |slots| - parent, 0, |cs|
  {
    if cs != [] {
      var ts := MaterializeAll(slots, cs, parent);
      assert ts[0] == Materialize(slots, cs[0]);
      assert ts[1..] == MaterializeAll(slots, cs[1..], parent);
      MaterializeOutline(slots, paths, cs[0]);
      MaterializeAllOutline(slots, paths, cs[1..], parent);
      OutlineOfConcat(slots, paths, Pre(slots, cs[0]), PreAll(slots, cs[1..], parent));
    }
  }

  /** Every node of a good arena shows in the nested tree's outline, at its path, as a folder exactly when it is one. */
  lemma OutlineListed(slots: seq<Slot>, paths: seq<seq<string>>, j: nat)
    requires ArenaOk(slots, paths) && j < |slots|
    ensures (paths[j], slots[j].value.None?) in Outline(Materialize(slots, 0), [])
  {
    MaterializeOutline(slots, paths, 0);
    var pre := Pre(slots, 0);
    assert multiset(pre) == multiset(Range(|slots|));
    RangeCount(|slots|, j);
    assert j in multiset(pre);
    var k :| 0 <= k < |pre| && pre[k] == j;
    assert OutlineOf(slots, paths, pre)[k] == (paths[j], slots[j].value.None?);
  }

  /** Every entry of the nested tree's outline is a node of the arena. */
  lemma OutlineNode(slots: seq<Slot>, paths: seq<seq<string>>, x: (seq<string>, bool)) returns (j: nat)
    requires ArenaOk(slots, paths) && x in Outline(Materialize(slots, 0), [])
    ensures j < |slots| && x == (paths[j], slots[j].value.None?)
  {
    MaterializeOutline(slots, paths, 0);
    var pre := Pre(slots, 0);
    var k :| 0 <= k < |pre| && OutlineOf(slots, paths, pre)[k] == x;
    j := pre[k];
  }

  /** The nodes `_ensure_branch` appends are folders on the way to the non-empty parts. */
  lemma {:induction false} BranchNew(s: seq<Slot>, p: seq<seq<string>>, parts: seq<string>)
    requires ArenaOk(s, p)
    ensures var r := Branch(s, p, parts);
      forall j :: |s| <= j < |r.0| ==> r.0[j].value.None? && r.1[j] <= NonEmpty(parts)
  {
    if parts != [] {
      var init, part := parts[..|parts| - 1], parts[|parts| - 1];
      assert init + [part] == parts;
      NonEmptyAppend(init, part);
      BranchNew(s, p, init);
      BranchKeeps(s, p, init);
      var q := Branch(s, p, init);
      var r := Branch(s, p, parts);
      forall j | |s| <= j < |r.0| ensures r.0[j].value.None? && r.1[j] <= NonEmpty(parts) {
        if j < |q.0| {
          assert r.0[j].value == q.0[j].value && r.1[j] == q.1[j];
        }
      }
    }
  }

  /** A chain grows by one folder below its last node. */
  lemma ChainSnoc(s0: seq<Slot>, a: nat, tail: seq<string>, part: string)
    requires a < |s0| && tail != []
    ensures Chain(s0, a, tail + [part]) == AddChild(Chain(s0, a, tail), |s0| + |tail| - 1, Slot(part, None, []))
  {
    assert (tail + [part])[..|tail|] == tail;
  }

  /**
   * One part of `_ensure_branch`, standing on node `c`: an empty part changes
   * nothing; any other part steps to the first child labelled with it, or,
   * when there is none, to a new folder appended as `c`'s last child. The
   * arena, the paths of its nodes and the node stood on afterwards.
   */
  ghost function BranchStep(s: seq<Slot>, p: seq<seq<string>>, c: nat, part: string): (r: (seq<Slot>, seq<seq<string>>, nat))
    requires c < |s| == |p|
    ensures |s| <= |r.0| == |r.1| && r.2 < |r.0|
  {
    if part == "" then (s, p, c)
    else
      match FirstChild(s, s[c].children, part)
      case Some(n) => (s, p, n)
      case None => (AddChild(s, c, Slot(part, None, [])), p + [p[c] + [part]], |s|)
  }

  /** `_ensure_branch` over `parts`, starting on the base node: one `BranchStep` per part, in order. */
  ghost function Branch(s: seq<Slot>, p: seq<seq<string>>, parts: seq<string>): (r: (seq<Slot>, seq<seq<string>>, nat))
    requires 0 < |s| == |p|
    ensures |s| <= |r.0| == |r.1| && r.2 < |r.0|
  {
    if parts == [] then (s, p, 0)
    else
      var q := Branch(s, p, parts[..|parts| - 1]);
      BranchStep(q.0, q.1, q.2, parts[|parts| - 1])
  }

  /** One part keeps the arena one tree, adds no leaf, and keeps every old node and path. */
  lemma StepArena(s: seq<Slot>, p: seq<seq<string>>, c: nat, part: string)
    requires ArenaOk(s, p) && c < |s|
    ensures var r := BranchStep(s, p, c, part);
      ArenaOk(r.0, r.1) && Grows(s, r.0) && r.1[..|p|] == p && Leaves(r.0, r.1) == Leaves(s, p)
  {
    var r := BranchStep(s, p, c, part);
    if part == "" || FirstChild(s, s[c].children, part).Some? {
      assert r.1[..|p|] == p;
      assert forall i :: 0 <= i < |s| ==> s[i].children <= s[i].children;
    } else {
      var slot := Slot(part, None, []);
      ArenaAddChild(s, p, c, slot);
      AddChildGrows(s, c, slot);
      LeavesAddChild(s, p, c, slot, p[c] + [part]);
      assert r.1[..|p|] == p;
    }
  }

  /**
   * Standing on the node the parts so far lead to, one part moves to the node
   * those parts and it lead to, whose path is all of them without the empty ones.
   */
  lemma StepFollow(s: seq<Slot>, p: seq<seq<string>>, c: nat, part: string, walked: seq<string>)
    requires ArenaOk(s, p) && c < |s| && Follow(s, 0, walked) == Some(c) && p[c] == NonEmpty(walked)
    ensures var r := BranchStep(s, p, c, part);
      Follow(r.0, 0, walked + [part]) == Some(r.2) && r.1[r.2] == NonEmpty(walked + [part])
  {
    var r := BranchStep(s, p, c, part);
    NonEmptyAppend(walked, part);
    assert (walked + [part])[..|walked|] == walked;
    if part != "" && FirstChild(s, s[c].children, part).None? {
      var slot := Slot(part, None, []);
      AddChildGrows(s, c, slot);
      FollowNewChild(s, r.0, c, walked, part, |s|);
    }
  }

  /**
   * `_ensure_branch` keeps the arena one tree, adds no leaf, keeps every old
   * node and path, and returns the node the parts lead to, whose path is the
   * non-empty parts.
   */
  lemma BranchKeeps(s: seq<Slot>, p: seq<seq<string>>, parts: seq<string>)
    requires ArenaOk(s, p)
    ensures var r := Branch(s, p, parts);
      ArenaOk(r.0, r.1) && Grows(s, r.0) && r.1[..|p|] == p && Leaves(r.0, r.1) == Leaves(s, p) &&
      Follow(r.0, 0, parts) == Some(r.2) && r.1[r.2] == NonEmpty(parts)
  {
    BranchArena(s, p, parts);
    BranchFollow(s, p, parts);
  }

  /** The arena half of `BranchKeeps`: one tree, old nodes and paths kept, no new leaf. */
  lemma {:induction false} BranchArena(s: seq<Slot>, p: seq<seq<string>>, parts: seq<string>)
    requires ArenaOk(s, p)
    ensures var r := Branch(s, p, parts);
      ArenaOk(r.0, r.1) && Grows(s, r.0) && r.1[..|p|] == p && Leaves(r.0, r.1) == Leaves(s, p)
  {
    var r := Branch(s, p, parts);
    if parts == [] {
      assert p[..|p|] == p;
      assert forall i :: 0 <= i < |s| ==> s[i].children <= s[i].children;
    } else {
      var init := parts[..|parts| - 1];
      var q := Branch(s, p, init);
      BranchArena(s, p, init);
      StepArena(q.0, q.1, q.2, parts[|parts| - 1]);
      GrowsTransitive(s, q.0, r.0);
      assert r.1[..|p|] == r.1[..|q.1|][..|p|];
    }
  }

  lemma BranchOk(s: seq<Slot>, p: seq<seq<string>>, parts: seq<string>)
    requires ArenaOk(s, p)
    ensures var r := Branch(s, p, parts); ArenaOk(r.0, r.1)
  {
    BranchArena(s, p, parts);
  }

  /** The lookup half of `BranchKeeps`: the node returned is where the parts lead, and its path is theirs. */
  lemma {:induction false} BranchFollow(s: seq<Slot>, p: seq<seq<string>>, parts: seq<string>)
    requires ArenaOk(s, p)
    ensures var r := Branch(s, p, parts);
      Follow(r.0, 0, parts) == Some(r.2) && r.1[r.2] == NonEmpty(parts)
  {
    if parts != [] {
      var init := parts[..|parts| - 1];
      var q := Branch(s, p, init);
      BranchOk(s, p, init);
      BranchFollow(s, p, init);
      StepFollow(q.0, q.1, q.2, parts[|parts| - 1], init);
      assert init + [parts[|parts| - 1]] == parts;
    }
  }

  /** When every node the parts name exists, `_ensure_branch` changes nothing and returns the node they lead to. */
  lemma {:induction false} BranchExisting(s: seq<Slot>, p: seq<seq<string>>, parts: seq<string>)
    requires 0 < |s| == |p| && Follow(s, 0, parts).Some?
    ensures Branch(s, p, parts) == (s, p, Follow(s, 0, parts).value)
  {
    if parts != [] {
      var init := parts[..|parts| - 1];
      FollowPrefix(s, 0, parts, |parts| - 1);
      BranchExisting(s, p, init);
    }
  }

  /** Parts that are all empty leave the arena alone and return the base node. */
  lemma {:induction false} BranchEmpty(s: seq<Slot>, p: seq<seq<string>>, parts: seq<string>)
    requires 0 < |s| == |p| && NonEmpty(parts) == []
    ensures Branch(s, p, parts) == (s, p, 0)
  {
    if parts != [] {
      var init := parts[..|parts| - 1];
      NonEmptyAppend(init, parts[|parts| - 1]);
      assert init + [parts[|parts| - 1]] == parts;
      BranchEmpty(s, p, init);
    }
  }

  /** A branch with a non-empty part leaves the base node with a child. */
  lemma {:induction false} BranchRoot(s: seq<Slot>, p: seq<seq<string>>, parts: seq<string>)
    requires 0 < |s| == |p| && NonEmpty(parts) != []
    ensures Branch(s, p, parts).0[0].children != []
  {
    var init, part := parts[..|parts| - 1], parts[|parts| - 1];
    var q := Branch(s, p, init);
    NonEmptyAppend(init, part);
    assert init + [part] == parts;
    if NonEmpty(init) != [] {
      BranchRoot(s, p, init);
    } else {
      BranchEmpty(s, p, init);
      var found := FirstChild(s, s[0].children, part);
      if found.Some? {
        assert found.value in s[0].children;
      }
    }
  }

  /** The first missing part starts a chain: one new folder below `a`, returned. */
  lemma ChainStart(s: seq<Slot>, p: seq<seq<string>>, a: nat, part: string)
    requires a < |s| == |p| && part != "" && FirstChild(s, s[a].children, part).None?
    ensures var r := BranchStep(s, p, a, part);
      r.0 == Chain(s, a, [part]) && r.2 == |r.0| - 1 && r.0[r.2].children == []
  {
    assert Chain(s, a, [part]) == AddChild(Chain(s, a, []), a, Slot(part, None, []));
  }

  /** Standing on the end of a chain, every later part extends the chain, and an empty one leaves it. */
  lemma ChainStep(s: seq<Slot>, q1: seq<seq<string>>, a: nat, tail: seq<string>, part: string)
    requires a < |s| && tail != [] && |q1| == |s| + |tail|
    requires Chain(s, a, tail)[|s| + |tail| - 1].children == []
    ensures var r := BranchStep(Chain(s, a, tail), q1, |s| + |tail| - 1, part);
      r.0 == Chain(s, a, tail + (if part == "" then [] else [part])) && r.2 == |r.0| - 1 && r.0[r.2].children == []
  {
    if part != "" {
      ChainSnoc(s, a, tail, part);
    } else {
      assert tail + [] == tail;
    }
  }

  /** Once a branch has started a chain, the next part extends it. */
  lemma ChainGrows(s: seq<Slot>, p: seq<seq<string>>, init: seq<string>, part: string, d: nat, a: nat)
    requires 0 < |s| == |p| && d < |init| && init[d] != "" && a < |s|
    requires var q := Branch(s, p, init);
      q.0 == Chain(s, a, NonEmpty(init[d..])) && q.2 == |q.0| - 1 && q.0[q.2].children == []
    ensures var r := Branch(s, p, init + [part]);
      r.0 == Chain(s, a, NonEmpty((init + [part])[d..])) && r.2 == |r.0| - 1 && r.0[r.2].children == []
  {
    var q := Branch(s, p, init);
    var tail := NonEmpty(init[d..]);
    assert (init + [part])[..|init|] == init;
    assert (init + [part])[d..] == init[d..] + [part];
    NonEmptyAppend(init[d..], part);
    NonEmptyHead(init[d..]);
    ChainStep(s, q.1, a, tail, part);
  }

  /** The first part that names a missing node starts the chain, just below the node the parts before it lead to. */
  lemma ChainBegins(s: seq<Slot>, p: seq<seq<string>>, init: seq<string>, part: string)
    requires 0 < |s| == |p| && Follow(s, 0, init).Some? && Follow(s, 0, init + [part]).None?
    ensures var a, r := Follow(s, 0, init).value, Branch(s, p, init + [part]);
      part != "" && a < |s| && FirstChild(s, s[a].children, part).None? &&
      r.0 == Chain(s, a, NonEmpty([part])) && r.2 == |r.0| - 1 && r.0[r.2].children == []
  {
    assert (init + [part])[..|init|] == init;
    BranchExisting(s, p, init);
    NonEmptyAppend([], part);
    assert [] + [part] == [part];
    ChainStart(s, p, Follow(s, 0, init).value, part);
  }

  /**
   * When some part names a missing node, `_ensure_branch` adds exactly the
   * missing suffix: part `d` is the first one no child carries below node
   * `a`, which the parts before it lead to, and the non-empty parts from `d`
   * on hang below `a` as a chain of new folders (`ChainShape`), the last of
   * which is returned. No other node changes.
   */
  lemma {:induction false} BranchChain(s: seq<Slot>, p: seq<seq<string>>, parts: seq<string>)
    requires 0 < |s| == |p| && Follow(s, 0, parts).None?
    ensures var r := Branch(s, p, parts);
      exists d, a :: 0 <= d < |parts| && parts[d] != "" && a < |s| &&
        Follow(s, 0, parts[..d]) == Some(a) && FirstChild(s, s[a].children, parts[d]).None? &&
        r.0 == Chain(s, a, NonEmpty(parts[d..])) && r.2 == |r.0| - 1 && r.0[r.2].children == []
  {
    var d, a := ChainFrom(s, p, parts);
  }

  /** `BranchChain` with the first missing part and the node below which the chain hangs. */
  lemma {:induction false} ChainFrom(s: seq<Slot>, p: seq<seq<string>>, parts: seq<string>) returns (d: nat, a: nat)
    requires 0 < |s| == |p| && Follow(s, 0, parts).None?
    ensures var r := Branch(s, p, parts);
      d < |parts| && parts[d] != "" && a < |s| &&
      Follow(s, 0, parts[..d]) == Some(a) && FirstChild(s, s[a].children, parts[d]).None? &&
      r.0 == Chain(s, a, NonEmpty(parts[d..])) && r.2 == |r.0| - 1 && r.0[r.2].children == []
  {
    var n := |parts|;
    var init, part := parts[..n - 1], parts[n - 1];
    assert init + [part] == parts;
    if Follow(s, 0, init).None? {
      d, a := ChainFrom(s, p, init);
      assert parts[..d] == init[..d] && parts[d] == init[d];
      ChainGrows(s, p, init, part, d, a);
    } else {
      d, a := n - 1, Follow(s, 0, init).value;
      ChainBegins(s, p, init, part);
      assert parts[..n - 1] == init && parts[n - 1..] == [part];
    }
  }


  class Forest {
    var slots: seq<Slot>
    /** The labels on the way from the base node to every node. */
    ghost var paths: seq<seq<string>>

    ghost predicate Valid()
      reads this
    {
      ArenaOk(slots, paths)
    }

    /** `{"label": base_label, "value": None, "children": []}`. */
    constructor (caption: string)
      ensures Valid() && slots == [Slot(caption, None, [])] && Leaves(slots, paths) == []
    {
      var s := [Slot(caption, None, [])];
      assert Pre(s, 0) == [0] + PreAll(s, [], 0);
      assert Range(1) == [0];
      assert OneTree(s);
      assert Gather(s, [[]], [0]) == Item(s, [[]], 0) + Gather(s, [[]], [0][1..]);
      slots := s;
      paths := [[]];
    }

    /** The `next(...)` search over one node's children. */
    method FindChild(node: nat, part: string) returns (found: Option<nat>)
      requires Linked(slots) && node < |slots|
      ensures found == FirstChild(slots, slots[node].children, part)
    {
      var s := slots;
      var cs := s[node].children;
      for k := 0 to |cs|
        invariant FirstChild(s, cs, part) == FirstChild(s, cs[k..], part)
      {
        assert cs[k..][1..] == cs[k + 1..];
        assert cs[k] in s[node].children;
        if s[cs[k]].caption == part {
          return Some(cs[k]);
        }
      }
      return None;
    }

    /**
     * `_ensure_branch(base_node["children"], parts)`: walks down from the base
     * node, skipping empty parts and stepping to the first child with each
     * other part as its label; from the first part no child carries, it hangs
     * the rest of the parts below as a chain of fresh folders (`Branch`,
     * `BranchExisting`, `BranchChain`). Returns the node whose children list
     * is the target: the node the parts lead to.
     */
    method EnsureBranch(parts: seq<string>) returns (cursor: nat)
      requires Valid()
      modifies this
      ensures Valid() && (slots, paths, cursor) == Branch(old(slots), old(paths), parts)
      ensures Grows(old(slots), slots) && paths[..|old(paths)|] == old(paths)
      ensures Leaves(slots, paths) == Leaves(old(slots), old(paths))
      ensures Follow(slots, 0, parts) == Some(cursor) && paths[cursor] == NonEmpty(parts)
      ensures NonEmpty(parts) == [] ==> slots == old(slots) && cursor == 0
      ensures NonEmpty(parts) != [] ==> slots[0].children != []
      ensures old(Follow(slots, 0, parts)).Some? ==> slots == old(slots) && paths == old(paths)
      ensures LeavesBare(old(slots)) && OffPath(Leaves(old(slots), old(paths)), NonEmpty(parts)) ==>
                LeavesBare(slots) && slots[cursor].value.None?
      ensures old(Follow(slots, 0, parts)).None? ==>
                exists d, a :: 0 <= d < |parts| && parts[d] != "" && a < |old(slots)| &&
                  Follow(old(slots), 0, parts[..d]) == Some(a) &&
                  FirstChild(old(slots), old(slots)[a].children, parts[d]).None? &&
                  slots == Chain(old(slots), a, NonEmpty(parts[d..])) && cursor == |slots| - 1
    {
      ghost var s0, p0 := slots, paths;
      cursor := 0;
      for i := 0 to |parts|
        invariant Valid() && (slots, paths, cursor) == Branch(s0, p0, parts[..i])
      {
        assert parts[..i + 1][..i] == parts[..i];
        if parts[i] == "" {
          continue;
        }
        cursor := Step(cursor, parts[i]);
      }
      assert parts[..|parts|] == parts;
      BranchKeeps(s0, p0, parts);
      if NonEmpty(parts) == [] {
        BranchEmpty(s0, p0, parts);
      } else {
        BranchRoot(s0, p0, parts);
      }
      if LeavesBare(s0) && OffPath(Leaves(s0, p0), NonEmpty(parts)) {
        BranchBare(s0, p0, parts, NonEmpty(parts));
      }
      if Follow(s0, 0, parts).Some? {
        BranchExisting(s0, p0, parts);
      } else {
        BranchChain(s0, p0, parts);
      }
    }

    /**
     * One step of `_ensure_branch` for a non-empty part: the first child of
     * `cursor` labelled `part`, or a folder node appended for it.
     */
    method Step(cursor: nat, part: string) returns (next: nat)
      requires Valid() && cursor < |slots| && part != ""
      modifies this
      ensures Valid() && (slots, paths, next) == BranchStep(old(slots), old(paths), cursor, part)
    {
      var existing := FindChild(cursor, part);
      if existing.Some? {
        return existing.value;
      }
      next := AddFolder(cursor, part);
    }

    /** `new_node = {"label": part, "value": None, "children": []}; cursor.append(new_node)`. */
    method AddFolder(target: nat, part: string) returns (idx: nat)
      requires Valid() && target < |slots|
      modifies this
      ensures Valid() && Grows(old(slots), slots)
      ensures idx == |old(slots)| && slots == AddChild(old(slots), target, Slot(part, None, []))
      ensures paths == old(paths) + [old(paths)[target] + [part]]
      ensures Leaves(slots, paths) == Leaves(old(slots), old(paths))
    {
      ArenaAddChild(slots, paths, target, Slot(part, None, []));
      AddChildGrows(slots, target, Slot(part, None, []));
      LeavesAddChild(slots, paths, target, Slot(part, None, []), paths[target] + [part]);
      idx := |slots|;
      slots := slots + [Slot(part, None, [])];
      paths := paths + [paths[target] + [part]];
      slots := slots[target := slots[target].(children := slots[target].children + [idx])];
    }

    /** `target_children.append({"label": fname, "value": leaf, "children": []})`. */
    method AppendLeaf(target: nat, leaf: Leaf, caption: string)
      requires Valid() && target < |slots|
      modifies this
      ensures Valid() && Grows(old(slots), slots)
      ensures slots == AddChild(old(slots), target, Slot(caption, Some(leaf), []))
      ensures paths == old(paths) + [old(paths)[target] + [caption]]
      ensures Leaves(slots, paths) == Leaves(old(slots), old(paths)) + [(old(paths)[target] + [caption], leaf)]
    {
      ArenaAddChild(slots, paths, target, Slot(caption, Some(leaf), []));
      AddChildGrows(slots, target, Slot(caption, Some(leaf), []));
      LeavesAddChild(slots, paths, target, Slot(caption, Some(leaf), []), paths[target] + [caption]);
      var idx := |slots|;
      slots := slots + [Slot(caption, Some(leaf), [])];
      paths := paths + [paths[target] + [caption]];
      slots := slots[target := slots[target].(children := slots[target].children + [idx])];
    }
  }
}
