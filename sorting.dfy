/**
 * Python's `sorted(...)` applied to a set of strings: the unique strictly
 * increasing listing of the set.
 */
module Sorting {
  import opened Strings

  /** Inserts `x` into a strictly increasing sequence, keeping it strictly increasing. */
  function Insert(s: seq<string>, x: string): (r: seq<string>)
    requires StrictlySorted(s)
    ensures StrictlySorted(r)
    ensures ToSet(r) == ToSet(s) + {x}
    ensures r != [] && (r[0] == x || (s != [] && r[0] == s[0]))
  {
    if s == [] then [x]
    else if x == s[0] then s
    else if Less(x, s[0]) then
      assert forall j :: 0 < j < |s| ==> Less(x, s[j]) by {
        forall j | 0 < j < |s| ensures Less(x, s[j]) { LessTransitive(x, s[0], s[j]); }
      }
      [x] + s
    else
      LessTotal(x, s[0]);
      var rest := Insert(s[1..], x);
      InsertBehindHead(s, x, rest);
      [s[0]] + rest
  }

  /** Inserting behind the head of `s` a value the head precedes keeps the head first. */
  lemma InsertBehindHead(s: seq<string>, x: string, rest: seq<string>)
    requires StrictlySorted(s) && s != [] && Less(s[0], x)
    requires StrictlySorted(rest) && ToSet(rest) == ToSet(s[1..]) + {x}
    ensures StrictlySorted([s[0]] + rest) && ToSet([s[0]] + rest) == ToSet(s) + {x}
  {
    assert ToSet(s) == {s[0]} + ToSet(s[1..]);
    forall y | y in rest ensures Less(s[0], y) {
      assert y in ToSet(rest);
      if y != x {
        var k :| 0 <= k < |s[1..]| && s[1..][k] == y;
        assert s[k + 1] == y;
      }
    }
    assert ToSet([s[0]] + rest) == {s[0]} + ToSet(rest);
  }

  /** `sorted(s)` for a set `s`: every element once, in increasing order. */
  method SortSet(s: set<string>) returns (r: seq<string>)
    ensures StrictlySorted(r)
    ensures ToSet(r) == s
  {
    r := [];
    var rest := s;
    while rest != {}
      invariant StrictlySorted(r)
      invariant ToSet(r) + rest == s
      decreases rest
    {
      var x :| x in rest;
      r := Insert(r, x);
      rest := rest - {x};
    }
  }

  /** Two strictly increasing listings of the same set are the same sequence. */
  lemma {:induction false} SortedUnique(a: seq<string>, b: seq<string>)
    requires StrictlySorted(a) && StrictlySorted(b)
    requires ToSet(a) == ToSet(b)
    ensures a == b
  {
    if a == [] {
      HeadInSet(b);
    } else {
      assert b != [] by { assert a[0] in ToSet(a); }
      assert a[0] == b[0] by {
        assert a[0] in ToSet(b) && b[0] in ToSet(a);
        if a[0] != b[0] {
          var i :| 0 <= i < |a| && a[i] == b[0];
          var j :| 0 <= j < |b| && b[j] == a[0];
          assert Less(a[0], b[0]);
          assert Less(b[0], a[0]);
          LessAsymmetric(a[0], b[0]);
        }
      }
      DropMinimum(a);
      DropMinimum(b);
      SortedUnique(a[1..], b[1..]);
      assert a == [a[0]] + a[1..] && b == [b[0]] + b[1..];
    }
  }

  lemma HeadInSet(b: seq<string>)
    ensures b != [] ==> b[0] in ToSet(b)
  {
  }

  lemma DropMinimum(a: seq<string>)
    requires StrictlySorted(a) && a != []
    ensures StrictlySorted(a[1..])
    ensures ToSet(a[1..]) == ToSet(a) - {a[0]}
  {
    assert ToSet(a) == {a[0]} + ToSet(a[1..]);
    assert a[0] !in ToSet(a[1..]) by {
      if a[0] in ToSet(a[1..]) {
        var k :| 0 <= k < |a[1..]| && a[1..][k] == a[0];
        assert Less(a[0], a[k + 1]);
        LessIrreflexive(a[0]);
      }
    }
  }

  /** The least string, "", comes first in any strictly increasing listing that holds it. */
  lemma EmptyFirst(a: seq<string>)
    requires StrictlySorted(a) && "" in a
    ensures a[0] == ""
  {
    var k :| 0 <= k < |a| && a[k] == "";
    assert !Less(a[0], a[k]);
  }
}
