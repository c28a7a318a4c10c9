/**
 * String helpers with the exact semantics of the Python string methods the
 * loaders use (`str.replace`, `str.split`, `str.startswith`, `str.lower`),
 * the path helpers that work on forward-slash paths, and the ordering that
 * Python's `sorted` uses on strings (code point by code point).
 */
module Strings {

  predicate StartsWith(s: string, prefix: string) {
    |prefix| <= |s| && s[..|prefix|] == prefix
  }

  /** `s.replace(pat, rep)`: scans left to right and replaces non-overlapping occurrences. */
  function ReplaceAll(s: string, pat: string, rep: string): string
    requires pat != []
    decreases |s|
  {
    if s == [] then []
    else if StartsWith(s, pat) then rep + ReplaceAll(s[|pat|..], pat, rep)
    else [s[0]] + ReplaceAll(s[1..], pat, rep)
  }

  /** Replacing a single character that does not occur changes nothing. */
  lemma {:induction false} ReplaceCharAbsent(s: string, c: char, rep: string)
    requires c !in s
    ensures ReplaceAll(s, [c], rep) == s
  {
    if s != [] {
      assert s[0] != c;
      ReplaceCharAbsent(s[1..], c, rep);
    }
  }

  /** After replacing every `c` by a text without `c`, no `c` is left. */
  lemma {:induction false} ReplaceCharRemoves(s: string, c: char, rep: string)
    requires c !in rep
    ensures c !in ReplaceAll(s, [c], rep)
  {
    if s != [] {
      ReplaceCharRemoves(s[1..], c, rep);
    }
  }

  /** A character other than the one replaced survives the replacement. */
  lemma {:induction false} ReplaceCharKeeps(s: string, c: char, rep: string, x: char)
    requires x != c && x in s
    ensures x in ReplaceAll(s, [c], rep)
  {
    assert StartsWith(s, [c]) <==> s[0] == c by {
      if |s| >= 1 { assert s[..1] == [s[0]]; }
    }
    if s[0] != x {
      ReplaceCharKeeps(s[1..], c, rep, x);
    }
  }

  /** A character in neither the text nor the replacement is not in the result. */
  lemma {:induction false} ReplaceKeepsAbsent(s: string, pat: string, rep: string, d: char)
    requires pat != [] && d !in s && d !in rep
    ensures d !in ReplaceAll(s, pat, rep)
    decreases |s|
  {
    if s != [] {
      if StartsWith(s, pat) {
        ReplaceKeepsAbsent(s[|pat|..], pat, rep, d);
      } else {
        ReplaceKeepsAbsent(s[1..], pat, rep, d);
      }
    }
  }

  /** No two consecutive underscores and no trailing underscore. */
  predicate NoDoubleUnderscore(s: string) {
    (forall i :: 0 <= i < |s| - 1 ==> !(s[i] == '_' && s[i + 1] == '_')) &&
    (s != [] ==> s[|s| - 1] != '_')
  }

  /**
   * `(w + "__" + x).replace("__", "/")` puts the first `/` right after `w`
   * when `w` holds no `__` and does not end with `_`.
   */
  lemma {:induction false} ReplaceUnderscoresAfter(w: string, x: string)
    requires NoDoubleUnderscore(w)
    ensures ReplaceAll(w + "__" + x, "__", "/") == w + "/" + ReplaceAll(x, "__", "/")
  {
    if w == [] {
      assert w + "__" + x == "__" + x;
      assert ("__" + x)[2..] == x;
    } else {
      var s := w + "__" + x;
      assert s[1..] == w[1..] + "__" + x;
      assert !StartsWith(s, "__") by {
        if |w| == 1 {
          assert s[0] == w[0] && w[0] != '_';
        } else {
          assert s[0] == w[0] && s[1] == w[1];
        }
      }
      ReplaceUnderscoresAfter(w[1..], x);
      assert [w[0]] + w[1..] == w;
    }
  }

  /** A text without `__` and without a trailing `_` has nothing for `.replace("__", "/")` to change. */
  lemma {:induction false} ReplaceUnderscoresNone(w: string)
    requires NoDoubleUnderscore(w)
    ensures ReplaceAll(w, "__", "/") == w
  {
    if w != [] {
      assert !StartsWith(w, "__") by {
        if |w| >= 2 { assert w[..2] == [w[0], w[1]]; }
      }
      ReplaceUnderscoresNone(w[1..]);
      assert [w[0]] + w[1..] == w;
    }
  }

  /** `(w + "/" + x).replace("/", "__")` for a first component `w` without `/`. */
  lemma {:induction false} ReplaceSlashAfter(w: string, x: string)
    requires '/' !in w
    ensures ReplaceAll(w + "/" + x, "/", "__") == w + "__" + ReplaceAll(x, "/", "__")
  {
    if w == [] {
      assert w + "/" + x == "/" + x;
      assert ("/" + x)[1..] == x;
    } else {
      var s := w + "/" + x;
      assert s[1..] == w[1..] + "/" + x;
      assert !StartsWith(s, "/") by { assert s[0] == w[0]; }
      ReplaceSlashAfter(w[1..], x);
      assert [w[0]] + w[1..] == w;
    }
  }

  /**
   * The lower case of one character as far as it can matter to an ASCII
   * extension: ASCII capitals, and the KELVIN SIGN, which Python lowers to
   * the ASCII letter 'k'. Every other character keeps its case.
   */
  function LowerChar(c: char): char {
    if 'A' <= c <= 'Z' then (c as int + 32) as char
    else if c == '\U{212A}' then 'k'
    else c
  }

  /** `s.lower()`, character by character (`LowerChar`). */
  function Lower(s: string): (r: string)
    ensures |r| == |s|
    ensures forall i :: 0 <= i < |s| ==> r[i] == LowerChar(s[i])
  {
    seq(|s|, i requires 0 <= i < |s| => LowerChar(s[i]))
  }

  /** `s.split(sep)`: always at least one piece; empty pieces are kept. */
  function Split(s: string, sep: char): (r: seq<string>)
    ensures |r| >= 1
  {
    if s == [] then [""]
    else
      var rest := Split(s[1..], sep);
      if s[0] == sep then [""] + rest else [[s[0]] + rest[0]] + rest[1..]
  }

  /** The pieces that are not empty, in order. */
  function NonEmpty(parts: seq<string>): (r: seq<string>)
    ensures forall p | p in r :: p != ""
  {
    if parts == [] then []
    else NonEmpty(parts[..|parts| - 1]) + (if parts[|parts| - 1] == "" then [] else [parts[|parts| - 1]])
  }

  /** Pieces starting with a non-empty one keep at least that one. */
  lemma {:induction false} NonEmptyHead(parts: seq<string>)
    requires parts != [] && parts[0] != ""
    ensures NonEmpty(parts) != []
  {
    if |parts| > 1 {
      NonEmptyHead(parts[..|parts| - 1]);
    } else {
      assert parts[..0] == [];
    }
  }

  lemma AppendAssoc<T>(a: seq<T>, b: seq<T>, c: seq<T>)
    ensures a + b + c == a + (b + c)
  {
  }

  /** Taking one more element of a sequence appends that element. */
  lemma PrefixSnoc<T>(s: seq<T>, i: nat)
    requires i < |s|
    ensures s[..i + 1] == s[..i] + [s[i]]
  {
  }

  /** A piece appended at the end is kept exactly when it is non-empty. */
  lemma NonEmptyAppend(parts: seq<string>, p: string)
    ensures NonEmpty(parts + [p]) == NonEmpty(parts) + (if p == "" then [] else [p])
  {
    assert (parts + [p])[..|parts|] == parts;
  }

  /** A non-empty piece extends the filtered prefix by itself. */
  lemma NonEmptySnoc(parts: seq<string>, i: nat)
    requires i < |parts| && parts[i] != ""
    ensures NonEmpty(parts[..i + 1]) == NonEmpty(parts[..i]) + [parts[i]]
  {
    assert parts[..i + 1][..i] == parts[..i];
  }

  /** Filtering a prefix of `parts` yields a prefix of the filtered `parts`. */
  lemma {:induction false} NonEmptyPrefix(parts: seq<string>, i: nat)
    requires i <= |parts|
    ensures NonEmpty(parts[..i]) <= NonEmpty(parts)
    decreases |parts| - i
  {
    if i < |parts| {
      NonEmptyPrefix(parts, i + 1);
      assert parts[..i + 1][..i] == parts[..i];
    } else {
      assert parts[..i] == parts;
    }
  }

  /** The non-empty components of a slash-separated path. */
  function Components(path: string): seq<string> {
    NonEmpty(Split(path, '/'))
  }

  /** `name if dir == "" else f"{dir}/{name}"`. */
  function Join(dir: string, name: string): string {
    if dir == "" then name else dir + "/" + name
  }

  /** The text after the last `/` (`os.path.basename`). */
  function Basename(p: string): (r: string)
    ensures '/' !in r
  {
    if p == [] then []
    else if p[|p| - 1] == '/' then []
    else Basename(p[..|p| - 1]) + [p[|p| - 1]]
  }

  /** The base name is made of characters of the path. */
  lemma {:induction false} BasenameChars(p: string)
    ensures forall c | c in Basename(p) :: c in p
  {
    if p != [] && p[|p| - 1] != '/' {
      BasenameChars(p[..|p| - 1]);
      assert p == p[..|p| - 1] + [p[|p| - 1]];
    }
  }

  /** A path without `/` is its own base name. */
  lemma {:induction false} BasenamePlain(p: string)
    requires '/' !in p
    ensures Basename(p) == p
  {
    if p != [] {
      assert p[|p| - 1] in p;
      assert forall c | c in p[..|p| - 1] :: c in p;
      BasenamePlain(p[..|p| - 1]);
      assert p == p[..|p| - 1] + [p[|p| - 1]];
    }
  }

  /** The text before the last `/`, or "" when there is none. */
  function Parent(p: string): string {
    if p == [] then []
    else if p[|p| - 1] == '/' then p[..|p| - 1]
    else Parent(p[..|p| - 1])
  }

  /** A name without `/` joined under a directory splits back into the two. */
  lemma {:induction false} JoinSplitsBack(dir: string, name: string)
    requires '/' !in name
    ensures Basename(Join(dir, name)) == name
    ensures Parent(Join(dir, name)) == dir
    decreases |name|
  {
    var p := Join(dir, name);
    if name == [] {
      if dir != "" {
        assert p[..|p| - 1] == dir;
      }
    } else {
      var init := name[..|name| - 1];
      assert p[..|p| - 1] == Join(dir, init) by {
        if dir != "" { assert p[..|p| - 1] == dir + "/" + init; }
      }
      assert p[|p| - 1] == name[|name| - 1];
      JoinSplitsBack(dir, init);
      assert init + [name[|name| - 1]] == name;
    }
  }

  /** `s.split("/", 1)[0]`: the text before the first `/`. */
  function FirstSegment(s: string): (r: string)
    ensures '/' !in r
  {
    if s == [] then []
    else if s[0] == '/' then []
    else [s[0]] + FirstSegment(s[1..])
  }

  lemma {:induction false} FirstSegmentOf(w: string, rest: string)
    requires '/' !in w
    ensures FirstSegment(w) == w
    ensures FirstSegment(w + "/" + rest) == w
  {
    if w == [] {
      assert w + "/" + rest == "/" + rest;
    } else {
      assert (w + "/" + rest)[1..] == w[1..] + "/" + rest;
      FirstSegmentOf(w[1..], rest);
    }
  }

  function DigitChar(d: nat): char
    requires d < 10
  {
    "0123456789"[d]
  }

  /** `str(n)` for a non-negative integer. */
  function NatToString(n: nat): (r: string)
    ensures r != "" && '_' !in r
    decreases n
  {
    if n < 10 then [DigitChar(n)] else NatToString(n / 10) + [DigitChar(n % 10)]
  }

  /** Python's `<` on strings: code point order, a proper prefix first. */
  predicate Less(a: string, b: string) {
    if b == [] then false
    else if a == [] then true
    else if a[0] != b[0] then a[0] < b[0]
    else Less(a[1..], b[1..])
  }

  lemma {:induction false} LessIrreflexive(a: string)
    ensures !Less(a, a)
  {
    if a != [] { LessIrreflexive(a[1..]); }
  }

  lemma {:induction false} LessTransitive(a: string, b: string, c: string)
    requires Less(a, b) && Less(b, c)
    ensures Less(a, c)
  {
    if a != [] && a[0] == b[0] && b[0] == c[0] {
      LessTransitive(a[1..], b[1..], c[1..]);
    }
  }

  lemma {:induction false} LessTotal(a: string, b: string)
    ensures a == b || Less(a, b) || Less(b, a)
  {
    if a != [] && b != [] && a[0] == b[0] {
      LessTotal(a[1..], b[1..]);
      if a[1..] == b[1..] {
        assert a == [a[0]] + a[1..] && b == [b[0]] + b[1..];
      }
    }
  }

  lemma LessAsymmetric(a: string, b: string)
    requires Less(a, b)
    ensures !Less(b, a)
  {
    if Less(b, a) {
      LessTransitive(a, b, a);
      LessIrreflexive(a);
    }
  }

  /** Strictly increasing: sorted and free of duplicates. */
  predicate StrictlySorted(s: seq<string>) {
    forall i, j :: 0 <= i < j < |s| ==> Less(s[i], s[j])
  }

  function ToSet(s: seq<string>): set<string> {
    set x | x in s
  }
}
