/**
 * The abstract filesystem and folder registry the loaders read.
 *
 * The host's registry maps a folder type ("loras", "checkpoints", "vae", ...)
 * to an ordered list of base directories. Each base directory is described by
 * the steps `os.walk` takes through it, in its visiting order: the directory
 * visited (relative to the base, "" for the base itself), its sub-directory
 * names and its file names. `present` is the set of paths for which
 * `os.path.exists` holds.
 */
module FileSystem {
  import opened Wrappers
  import opened Strings

  datatype Entry = Entry(root: string, subdirs: seq<string>, fnames: seq<string>)

  datatype Fs = Fs(registry: map<string, seq<string>>, walks: map<string, seq<Entry>>, present: set<string>)

  /** `folder_paths.get_folder_paths(folder_type)`; an unregistered type has no bases. */
  function Bases(fs: Fs, folderType: string): seq<string> {
    if folderType in fs.registry then fs.registry[folderType] else []
  }

  /** The `os.walk` steps under a base directory; a missing directory yields none. */
  function WalkOf(fs: Fs, base: string): seq<Entry> {
    if base in fs.walks then fs.walks[base] else []
  }

  /** `os.path.isabs` on a POSIX path. */
  predicate IsAbs(p: string) {
    |p| > 0 && p[0] == '/'
  }

  /** `os.path.join(a, b)` on POSIX paths. */
  function PathJoin(a: string, b: string): string {
    if IsAbs(b) then b
    else if a == "" || a[|a| - 1] == '/' then a + b
    else a + "/" + b
  }

  /** `os.path.exists`. */
  predicate Exists(fs: Fs, p: string) {
    p in fs.present
  }

  /** The extensions the loaders accept (ALLOWED_EXT). */
  const AllowedExtensions: set<string> := {".safetensors", ".ckpt", ".bin", ".pt", ".pth"}

  /** Index of the last `c` in `s`, or -1. */
  function LastIndexOf(s: string, c: char): (r: int)
    ensures -1 <= r < |s|
    ensures r >= 0 ==> s[r] == c && forall j :: r < j < |s| ==> s[j] != c
    ensures r == -1 ==> c !in s
  {
    if s == [] then -1
    else if s[|s| - 1] == c then |s| - 1
    else LastIndexOf(s[..|s| - 1], c)
  }

  predicate HasNonDot(s: string) {
    exists j :: 0 <= j < |s| && s[j] != '.'
  }

  /**
   * `os.path.splitext(p)[1]`: the text from the last dot of the last path
   * component, unless that dot only follows leading dots.
   */
  function Extension(p: string): (r: string)
    ensures r == [] || r[0] == '.'
  {
    var name := Basename(p);
    var i := LastIndexOf(name, '.');
    if i > 0 && HasNonDot(name[..i]) then name[i..] else ""
  }

  /** The extension test the scanner and the tree builder apply to a file name. */
  predicate Eligible(fname: string) {
    Extension(Lower(fname)) in AllowedExtensions
  }

  /** An extension is the tail of the path from one of its dots. */
  lemma ExtensionDot(p: string)
    requires Extension(p) != ""
    ensures exists k :: 0 <= k < |p| && p[k] == '.'
  {
    var name := Basename(p);
    var i := LastIndexOf(name, '.');
    assert name[i] in name;
    BasenameChars(p);
    assert '.' in p;
  }

  /** A text holding a dot is neither empty nor the "<none>" sentinel. */
  lemma DotNotSentinel(s: string)
    requires '.' in s
    ensures s != "" && s != "<none>"
  {
    assert forall j :: 0 <= j < 6 ==> "<none>"[j] != '.';
  }

  /** An eligible name holds a dot, so it is neither empty nor the "<none>" sentinel. */
  lemma EligibleIsChoice(fname: string)
    requires Eligible(fname)
    ensures '.' in fname
    ensures fname != "" && fname != "<none>"
  {
    var low := Lower(fname);
    assert Extension(low) != "";
    ExtensionDot(low);
    var k :| 0 <= k < |low| && low[k] == '.';
    assert LowerChar(fname[k]) == '.';
    assert fname[k] == '.';
    DotNotSentinel(fname);
  }

  /** A single path component as `os.walk` reports it: any text without `/` (a backslash included). */
  predicate NameOk(n: string) {
    n != "" && '/' !in n
  }

  /** A directory relative to its base: "" or components joined by single slashes. */
  predicate RootOk(r: string) {
    (r != "" ==> r[0] != '/' && r[|r| - 1] != '/') &&
    forall i :: 0 <= i < |r| - 1 ==> !(r[i] == '/' && r[i + 1] == '/')
  }

  /** No directory or file name of the walk holds a backslash (always so on Windows). */
  predicate PlainWalk(walk: seq<Entry>) {
    forall e | e in walk :: '\\' !in e.root && forall f | f in e.fnames :: '\\' !in f
  }

  /** Every base's walk is plain. */
  predicate NoBackslashes(fs: Fs, bases: seq<string>) {
    forall b | b in bases :: PlainWalk(WalkOf(fs, b))
  }

  /**
   * One base directory's walk as a real filesystem produces it: clean names,
   * and no file path is a directory path or lies on the way to one (a file
   * and a directory never share a name in the same directory).
   */
  predicate WalkOk(walk: seq<Entry>) {
    (forall e | e in walk :: RootOk(e.root) && (forall d | d in e.subdirs :: NameOk(d)) && (forall f | f in e.fnames :: NameOk(f))) &&
    (forall e, e2, f | e in walk && e2 in walk && f in e.fnames :: !(Components(e.root) + [f] <= Components(e2.root)))
  }

  /** Every walked base is well formed and every walked file exists. */
  predicate WellFormed(fs: Fs) {
    forall b | b in fs.walks ::
      WalkOk(fs.walks[b]) &&
      forall e, f | e in fs.walks[b] && f in e.fnames :: Exists(fs, PathJoin(b, Join(e.root, f)))
  }

  /** The path tried first-to-last over `bases`: the first `join(base, rel)` that exists. */
  function FirstExisting(fs: Fs, bases: seq<string>, rel: string): (r: Option<string>)
    ensures r.Some? <==> exists k :: 0 <= k < |bases| && Exists(fs, PathJoin(bases[k], rel))
    ensures r.Some? ==> exists k :: 0 <= k < |bases| && r.value == PathJoin(bases[k], rel) && Exists(fs, r.value) &&
                                    forall j :: 0 <= j < k ==> !Exists(fs, PathJoin(bases[j], rel))
  {
    if bases == [] then None
    else if Exists(fs, PathJoin(bases[0], rel)) then Some(PathJoin(bases[0], rel))
    else
      var r := FirstExisting(fs, bases[1..], rel);
      if r.Some? then
        var k' :| 0 <= k' < |bases[1..]| && r.value == PathJoin(bases[1..][k'], rel) && Exists(fs, r.value) &&
                  forall j :: 0 <= j < k' ==> !Exists(fs, PathJoin(bases[1..][j], rel));
        assert bases[1..][k'] == bases[k' + 1];
        assert forall j :: 0 <= j < k' + 1 ==> !Exists(fs, PathJoin(bases[j], rel)) by {
          forall j | 0 <= j < k' + 1 ensures !Exists(fs, PathJoin(bases[j], rel)) {
            if j > 0 { assert bases[j] == bases[1..][j - 1]; }
          }
        }
        r
      else
        assert forall k :: 0 <= k < |bases| ==> !Exists(fs, PathJoin(bases[k], rel)) by {
          forall k | 0 <= k < |bases| ensures !Exists(fs, PathJoin(bases[k], rel)) {
            if k > 0 { assert bases[k] == bases[1..][k - 1]; }
          }
        }
        r
  }

  /**
   * The probe loop both resolvers run: `for base in bases: candidate =
   * os.path.join(base, rel); if os.path.exists(candidate): return candidate`.
   */
  method Probe(fs: Fs, bases: seq<string>, rel: string) returns (found: Option<string>)
    ensures found == FirstExisting(fs, bases, rel)
  {
    for i := 0 to |bases|
      invariant FirstExisting(fs, bases, rel) == FirstExisting(fs, bases[i..], rel)
    {
      assert bases[i..][1..] == bases[i + 1..];
      var candidate := PathJoin(bases[i], rel);
      if Exists(fs, candidate) {
        return Some(candidate);
      }
    }
    return None;
  }
}
