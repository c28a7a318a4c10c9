/**
 * The naming convention that joins the tree builder, the option builders and
 * the resolvers: a directory relative to its base becomes part of an input id.
 */
module Naming {
  import opened Strings

  /**
   * `sanitize_rel_dir` (and the VAE loader's identical `_sanitize`): "" becomes
   * "root"; otherwise backslashes become slashes and every slash becomes "__".
   */
  function SanitizeRelDir(relDir: string): (r: string)
    ensures relDir == "" ==> r == "root"
    ensures '/' !in r && '\\' !in r
  {
    var slashed := if relDir != "" then ReplaceAll(relDir, "\\", "/") else "root";
    ReplaceCharRemoves(relDir, '\\', "/");
    ReplaceCharRemoves(slashed, '/', "__");
    ReplaceKeepsAbsent(slashed, "/", "__", '\\');
    ReplaceAll(slashed, "/", "__")
  }

  /** `f"{file_id}__{sanitized}"`: the id of the per-folder input a leaf or option belongs to. */
  function ChildId(fileId: string, sanitized: string): string {
    fileId + "__" + sanitized
  }

  /** A directory without separators keeps its name ("" aside). */
  lemma SanitizePlainName(relDir: string)
    requires relDir != "" && '/' !in relDir && '\\' !in relDir
    ensures SanitizeRelDir(relDir) == relDir
  {
    ReplaceCharAbsent(relDir, '\\', "/");
    ReplaceCharAbsent(relDir, '/', "__");
  }

  /**
   * The convention is not one-to-one: the base itself and a sub-directory
   * named "root" share an id, and so do "a/b" and a directory named "a__b".
   */
  lemma SanitizeCollides()
    ensures SanitizeRelDir("") == SanitizeRelDir("root")
    ensures SanitizeRelDir("a/b") == SanitizeRelDir("a__b")
  {
    SanitizePlainName("root");
    ReplaceCharAbsent("a/b", '\\', "/");
    ReplaceCharAbsent("a__b", '\\', "/");
    ReplaceCharAbsent("a__b", '/', "__");
    assert ReplaceAll("b", "/", "__") == "b";
    assert ReplaceAll("/b", "/", "__") == "__b";
    assert ReplaceAll("a/b", "/", "__") == "a__b";
  }
}
