/**
 * The three checkpoint nodes. Each resolves its `ckpt` selection under the
 * "checkpoints" folder type with `folder_id = file_id = "ckpt"` and hands
 * the path to a host loader, which appears here as an uninterpreted
 * function. The simple and unCLIP nodes call the same guessing loader, but
 * only the unCLIP node asks it for CLIP vision; the simple node keeps the
 * first three outputs, the unCLIP node all of them.
 */
module Checkpoint {
  import opened Wrappers
  import opened Strings
  import opened Values
  import opened FileSystem
  import opened Naming
  import opened Tree
  import opened TreeBuilder
  import opened Resolver
  import opened LeafSelection

  /** The combo id shared by the three nodes and their trees. */
  const CkptId := "ckpt"

  /** The resolve call the three `execute` methods make. */
  function ResolveCkpt(fs: Fs, ckpt: Value, show: Value -> string): Result<string, PyError> {
    ResolveSpec(fs, "checkpoints", ckpt, CkptId, CkptId, show)
  }

  /**
   * The directories the loaders receive as `embedding_directory`: the
   * registry's "embeddings" bases.
   */
  function Embeddings(fs: Fs): seq<string> {
    Bases(fs, "embeddings")
  }

  /** `out[:3]`: the first three outputs, or all of them when there are fewer. */
  function FirstThree<O>(out: seq<O>): (r: seq<O>)
    ensures |r| == if |out| < 3 then |out| else 3
    ensures r <= out
  {
    out[..if |out| < 3 then |out| else 3]
  }

  /**
   * `CheckpointLoaderSimple.execute`: the first three outputs of the host's
   * `load_checkpoint_guess_config`, called without CLIP vision. The host
   * loader is the uninterpreted `load(path, output_clipvision, embedding_directory)`.
   */
  function LoadSimple<O>(fs: Fs, ckpt: Value, load: (string, bool, seq<string>) -> seq<O>,
                         show: Value -> string): Result<seq<O>, PyError> {
    match ResolveCkpt(fs, ckpt, show)
    case Err(e) => Err(e)
    case Ok(path) => Ok(FirstThree(load(path, false, Embeddings(fs))))
  }

  /** `unCLIPCheckpointLoader.execute`: every output of the guessing loader, called with CLIP vision. */
  function LoadUnclip<O>(fs: Fs, ckpt: Value, load: (string, bool, seq<string>) -> seq<O>,
                         show: Value -> string): Result<seq<O>, PyError> {
    match ResolveCkpt(fs, ckpt, show)
    case Err(e) => Err(e)
    case Ok(path) => Ok(load(path, true, Embeddings(fs)))
  }

  /**
   * `CheckpointLoader.execute` (deprecated): the config path is looked up
   * first, by the host, and given here as `configPath`; then the checkpoint
   * is resolved and both go to the config-driven `load_checkpoint`.
   */
  function LoadWithConfig<O>(fs: Fs, configPath: Option<string>, ckpt: Value,
                             load: (Option<string>, string, seq<string>) -> seq<O>,
                             show: Value -> string): Result<seq<O>, PyError> {
    match ResolveCkpt(fs, ckpt, show)
    case Err(e) => Err(e)
    case Ok(path) => Ok(load(configPath, path, Embeddings(fs)))
  }

  /**
   * The three nodes fail together, with the resolver's error, and never
   * otherwise. On success each loads the resolved path, which exists: the
   * simple node keeps at most the first three outputs of a loader call
   * without CLIP vision, the unCLIP node all outputs of a call with it.
   */
  lemma CheckpointOutcomes<O>(fs: Fs, configPath: Option<string>, ckpt: Value, load: (string, bool, seq<string>) -> seq<O>,
                              loadConfig: (Option<string>, string, seq<string>) -> seq<O>, show: Value -> string)
    ensures var simple := LoadSimple(fs, ckpt, load, show);
      var unclip := LoadUnclip(fs, ckpt, load, show);
      var config := LoadWithConfig(fs, configPath, ckpt, loadConfig, show);
      var resolved := ResolveCkpt(fs, ckpt, show);
      (simple.Ok? <==> resolved.Ok?) && (unclip.Ok? <==> resolved.Ok?) && (config.Ok? <==> resolved.Ok?) &&
      (resolved.Err? ==> simple.error == resolved.error && unclip.error == resolved.error &&
                         config.error == resolved.error) &&
      (resolved.Ok? ==>
         var plain := load(resolved.value, false, Embeddings(fs));
         |simple.value| <= 3 && simple.value <= plain &&
         (|plain| >= 3 ==> |simple.value| == 3) &&
         unclip.value == load(resolved.value, true, Embeddings(fs)) &&
         config.value == loadConfig(configPath, resolved.value, Embeddings(fs)) &&
         Exists(fs, resolved.value)) &&
      (!ckpt.VDict? ==> simple == Err(ValueError("Invalid selection")))
  {
    ResolveOutcomes(fs, "checkpoints", ckpt, CkptId, CkptId, show);
  }

  /** A child combo id of the checkpoint tree is never the folder combo's own id. */
  lemma ChildIdNotCkpt(s: string)
    ensures ChildId(CkptId, s) != CkptId
  {
    assert |ChildId(CkptId, s)| >= 6;
  }

  /**
   * Round trip: picking a leaf of the "ckpt" tree makes all three nodes
   * load the first existing file for that leaf.
   */
  lemma LeafLoads<O>(fs: Fs, v: Leaf, configPath: Option<string>, load: (string, bool, seq<string>) -> seq<O>,
                     loadConfig: (Option<string>, string, seq<string>) -> seq<O>, show: Value -> string)
    requires LeafOk(fs, "checkpoints", CkptId, v)
    ensures var sel := LeafSelectionMap(CkptId, v);
      var path := FirstExisting(fs, Bases(fs, "checkpoints"), v.file);
      path.Some? &&
      LoadSimple(fs, sel, load, show) == Ok(FirstThree(load(path.value, false, Embeddings(fs)))) &&
      LoadUnclip(fs, sel, load, show) == Ok(load(path.value, true, Embeddings(fs))) &&
      LoadWithConfig(fs, configPath, sel, loadConfig, show) == Ok(loadConfig(configPath, path.value, Embeddings(fs)))
  {
    ChildIdNotCkpt(SanitizeRelDir(Parent(v.file)));
    LeafResolves(fs, "checkpoints", CkptId, CkptId, v, show);
  }
}
