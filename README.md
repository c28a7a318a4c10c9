# SK Loader file selection, modelled in Dafny

SK Loader is a set of loader nodes for a node-graph image-generation host:
checkpoints, diffusion models (UNET), LoRAs and VAEs. This project models how
those nodes offer files and turn a user's choice back into a path:

- the directory scanner (`list_dirs`, `list_files`);
- the folder/file tree sent to the browser (`_ensure_branch`, `build_tree`);
- the flat file combo (`build_file_input`);
- the per-folder child-id naming convention (`sanitize_rel_dir`, `_sanitize`);
- the general resolver (`resolve_selected_path` in `tree_utils.py`);
- the VAE dropdowns and resolver (`build_vae_input`, the VAE `resolve_selected_path`, the builtin dispatch);
- the LoRA nodes (`_apply_lora`, the model-only node, the Power LoRA slot loop);
- the checkpoint nodes and the UNET `weight_dtype` table;
- the browser helpers `getTree`, `makeMenuItems` and `valueToPath`.

The filesystem is data (`FileSystem.Fs`):

- a registry from folder type to an ordered list of base directories;
- the steps `os.walk` takes in each base;
- the set of paths that exist.

Python values crossing the node boundary are `Values.Value`, and raised exceptions are `Values.PyError`. JavaScript values are `Frontend.Json`.

Code that updates state step by step is written as methods with loop invariants, each proved equal to a specification function. The lemmas about those functions carry the properties:

- the scans;
- the tree builder, which is a `Forest` class of node records and stands in for Python's aliased dictionaries;
- the resolvers' scan and probe loops;
- the VAE option builder;
- the LoRA slot loop;
- the `model_options` dictionary.

The naming rule, the node `execute` bodies and the browser helpers are functions.

Host behaviour the code calls but does not define is passed in as a function parameter:

- `str()` of a non-string selection: `show`;
- `float()` of a string: `parse`;
- the LoRA loader and merge: `merge`;
- the checkpoint, UNET and config loaders: `load`, `loadConfig` and `configPath`;
- the slash-trimming regular expression in `valueToPath`: `strip`.

Two behaviours of the code a caller may not expect:

- The general resolver raises `ValueError("Invalid selection")` on any selection that is not a dictionary, plain strings included. This happens even though the flat combo of `build_file_input` submits a plain string. See `Resolver.ResolveOutcomes` and `Lora.StringSelectionRaises`.
- The VAE resolver does not raise `FileNotFoundError` when no base holds the file. It returns the relative path.

## Model

| member | source | states |
|---|---|---|
| Naming.SanitizeRelDir | tree_utils.py:46-48 | an empty directory becomes "root"; the result holds no `/` and no `\` (the same rule as `_sanitize`, vae_loader.py:101-102) |
| Naming.SanitizePlainName | tree_utils.py:46-48 | a non-empty name without separators is its own child-id suffix |
| Naming.SanitizeCollides | tree_utils.py:46-48 | "" and "root" get the same suffix, and so do "a/b" and "a__b": two folders can share one child id |
| FileSystem.EligibleIsChoice | tree_utils.py:36-39 | a file with an allowed extension is never "" or the "<none>" sentinel |
| FileSystem.FirstExisting | tree_utils.py:144-147 | finds a path iff `join(base, rel)` exists for some base; the path found is the one under the earliest such base |
| FileSystem.Probe | tree_utils.py:144-147 | the probe loop returns exactly `FirstExisting` |
| Sorting.SortSet | tree_utils.py:43 | `sorted(set(...))`: strictly increasing, with exactly the set's elements |
| Sorting.SortedUnique | lora_loader.py:15 | two strictly sorted lists with the same elements are equal, so the combo order is fixed by the set alone |
| Scanner.ListDirs | tree_utils.py:15-24 | strictly sorted; its elements are "" plus every walked sub-directory of every base; "" comes first (the same code is vae_loader.py:10-18) |
| Scanner.DirStep | tree_utils.py:20-23 | the sub-directory loop of one walk step adds exactly that step's sub-directories, relative to the base |
| Scanner.BasesDirsClean | tree_utils.py:21-22 | no listed directory contains a backslash |
| Scanner.ListFiles | tree_utils.py:27-43 | strictly sorted; its elements are exactly the eligible files under `rel_dir` across all bases; a `rel_dir` that is a directory under no base gives [] (the same code is vae_loader.py:21-37) |
| Scanner.WalkFiles | tree_utils.py:34-42 | the walk loop for one base appends exactly the eligible files of every step under `rel_dir` |
| Scanner.ListStep | tree_utils.py:35-42 | the file loop of one walk step appends exactly the step's files whose lower-cased extension is allowed, each relative to `dir_path` and put back under `rel_dir` |
| Scanner.NoDirNoFiles | tree_utils.py:31-33 | bases where `rel_dir` is not a directory contribute nothing |
| ScannerFacts.ListedFilesFacts | tree_utils.py:27-43 | every listed path is not "" or "<none>", holds no backslash, and is `list_files`'s rewrite of an eligible file of a walk step under `rel_dir`; when that step's directory and the file's name hold no backslash, the path is the file's own path relative to its base, it lies under `rel_dir`, and it is found under some base; when no walked name holds a backslash, every listed path is found |
| ScannerFacts.FileListed | tree_utils.py:35-42 | the path listed for one eligible file of one walk step has the facts of `ListedFilesFacts` |
| ScannerFacts.ListedNameShape | tree_utils.py:40-42 | whatever the names hold, a listed path keeps the dot of the file's extension and has every backslash turned into a slash |
| ScannerFacts.BackslashNameMisresolves | tree_utils.py:35-43 | on a POSIX filesystem, a file named `a\b.pt` in the base is listed as `a/b.pt`, and `a/b.pt` exists under no base, so the listed option does not resolve |
| Tree.FirstChildIsFirst | tree_utils.py:57 | no child is found iff no child has that label; a found child is at some position with that label, and no earlier child has it |
| Tree.Forest.FindChild | tree_utils.py:57 | the generator scan returns the first child with that label, or nothing |
| Tree.Forest.EnsureBranch | tree_utils.py:51-62 | the arena after the call is `Branch` of the old one; walking the non-empty parts reaches the returned folder node, whose path is those parts; existing nodes keep their labels, values and children, and the leaves do not change; when the branch already exists nothing changes; otherwise there is a first missing part `parts[d]` below an existing node `a`, and the only change is one chain of new folder nodes for the non-empty parts from `d` on, appended below `a`, with the cursor at its end; when no leaf lies on the way to the non-empty parts, every leaf stays childless and the node returned is a folder |
| Tree.BranchExisting | tree_utils.py:54-61 | when the parts already lead to a node, the branch walk changes nothing and returns that node |
| Tree.BranchChain | tree_utils.py:54-61 | when the parts do not lead to a node, the walk adds exactly one chain of folders for the missing suffix of the non-empty parts, below the deepest existing one |
| Tree.ChainShape | tree_utils.py:58-61 | a chain of new folders is the old arena with one child appended to the attaching node, followed by one folder per part, each the only child of the one before, the last one childless |
| Tree.BranchKeeps | tree_utils.py:51-62 | the branch walk keeps the arena one tree, only appends, keeps the old paths and leaves, and ends at the node whose path is the non-empty parts |
| Tree.BranchRoot | tree_utils.py:54-61 | when some part is non-empty, the base node has a child afterwards |
| Tree.TreePlacesLeaves | tree_utils.py:79-98 | the nested tree read back from the arena places exactly the leaves the arena holds, each at its folder path (equal as multisets) |
| Tree.BranchBare | tree_utils.py:54-61 | when no leaf sits on the way to the non-empty parts, the branch walk never steps onto a leaf: every leaf stays childless and the node reached has value None |
| Tree.BranchNew | tree_utils.py:54-61 | every node the branch walk appends is a folder on the way to the non-empty parts |
| Tree.MaterializeOutline | tree_utils.py:51-98 | the read-back tree lists, in pre-order, exactly the arena nodes below the start node, each with its path and whether it is a folder |
| Tree.OutlineListed | tree_utils.py:51-98 | every arena node appears in the read-back tree at its path, as a folder exactly when it has no value |
| Tree.OutlineNode | tree_utils.py:51-98 | every node of the read-back tree is an arena node, with its path and folder flag |
| Tree.MaterializeShaped | tree_utils.py:51-98 | an arena whose leaves are childless reads back as a nested tree in which every node with a value has no children |
| TreeBuilder.LeafFacts | tree_utils.py:80-97 | when neither the step's directory nor the file's name holds a backslash, a leaf carries `file = join(rel_root, fname)`, folder `rel_root` or "root", and child id `file_id__sanitize(rel_root)`, and the file resolves |
| TreeBuilder.WalkPlacedFrom | tree_utils.py:73-98 | every leaf a walk places is the leaf of an eligible file of one of its steps, at that step's folder path followed by the file name |
| TreeBuilder.WalkPlacesAll | tree_utils.py:73-98 | every eligible file of every walk step gets its leaf, at its folder path followed by its name |
| TreeBuilder.QuietWalkPlacesNothing | tree_utils.py:73-100 | a walk with no sub-directory and no eligible file places no leaf |
| TreeBuilder.PlainDirsClear | tree_utils.py:73-77 | in a well-formed walk with no backslash in any name, no file path lies on a directory path as the builder sees them |
| TreeBuilder.WalkOffPath | tree_utils.py:73-98 | in such a walk, no leaf placed before a step lies on that step's directory path |
| TreeBuilder.FileStepsNew | tree_utils.py:81-98 | the file loop appends leaves only |
| TreeBuilder.StepOutcome | tree_utils.py:73-98 | after the branch walk and the file loop, the step's directory has its node at its path, and the only folders added lie on the way to it |
| TreeBuilder.DirsSoFar | tree_utils.py:73-98 | one more step keeps every walked directory reached and every new folder on the way to a walked directory |
| TreeBuilder.OutlineOfArena | tree_utils.py:68-102 | the tree read back after a walk has a node at every walked directory's path, a folder when no file path lies on a directory path, and no folder off the way to a walked directory |
| TreeBuilder.AddFiles | tree_utils.py:81-98 | the file loop appends exactly the leaves of the step's eligible files, in file order, below the step's folder; the base node gains a child iff the folder is the base and some name is eligible; appending below a folder keeps every leaf childless; every old node keeps its path, and every node appended is a leaf |
| TreeBuilder.WalkStep | tree_utils.py:73-98 | one walk step only appends nodes, keeps every old path and adds exactly that step's leaves; the base node has a child afterwards iff it had one, the step has a sub-directory path, or it has an eligible file; afterwards the step's directory has a node at its path, and every folder the step added lies on the way to that directory; when no leaf placed so far lies on the step's directory path, every leaf stays childless and the directory's node is a folder |
| TreeBuilder.AddWalk | tree_utils.py:73-98 | the walk loop adds exactly the walk's leaves, step after step, and the base node has a child iff it had one or some step contributes; every walked directory has a node at its path, and every folder the loop added lies on the way to a walked directory; starting from a bare base node, when no file path of the walk lies on one of its directory paths, no leaf gets children and every walked directory's node is a folder |
| TreeBuilder.BackslashLeafMisresolves | tree_utils.py:81-93 | on a POSIX filesystem, the file `a\b.pt` in the base gets a leaf whose `file` is `a/b.pt`, which exists under no base |
| TreeBuilder.BaseNode | tree_utils.py:68-102 | a base yields a node iff its walk visits a sub-directory or finds an eligible file; every walked directory has a node at its path, a folder unless some file path lies on a walked directory path, so folders without files get nodes too; every folder lies on the way to a walked directory; the node's label is the base's basename, or the folder type when the basename is empty; it places exactly the leaves of the base's eligible files, each at its folder path (as a multiset), when no file path lies on a walked directory path (always so without backslashes) every node with a value has no children, so every node with children is a folder with value None; when no walked name holds a backslash every leaf is well formed and childless; a base with no node has no eligible file |
| TreeBuilder.BuildTree | tree_utils.py:65-105 | one top-level node per contributing base, in registry order, each a folder with children that places exactly that base's leaves at their folder paths, has a node at every walked directory's path (a folder unless a file path lies on a directory path) and no folder off the way to a walked directory (leaves childless when no file path lies on a walked directory path; leaves well formed and childless, so every node with children has value None, when no walked name holds a backslash), followed by `extra_roots` unchanged |
| FileInput.BuildFileInput | lora_loader.py:8-17 | the options are `["<none>"]` for an empty listing; otherwise they are strictly sorted, are exactly the listed files, and each one has the facts of `ListedFilesFacts` (resolvable when no walked name holds a backslash); the tree is `BuildTree`'s, with no extra roots (the same code is checkpoint_loader.py:10-18 and diffusion_model_loader.py:10-18) |
| FileInput.ComboChoices | lora_loader.py:10-15 | the combo options are `["<none>"]` for an empty listing; otherwise strictly sorted, exactly the listed files, each with the facts of `ListedFilesFacts` (resolvable when no walked name holds a backslash) |
| Resolver.FirstQualifying | tree_utils.py:125-135 | the first map entry whose key starts with `file_id__` and whose value is a valid choice; otherwise none qualifies |
| Resolver.ChosenFile | tree_utils.py:113-138 | a chosen file is never "" or "<none>" |
| Resolver.PrimaryLookup | tree_utils.py:116-122 | the folder entry, the relative folder derived from it, and the file read from the child key or the bare key |
| Resolver.ScanFallback | tree_utils.py:124-135 | the scan keeps the primary file unless a `file_id__` key qualifies; the first such key wins |
| Resolver.ResolveSelectedPath | tree_utils.py:108-149 | the method returns or raises exactly what `ResolveSpec` does |
| Resolver.ResolveOutcomes | tree_utils.py:108-149 | `ValueError` iff the selection is not a dictionary; "No file selected" iff no valid file is chosen; success iff the path is absolute and exists, or exists under some base; every success exists; any other failure is `FileNotFoundError` naming the path |
| Resolver.NoFileBeforeProbe | tree_utils.py:137-138 | "No file selected" does not depend on the filesystem or on the folder type |
| LeafSelection.LeafFolderLeadsToChild | tree_utils.py:88-90 | the child id the resolver recomputes from a leaf's folder is the leaf's own `child_id` |
| LeafSelection.LeafResolves | tree_utils.py:85-147 | round trip: the map {folder id: leaf folder, leaf child id: leaf file} resolves to the first existing copy of the leaf's file |
| LeafSelection.ChildOnlyResolves | tree_utils.py:124-147 | with only the child entry present, the fallback scan finds it and resolves the same path |
| Vae.FolderOptions | vae_loader.py:48-55 | one option per listed directory that holds files, in `list_dirs` order; each is labelled `folder_type[/rel_dir]` with child id `file_id__` plus the sanitized label and offers `list_files` for it |
| Vae.BuildVaeInput | vae_loader.py:40-58 | the first option is `builtins` with child `file_id__builtins` and the five presets in order; then "vae" options come before "vae_approx" options, each in directory order; a directory appears iff it holds files, so the list is never empty |
| VaeResolver.VaeScan | vae_loader.py:74-82 | the fallback scan returns `VaeFallback`: the first valid string under a `file_id__` key, with the folder recovered from the key when the folder was absent or "builtins" |
| VaeResolver.Finish | vae_loader.py:84-98 | the default and probe tail returns `VaeFinish` |
| VaeResolver.VaeResolveSelectedPath | vae_loader.py:61-98 | the method returns or raises exactly what `VaeResolveSpec` does |
| VaeResolver.DispatchTotal | vae_loader.py:164-176 | the builtin dispatch never raises: "pixel_space" gives the pixel-space VAE, the four image TAEs give `load_taesd`, and every other result is loaded as a file |
| VaeRoundTrip.VaeOutcomes | vae_loader.py:61-98 | `ValueError` iff the selection is not a dictionary; a dictionary of strings and `None`s always resolves |
| VaeRoundTrip.VaeNothingValid | vae_loader.py:84-89 | a dictionary with no valid choice resolves to "pixel_space" |
| VaeRoundTrip.VaeBuiltinsPassthrough | vae_loader.py:68-89 | a builtins choice is returned unchanged, with no filesystem probe, and dispatches to its builtin |
| VaeRoundTrip.VaeFolderProbe | vae_loader.py:70-98 | a file folder probes only the bases of the label's first segment; it returns the first existing join, or the relative string when none exists |
| VaeRoundTrip.VaeChildOnlyProbe | vae_loader.py:74-98 | with only a child entry, the folder is recovered from the key's suffix and probed |
| VaeRoundTrip.FolderTypesPlain | vae_loader.py:47 | "vae" and "vae_approx" hold no separator and no double underscore |
| VaeRoundTrip.OptionFacts | vae_loader.py:47-55 | an option's label is not "builtins"; its first segment is its folder type; each of its choices is a valid choice with no backslash, and it exists under that type when no walked name holds a backslash |
| VaeRoundTrip.SuffixRecoversFolderType | vae_loader.py:52-53 | turning a child id's suffix back into a folder recovers a label whose first segment is the folder type, and which is never "builtins" |
| VaeRoundTrip.VaeOptionResolves | vae_loader.py:47-98 | round trip: choosing any file of any offered folder resolves to its first existing copy, or to the relative path when none exists; when no walked name holds a backslash a copy exists |
| VaeRoundTrip.VaeChildOnlyResolves | vae_loader.py:74-98 | the same round trip when only the child entry is submitted |
| Lora.SlotIdsOf | lora_loader.py:20-43 | the four ids of a slot all start with `lora_{idx}`, which is the selection id itself |
| Lora.SlotIdsDistinct | lora_loader.py:20-43 | the four ids of a slot differ from each other, and no id is shared by two slots |
| Lora.ApplyLoraOutcomes | lora_loader.py:84-93 | with two zero strengths the inputs are returned unchanged, for any filesystem and selection; otherwise the node fails iff resolving under "loras" with ids "lora" fails, with the same error, and a success merges the resolved path; a plain string raises `ValueError` |
| Lora.ModelOnlyOutcomes | lora_loader.py:126-129 | a zero strength keeps the model; otherwise the merge gets no CLIP, CLIP strength 0, and the resolved path |
| Lora.RunSlot | lora_loader.py:164-189 | one pass of the loop body returns `SlotStep` for the running pair |
| Lora.PowerLoraExecute | lora_loader.py:156-191 | the loop applies slots 1..5 in order, each to the previous output, and returns `RunSlots` for 5 slots |
| Lora.ErrorSticks | lora_loader.py:163-191 | once a slot raises, every longer run raises the same error |
| Lora.AllDisabled | lora_loader.py:161-191 | with every slot disabled, the node returns its inputs |
| Lora.OnlySlot | lora_loader.py:161-191 | with one slot enabled, the node's result is that slot applied to the inputs |
| Lora.SlotRules | lora_loader.py:164-189 | a slot is skipped when disabled, when its selection is neither a dictionary nor a string, when both strengths are 0, or when resolving raises `FileNotFoundError`; `float()` failures and other resolver errors propagate; with no CLIP the merge gets CLIP strength 0 |
| Lora.StringSelectionRaises | lora_loader.py:168-180 | an enabled slot holding a plain string, with a non-zero strength, makes the whole node raise `ValueError` |
| Checkpoint.CheckpointOutcomes | checkpoint_loader.py:41-123 | the three nodes resolve with ("checkpoints", "ckpt", "ckpt"); they fail together, with the resolver's error; on success the simple node returns at most the first three outputs of the guessing loader called without CLIP vision, the unCLIP node every output of the loader called with it, and the deprecated node the config loader's outputs, each given the "embeddings" bases; the path loaded exists |
| Checkpoint.LeafLoads | checkpoint_loader.py:41-123 | picking any leaf of the "ckpt" tree makes all three nodes load that leaf's first existing file: the simple node returns the first three outputs of that load, the unCLIP node all outputs of the load with CLIP vision |
| Diffusion.UnetOptions | diffusion_model_loader.py:47-54 | "dtype" is set iff the choice is one of the three fp8 options, and is e5m2 only for "fp8_e5m2"; "fp8_optimizations" is set, to true, only for the fast option; no other key is ever set |
| Diffusion.ModelOptions | diffusion_model_loader.py:47-54 | filling the dictionary key by key gives `UnetOptions` |
| Diffusion.FastAddsOnlyFlag | diffusion_model_loader.py:48-52 | the fast option is the e4m3fn option plus the flag; "default" sets nothing |
| Diffusion.UnetExecute | diffusion_model_loader.py:42-58 | the node returns `UnetSpec`: the resolver's error, or the model loaded from the resolved path with the table's options |
| Diffusion.UnetOutcomes | diffusion_model_loader.py:56-58 | the node fails iff resolving under "diffusion_models" with ids "unet" fails, whatever the dtype; every success loads an existing path |
| Frontend.GetTree | web/comfyui_sk_loader.js:4-6 | returns `extra.sk_tree` when that is truthy, else `_sk_tree` when that is truthy, else null |
| Frontend.MakeMenuItems | web/comfyui_sk_loader.js:8-30 | the menu is never longer than the list it is built from |
| Frontend.MenuConcat | web/comfyui_sk_loader.js:8-30 | the menu of a concatenation is the concatenation of the menus, so input order is kept |
| Frontend.NonObjectsDropped | web/comfyui_sk_loader.js:10 | null, strings, numbers and booleans never reach the menu |
| Frontend.EntryShapes | web/comfyui_sk_loader.js:11-28 | a node with a non-empty children array is a submenu labelled `label ?? "folder"`; otherwise a node with a truthy value is a pick labelled `label ?? value.file ?? "file"` that selects that value; any other node is dropped |
| Frontend.MenuMirrorsTree | web/comfyui_sk_loader.js:8-30 | for the JSON of a server-built tree, the menu mirrors the tree: folders with children become submenus, leaves become picks of their selection value, and childless folders vanish |
| Frontend.ValueToPath | web/comfyui_sk_loader.js:32-40 | a string is returned unchanged; anything that is not a truthy object gives null; for an object, a falsy `file`, falling back to `path`, gives null; a falsy or "root" folder gives that file; a truthy non-string folder throws; any other folder gives `strip(folder) + "/" + file`; only an object can make it throw |
| Frontend.ValueToPathDoublesFolder | web/comfyui_sk_loader.js:37-39 | with line 39's literal repaired, a leaf in a sub-directory yields `strip(folder) + "/" + file`, never the leaf's own file path |
| Frontend.ValueToPathFixed | web/comfyui_sk_loader.js:32-40 | the correction changes only values whose file already begins with the folder |
| Frontend.FixedLeafPath | web/comfyui_sk_loader.js:32-40 | with the correction, every well-formed leaf yields its own file path, and that path exists under one of the folder type's bases |
| Frontend.RegexLiteral | web/comfyui_sk_loader.js:39 | as written, the regular-expression literal closes at its third slash and is followed by `+`, an alternation bar and a backslash that starts no `\u` escape, so the line is not JavaScript |
| Frontend.RepairedRegexLiteral | web/comfyui_sk_loader.js:39 | with each slash of the pattern escaped, the literal closes at its last character |
| Frontend.MenuPicksResolve | web/comfyui_sk_loader.js:8-40 | with the correction, every pick at any depth of the menu of a well-formed tree writes to the combo a path that exists under one of the folder type's bases |

## Left out

- `attach_tree_metadata` (tree_utils.py:152-174) is left out. It stores a JSON encoding on host objects with `setattr` and swallows exceptions. The model takes the tree to reach the widget as `extra.sk_tree` or `_sk_tree`, encoded by `Frontend.NodeJson`.
- Schema construction is left out: node ids, display names, tooltips, the `config_name` combo, the strength bounds used as UI limits, and extension registration. The strength default, which `execute` reads, is modelled (`Lora.StrengthDefault`).
- Model loading and merging are uninterpreted function parameters (the checkpoint loaders take the path, the `output_clipvision` flag and the embedding directories; `output_vae` and `output_clip` are always true and are not parameters): `load_torch_file`, `load_lora_for_models`, `load_checkpoint`, `load_checkpoint_guess_config`, `load_diffusion_model`, `comfy.sd.VAE` and `throw_exception_if_invalid`.
- `VAELoader.load_taesd` and all tensor construction are left out. `VaeResolver.VaeDispatch` stops at which loader is chosen.
- The host registry `folder_paths` is the `Fs.registry` map. An unregistered folder type has no bases here, whereas the host would raise for it. `get_full_path("configs", ...)` is the `configPath` parameter of `Checkpoint.LoadWithConfig`.
- The filesystem is a snapshot given as data. Symbolic links, permission errors, files appearing between scan and resolve, and Windows drive paths are not modelled. Paths are POSIX, and `os.path.relpath` is the root recorded in each walk step.
- `Values.Value` covers `None`, booleans, numbers, strings and dictionaries, plus an opaque truthy or falsy object. Python floats are reals: rounding, NaN and infinities are not modelled.
- Frontend.Truthy: NaN is not modelled, because every number is a real.
- Frontend.Prop: only plain objects have properties here. Arrays and strings have none of the properties read (`children`, `label`, `value`, `file`, `path`, `folder`, `extra`, `sk_tree`, `_sk_tree`).
- Frontend.ValueToPath: the script is modelled with the regular-expression literal of web/comfyui_sk_loader.js:39 repaired; as written the module does not parse (`Frontend.RegexLiteral`), so none of its functions would run. The repaired slash-trimming expression is the uninterpreted `strip`, and `${file}` of a non-string file is the uninterpreted `show`.
- ValueToPathDoublesFolder: the doubled folder shows only once line 39's literal is repaired; as written the module fails to load and the combo stays a plain host combo.
- ScannerFacts.ListedFilesFacts: that a listed path exists under a base is stated only when no walked name holds a backslash. A POSIX name such as `a\b.pt` is rewritten to `a/b.pt`, which does not resolve (`ScannerFacts.BackslashNameMisresolves`).
- TreeBuilder.BuildTree: that leaves have no children is stated only when no file path lies on a walked directory path after the backslash rewrite. On POSIX, a file `a.pt` beside a directory named `a.pt\x` gives the step directory `a.pt/x`; the lookup at tree_utils.py:57 then walks into the leaf `a.pt` and hangs the folder `x` below it.
- TreeBuilder.BuildTree: the order of siblings is not stated. Leaves are pinned as a multiset at their paths and folders by their paths: a node at every walked directory, no folder off the way to one. The walk is taken as any sequence of steps, not necessarily top-down, so a node's children come in the order the steps first reach them; that this is `os.walk`'s depth-first order is not proved, and neither is that a directory has only one node.
- TreeBuilder.BaseNode: the same limits as TreeBuilder.BuildTree: no sibling or leaf order, and no claim that a directory has only one node.
- TreeBuilder.AddWalk: states the leaves in the order the arena holds them, which is the order they are appended, not their order in the nested tree; where a new folder goes among its siblings is not carried up from `Forest.EnsureBranch`.
- TreeBuilder.WalkStep: states that the step's directory has its node and which folders are new, not where among its siblings each new node goes.
- TreeBuilder.LeafFacts: a leaf resolves only when its step's directory and its file name hold no backslash, for the same reason (`TreeBuilder.BackslashLeafMisresolves`).
- FileInput.ComboChoices: every option resolves only when no walked name holds a backslash (see `ScannerFacts.ListedFilesFacts`).
- VaeRoundTrip.OptionFacts: an option's file exists under its folder type only when no walked name holds a backslash.
- VaeRoundTrip.VaeOptionResolves: a copy of the chosen file exists only when no walked name holds a backslash; otherwise the resolver returns the rewritten relative path.
- VaeRoundTrip.VaeChildOnlyResolves: the same backslash condition as `VaeRoundTrip.VaeOptionResolves`.
- Strings.Lower: only ASCII capitals and the KELVIN SIGN (U+212A, lowered to `k`) are lowered. Other Unicode case mappings are left out. The only other one that yields an ASCII letter is U+0130, which lowers to `i` followed by the combining dot U+0307; that dot always follows the `i`, so no extension in the allowed set (tree_utils.py:9) becomes reachable through it, and which names are eligible does not change.
- The browser event plumbing is left out: `attachTreeHandler`, `LiteGraph.ContextMenu` and `app.registerExtension`. A menu entry's callback is represented by the value it hands to `onSelect`.
- The "No files found" option of `build_vae_input` (vae_loader.py:56-57) is not modelled as a branch. `Vae.BuildVaeInput` proves the list always starts with `builtins`, so the branch cannot run.
- The "Unknown builtin VAE" error (vae_loader.py:173) is not modelled as a branch. `VaeResolver.DispatchTotal` proves the dispatch never reaches it.
- VaeResolver.VaePrimary: the `AttributeError` raised for a truthy non-string folder or file keeps Python's message without the type name Python puts in front of it ("'int' object has no attribute ...").
- Concurrency: none. Every operation is a synchronous read of the snapshot.

## Findings

| source | as written | input that shows it | evidently intended | confidence | as-written member | corrected member |
|---|---|---|---|---|---|---|
| web/comfyui_sk_loader.js:37-39 | `valueToPath` puts the folder in front of `file` whenever the folder is not "root", but a leaf's `file` already starts with its folder (tree_utils.py:85-93) | the leaf value {folder: "a", file: "a/x.safetensors", child_id: "ckpt__a"} gives `strip("a") + "/a/x.safetensors"`, which is not one of the combo's options | a file path that already carries its folder is written to the combo unchanged | medium, not executed | Frontend.ValueToPathDoublesFolder | Frontend.ValueToPathFixed, Frontend.FixedLeafPath |
| web/comfyui_sk_loader.js:39 | the regular-expression literal begins `/^\\/`, and since `\\` escapes the backslash and not the slash, that third slash closes the literal | the line itself: after the early close come a `+`, an alternation bar and a backslash that starts no escape, so the module is a syntax error and `getTree`, `makeMenuItems` and `valueToPath` never run | a pattern that trims leading and trailing slashes, with every slash escaped as `\/` | high, not executed | Frontend.RegexLiteral | Frontend.RepairedRegexLiteral |
