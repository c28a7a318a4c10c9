/**
 * The LoRA nodes: the ids of the Power LoRA slots, `_apply_lora` (shared by
 * the plain and model-only nodes) and the slot loop of the Power LoRA
 * loader. Loading and merging a LoRA is the host library's business and
 * appears as the uninterpreted `merge`.
 */
module Lora {
  import opened Wrappers
  import opened Strings
  import opened Values
  import opened FileSystem
  import opened Resolver

  /** `PowerLoraLoader.NUM_SLOTS`. */
  const NumSlots: nat := 5

  /** The input ids of one Power LoRA slot. */
  datatype SlotIds = SlotIds(enabled: string, select: string, strengthModel: string, strengthClip: string)

  /** `f"lora_{idx}"`. */
  function SlotPrefix(idx: nat): string {
    "lora_" + NatToString(idx)
  }

  /** The ids `build_lora_slot_inputs(idx)` declares, all under the slot's prefix. */
  function SlotIdsOf(idx: nat): (r: SlotIds)
    ensures r.select == SlotPrefix(idx)
    ensures StartsWith(r.enabled, r.select) && StartsWith(r.strengthModel, r.select) && StartsWith(r.strengthClip, r.select)
  {
    var p := SlotPrefix(idx);
    assert (p + "_enabled")[..|p|] == p;
    assert (p + "_strength_model")[..|p|] == p;
    assert (p + "_strength_clip")[..|p|] == p;
    SlotIds(p + "_enabled", p, p + "_strength_model", p + "_strength_clip")
  }

  /** Default, bounds and step of both strength inputs of a slot. */
  const StrengthDefault: real := 1.0
  const StrengthMin: real := -100.0
  const StrengthMax: real := 100.0
  const StrengthStep: real := 0.01

  /** The character after "lora_" names the slot. */
  lemma SlotDigit(idx: nat, id: string)
    requires 1 <= idx <= NumSlots && StartsWith(id, SlotPrefix(idx))
    ensures |id| > 5 && id[5] == DigitChar(idx)
  {
    assert SlotPrefix(idx) == "lora_" + [DigitChar(idx)];
    assert id[..6] == SlotPrefix(idx)[..6];
  }

  /** The four ids of a slot, in declaration order. */
  function IdList(ids: SlotIds): seq<string> {
    [ids.enabled, ids.select, ids.strengthModel, ids.strengthClip]
  }

  /**
   * The four ids of a slot are distinct, and no id of one slot is an id of
   * another: the slots of a node never share an input.
   */
  lemma SlotIdsDistinct(i: nat, j: nat)
    requires 1 <= i <= NumSlots && 1 <= j <= NumSlots
    ensures forall p, q :: 0 <= p < q < 4 ==> IdList(SlotIdsOf(i))[p] != IdList(SlotIdsOf(i))[q]
    ensures i != j ==> forall p, q :: 0 <= p < 4 && 0 <= q < 4 ==> IdList(SlotIdsOf(i))[p] != IdList(SlotIdsOf(j))[q]
  {
    var a, b := IdList(SlotIdsOf(i)), IdList(SlotIdsOf(j));
    assert |SlotPrefix(i)| == 6;
    assert a[0][7] == 'e' && a[2][7] == 's' && a[3][7] == 's';
    assert a[2][16] == 'm' && a[3][16] == 'c';
    if i != j {
      forall p, q | 0 <= p < 4 && 0 <= q < 4 ensures a[p] != b[q] {
        SlotDigit(i, a[p]);
        SlotDigit(j, b[q]);
      }
    }
  }

  /**
   * `_apply_lora(model, clip, selection, strength_model, strength_clip)`:
   * both strengths zero leaves the pair alone; otherwise the selection is
   * resolved under "loras" with `folder_id = file_id = "lora"` and merged.
   */
  function ApplyLora<M, C>(fs: Fs, model: M, clip: Option<C>, selection: Value,
                                   strengthModel: real, strengthClip: real,
                                   merge: (M, Option<C>, string, real, real) -> (M, Option<C>),
                                   show: Value -> string): Result<(M, Option<C>), PyError>
  {
    if strengthModel == 0.0 && strengthClip == 0.0 then Ok((model, clip))
    else
      match ResolveSpec(fs, "loras", selection, "lora", "lora", show)
      case Err(e) => Err(e)
      case Ok(path) => Ok(merge(model, clip, path, strengthModel, strengthClip))
  }

  /**
   * Two zero strengths return the inputs without resolving anything,
   * whatever the filesystem and the selection; otherwise the node fails
   * exactly when the resolver does (with its error, `ValueError` for the
   * flat combo's plain string included) and merges the resolved path.
   */
  lemma ApplyLoraOutcomes<M, C>(fs: Fs, model: M, clip: Option<C>, selection: Value, strengthModel: real,
                                        strengthClip: real, merge: (M, Option<C>, string, real, real) -> (M, Option<C>),
                                        show: Value -> string)
    ensures var r := ApplyLora(fs, model, clip, selection, strengthModel, strengthClip, merge, show);
      var resolved := ResolveSpec(fs, "loras", selection, "lora", "lora", show);
      (strengthModel == 0.0 && strengthClip == 0.0 ==>
         forall fs', sel' :: ApplyLora(fs', model, clip, sel', strengthModel, strengthClip, merge, show) == Ok((model, clip))) &&
      (!(strengthModel == 0.0 && strengthClip == 0.0) ==>
         (r.Ok? <==> resolved.Ok?) &&
         (r.Ok? ==> r.value == merge(model, clip, resolved.value, strengthModel, strengthClip)) &&
         (r.Err? ==> r.error == resolved.error) &&
         (selection.VStr? ==> r == Err(ValueError("Invalid selection"))))
  {
    ResolveOutcomes(fs, "loras", selection, "lora", "lora", show);
  }

  /** `LoraLoaderModelOnly.execute`: `_apply_lora` with no CLIP and a zero CLIP strength, keeping the model. */
  function LoraModelOnly<M, C>(fs: Fs, model: M, selection: Value, strengthModel: real,
                                       merge: (M, Option<C>, string, real, real) -> (M, Option<C>),
                                       show: Value -> string): Result<M, PyError>
  {
    match ApplyLora(fs, model, None, selection, strengthModel, 0.0, merge, show)
    case Err(e) => Err(e)
    case Ok(pair) => Ok(pair.0)
  }

  /** A zero model strength keeps the model untouched; otherwise the merge sees no CLIP and strength 0. */
  lemma ModelOnlyOutcomes<M, C>(fs: Fs, model: M, selection: Value, strengthModel: real,
                                        merge: (M, Option<C>, string, real, real) -> (M, Option<C>),
                                        show: Value -> string)
    ensures var r := LoraModelOnly(fs, model, selection, strengthModel, merge, show);
      var resolved := ResolveSpec(fs, "loras", selection, "lora", "lora", show);
      (strengthModel == 0.0 ==> r == Ok(model)) &&
      (strengthModel != 0.0 ==>
         (r.Ok? <==> resolved.Ok?) &&
         (r.Ok? ==> r.value == merge(model, None, resolved.value, strengthModel, 0.0).0))
  {
    ApplyLoraOutcomes(fs, model, None, selection, strengthModel, 0.0, merge, show);
  }

  /**
   * One slot of `PowerLoraLoader.execute` applied to the running pair: it is
   * skipped when disabled, when its selection is neither a dictionary nor a
   * string, when both strengths are zero, or when resolving raises
   * `FileNotFoundError`; `float()` and every other resolver error propagate.
   */
  function SlotStep<M, C>(fs: Fs, kwargs: seq<(string, Value)>, idx: nat, state: (M, Option<C>),
                                  merge: (M, Option<C>, string, real, real) -> (M, Option<C>),
                                  parse: string -> Option<real>, show: Value -> string): Result<(M, Option<C>), PyError>
  {
    var ids := SlotIdsOf(idx);
    var selection := Get(kwargs, ids.select);
    if !Truthy(GetOr(kwargs, ids.enabled, VBool(false))) then Ok(state)
    else if !(selection.VDict? || selection.VStr?) then Ok(state)
    else
      match ToFloat(GetOr(kwargs, ids.strengthModel, VNum(StrengthDefault)), parse)
      case Err(e) => Err(e)
      case Ok(sm) =>
        match ToFloat(GetOr(kwargs, ids.strengthClip, VNum(StrengthDefault)), parse)
        case Err(e) => Err(e)
        case Ok(sc) =>
          if sm == 0.0 && sc == 0.0 then Ok(state)
          else
            match ResolveSpec(fs, "loras", selection, ids.select, ids.select, show)
            case Err(e) => if e.FileNotFoundError? then Ok(state) else Err(e)
            case Ok(path) => Ok(merge(state.0, state.1, path, sm, if state.1.Some? then sc else 0.0))
  }

  /** Slots 1..k applied in increasing order, each to the previous slot's output; the first error stops the run. */
  function RunSlots<M, C>(fs: Fs, kwargs: seq<(string, Value)>, k: nat, start: (M, Option<C>),
                                  merge: (M, Option<C>, string, real, real) -> (M, Option<C>),
                                  parse: string -> Option<real>, show: Value -> string): Result<(M, Option<C>), PyError>
  {
    if k == 0 then Ok(start)
    else
      match RunSlots(fs, kwargs, k - 1, start, merge, parse, show)
      case Err(e) => Err(e)
      case Ok(state) => SlotStep(fs, kwargs, k, state, merge, parse, show)
  }

  /** One pass of the slot loop as written; `continue` leaves the running pair as it is. */
  method RunSlot<M, C>(fs: Fs, kwargs: seq<(string, Value)>, idx: nat, modelOut: M, clipOut: Option<C>,
                       merge: (M, Option<C>, string, real, real) -> (M, Option<C>),
                       parse: string -> Option<real>, show: Value -> string)
    returns (r: Result<(M, Option<C>), PyError>)
    ensures r == SlotStep(fs, kwargs, idx, (modelOut, clipOut), merge, parse, show)
  {
    var prefix := "lora_" + NatToString(idx);
    var enabled := GetOr(kwargs, prefix + "_enabled", VBool(false));
    if !Truthy(enabled) {
      return Ok((modelOut, clipOut));
    }
    var selection := Get(kwargs, prefix);
    if !(selection.VDict? || selection.VStr?) {
      return Ok((modelOut, clipOut));
    }
    var strengthModel := ToFloat(GetOr(kwargs, prefix + "_strength_model", VNum(1.0)), parse);
    if strengthModel.Err? {
      return Err(strengthModel.error);
    }
    var strengthClip := ToFloat(GetOr(kwargs, prefix + "_strength_clip", VNum(1.0)), parse);
    if strengthClip.Err? {
      return Err(strengthClip.error);
    }
    if strengthModel.value == 0.0 && strengthClip.value == 0.0 {
      return Ok((modelOut, clipOut));
    }
    var lora := ResolveSelectedPath(fs, "loras", selection, prefix, prefix, show);
    if lora.Err? {
      if lora.error.FileNotFoundError? {
        return Ok((modelOut, clipOut));
      }
      return Err(lora.error);
    }
    return Ok(merge(modelOut, clipOut, lora.value, strengthModel.value,
                    if clipOut.Some? then strengthClip.value else 0.0));
  }

  /** `PowerLoraLoader.execute(model, clip, **kwargs)`: slots 1..5 in order, threading the pair through. */
  method PowerLoraExecute<M, C>(fs: Fs, model: M, clip: Option<C>, kwargs: seq<(string, Value)>,
                                merge: (M, Option<C>, string, real, real) -> (M, Option<C>),
                                parse: string -> Option<real>, show: Value -> string)
    returns (r: Result<(M, Option<C>), PyError>)
    ensures r == RunSlots(fs, kwargs, NumSlots, (model, clip), merge, parse, show)
  {
    var modelOut, clipOut := model, clip;
    for idx := 1 to NumSlots + 1
      invariant RunSlots(fs, kwargs, idx - 1, (model, clip), merge, parse, show) == Ok((modelOut, clipOut))
    {
      var step := RunSlot(fs, kwargs, idx, modelOut, clipOut, merge, parse, show);
      assert RunSlots(fs, kwargs, idx, (model, clip), merge, parse, show) == step;
      if step.Err? {
        ErrorSticks(fs, kwargs, idx, NumSlots, (model, clip), merge, parse, show);
        return Err(step.error);
      }
      modelOut, clipOut := step.value.0, step.value.1;
    }
    return Ok((modelOut, clipOut));
  }

  /** Once a slot raises, the whole run raises the same error. */
  lemma {:induction false} ErrorSticks<M, C>(fs: Fs, kwargs: seq<(string, Value)>, j: nat, k: nat, start: (M, Option<C>),
                                             merge: (M, Option<C>, string, real, real) -> (M, Option<C>),
                                             parse: string -> Option<real>, show: Value -> string)
    requires j <= k && RunSlots(fs, kwargs, j, start, merge, parse, show).Err?
    ensures RunSlots(fs, kwargs, k, start, merge, parse, show) == RunSlots(fs, kwargs, j, start, merge, parse, show)
    decreases k
  {
    if j < k {
      ErrorSticks(fs, kwargs, j, k - 1, start, merge, parse, show);
      ErrorStep(fs, kwargs, k, start, merge, parse, show);
    }
  }

  /** A disabled slot is a no-op. */
  predicate Disabled(kwargs: seq<(string, Value)>, idx: nat) {
    !Truthy(GetOr(kwargs, SlotIdsOf(idx).enabled, VBool(false)))
  }

  /** Disabled slots after slot `j` change nothing. */
  lemma {:induction false} DisabledTail<M, C>(fs: Fs, kwargs: seq<(string, Value)>, j: nat, k: nat, start: (M, Option<C>),
                                              merge: (M, Option<C>, string, real, real) -> (M, Option<C>),
                                              parse: string -> Option<real>, show: Value -> string)
    requires j <= k && forall idx :: j < idx <= k ==> Disabled(kwargs, idx)
    ensures RunSlots(fs, kwargs, k, start, merge, parse, show) == RunSlots(fs, kwargs, j, start, merge, parse, show)
    decreases k
  {
    if j < k {
      DisabledTail(fs, kwargs, j, k - 1, start, merge, parse, show);
      DisabledStep(fs, kwargs, k, start, merge, parse, show);
    }
  }

  /** After an error in slots 1..k-1, slot `k` is not run. */
  lemma ErrorStep<M, C>(fs: Fs, kwargs: seq<(string, Value)>, k: nat, start: (M, Option<C>),
                        merge: (M, Option<C>, string, real, real) -> (M, Option<C>),
                        parse: string -> Option<real>, show: Value -> string)
    requires 0 < k && RunSlots(fs, kwargs, k - 1, start, merge, parse, show).Err?
    ensures RunSlots(fs, kwargs, k, start, merge, parse, show) == RunSlots(fs, kwargs, k - 1, start, merge, parse, show)
  {
  }

  /** A disabled slot `k` leaves the run of slots 1..k where slots 1..k-1 left it. */
  lemma DisabledStep<M, C>(fs: Fs, kwargs: seq<(string, Value)>, k: nat, start: (M, Option<C>),
                           merge: (M, Option<C>, string, real, real) -> (M, Option<C>),
                           parse: string -> Option<real>, show: Value -> string)
    requires 0 < k && Disabled(kwargs, k)
    ensures RunSlots(fs, kwargs, k, start, merge, parse, show) == RunSlots(fs, kwargs, k - 1, start, merge, parse, show)
  {
    var prev := RunSlots(fs, kwargs, k - 1, start, merge, parse, show);
    if prev.Ok? {
      DisabledSkips(fs, kwargs, k, prev.value, merge, parse, show);
    }
  }

  /** A disabled slot hands the running pair on unchanged. */
  lemma DisabledSkips<M, C>(fs: Fs, kwargs: seq<(string, Value)>, idx: nat, state: (M, Option<C>),
                            merge: (M, Option<C>, string, real, real) -> (M, Option<C>),
                            parse: string -> Option<real>, show: Value -> string)
    requires Disabled(kwargs, idx)
    ensures SlotStep(fs, kwargs, idx, state, merge, parse, show) == Ok(state)
  {
  }

  /** With every slot disabled the node returns its inputs unchanged. */
  lemma AllDisabled<M, C>(fs: Fs, kwargs: seq<(string, Value)>, start: (M, Option<C>),
                          merge: (M, Option<C>, string, real, real) -> (M, Option<C>),
                          parse: string -> Option<real>, show: Value -> string)
    requires forall idx :: 1 <= idx <= NumSlots ==> Disabled(kwargs, idx)
    ensures RunSlots(fs, kwargs, NumSlots, start, merge, parse, show) == Ok(start)
  {
    DisabledTail(fs, kwargs, 0, NumSlots, start, merge, parse, show);
  }

  /** With one slot enabled, the node's result is that slot applied to the inputs. */
  lemma OnlySlot<M, C>(fs: Fs, kwargs: seq<(string, Value)>, j: nat, start: (M, Option<C>),
                       merge: (M, Option<C>, string, real, real) -> (M, Option<C>),
                       parse: string -> Option<real>, show: Value -> string)
    requires 1 <= j <= NumSlots && forall idx :: 1 <= idx <= NumSlots && idx != j ==> Disabled(kwargs, idx)
    ensures RunSlots(fs, kwargs, NumSlots, start, merge, parse, show) == SlotStep(fs, kwargs, j, start, merge, parse, show)
  {
    DisabledTail(fs, kwargs, 0, j - 1, start, merge, parse, show);
    DisabledTail(fs, kwargs, j, NumSlots, start, merge, parse, show);
  }

  /**
   * The skip rules of one slot: disabled, a selection that is neither a
   * dictionary nor a string, two zero strengths, or a resolver raising
   * `FileNotFoundError` each leave the running pair unchanged. An applied
   * slot merges the path the resolver returns, with CLIP strength 0 when
   * there is no CLIP.
   */
  lemma SlotRules<M, C>(fs: Fs, kwargs: seq<(string, Value)>, idx: nat, state: (M, Option<C>),
                        merge: (M, Option<C>, string, real, real) -> (M, Option<C>),
                        parse: string -> Option<real>, show: Value -> string)
    ensures var ids := SlotIdsOf(idx);
      var selection := Get(kwargs, ids.select);
      var sm := ToFloat(GetOr(kwargs, ids.strengthModel, VNum(StrengthDefault)), parse);
      var sc := ToFloat(GetOr(kwargs, ids.strengthClip, VNum(StrengthDefault)), parse);
      var resolved := ResolveSpec(fs, "loras", selection, ids.select, ids.select, show);
      var r := SlotStep(fs, kwargs, idx, state, merge, parse, show);
      (Disabled(kwargs, idx) ==> r == Ok(state)) &&
      (!(selection.VDict? || selection.VStr?) ==> r == Ok(state)) &&
      (!Disabled(kwargs, idx) && (selection.VDict? || selection.VStr?) ==>
         (sm.Err? ==> r == Err(sm.error)) &&
         (sm.Ok? && sc.Err? ==> r == Err(sc.error)) &&
         (sm.Ok? && sc.Ok? ==>
            (sm.value == 0.0 && sc.value == 0.0 ==> r == Ok(state)) &&
            (!(sm.value == 0.0 && sc.value == 0.0) ==>
               (resolved.Err? && resolved.error.FileNotFoundError? ==> r == Ok(state)) &&
               (resolved.Err? && !resolved.error.FileNotFoundError? ==> r == Err(resolved.error)) &&
               (resolved.Ok? ==> r == Ok(merge(state.0, state.1, resolved.value, sm.value,
                                               if state.1.Some? then sc.value else 0.0))) &&
               (resolved.Ok? && state.1.None? ==> r == Ok(merge(state.0, None, resolved.value, sm.value, 0.0))))))
  {
  }

  /**
   * Only `FileNotFoundError` is caught: an enabled slot whose combo sent a
   * plain string, with a non-zero strength, makes the whole node raise
   * `ValueError` once the slots before it have run.
   */
  lemma StringSelectionRaises<M, C>(fs: Fs, kwargs: seq<(string, Value)>, j: nat, start: (M, Option<C>),
                                    merge: (M, Option<C>, string, real, real) -> (M, Option<C>),
                                    parse: string -> Option<real>, show: Value -> string)
    requires 1 <= j <= NumSlots && !Disabled(kwargs, j)
    requires Get(kwargs, SlotIdsOf(j).select).VStr?
    requires RunSlots(fs, kwargs, j - 1, start, merge, parse, show).Ok?
    requires var sm := ToFloat(GetOr(kwargs, SlotIdsOf(j).strengthModel, VNum(StrengthDefault)), parse);
             var sc := ToFloat(GetOr(kwargs, SlotIdsOf(j).strengthClip, VNum(StrengthDefault)), parse);
             sm.Ok? && sc.Ok? && !(sm.value == 0.0 && sc.value == 0.0)
    ensures RunSlots(fs, kwargs, NumSlots, start, merge, parse, show) == Err(ValueError("Invalid selection"))
  {
    var ids := SlotIdsOf(j);
    ResolveOutcomes(fs, "loras", Get(kwargs, ids.select), ids.select, ids.select, show);
    assert RunSlots(fs, kwargs, j, start, merge, parse, show) == Err(ValueError("Invalid selection"));
    ErrorSticks(fs, kwargs, j, NumSlots, start, merge, parse, show);
  }
}
