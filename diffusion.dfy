/**
 * The diffusion-model (UNET) node: the `weight_dtype` table that fills
 * `model_options`, and the resolve call under "diffusion_models" with
 * `folder_id = file_id = "unet"`. The host loader is the uninterpreted
 * `load`.
 */
module Diffusion {
  import opened Wrappers
  import opened Values
  import opened FileSystem
  import opened Resolver

  /** The two 8-bit float torch dtypes the table can name. */
  datatype Dtype = Float8E4m3fn | Float8E5m2

  /** A value stored in `model_options`. */
  datatype OptionValue = DtypeOption(dtype: Dtype) | FlagOption(flag: bool)

  /** The options of the `weight_dtype` combo, in display order. */
  const WeightDtypes: seq<string> := ["default", "fp8_e4m3fn", "fp8_e4m3fn_fast", "fp8_e5m2"]

  /**
   * The `model_options` dictionary for a `weight_dtype`: only the three
   * 8-bit choices set a dtype, the "fast" one is the plain e4m3fn choice
   * plus the optimisation flag, and anything else leaves it empty.
   */
  function UnetOptions(weightDtype: string): (r: map<string, OptionValue>)
    ensures r.Keys <= {"dtype", "fp8_optimizations"}
    ensures "dtype" in r <==> weightDtype in WeightDtypes[1..]
    ensures "dtype" in r ==> r["dtype"] == DtypeOption(if weightDtype == "fp8_e5m2" then Float8E5m2 else Float8E4m3fn)
    ensures "fp8_optimizations" in r <==> weightDtype == "fp8_e4m3fn_fast"
    ensures "fp8_optimizations" in r ==> r["fp8_optimizations"] == FlagOption(true)
  {
    if weightDtype == "fp8_e4m3fn" then map["dtype" := DtypeOption(Float8E4m3fn)]
    else if weightDtype == "fp8_e4m3fn_fast" then
      map["dtype" := DtypeOption(Float8E4m3fn), "fp8_optimizations" := FlagOption(true)]
    else if weightDtype == "fp8_e5m2" then map["dtype" := DtypeOption(Float8E5m2)]
    else map[]
  }

  /** The first half of `UNETLoader.execute`: the dictionary filled key by key. */
  method ModelOptions(weightDtype: string) returns (modelOptions: map<string, OptionValue>)
    ensures modelOptions == UnetOptions(weightDtype)
  {
    modelOptions := map[];
    if weightDtype == "fp8_e4m3fn" {
      modelOptions := modelOptions["dtype" := DtypeOption(Float8E4m3fn)];
    } else if weightDtype == "fp8_e4m3fn_fast" {
      modelOptions := modelOptions["dtype" := DtypeOption(Float8E4m3fn)];
      modelOptions := modelOptions["fp8_optimizations" := FlagOption(true)];
    } else if weightDtype == "fp8_e5m2" {
      modelOptions := modelOptions["dtype" := DtypeOption(Float8E5m2)];
    }
  }

  /** The "fast" choice differs from the plain e4m3fn choice by the flag alone, and "default" sets nothing. */
  lemma FastAddsOnlyFlag()
    ensures UnetOptions("fp8_e4m3fn_fast") == UnetOptions("fp8_e4m3fn")["fp8_optimizations" := FlagOption(true)]
    ensures UnetOptions("default") == map[]
  {
    var fast := UnetOptions("fp8_e4m3fn_fast");
    var plain := UnetOptions("fp8_e4m3fn")["fp8_optimizations" := FlagOption(true)];
    assert fast.Keys == plain.Keys;
  }

  /** What `UNETLoader.execute` returns or raises: the resolver's error, or the loaded model. */
  function UnetSpec<M>(fs: Fs, unet: Value, weightDtype: string, load: (string, map<string, OptionValue>) -> M,
                       show: Value -> string): Result<M, PyError> {
    match ResolveSpec(fs, "diffusion_models", unet, "unet", "unet", show)
    case Err(e) => Err(e)
    case Ok(path) => Ok(load(path, UnetOptions(weightDtype)))
  }

  /** `UNETLoader.execute`: options first, then resolve, then load. */
  method UnetExecute<M>(fs: Fs, unet: Value, weightDtype: string, load: (string, map<string, OptionValue>) -> M,
                        show: Value -> string)
    returns (r: Result<M, PyError>)
    ensures r == UnetSpec(fs, unet, weightDtype, load, show)
  {
    var modelOptions := ModelOptions(weightDtype);
    var unetPath := ResolveSpec(fs, "diffusion_models", unet, "unet", "unet", show);
    if unetPath.Err? {
      return Err(unetPath.error);
    }
    return Ok(load(unetPath.value, modelOptions));
  }

  /**
   * The node fails exactly when resolving its selection under
   * "diffusion_models" fails, whatever the dtype; a success loads an
   * existing path with the table's options.
   */
  lemma UnetOutcomes<M>(fs: Fs, unet: Value, weightDtype: string, load: (string, map<string, OptionValue>) -> M,
                        show: Value -> string)
    ensures var r := UnetSpec(fs, unet, weightDtype, load, show);
      var resolved := ResolveSpec(fs, "diffusion_models", unet, "unet", "unet", show);
      (r.Ok? <==> resolved.Ok?) &&
      (r.Err? ==> r.error == resolved.error) &&
      (r.Ok? ==> Exists(fs, resolved.value) && r.value == load(resolved.value, UnetOptions(weightDtype))) &&
      (!unet.VDict? ==> r == Err(ValueError("Invalid selection")))
  {
    ResolveOutcomes(fs, "diffusion_models", unet, "unet", "unet", show);
  }
}
