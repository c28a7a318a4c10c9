/**
 * Python values as the loaders see them: node inputs and selection maps
 * arrive as `None`, booleans, numbers, strings, dictionaries or other
 * objects. Dictionaries keep their insertion order, which is the order
 * `items()` visits.
 */
module Values {
  import opened Wrappers
  import opened Strings

  datatype Value =
    | VNone
    | VBool(b: bool)
    | VNum(r: real)
    | VStr(s: string)
    | VDict(items: seq<(string, Value)>)
    /** Any other object (a list, a tensor, ...), known only by its truthiness. */
    | VObj(truthy: bool)

  /** Python truth testing. */
  predicate Truthy(v: Value) {
    match v
    case VNone => false
    case VBool(b) => b
    case VNum(r) => r != 0.0
    case VStr(s) => s != ""
    case VDict(items) => items != []
    case VObj(t) => t
  }

  predicate HasKey(items: seq<(string, Value)>, key: string) {
    exists i :: 0 <= i < |items| && items[i].0 == key
  }

  /** `d.get(key, default)`: the value under the first entry with that key. */
  function GetOr(items: seq<(string, Value)>, key: string, default: Value): (r: Value)
    ensures !HasKey(items, key) ==> r == default
    ensures HasKey(items, key) ==> exists i :: 0 <= i < |items| && items[i].0 == key && r == items[i].1 &&
                                     forall j :: 0 <= j < i ==> items[j].0 != key
  {
    if items == [] then default
    else if items[0].0 == key then items[0].1
    else
      var r := GetOr(items[1..], key, default);
      assert forall i :: 1 <= i < |items| ==> items[i] == items[1..][i - 1];
      if HasKey(items[1..], key) then
        var i :| 0 <= i < |items[1..]| && items[1..][i].0 == key && r == items[1..][i].1 &&
                 forall j :: 0 <= j < i ==> items[1..][j].0 != key;
        assert items[i + 1].0 == key && r == items[i + 1].1;
        r
      else r
  }

  /** `d.get(key)`. */
  function Get(items: seq<(string, Value)>, key: string): Value {
    GetOr(items, key, VNone)
  }

  /** `a or b`. */
  function Or(a: Value, b: Value): (r: Value)
    ensures Truthy(a) ==> r == a
    ensures !Truthy(a) ==> r == b
  {
    if Truthy(a) then a else b
  }

  /** A string other than "" and "<none>" (the resolvers' `_valid`). */
  predicate ValidChoice(v: Value) {
    v.VStr? && v.s != "" && v.s != "<none>"
  }

  /** The exceptions the modelled code raises, with their messages. */
  datatype PyError =
    | ValueError(msg: string)
    | FileNotFoundError(msg: string)
    | AttributeError(msg: string)
    | TypeError(msg: string)

  /**
   * `float(v)`: numbers convert, booleans give 1.0 or 0.0, strings are parsed
   * by `parse` (None when Python raises `ValueError`), anything else raises
   * `TypeError`.
   */
  function ToFloat(v: Value, parse: string -> Option<real>): (r: Result<real, PyError>)
    ensures v.VNum? ==> r == Ok(v.r)
    ensures v.VNone? || v.VDict? ==> r.Err? && r.error.TypeError?
  {
    match v
    case VNum(x) => Ok(x)
    case VBool(b) => Ok(if b then 1.0 else 0.0)
    case VStr(s) =>
      (match parse(s)
       case Some(x) => Ok(x)
       case None => Err(ValueError("could not convert string to float")))
    case _ => Err(TypeError("float() argument must be a string or a real number"))
  }
}
