/**
 * The built-in helpers of src/df_eval/functions.py, on scalars:
 * `coalesce` and `clip_value`, and the registry of built-in names.
 */
module Functions {
  import opened Wrappers

  /** A scalar argument: Python `None`, a float NaN, or an integer value. */
  datatype Scalar = Null | NaN | Val(v: int)

  /** What `coalesce` skips: `None`, or a float that is NaN. */
  predicate IsMissing(x: Scalar)
  {
    x.Null? || x.NaN?
  }

  /**
   * `coalesce(*args)`: the first argument that is neither `None` nor NaN, or
   * `None` when there is none (also for no arguments at all).
   */
  function Coalesce(args: seq<Scalar>): (r: Scalar)
    ensures r.Null? <==> forall k :: 0 <= k < |args| ==> IsMissing(args[k])
    ensures !r.NaN?
    ensures !r.Null? ==> exists i :: 0 <= i < |args| && args[i] == r && forall k :: 0 <= k < i ==> IsMissing(args[k])
  {
    if |args| == 0 then
      Null
    else if !IsMissing(args[0]) then
      args[0]
    else
      var r := Coalesce(args[1..]);
      assert forall k :: 1 <= k < |args| ==> args[k] == args[1..][k - 1];
      if !r.Null? then
        var i :| 0 <= i < |args[1..]| && args[1..][i] == r && forall k :: 0 <= k < i ==> IsMissing(args[1..][k]);
        assert args[i + 1] == r;
        r
      else
        r
  }

  /** Coalesce returns exactly the first present argument when one exists. */
  lemma {:induction false} CoalesceFirstPresent(args: seq<Scalar>, i: nat)
    requires i < |args| && !IsMissing(args[i])
    requires forall k :: 0 <= k < i ==> IsMissing(args[k])
    ensures Coalesce(args) == args[i]
  {
    if i > 0 {
      CoalesceFirstPresent(args[1..], i - 1);
    }
  }

  /** The examples of the coalesce tests. */
  lemma CoalesceExamples()
    ensures Coalesce([Null, Val(5), Val(10)]) == Val(5)
    ensures Coalesce([Null, Null, Null]) == Null
    ensures Coalesce([NaN, Val(42), Val(100)]) == Val(42)
    ensures Coalesce([Val(1), Val(2), Val(3)]) == Val(1)
    ensures Coalesce([]) == Null
  {
    CoalesceFirstPresent([Null, Val(5), Val(10)], 1);
    CoalesceFirstPresent([NaN, Val(42), Val(100)], 1);
  }

  /**
   * `clip_value(value, min_val, max_val)`: raise the value to `min_val` if
   * given, then lower it to `max_val` if given, in that order.
   */
  function ClipValue(value: int, minVal: Option<int>, maxVal: Option<int>): (r: int)
    ensures minVal.None? && maxVal.None? ==> r == value
    ensures maxVal.Some? ==> r <= maxVal.value
    ensures minVal.Some? && (maxVal.None? || minVal.value <= maxVal.value) ==> minVal.value <= r
    ensures (minVal.None? || minVal.value <= value) && (maxVal.None? || value <= maxVal.value) ==> r == value
    ensures r == value || (minVal.Some? && r == minVal.value) || (maxVal.Some? && r == maxVal.value)
    ensures maxVal.Some? && (maxVal.value < value || (minVal.Some? && maxVal.value < minVal.value)) ==> r == maxVal.value
    ensures minVal.Some? && value < minVal.value && (maxVal.None? || minVal.value <= maxVal.value) ==> r == minVal.value
  {
    var lifted := if minVal.Some? && value < minVal.value then minVal.value else value;
    if maxVal.Some? && maxVal.value < lifted then maxVal.value else lifted
  }

  /** With an inverted range (`min_val > max_val`) the upper bound wins. */
  lemma ClipInvertedRange(value: int, lo: int, hi: int)
    requires hi < lo
    ensures ClipValue(value, Some(lo), Some(hi)) == hi
  {
  }

  /** Clipping twice is clipping once, for any bounds. */
  lemma ClipIdempotent(value: int, minVal: Option<int>, maxVal: Option<int>)
    ensures ClipValue(ClipValue(value, minVal, maxVal), minVal, maxVal) == ClipValue(value, minVal, maxVal)
  {
  }

  /** The examples of the clip tests. */
  lemma ClipExamples()
    ensures ClipValue(5, None, None) == 5
    ensures ClipValue(3, Some(5), None) == 5
    ensures ClipValue(10, None, Some(7)) == 7
    ensures ClipValue(3, Some(5), Some(10)) == 5
    ensures ClipValue(7, Some(5), Some(10)) == 7
    ensures ClipValue(12, Some(5), Some(10)) == 10
  {
  }

  /** A registered function: a built-in named by its Python function, or a user function known by a token. */
  datatype Callable = Builtin(functionName: string) | UserFunction(token: nat)

  /** `BUILTIN_FUNCTIONS`. */
  const BuiltinFunctions: map<string, Callable> :=
    map["safe_divide" := Builtin("safe_divide"), "coalesce" := Builtin("coalesce"), "clip" := Builtin("clip_value")]

  /**
   * The registry of built-ins holds exactly three names: `clip` is bound to
   * `clip_value`, the other two to the function of their own name.
   */
  lemma BuiltinNames()
    ensures BuiltinFunctions.Keys == {"safe_divide", "coalesce", "clip"}
    ensures BuiltinFunctions["clip"] == Builtin("clip_value")
    ensures forall name :: name in BuiltinFunctions && name != "clip" ==> BuiltinFunctions[name] == Builtin(name)
  {
  }
}
