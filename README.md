# df-eval core, modelled in Dafny

df-eval adds derived columns to a pandas data frame from a *schema*. A
schema maps a column name to an expression text. The engine works out the
order the columns depend on each other. It evaluates them in that order on a
copy of the frame, and can record which expression produced each column
(its *provenance*). A schema whose columns depend on each other in a circle
is refused with `CycleDetectedError`. A second facility, `lookup`, maps a
series of keys through a *resolver* (a dictionary, a placeholder database or
HTTP backend, or a time-to-live cache around any of these). A missing-key
policy says what happens when a key resolves to nothing.

The Dafny modules follow the Python package:

- `Expr` (`expr.dfy`) models `Expression`. It keeps the text and derives
  its parsed copy (Python's `str.strip`, with Python's whitespace
  characters), `str` and `repr`.
- `Functions` (`functions.dfy`) models `coalesce` and `clip_value` on
  scalars, and the names of the built-in functions.
- `Lookup` (`lookup.dfy`) covers:
  - the dictionary resolver and the two placeholder resolvers;
  - `CachedResolver`, a class whose cache map the methods update in place;
  - `lookup`, a loop over the keys.
- `Schedule` (`schedule.dfy`) models `_topological_sort`. It has two parts:
  - The specification: Kahn's algorithm that always takes the smallest
    ready name, written as a function `KahnOrder`. `TopoSpec` is its
    outcome, an order or the set of columns left over.
  - The imperative method `TopologicalSort`, with its counts and its ready
    queue. It is proved to compute exactly `TopoSpec`.
- `Engine` (`engine.dfy`) models the `Engine` class and `apply_schema`:
  - the registries, and the error wrapping of `evaluate`;
  - the scheduling and evaluation loop, specified by `ApplySchemaSpec`.
- `StringOrder` (`string_order.dfy`) is Python's `<` on strings, the order
  `queue.sort()` uses.
- `Values` and `Wrappers` hold the value and result types.

The properties proved:

- The scheduler's order, when there is one, is a topological order. It
  lists every schema column exactly once, each after the schema columns it
  references.
- The scheduler takes the smallest ready name at every step.
- A schema can be ordered if and only if the scheduler succeeds.
- The cycle error names exactly the unscheduled columns. Each of them waits
  on an unscheduled column, possibly itself.
- `apply_schema` works as follows:
  - Every input column keeps its place. Input columns the schema does not
    redefine keep their values; a redefined one is replaced where it stands.
  - Its columns are exactly the input columns plus the schema columns.
  - It computes each column from the columns scheduled before it.
  - It records provenance only when tracking is on.
  - Its errors are the scheduler's cycle or the first failing evaluation.
- `strip` returns a trimmed slice and is idempotent. `repr` can be read
  back exactly.
- `coalesce` returns the first present argument. `clip_value` keeps its
  bounds, in the source's order.
- The cache returns a fresh entry without calling the wrapped resolver.
  With a wrapped resolver whose answers never change, it stays coherent
  with that resolver. Clearing it forces a miss.
- `lookup` follows the missing-key policy for every key. It stops at the
  first key that aborts.

## Model

| member | source | states |
|---|---|---|
| Expr.LStrip | src/df_eval/expr.py:40 | the result is the suffix of the text left after a prefix made only of whitespace, and it does not start with whitespace |
| Expr.RStrip | src/df_eval/expr.py:40 | the result is the prefix of the text before a suffix made only of whitespace, and it does not end with whitespace |
| Expr.Strip | src/df_eval/expr.py:29-40 | the parsed text is never longer than the text and has no whitespace left at either end |
| Expr.StripIsSlice | src/df_eval/expr.py:29-40 | the parsed form is a slice `s[i..j]` of the text, everything cut away on either side is whitespace, and the slice has no surrounding whitespace |
| Expr.StripTrimmed | src/df_eval/expr.py:40 | stripping a text without surrounding whitespace returns it unchanged |
| Expr.StripIdempotent | src/df_eval/expr.py:40 | parsing the parsed form again changes nothing |
| Expr.StripUnique | src/df_eval/expr.py:40 | whenever a text is whitespace, a trimmed non-empty middle and whitespace, the parsed form is that middle |
| Expr.LStripUnique | src/df_eval/expr.py:40 | leading whitespace up to the first non-space character is exactly what is cut from the front |
| Expr.RStripUnique | src/df_eval/expr.py:40 | trailing whitespace after the last non-space character is exactly what is cut from the back |
| Expr.StripExample | tests/test_expr.py:25-28 | `Expression("  a + b  ")` is parsed to `"a + b"` |
| Expr.Expression.Parsed | src/df_eval/expr.py:19-40 | the parsed copy `__init__` stores is the stripped text: no longer than the text, trimmed, and unchanged when parsed again |
| Expr.Expression.Str | src/df_eval/expr.py:46-48 | `str` is the text as given, not the stripped copy, and stripping it gives the parsed copy |
| Expr.Expression.Repr | src/df_eval/expr.py:42-44 | `repr` is `Expression('`, then the whole text unescaped, then `')`, and is 14 characters longer than the text |
| Expr.ReprRoundTrip | src/df_eval/expr.py:42-48 | the text can be read back out of `repr` exactly, and it is what `str` returns |
| Expr.ReprInjective | src/df_eval/expr.py:42-44 | two expressions with the same `repr` have the same text |
| Expr.ReprExample | tests/test_expr.py:13-22 | `repr` of `y - 1` is `Expression('y - 1')`; `str` of `x * 2` is `x * 2` |
| Functions.Coalesce | src/df_eval/functions.py:25-38 | the result is `None` exactly when every argument is `None` or NaN; it is never NaN; otherwise it is an argument with only missing arguments before it |
| Functions.CoalesceFirstPresent | src/df_eval/functions.py:35-37 | when argument `i` is the first present one, the result is argument `i` |
| Functions.CoalesceExamples | tests/test_functions.py:30-52 | the coalesce examples, including no arguments at all |
| Functions.ClipValue | src/df_eval/functions.py:41-57 | the result is `min(max(value, min_val), max_val)` with absent bounds skipped: a value below a proper range gives the minimum; a value above the maximum, or any value when the minimum exceeds the maximum, gives the maximum; a value in range and a call with no bounds give the value; the result never exceeds a given maximum |
| Functions.ClipInvertedRange | src/df_eval/functions.py:53-56 | with a minimum above the maximum the maximum wins, because it is applied last |
| Functions.ClipIdempotent | src/df_eval/functions.py:41-57 | for any bounds, inverted ones included, clipping a clipped value changes nothing |
| Functions.ClipExamples | tests/test_functions.py:54-77 | the clip examples |
| Functions.BuiltinNames | src/df_eval/functions.py:60-65 | the built-in registry holds exactly `safe_divide`, `coalesce` and `clip`; `clip` is bound to `clip_value` and the other two to the function of their own name |
| Lookup.DictResolver.Resolve | src/df_eval/lookup.py:80-82 | never raises; returns the mapped value for a key in the mapping and the default for any other key |
| Lookup.NewDictResolver | src/df_eval/lookup.py:69-78 | a dictionary resolver built without a default answers the mapped value for a key in the mapping and `None` for any other key |
| Lookup.DatabaseResolver.Resolve | src/df_eval/lookup.py:140-147 | every call raises |
| Lookup.HTTPResolver.Resolve | src/df_eval/lookup.py:164-171 | every call raises |
| Lookup.CachedResolver.constructor | src/df_eval/lookup.py:34-44 | stores the wrapped resolver and the time to live, with an empty cache |
| Lookup.CachedResolver.Resolve | src/df_eval/lookup.py:46-59 | a fresh entry is returned and nothing changes, and the wrapped resolver is not called; otherwise the wrapped resolver is called once, a returned value (`None` too) is stored with the current time, and an error leaves the cache as it was; a coherent cache stays coherent and the answer is always the wrapped resolver's |
| Lookup.CachedResolver.ClearCache | src/df_eval/lookup.py:61-63 | the cache is empty, so no key is fresh at any time |
| Lookup.CachedResolverScenario | tests/test_lookup.py:24-51 | resolving 5 with a one-second time to live: the first call reaches the wrapped resolver, a second call at the same time is a hit, and a call after clearing is a miss, as in the test; the model adds a call one second later, which is a miss too; every answer is 10 |
| Lookup.HandleKey | src/df_eval/lookup.py:194-208 | a value that is not `None` is emitted under every policy; for `None` or an error, `raise` aborts (naming the key, or passing on the resolver's error), `keep` emits the key and any other policy emits `None`; it aborts exactly when the key is missing and the policy is `raise` |
| Lookup.Lookup | src/df_eval/lookup.py:174-210 | the policy defaults to `null`; succeeds exactly when no key aborts, and then gives one value per key, in order, each the key's outcome; on failure it returns the error of the first aborting key and resolves no key after it |
| Lookup.LookupKeepDict | tests/test_lookup.py:99-108 | `keep` over a dictionary resolver gives the mapped value, or the key when the key is absent or maps to `None` |
| Lookup.LookupPlaceholder | tests/test_lookup.py:120-132 | with a placeholder backend `null` yields `None`, `keep` yields the key and `raise` aborts |
| Lookup.CachedResolveTransparent | src/df_eval/lookup.py:51-54 | when the cache agrees with the wrapped resolver, answering any cached key from the cache gives the same lookup outcome as asking the resolver |
| Lookup.LookupScenario | tests/test_lookup.py:88-117 | keys `a`, `b`, `x` over `{a: 1, b: 2}`: `null` gives 1, 2, `None`; `keep` gives 1, 2, `x`; `raise` fails naming `x` |
| StringOrder.BelowReflexive | src/df_eval/engine.py:221 | the string order used by the sort is reflexive |
| StringOrder.BelowAntisymmetric | src/df_eval/engine.py:221 | two strings each at most the other are equal |
| StringOrder.BelowTransitive | src/df_eval/engine.py:221 | the string order is transitive |
| StringOrder.BelowTotal | src/df_eval/engine.py:221 | any two strings are comparable |
| StringOrder.SmallestUnique | src/df_eval/engine.py:221-222 | a set has at most one smallest name, so the name popped after sorting is determined |
| Schedule.DependencyGraph | src/df_eval/engine.py:207-212 | the nodes are the schema columns; a column's prerequisites are exactly the names it references that are schema columns |
| Schedule.ScheduleFromSound | src/df_eval/engine.py:219-231 | continuing the run from a valid prefix gives a duplicate-free order with every column after its prerequisites, and no column is ready when it stops |
| Schedule.ScheduleFromGreedy | src/df_eval/engine.py:219-231 | every column the run appends is the smallest of those ready at that point |
| Schedule.KahnOrderSound | src/df_eval/engine.py:219-231 | the run's order lists no column twice, puts every column after its prerequisites, and stops only when nothing is ready |
| Schedule.KahnOrderGreedy | src/df_eval/engine.py:219-223 | the column at each position is the smallest one ready after the columns before it |
| Schedule.FullIffCovering | src/df_eval/engine.py:234 | for a valid order, the length check equals "every column was scheduled" |
| Schedule.TopoSpecOk | src/df_eval/engine.py:234-240 | a successful sort returns a topological order holding every schema column exactly once |
| Schedule.TopoSpecCycle | src/df_eval/engine.py:234-238 | a failed sort reports a non-empty set; the reported set and the scheduled columns split the schema; each reported column waits on a reported column, possibly itself |
| Schedule.TopoSpecOkIffOrderable | src/df_eval/engine.py:178-240 | the sort succeeds if and only if the graph has some topological order |
| Schedule.MutualDependencyNeverScheduled | tests/test_engine_enhanced.py:64-75 | two columns that reference each other are never scheduled; the sort fails and reports both |
| Schedule.ChainScenario | tests/test_engine_enhanced.py:47-61 | `b = a * 2`, `c = b + 10`, `d = c * a` are ordered b, c, d; the base column `a` is no node |
| Schedule.CycleScenario | tests/test_engine_enhanced.py:64-75 | `b = c + 1`, `c = b + 1` fails with both columns reported |
| Schedule.TieBreakScenario | src/df_eval/engine.py:220-222 | two independent columns come out in alphabetical order |
| Schedule.PopSmallest | src/df_eval/engine.py:221-222 | the popped name is the smallest of the queue, and the rest of the queue is kept |
| Schedule.ReleaseDependents | src/df_eval/engine.py:227-231 | each column that depends on the scheduled column loses one unmet prerequisite and joins the queue when none is left; every other count and queue entry is unchanged |
| Schedule.BuildGraph | src/df_eval/engine.py:198-212 | the graph is the dependency graph of the schema, and each count is the number of the column's prerequisites |
| Schedule.TopologicalSort | src/df_eval/engine.py:178-240 | the result is exactly `TopoSpec`: Kahn's order with the smallest ready name first, or the cycle error with the unscheduled columns |
| Engine.WithColumn | src/df_eval/engine.py:167 | assigning a column replaces its values; an existing column keeps its place and a new one goes last; a well-formed frame stays well-formed |
| Engine.ErrorMessage | src/df_eval/engine.py:100 | the message starts with the fixed words, then holds the expression text in quotes, and ends with the cause |
| Engine.Evaluate | src/df_eval/engine.py:66-100 | succeeds exactly when the evaluator does and with its column; otherwise a `ValueError` carrying the expression text and the evaluator's message |
| Engine.ToExpression | src/df_eval/engine.py:153-158 | text becomes an expression with that text and the names it references; an expression object is kept |
| Engine.Expressions | src/df_eval/engine.py:153-158 | every schema column, and only those, gets the expression of its entry |
| Engine.Start | src/df_eval/engine.py:144-150 | the copy has the frame's columns; with tracking on it has a provenance map, a new empty one only when there was none |
| Engine.Step | src/df_eval/engine.py:164-174 | one iteration of the loop: a successful step keeps a well-formed frame well-formed, and keeps a provenance map when tracking is on |
| Engine.EvalColumns | src/df_eval/engine.py:164-174 | the loop over the order, stopping at the first failure: a successful run keeps a well-formed frame well-formed, and keeps a provenance map when tracking is on |
| Engine.ApplySchemaSpec | src/df_eval/engine.py:121-176 | `apply_schema` as a function: the scheduler's cycle error, or the evaluation loop over the schedule; a successful result of a well-formed frame is well-formed and has a provenance map when tracking is on |
| Engine.StepData | src/df_eval/engine.py:164-167 | one evaluation step adds its column and changes no other column |
| Engine.EvalColumnsKeys | src/df_eval/engine.py:164-174 | a successful loop adds exactly the columns of the order |
| Engine.EvalColumnsUnchanged | src/df_eval/engine.py:164-174 | a successful loop leaves every column outside the order as it was |
| Engine.EvalColumnsKeepsLayout | src/df_eval/engine.py:164-174 | a successful loop keeps the existing columns in place, the new ones after them |
| Engine.EvalColumnsProvenance | src/df_eval/engine.py:169-174 | with tracking off the provenance is untouched; with tracking on each column of the order gets its expression's entry and other entries stay |
| Engine.EvalColumnsComputes | src/df_eval/engine.py:164-167 | column `order[i]` holds what the evaluator made of the frame after the columns before it |
| Engine.EvalColumnsFailure | src/df_eval/engine.py:164-167 | a failed loop failed at some position: every earlier column succeeded and that column's evaluation raised the reported error |
| Engine.ApplySchemaCycle | src/df_eval/engine.py:161 | `apply_schema` raises `CycleDetectedError` exactly when the scheduler fails, with the scheduler's unscheduled columns |
| Engine.ApplySchemaValueError | src/df_eval/engine.py:164-167 | a `ValueError` comes from the first scheduled column whose evaluation failed, carries its expression text, and every column before it was computed |
| Engine.ApplySchemaColumns | src/df_eval/engine.py:144-176 | the result is well-formed and its columns are exactly the input columns plus the schema columns; every input column keeps its place at the front; input columns the schema does not redefine keep their values (a redefined one stays in place with its new value) |
| Engine.ApplySchemaProvenance | src/df_eval/engine.py:148-174 | with tracking off the provenance is as given; with tracking on it is the earlier map (or an empty one) plus one entry per schema column with its text and dependencies |
| Engine.ApplySchemaEvaluatesInOrder | src/df_eval/engine.py:161-167 | each schema column is computed by the evaluator from the input columns plus the columns scheduled before it, and every schema column it references is among those |
| Engine.BuildExpressions | src/df_eval/engine.py:153-158 | the loop builds the expression map of the schema |
| Engine.Engine.constructor | src/df_eval/engine.py:31-35 | a new engine has a copy of the built-ins, no constants and tracking off |
| Engine.Engine.EnableProvenance | src/df_eval/engine.py:37-44 | only the tracking flag changes |
| Engine.Engine.RegisterFunction | src/df_eval/engine.py:46-54 | one registry entry is added or replaced; nothing else changes |
| Engine.Engine.RegisterConstant | src/df_eval/engine.py:56-64 | one constant is added or replaced; nothing else changes |
| Engine.Engine.ApplySchema | src/df_eval/engine.py:121-176 | the outcome is `ApplySchemaSpec` for this engine's constants and tracking flag |
| Engine.Engine.EvaluateInOrder | src/df_eval/engine.py:164-174 | the loop's outcome is the evaluation of the columns in order, stopping at the first failure |
| Engine.Engine.EvaluateMany | src/df_eval/engine.py:102-119 | the same outcome as `apply_schema` without dtypes |
| Engine.RegistryIsolation | src/df_eval/engine.py:31-54 | registering a function on one engine leaves another engine's registry as the built-ins |

## Left out

- The dependency extractor. `src/df_eval/expr.py` as it stands defines no
  `dependencies` attribute and no `Expression.parse`, although
  `engine.py:173` and `engine.py:209` and `tests/test_expr_enhanced.py` use
  them. The model takes the extractor as a parameter `extract` from text to
  a set of names, and an expression object carries its set as a field.
- `df.eval` and `astype`: pandas' expression evaluation and dtype cast are
  the `Evaluator` function parameter. Arithmetic, column types and the
  index are not modelled.
- `Engine.evaluate` is the module-level `Engine.Evaluate`, with the
  engine's constants passed in. For a text it behaves like the conversion in
  `apply_schema`.
- The function registry is never passed to `df.eval` in the source, so the
  model only records it.
- `time.time()` becomes the parameter `now`, an integer. The float time to
  live becomes an integer.
- `clip_value` is modelled on integers, and `coalesce` on `None`, NaN and
  integers. numpy arrays and broadcasting are left out.
- `safe_divide` and `FileResolver` are not part of this model; they are
  floating point and file I/O.
- The database and HTTP resolvers are placeholders that always raise, and
  they are modelled that way.
- A frame is a value. `df.copy()` and the sharing of `attrs` between a frame
  and its copy are not modelled as aliasing.
- Engine.ApplySchemaProvenance: the `dependencies` list of a provenance
  entry is modelled as a set, because its order comes from a Python set.
- Lookup.Lookup: the ghost `calls` counts resolver calls; the pandas Series
  index of the result is not modelled.
- Lookup.CachedResolver.Resolve: the cache keys are the model's `Value`, not
  any hashable Python object.
- The `CycleDetectedError` message text is not modelled. The error carries
  the set of remaining columns instead.
- The `existing_cols` argument of `_topological_sort` is unused by the
  source and is left out.
- Schedule.TopologicalSort: the ready list is modelled as a set. Sorting it
  and popping the head is taking its smallest element. The list never holds
  a duplicate, because a column reaches zero unmet prerequisites once.
- The loops of `_topological_sort` and `apply_schema` are split into helper
  methods (`BuildGraph`, `ReleaseDependents`, `EvaluateInOrder`,
  `BuildExpressions`), each proved against its own contract.
- `Expression(expr_str)` is the datatype constructor. The parsed copy is the
  member `Parsed`, computed from the text, so no expression can carry a
  parsed copy that differs from its stripped text.
- Lookup.CachedResolver.Resolve: the wrapped resolver is a fixed function
  of the key, so a stale hit cannot be observed. In Python a resolver can
  change its answers (a stateful resolver, or a dictionary the caller
  mutates), and a hit within the time to live can then differ from what the
  resolver now gives. The coherence clauses of `Resolve`, and
  `CachedResolveTransparent`, hold only because the resolver is fixed.
- Concurrency is not modelled.
