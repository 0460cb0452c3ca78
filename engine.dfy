/**
 * The evaluation engine of src/df_eval/engine.py: the registries an
 * `Engine` owns, the wrapping of evaluation failures, and `apply_schema`,
 * which adds derived columns to a copy of a frame in dependency order and
 * optionally records their provenance.
 *
 * A frame is a value: `df.copy()` gives the schema's results their own
 * frame, so the caller's frame is never changed.  The pandas expression
 * evaluator (`df.eval` with the constants as resolvers, followed by the
 * optional `astype` cast) is a function parameter `Evaluator`.
 */
module Engine {
  import opened Wrappers
  import opened Values
  import opened Expr
  import opened Functions
  import opened Schedule

  /** The values of one column, row by row. */
  type Column = seq<Value>

  /**
   * `df.eval(expr_str, resolvers=[constants])` followed by the optional
   * dtype cast: the columns visible to the expression, the engine's
   * constants, the expression text and the requested dtype, giving the new
   * column or the message of the exception pandas raised.
   */
  type Evaluator = (map<string, Column>, map<string, Value>, string, Option<string>) -> Result<Column, string>

  /** One `df_eval_provenance` entry: the expression text and its dependencies. */
  datatype ProvenanceEntry = ProvenanceEntry(expression: string, dependencies: set<string>)

  /**
   * A data frame: its column names in order, the column values, and the
   * `df_eval_provenance` entry of its `attrs`, absent or a map from column
   * name to entry.
   */
  datatype Frame = Frame(columns: seq<string>, data: map<string, Column>, provenance: Option<map<string, ProvenanceEntry>>)

  /** The errors `apply_schema` raises. */
  datatype EngineError =
    | CycleDetectedError(remaining: set<string>)
    | ValueError(expression: string, cause: string)

  /** A schema value: expression text, or an already built `Expression`. */
  datatype SchemaEntry = Text(text: string) | Compiled(expr: Expression)

  /** Every column name is listed once, and the listed names are the columns with data. */
  predicate WellFormed(f: Frame)
  {
    NoDup(f.columns) && Elems(f.columns) == f.data.Keys
  }

  /**
   * `result[col_name] = values`: an existing column is replaced where it
   * stands, a new one is appended at the end.
   */
  function WithColumn(f: Frame, name: string, col: Column): (r: Frame)
    ensures WellFormed(f) ==> WellFormed(r)
    ensures r.data == f.data[name := col] && r.provenance == f.provenance
    ensures name in f.data ==> r.columns == f.columns
    ensures name !in f.data ==> r.columns == f.columns + [name]
  {
    var columns := if name in f.data then f.columns else f.columns + [name];
    ElemsAppend(f.columns, name);
    Frame(columns, f.data[name := col], f.provenance)
  }

  /** The opening words of every evaluation failure message. */
  const FailurePrefix := "Failed to evaluate expression '"

  /**
   * The text of a `ValueError`: the opening words, the expression that
   * failed in quotes, then the cause.
   */
  function ErrorMessage(err: EngineError): (msg: string)
    requires err.ValueError?
    ensures |msg| == |FailurePrefix| + |err.expression| + 3 + |err.cause|
    ensures msg[..|FailurePrefix|] == FailurePrefix
    ensures msg[|FailurePrefix|..|FailurePrefix| + |err.expression|] == err.expression
    ensures msg[|FailurePrefix| + |err.expression|..|msg| - |err.cause|] == "': "
    ensures msg[|msg| - |err.cause|..] == err.cause
  {
    FailurePrefix + err.expression + "': " + err.cause
  }

  /**
   * `Engine.evaluate(df, expr, dtype)` with the engine's `constants`: the
   * evaluated column, or a `ValueError` that carries the expression text
   * and the underlying message.
   */
  function Evaluate(constants: map<string, Value>, data: map<string, Column>, e: Expression,
                    dtype: Option<string>, eval: Evaluator): (r: Result<Column, EngineError>)
    ensures r.Ok? <==> eval(data, constants, e.exprStr, dtype).Ok?
    ensures r.Ok? ==> r.value == eval(data, constants, e.exprStr, dtype).value
    ensures r.Err? ==> r == Err(ValueError(e.exprStr, eval(data, constants, e.exprStr, dtype).error))
  {
    match eval(data, constants, e.exprStr, dtype)
    case Ok(col) => Ok(col)
    case Err(cause) => Err(ValueError(e.exprStr, cause))
  }

  /**
   * `Expression(expr)` for text, the object itself otherwise.  The names an
   * expression text references are found by `extract`, whose code is not
   * part of this model.
   */
  function ToExpression(entry: SchemaEntry, extract: string -> set<string>): (e: Expression)
    ensures entry.Compiled? ==> e == entry.expr
    ensures entry.Text? ==> e.exprStr == entry.text && e.dependencies == extract(entry.text)
  {
    match entry
    case Text(text) => Expression(text, extract(text))
    case Compiled(e) => e
  }

  /** `dtypes or {}`. */
  function DtypeMap(dtypes: Option<map<string, string>>): map<string, string>
  {
    if dtypes.Some? then dtypes.value else map[]
  }

  /** `dtypes.get(col_name)`. */
  function DtypeOf(dtypes: map<string, string>, name: string): Option<string>
  {
    if name in dtypes then Some(dtypes[name]) else None
  }

  /** The provenance entry recorded for a column computed from `e`. */
  function EntryOf(e: Expression): ProvenanceEntry
  {
    ProvenanceEntry(e.exprStr, e.dependencies)
  }

  /** One iteration of the evaluation loop: compute column `c`, store it, and record its provenance. */
  function Step(f: Frame, c: string, exprs: map<string, Expression>, dtypes: map<string, string>,
                constants: map<string, Value>, track: bool, eval: Evaluator): (r: Result<Frame, EngineError>)
    requires c in exprs && (track ==> f.provenance.Some?)
    ensures r.Ok? ==> (WellFormed(f) ==> WellFormed(r.value)) && (track ==> r.value.provenance.Some?)
  {
    match Evaluate(constants, f.data, exprs[c], DtypeOf(dtypes, c), eval)
    case Err(err) => Err(err)
    case Ok(col) =>
      var g := WithColumn(f, c, col);
      if track then Ok(g.(provenance := Some(g.provenance.value[c := EntryOf(exprs[c])]))) else Ok(g)
  }

  /** The evaluation loop of `apply_schema` over the columns of `order`, stopping at the first failure. */
  function EvalColumns(f: Frame, order: seq<string>, exprs: map<string, Expression>, dtypes: map<string, string>,
                       constants: map<string, Value>, track: bool, eval: Evaluator): (r: Result<Frame, EngineError>)
    requires Elems(order) <= exprs.Keys && (track ==> f.provenance.Some?)
    ensures r.Ok? ==> (WellFormed(f) ==> WellFormed(r.value)) && (track ==> r.value.provenance.Some?)
    decreases |order|
  {
    if order == [] then
      Ok(f)
    else
      ElemsAppend([order[0]], order[0]);
      assert order[0] in Elems(order);
      assert Elems(order[1..]) <= Elems(order);
      match Step(f, order[0], exprs, dtypes, constants, track, eval)
      case Err(err) => Err(err)
      case Ok(g) => EvalColumns(g, order[1..], exprs, dtypes, constants, track, eval)
  }

  /** The schema with every entry turned into an `Expression`. */
  function Expressions(schema: map<string, SchemaEntry>, extract: string -> set<string>): (exprs: map<string, Expression>)
    ensures exprs.Keys == schema.Keys
    ensures forall c :: c in schema ==> exprs[c] == ToExpression(schema[c], extract)
  {
    map c | c in schema :: ToExpression(schema[c], extract)
  }

  /** The copy `apply_schema` works on, with an empty provenance map added when tracking finds none. */
  function Start(df: Frame, track: bool): (f: Frame)
    ensures f.columns == df.columns && f.data == df.data
    ensures track ==> f.provenance.Some?
    ensures df.provenance.Some? || !track ==> f.provenance == df.provenance
    ensures df.provenance.None? && track ==> f.provenance == Some(map[])
  {
    if track && df.provenance.None? then df.(provenance := Some(map[])) else df
  }

  /**
   * `apply_schema(df, schema, dtypes)` on an engine with `constants` and
   * provenance tracking `track`: schedule the schema's columns, then
   * evaluate them in that order against the growing copy of `df`.
   */
  ghost function ApplySchemaSpec(df: Frame, schema: map<string, SchemaEntry>, dtypes: Option<map<string, string>>,
                                 constants: map<string, Value>, track: bool, eval: Evaluator,
                                 extract: string -> set<string>): (r: Result<Frame, EngineError>)
    ensures r.Ok? ==> (WellFormed(df) ==> WellFormed(r.value)) && (track ==> r.value.provenance.Some?)
  {
    var exprs := Expressions(schema, extract);
    var dt := DtypeMap(dtypes);
    match TopoSpec(DependencyGraph(exprs))
    case Err(remaining) => Err(CycleDetectedError(remaining))
    case Ok(order) =>
      TopoSpecOk(DependencyGraph(exprs));
      EvalColumns(Start(df, track), order, exprs, dt, constants, track, eval)
  }

  /** The loop evaluated up to (not including) position `i` of `order`. */
  function Prefix(f: Frame, order: seq<string>, i: nat, exprs: map<string, Expression>, dtypes: map<string, string>,
                  constants: map<string, Value>, track: bool, eval: Evaluator): (r: Result<Frame, EngineError>)
    requires Elems(order) <= exprs.Keys && (track ==> f.provenance.Some?) && i <= |order|
    ensures r.Ok? ==> (WellFormed(f) ==> WellFormed(r.value)) && (track ==> r.value.provenance.Some?)
  {
    PrefixElems(order, i);
    EvalColumns(f, order[..i], exprs, dtypes, constants, track, eval)
  }

  lemma TailElems(s: seq<string>, i: nat)
    requires i <= |s|
    ensures Elems(s[i..]) <= Elems(s)
  {
    forall x | x in Elems(s[i..]) ensures x in Elems(s) {
      var k :| 0 <= k < |s| - i && s[i..][k] == x;
      assert s[i + k] == x;
    }
  }

  lemma ElemsCons(s: seq<string>)
    requires |s| > 0
    ensures Elems(s) == {s[0]} + Elems(s[1..])
  {
    assert s == [s[0]] + s[1..];
    assert forall x :: x in s <==> x == s[0] || x in s[1..];
  }

  /** The loop over `order[i..]` is one step at `order[i]` followed by the loop over `order[i + 1..]`. */
  lemma EvalColumnsAt(f: Frame, order: seq<string>, i: nat, exprs: map<string, Expression>, dtypes: map<string, string>,
                      constants: map<string, Value>, track: bool, eval: Evaluator)
    requires i < |order| && Elems(order) <= exprs.Keys && (track ==> f.provenance.Some?)
    ensures order[i] in exprs && Elems(order[i..]) <= exprs.Keys && Elems(order[i + 1..]) <= exprs.Keys
    ensures match Step(f, order[i], exprs, dtypes, constants, track, eval)
            case Err(err) => EvalColumns(f, order[i..], exprs, dtypes, constants, track, eval) == Err(err)
            case Ok(g) => EvalColumns(f, order[i..], exprs, dtypes, constants, track, eval) == EvalColumns(g, order[i + 1..], exprs, dtypes, constants, track, eval)
  {
    TailElems(order, i);
    TailElems(order, i + 1);
    ElemsCons(order[i..]);
    assert order[i..][1..] == order[i + 1..];
  }

  /**
   * Running the loop over `order` is running it over the first `i` columns
   * and then, unless that failed, over the rest.
   */
  lemma {:induction false} EvalColumnsSplit(f: Frame, order: seq<string>, i: nat, exprs: map<string, Expression>,
                                            dtypes: map<string, string>, constants: map<string, Value>, track: bool, eval: Evaluator)
    requires Elems(order) <= exprs.Keys && (track ==> f.provenance.Some?) && i <= |order|
    ensures Elems(order[i..]) <= exprs.Keys
    ensures match Prefix(f, order, i, exprs, dtypes, constants, track, eval)
            case Err(err) => EvalColumns(f, order, exprs, dtypes, constants, track, eval) == Err(err)
            case Ok(g) => EvalColumns(f, order, exprs, dtypes, constants, track, eval) == EvalColumns(g, order[i..], exprs, dtypes, constants, track, eval)
    decreases i
  {
    TailElems(order, i);
    if i == 0 {
      assert order[..0] == [] && order[0..] == order;
    } else {
      var rest := order[1..];
      TailElems(order, 1);
      assert order[..i] == [order[0]] + rest[..i - 1];
      assert order[..i][1..] == rest[..i - 1];
      assert rest[i - 1..] == order[i..];
      PrefixElems(order, i);
      match Step(f, order[0], exprs, dtypes, constants, track, eval)
      case Err(err) =>
      case Ok(g) =>
        EvalColumnsSplit(g, rest, i - 1, exprs, dtypes, constants, track, eval);
    }
  }

  /** One successful step adds column `c` and changes no other column. */
  lemma StepData(f: Frame, c: string, exprs: map<string, Expression>, dtypes: map<string, string>,
                 constants: map<string, Value>, track: bool, eval: Evaluator)
    requires c in exprs && (track ==> f.provenance.Some?)
    requires Step(f, c, exprs, dtypes, constants, track, eval).Ok?
    ensures var h := Step(f, c, exprs, dtypes, constants, track, eval).value;
      && h.data.Keys == f.data.Keys + {c}
      && (forall d :: d in f.data && d != c ==> h.data[d] == f.data[d])
      && |f.columns| <= |h.columns| && h.columns[..|f.columns|] == f.columns
  {
  }

  /** A successful loop adds exactly the columns of `order`. */
  lemma {:induction false} EvalColumnsKeys(f: Frame, order: seq<string>, exprs: map<string, Expression>, dtypes: map<string, string>,
                                           constants: map<string, Value>, track: bool, eval: Evaluator)
    requires Elems(order) <= exprs.Keys && (track ==> f.provenance.Some?)
    requires EvalColumns(f, order, exprs, dtypes, constants, track, eval).Ok?
    ensures EvalColumns(f, order, exprs, dtypes, constants, track, eval).value.data.Keys == f.data.Keys + Elems(order)
    decreases |order|
  {
    if order == [] {
      assert Elems(order) == {};
    } else {
      var rest := order[1..];
      TailElems(order, 1);
      ElemsCons(order);
      EvalColumnsAt(f, order, 0, exprs, dtypes, constants, track, eval);
      assert order[0..] == order;
      StepData(f, order[0], exprs, dtypes, constants, track, eval);
      var h := Step(f, order[0], exprs, dtypes, constants, track, eval).value;
      EvalColumnsKeys(h, rest, exprs, dtypes, constants, track, eval);
      var g := EvalColumns(h, rest, exprs, dtypes, constants, track, eval).value;
      calc {
        g.data.Keys;
        h.data.Keys + Elems(rest);
        f.data.Keys + {order[0]} + Elems(rest);
        f.data.Keys + Elems(order);
      }
    }
  }

  /** A successful loop leaves the values of every column outside `order` alone. */
  lemma {:induction false} EvalColumnsUnchanged(f: Frame, order: seq<string>, exprs: map<string, Expression>, dtypes: map<string, string>,
                                                constants: map<string, Value>, track: bool, eval: Evaluator, c: string)
    requires Elems(order) <= exprs.Keys && (track ==> f.provenance.Some?)
    requires EvalColumns(f, order, exprs, dtypes, constants, track, eval).Ok?
    requires c in f.data && c !in Elems(order)
    ensures c in EvalColumns(f, order, exprs, dtypes, constants, track, eval).value.data
    ensures EvalColumns(f, order, exprs, dtypes, constants, track, eval).value.data[c] == f.data[c]
    decreases |order|
  {
    if order != [] {
      var rest := order[1..];
      TailElems(order, 1);
      ElemsCons(order);
      StepData(f, order[0], exprs, dtypes, constants, track, eval);
      var h := Step(f, order[0], exprs, dtypes, constants, track, eval).value;
      EvalColumnsUnchanged(h, rest, exprs, dtypes, constants, track, eval, c);
    }
  }

  /** A successful loop keeps the existing columns where they were; new ones go after them. */
  lemma {:induction false} EvalColumnsKeepsLayout(f: Frame, order: seq<string>, exprs: map<string, Expression>, dtypes: map<string, string>,
                                                  constants: map<string, Value>, track: bool, eval: Evaluator)
    requires Elems(order) <= exprs.Keys && (track ==> f.provenance.Some?)
    requires EvalColumns(f, order, exprs, dtypes, constants, track, eval).Ok?
    ensures var g := EvalColumns(f, order, exprs, dtypes, constants, track, eval).value;
      |f.columns| <= |g.columns| && g.columns[..|f.columns|] == f.columns
    decreases |order|
  {
    if order != [] {
      var rest := order[1..];
      TailElems(order, 1);
      StepData(f, order[0], exprs, dtypes, constants, track, eval);
      var h := Step(f, order[0], exprs, dtypes, constants, track, eval).value;
      EvalColumnsKeepsLayout(h, rest, exprs, dtypes, constants, track, eval);
      var g := EvalColumns(h, rest, exprs, dtypes, constants, track, eval).value;
      assert g.columns[..|f.columns|] == g.columns[..|h.columns|][..|f.columns|];
    }
  }

  /**
   * A successful loop leaves the provenance map alone when tracking is off;
   * when it is on, every column of `order` gets the entry of its expression
   * and every other entry stays.
   */
  lemma {:induction false} EvalColumnsProvenance(f: Frame, order: seq<string>, exprs: map<string, Expression>, dtypes: map<string, string>,
                                                 constants: map<string, Value>, track: bool, eval: Evaluator)
    requires Elems(order) <= exprs.Keys && (track ==> f.provenance.Some?)
    requires EvalColumns(f, order, exprs, dtypes, constants, track, eval).Ok?
    ensures var g := EvalColumns(f, order, exprs, dtypes, constants, track, eval).value;
      && (!track ==> g.provenance == f.provenance)
      && (track ==> g.provenance.value.Keys == f.provenance.value.Keys + Elems(order))
      && (track ==> forall c :: c in Elems(order) ==> g.provenance.value[c] == EntryOf(exprs[c]))
      && (track ==> forall c :: c in f.provenance.value && c !in Elems(order) ==> g.provenance.value[c] == f.provenance.value[c])
    decreases |order|
  {
    if order == [] {
      assert Elems(order) == {};
    } else {
      var rest := order[1..];
      TailElems(order, 1);
      ElemsCons(order);
      var h := Step(f, order[0], exprs, dtypes, constants, track, eval).value;
      EvalColumnsProvenance(h, rest, exprs, dtypes, constants, track, eval);
    }
  }

  /**
   * In a successful loop over distinct columns, column `order[i]` holds what
   * the evaluator produced from the frame as it stood after the columns
   * before it: the input columns plus `order[..i]`.
   */
  lemma EvalColumnsComputes(f: Frame, order: seq<string>, exprs: map<string, Expression>, dtypes: map<string, string>,
                            constants: map<string, Value>, track: bool, eval: Evaluator, i: nat)
    requires Elems(order) <= exprs.Keys && (track ==> f.provenance.Some?)
    requires NoDup(order) && i < |order|
    requires EvalColumns(f, order, exprs, dtypes, constants, track, eval).Ok?
    ensures order[i] in EvalColumns(f, order, exprs, dtypes, constants, track, eval).value.data
    ensures Prefix(f, order, i, exprs, dtypes, constants, track, eval).Ok?
    ensures var env := Prefix(f, order, i, exprs, dtypes, constants, track, eval).value.data;
      && env.Keys == f.data.Keys + Elems(order[..i])
      && eval(env, constants, exprs[order[i]].exprStr, DtypeOf(dtypes, order[i])).Ok?
      && EvalColumns(f, order, exprs, dtypes, constants, track, eval).value.data[order[i]]
         == eval(env, constants, exprs[order[i]].exprStr, DtypeOf(dtypes, order[i])).value
  {
    EvalColumnsKeys(f, order, exprs, dtypes, constants, track, eval);
    EvalColumnsSplit(f, order, i, exprs, dtypes, constants, track, eval);
    PrefixElems(order, i);
    var p := Prefix(f, order, i, exprs, dtypes, constants, track, eval).value;
    EvalColumnsKeys(f, order[..i], exprs, dtypes, constants, track, eval);
    var tail := order[i..];
    TailElems(order, i);
    assert tail[0] == order[i] && tail[1..] == order[i + 1..];
    var h := Step(p, order[i], exprs, dtypes, constants, track, eval).value;
    TailElems(order, i + 1);
    forall k | i + 1 <= k < |order| ensures order[k] != order[i] {
    }
    assert order[i] !in Elems(order[i + 1..]);
    EvalColumnsUnchanged(h, order[i + 1..], exprs, dtypes, constants, track, eval, order[i]);
  }

  /**
   * The loop reached column `order[i]` with every earlier column computed,
   * and evaluating it raised `err`.
   */
  predicate FailsAt(f: Frame, order: seq<string>, exprs: map<string, Expression>, dtypes: map<string, string>,
                    constants: map<string, Value>, track: bool, eval: Evaluator, i: nat, err: EngineError)
    requires Elems(order) <= exprs.Keys && (track ==> f.provenance.Some?) && i < |order|
  {
    PrefixElems(order, i);
    assert order[i] in Elems(order);
    && Prefix(f, order, i, exprs, dtypes, constants, track, eval).Ok?
    && Evaluate(constants, Prefix(f, order, i, exprs, dtypes, constants, track, eval).value.data,
                exprs[order[i]], DtypeOf(dtypes, order[i]), eval) == Err(err)
  }

  /**
   * A failed loop failed at some column `order[i]`: the columns before it
   * succeeded, and its evaluation raised the reported `ValueError`.
   */
  lemma {:induction false} EvalColumnsFailure(f: Frame, order: seq<string>, exprs: map<string, Expression>, dtypes: map<string, string>,
                                              constants: map<string, Value>, track: bool, eval: Evaluator)
    requires Elems(order) <= exprs.Keys && (track ==> f.provenance.Some?)
    requires EvalColumns(f, order, exprs, dtypes, constants, track, eval).Err?
    ensures var err := EvalColumns(f, order, exprs, dtypes, constants, track, eval).error;
      exists i :: 0 <= i < |order| && FailsAt(f, order, exprs, dtypes, constants, track, eval, i, err)
    decreases |order|
  {
    var rest := order[1..];
    TailElems(order, 1);
    assert order[..0] == [];
    match Step(f, order[0], exprs, dtypes, constants, track, eval)
    case Err(err) =>
      assert Prefix(f, order, 0, exprs, dtypes, constants, track, eval) == Ok(f);
      assert FailsAt(f, order, exprs, dtypes, constants, track, eval, 0, err);
    case Ok(h) =>
      var err := EvalColumns(h, rest, exprs, dtypes, constants, track, eval).error;
      EvalColumnsFailure(h, rest, exprs, dtypes, constants, track, eval);
      var j :| 0 <= j < |rest| && FailsAt(h, rest, exprs, dtypes, constants, track, eval, j, err);
      assert order[..j + 1][1..] == rest[..j];
      assert Prefix(f, order, j + 1, exprs, dtypes, constants, track, eval) == Prefix(h, rest, j, exprs, dtypes, constants, track, eval);
      assert order[j + 1] == rest[j];
      assert FailsAt(f, order, exprs, dtypes, constants, track, eval, j + 1, err);
  }

  /** The schedule `apply_schema` follows for `schema`. */
  ghost function ScheduleOf(schema: map<string, SchemaEntry>, extract: string -> set<string>): Result<seq<string>, set<string>>
  {
    TopoSpec(DependencyGraph(Expressions(schema, extract)))
  }

  /**
   * `apply_schema` raises `CycleDetectedError` exactly when the scheduler
   * does, with the scheduler's set of unscheduled columns.
   */
  lemma ApplySchemaCycle(df: Frame, schema: map<string, SchemaEntry>, dtypes: Option<map<string, string>>,
                         constants: map<string, Value>, track: bool, eval: Evaluator, extract: string -> set<string>)
    ensures var r := ApplySchemaSpec(df, schema, dtypes, constants, track, eval, extract);
      (r.Err? && r.error.CycleDetectedError?) <==> ScheduleOf(schema, extract).Err?
    ensures ScheduleOf(schema, extract).Err? ==>
      ApplySchemaSpec(df, schema, dtypes, constants, track, eval, extract) == Err(CycleDetectedError(ScheduleOf(schema, extract).error))
  {
    var exprs := Expressions(schema, extract);
    var g := DependencyGraph(exprs);
    if TopoSpec(g).Ok? {
      TopoSpecOk(g);
      var order := TopoSpec(g).value;
      var start := Start(df, track);
      if EvalColumns(start, order, exprs, DtypeMap(dtypes), constants, track, eval).Err? {
        EvalColumnsFailure(start, order, exprs, DtypeMap(dtypes), constants, track, eval);
      }
    }
  }

  /**
   * A `ValueError` from `apply_schema` comes from the first schema column,
   * in schedule order, whose evaluation failed: it carries that column's
   * expression text, and every column scheduled before it was computed.
   */
  lemma ApplySchemaValueError(df: Frame, schema: map<string, SchemaEntry>, dtypes: Option<map<string, string>>,
                              constants: map<string, Value>, track: bool, eval: Evaluator, extract: string -> set<string>)
    requires ApplySchemaSpec(df, schema, dtypes, constants, track, eval, extract).Err?
    requires ApplySchemaSpec(df, schema, dtypes, constants, track, eval, extract).error.ValueError?
    ensures ScheduleOf(schema, extract).Ok? && Elems(ScheduleOf(schema, extract).value) == schema.Keys
    ensures var order := ScheduleOf(schema, extract).value;
      var err := ApplySchemaSpec(df, schema, dtypes, constants, track, eval, extract).error;
      exists i :: 0 <= i < |order| && order[i] in schema &&
        err.expression == ToExpression(schema[order[i]], extract).exprStr &&
        FailsAt(Start(df, track), order, Expressions(schema, extract), DtypeMap(dtypes), constants, track, eval, i, err)
  {
    var exprs := Expressions(schema, extract);
    var g := DependencyGraph(exprs);
    ApplySchemaCycle(df, schema, dtypes, constants, track, eval, extract);
    TopoSpecOk(g);
    var order := TopoSpec(g).value;
    var start := Start(df, track);
    var err := ApplySchemaSpec(df, schema, dtypes, constants, track, eval, extract).error;
    EvalColumnsFailure(start, order, exprs, DtypeMap(dtypes), constants, track, eval);
    var i :| 0 <= i < |order| && FailsAt(start, order, exprs, DtypeMap(dtypes), constants, track, eval, i, err);
    assert order[i] in Elems(order);
  }

  /**
   * A successful `apply_schema` returns every input column, unchanged and
   * where it was, plus every schema column, and nothing else.
   */
  lemma ApplySchemaColumns(df: Frame, schema: map<string, SchemaEntry>, dtypes: Option<map<string, string>>,
                           constants: map<string, Value>, track: bool, eval: Evaluator, extract: string -> set<string>)
    requires WellFormed(df)
    requires ApplySchemaSpec(df, schema, dtypes, constants, track, eval, extract).Ok?
    ensures ScheduleOf(schema, extract).Ok?
    ensures var out := ApplySchemaSpec(df, schema, dtypes, constants, track, eval, extract).value;
      && WellFormed(out)
      && out.data.Keys == df.data.Keys + schema.Keys
      && (forall c :: c in df.data && c !in schema ==> out.data[c] == df.data[c])
      && |df.columns| <= |out.columns| && out.columns[..|df.columns|] == df.columns
  {
    var exprs := Expressions(schema, extract);
    var g := DependencyGraph(exprs);
    ApplySchemaCycle(df, schema, dtypes, constants, track, eval, extract);
    TopoSpecOk(g);
    var order := TopoSpec(g).value;
    var start := Start(df, track);
    EvalColumnsKeys(start, order, exprs, DtypeMap(dtypes), constants, track, eval);
    EvalColumnsKeepsLayout(start, order, exprs, DtypeMap(dtypes), constants, track, eval);
    forall c | c in df.data && c !in schema
      ensures EvalColumns(start, order, exprs, DtypeMap(dtypes), constants, track, eval).value.data[c] == df.data[c]
    {
      EvalColumnsUnchanged(start, order, exprs, DtypeMap(dtypes), constants, track, eval, c);
    }
  }

  /**
   * Provenance after a successful `apply_schema`: untouched when tracking is
   * off; when it is on, the earlier entries (or a new empty map) plus one
   * entry per schema column with its expression text and dependencies.
   */
  lemma ApplySchemaProvenance(df: Frame, schema: map<string, SchemaEntry>, dtypes: Option<map<string, string>>,
                              constants: map<string, Value>, track: bool, eval: Evaluator, extract: string -> set<string>)
    requires ApplySchemaSpec(df, schema, dtypes, constants, track, eval, extract).Ok?
    ensures var out := ApplySchemaSpec(df, schema, dtypes, constants, track, eval, extract).value;
      var before := if df.provenance.Some? then df.provenance.value else map[];
      && (!track ==> out.provenance == df.provenance)
      && (track ==> out.provenance.Some? && out.provenance.value.Keys == before.Keys + schema.Keys)
      && (track ==> forall c :: c in schema ==> out.provenance.value[c] == EntryOf(ToExpression(schema[c], extract)))
      && (track ==> forall c :: c in before && c !in schema ==> out.provenance.value[c] == before[c])
  {
    var exprs := Expressions(schema, extract);
    var g := DependencyGraph(exprs);
    ApplySchemaCycle(df, schema, dtypes, constants, track, eval, extract);
    TopoSpecOk(g);
    var order := TopoSpec(g).value;
    var start := Start(df, track);
    EvalColumnsProvenance(start, order, exprs, DtypeMap(dtypes), constants, track, eval);
  }

  /**
   * Dependency order: in a successful `apply_schema`, the schema column
   * scheduled at position `i` holds what the evaluator produced from the
   * input columns plus the columns scheduled before it, and every schema
   * column it references is among those.
   */
  lemma ApplySchemaEvaluatesInOrder(df: Frame, schema: map<string, SchemaEntry>, dtypes: Option<map<string, string>>,
                                    constants: map<string, Value>, track: bool, eval: Evaluator, extract: string -> set<string>, i: nat)
    requires ApplySchemaSpec(df, schema, dtypes, constants, track, eval, extract).Ok?
    ensures ScheduleOf(schema, extract).Ok? && Elems(ScheduleOf(schema, extract).value) == schema.Keys
    ensures NoDup(ScheduleOf(schema, extract).value)
    ensures var order := ScheduleOf(schema, extract).value;
      var exprs := Expressions(schema, extract);
      i < |order| ==>
        var c := order[i];
        && Prefix(Start(df, track), order, i, exprs, DtypeMap(dtypes), constants, track, eval).Ok?
        && var env := Prefix(Start(df, track), order, i, exprs, DtypeMap(dtypes), constants, track, eval).value.data;
        && env.Keys == df.data.Keys + Elems(order[..i])
        && exprs[c].dependencies * schema.Keys <= env.Keys
        && eval(env, constants, exprs[c].exprStr, DtypeOf(DtypeMap(dtypes), c)).Ok?
        && c in ApplySchemaSpec(df, schema, dtypes, constants, track, eval, extract).value.data
        && ApplySchemaSpec(df, schema, dtypes, constants, track, eval, extract).value.data[c]
           == eval(env, constants, exprs[c].exprStr, DtypeOf(DtypeMap(dtypes), c)).value
  {
    var exprs := Expressions(schema, extract);
    var g := DependencyGraph(exprs);
    ApplySchemaCycle(df, schema, dtypes, constants, track, eval, extract);
    TopoSpecOk(g);
    var order := TopoSpec(g).value;
    if i < |order| {
      EvalColumnsComputes(Start(df, track), order, exprs, DtypeMap(dtypes), constants, track, eval, i);
      assert g[order[i]] <= Elems(order[..i]);
    }
  }

  /** The `expr_objects` loop of `apply_schema`: text becomes an `Expression`, objects are kept. */
  method BuildExpressions(schema: map<string, SchemaEntry>, extract: string -> set<string>)
    returns (exprObjects: map<string, Expression>)
    ensures exprObjects == Expressions(schema, extract)
  {
    exprObjects := map[];
    var todo := schema.Keys;
    while todo != {}
      invariant todo <= schema.Keys && exprObjects.Keys == schema.Keys - todo
      invariant forall c :: c in exprObjects ==> exprObjects[c] == ToExpression(schema[c], extract)
      decreases todo
    {
      var c :| c in todo;
      exprObjects := exprObjects[c := ToExpression(schema[c], extract)];
      todo := todo - {c};
    }
  }

  /**
   * An evaluation engine: its own function registry (starting as a copy of
   * the builtins), its constants, and whether `apply_schema` records
   * provenance.
   */
  class Engine {
    var functions: map<string, Callable>
    var constants: map<string, Value>
    var trackProvenance: bool

    /** A new engine: the builtins, no constants, provenance off. */
    constructor()
      ensures functions == BuiltinFunctions && constants == map[] && !trackProvenance
    {
      functions := BuiltinFunctions;
      constants := map[];
      trackProvenance := false;
    }

    /** `enable_provenance(enabled)`: only the tracking flag changes. */
    method EnableProvenance(enabled: bool := true)
      modifies this
      ensures trackProvenance == enabled
      ensures functions == old(functions) && constants == old(constants)
    {
      trackProvenance := enabled;
    }

    /** `register_function(name, func)`: adds or replaces one entry of this engine's registry. */
    method RegisterFunction(name: string, func: Callable)
      modifies this
      ensures functions == old(functions)[name := func]
      ensures constants == old(constants) && trackProvenance == old(trackProvenance)
    {
      functions := functions[name := func];
    }

    /** `register_constant(name, value)`: adds or replaces one constant. */
    method RegisterConstant(name: string, value: Value)
      modifies this
      ensures constants == old(constants)[name := value]
      ensures functions == old(functions) && trackProvenance == old(trackProvenance)
    {
      constants := constants[name := value];
    }

    /**
     * `apply_schema(df, schema, dtypes)`: copy the frame, add the provenance
     * map if tracking finds none, turn the schema into expressions, schedule
     * them, and evaluate them in order; the outcome is `ApplySchemaSpec`.
     */
    method ApplySchema(df: Frame, schema: map<string, SchemaEntry>, dtypes: Option<map<string, string>>,
                       eval: Evaluator, extract: string -> set<string>) returns (r: Result<Frame, EngineError>)
      ensures r == ApplySchemaSpec(df, schema, dtypes, constants, trackProvenance, eval, extract)
    {
      var result := df;
      var dt := DtypeMap(dtypes);
      if trackProvenance {
        if result.provenance.None? {
          result := result.(provenance := Some(map[]));
        }
      }
      assert result == Start(df, trackProvenance);

      var exprObjects := BuildExpressions(schema, extract);
      var sorted := TopologicalSort(exprObjects);
      if sorted.Err? {
        return Err(CycleDetectedError(sorted.error));
      }
      TopoSpecOk(DependencyGraph(exprObjects));
      r := EvaluateInOrder(result, sorted.value, exprObjects, dt, eval);
    }

    /** The `for col_name in ordered_cols` loop of `apply_schema`. */
    method EvaluateInOrder(df: Frame, order: seq<string>, exprObjects: map<string, Expression>,
                           dt: map<string, string>, eval: Evaluator) returns (r: Result<Frame, EngineError>)
      requires Elems(order) <= exprObjects.Keys && (trackProvenance ==> df.provenance.Some?)
      ensures r == EvalColumns(df, order, exprObjects, dt, constants, trackProvenance, eval)
    {
      var result := df;
      var i := 0;
      ghost var r0 := EvalColumns(df, order, exprObjects, dt, constants, trackProvenance, eval);
      assert order[0..] == order;
      while i < |order|
        invariant 0 <= i <= |order| && (trackProvenance ==> result.provenance.Some?)
        invariant Elems(order[i..]) <= exprObjects.Keys
        invariant EvalColumns(result, order[i..], exprObjects, dt, constants, trackProvenance, eval) == r0
        decreases |order| - i
      {
        EvalColumnsAt(result, order, i, exprObjects, dt, constants, trackProvenance, eval);
        var c := order[i];
        var e := exprObjects[c];
        var values := Evaluate(constants, result.data, e, DtypeOf(dt, c), eval);
        if values.Err? {
          assert Step(result, c, exprObjects, dt, constants, trackProvenance, eval) == Err(values.error);
          return Err(values.error);
        }
        ghost var before := result;
        result := WithColumn(result, c, values.value);
        if trackProvenance {
          result := result.(provenance := Some(result.provenance.value[c := EntryOf(e)]));
        }
        assert Step(before, c, exprObjects, dt, constants, trackProvenance, eval) == Ok(result);
        i := i + 1;
      }
      assert order[|order|..] == [];
      assert EvalColumns(result, [], exprObjects, dt, constants, trackProvenance, eval) == Ok(result);
      return Ok(result);
    }

    /** `evaluate_many(df, expressions)`: `apply_schema` with no dtypes. */
    method EvaluateMany(df: Frame, expressions: map<string, SchemaEntry>, eval: Evaluator, extract: string -> set<string>)
      returns (r: Result<Frame, EngineError>)
      ensures r == ApplySchemaSpec(df, expressions, None, constants, trackProvenance, eval, extract)
    {
      r := ApplySchema(df, expressions, None, eval, extract);
    }
  }

  /**
   * Two engines have separate registries: registering a function on one
   * leaves the other with the builtins.
   */
  method RegistryIsolation() returns (first: map<string, Callable>, second: map<string, Callable>)
    ensures first == BuiltinFunctions["double" := UserFunction(1)]
    ensures second == BuiltinFunctions
  {
    var e1 := new Engine();
    var e2 := new Engine();
    e1.RegisterFunction("double", UserFunction(1));
    first, second := e1.functions, e2.functions;
  }
}
