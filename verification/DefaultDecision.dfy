/** The default message decision, run through the interpreter: when it publishes, for every resource and
    instant. */
module DefaultDecision {
  import opened Wrappers
  import opened Cel
  import opened Resources
  import opened Engine
  import Fields

  /******* The shipped program *******/

  function Reconciled(field: string): Expr
  {
    Select(Unary(ConditionCall, Lit(Str("Reconciled"))), field)
  }

  /** `guard && has_ref_time && now - timestamp(ref_time) > duration(limit)` */
  function OlderThan(guard: Expr, limit: string): Expr
  {
    And(And(guard, Var("has_ref_time")),
        Binary(Gt, Binary(Sub, Var("now"), Unary(Timestamp, Var("ref_time"))), Unary(Duration, Lit(Str(limit)))))
  }

  function IsNewResource(): Expr
  {
    And(Unary(Not, Var("is_reconciled")), Binary(Eq, Select(Var("resource"), "generation"), Lit(Int(1))))
  }

  function GenerationMismatch(): Expr
  {
    Binary(Gt, Select(Var("resource"), "generation"), Reconciled("observed_generation"))
  }

  function AnyTrigger(): Expr
  {
    Or(Or(Or(Var("is_new_resource"), Var("generation_mismatch")), Var("reconciled_and_stale")),
       Var("not_reconciled_and_debounced"))
  }

  function DefaultProgram(): Program
  {
    Program(
      [ Param("ref_time", Reconciled("last_updated_time")),
        Param("is_reconciled", Binary(Eq, Reconciled("status"), Lit(Str("True")))),
        Param("has_ref_time", Binary(Ne, Var("ref_time"), Lit(Str("")))),
        Param("is_new_resource", IsNewResource()),
        Param("generation_mismatch", GenerationMismatch()),
        Param("reconciled_and_stale", OlderThan(Var("is_reconciled"), "30m")),
        Param("not_reconciled_and_debounced", OlderThan(Unary(Not, Var("is_reconciled")), "10s"))
      ],
      AnyTrigger())
  }

  /******* When an event is due *******/

  function Threshold(status: string): int
  {
    if status == "True" then 30 * MINUTE else 10 * SECOND
  }

  /** The age of a condition can be computed: its time is a CEL timestamp and the age is a duration. */
  predicate AgeDefined(c: Condition, now: int)
  {
    InRange(c.lastUpdatedTime) && FitsInt64(now - c.lastUpdatedTime)
  }

  predicate Due(r: Resource, now: int)
  {
    match LastCondition(r.conditions, "Reconciled")
    case None => r.generation > 0
    case Some(c) =>
      && AgeDefined(c, now)
      && (|| r.generation > c.observedGeneration
          || (c.status != "True" && r.generation == 1)
          || now - c.lastUpdatedTime > Threshold(c.status))
  }

  /******* The interpreter, stage by stage *******/

  /** What the default program reads of a resource: the generation, the fields of the Reconciled condition
      (or of its stand-in), and the instant. */
  datatype Facts = Facts(generation: int, updated: string, status: string, observed: int, now: int)

  ghost predicate Shows(env: Env, f: Facts)
  {
    && "now" in env.vars && env.vars["now"] == Time(f.now)
    && "resource" in env.vars && SelectField(env.vars["resource"], "generation") == Ok(Int(f.generation))
    && var c := LookupCondition(env.conditions, Str("Reconciled"));
       && SelectField(c, "last_updated_time") == Ok(Str(f.updated))
       && SelectField(c, "status") == Ok(Str(f.status))
       && SelectField(c, "observed_generation") == Ok(Int(f.observed))
  }

  /** `now - timestamp(ref_time)` */
  function Age(lib: Library, f: Facts): Out
  {
    match ToTimestamp(lib, Str(f.updated))
    case Err(e) => Err(e)
    case Ok(t) => Subtract(Time(f.now), t)
  }

  function Older(lib: Library, f: Facts, guard: bool, limit: int): Out
  {
    if !guard || f.updated == "" then Ok(Bool(false))
    else match Age(lib, f)
      case Err(e) => Err(e)
      case Ok(d) => Greater(d, Dur(limit))
  }

  ghost predicate Binds(vars: map<string, Value>, name: string, v: Value)
  {
    name in vars && vars[name] == v
  }

  /** The first `n` params that do not read the clock are bound to what the facts make of them. */
  ghost predicate Bound(vars: map<string, Value>, f: Facts, n: nat)
  {
    && (n >= 1 ==> Binds(vars, "ref_time", Str(f.updated)))
    && (n >= 2 ==> Binds(vars, "is_reconciled", Bool(f.status == "True")))
    && (n >= 3 ==> Binds(vars, "has_ref_time", Bool(f.updated != "")))
    && (n >= 4 ==> Binds(vars, "is_new_resource", Bool(f.status != "True" && f.generation == 1)))
    && (n >= 5 ==> Binds(vars, "generation_mismatch", Bool(f.generation > f.observed)))
  }

  /** The values of the params so far: the first `n` are as they must be and no base variable is hidden. */
  ghost predicate Known(values: map<string, Value>, f: Facts, n: nat)
  {
    Bound(values, f, n) && "now" !in values && "resource" !in values
  }

  lemma ExtendKnows(env: Env, values: map<string, Value>, f: Facts, n: nat)
    requires Shows(env, f) && Known(values, f, n)
    ensures Shows(Extend(env, values), f) && Bound(Extend(env, values).vars, f, n)
  {
  }

  /******* Single expressions *******/

  lemma EvalReconciled(lib: Library, env: Env, f: Facts)
    requires Shows(env, f)
    ensures Eval(lib, env, Reconciled("last_updated_time")) == Ok(Str(f.updated))
    ensures Eval(lib, env, Reconciled("status")) == Ok(Str(f.status))
    ensures Eval(lib, env, Reconciled("observed_generation")) == Ok(Int(f.observed))
  {
    var call := Unary(ConditionCall, Lit(Str("Reconciled")));
    assert Eval(lib, env, Lit(Str("Reconciled"))) == Ok(Str("Reconciled"));
    assert Eval(lib, env, call) == Ok(LookupCondition(env.conditions, Str("Reconciled")));
  }

  lemma EvalStatusIsTrue(lib: Library, env: Env, f: Facts)
    requires Shows(env, f)
    ensures Eval(lib, env, Binary(Eq, Reconciled("status"), Lit(Str("True")))) == Ok(Bool(f.status == "True"))
  {
    EvalReconciled(lib, env, f);
    assert Eval(lib, env, Lit(Str("True"))) == Ok(Str("True"));
  }

  lemma EvalHasRefTime(lib: Library, env: Env, updated: string)
    requires Binds(env.vars, "ref_time", Str(updated))
    ensures Eval(lib, env, Binary(Ne, Var("ref_time"), Lit(Str("")))) == Ok(Bool(updated != ""))
  {
    assert Eval(lib, env, Var("ref_time")) == Ok(Str(updated));
    assert Eval(lib, env, Lit(Str(""))) == Ok(Str(""));
  }

  lemma EvalReconciledFlag(lib: Library, env: Env, b: bool)
    requires Binds(env.vars, "is_reconciled", Bool(b))
    ensures Eval(lib, env, Var("is_reconciled")) == Ok(Bool(b))
    ensures Eval(lib, env, Unary(Not, Var("is_reconciled"))) == Ok(Bool(!b))
  {
    assert Eval(lib, env, Var("is_reconciled")) == Ok(Bool(b));
  }

  lemma EvalGeneration(lib: Library, env: Env, f: Facts)
    requires Shows(env, f)
    ensures Eval(lib, env, Select(Var("resource"), "generation")) == Ok(Int(f.generation))
  {
    assert Eval(lib, env, Var("resource")) == Ok(env.vars["resource"]);
  }

  lemma EvalIsNewResource(lib: Library, env: Env, f: Facts)
    requires Shows(env, f) && Binds(env.vars, "is_reconciled", Bool(f.status == "True"))
    ensures Eval(lib, env, IsNewResource()) == Ok(Bool(f.status != "True" && f.generation == 1))
  {
    EvalReconciledFlag(lib, env, f.status == "True");
    EvalGeneration(lib, env, f);
    assert Eval(lib, env, Lit(Int(1))) == Ok(Int(1));
    var isFirst := Binary(Eq, Select(Var("resource"), "generation"), Lit(Int(1)));
    assert Eval(lib, env, isFirst) == Ok(Bool(f.generation == 1));
  }

  lemma EvalMismatch(lib: Library, env: Env, f: Facts)
    requires Shows(env, f)
    ensures Eval(lib, env, GenerationMismatch()) == Ok(Bool(f.generation > f.observed))
  {
    EvalReconciled(lib, env, f);
    EvalGeneration(lib, env, f);
  }

  lemma EvalAge(lib: Library, env: Env, f: Facts)
    requires Shows(env, f) && Binds(env.vars, "ref_time", Str(f.updated))
    ensures Eval(lib, env, Binary(Sub, Var("now"), Unary(Timestamp, Var("ref_time")))) == Age(lib, f)
  {
    assert Eval(lib, env, Var("ref_time")) == Ok(Str(f.updated));
    assert Eval(lib, env, Unary(Timestamp, Var("ref_time"))) == ToTimestamp(lib, Str(f.updated));
    assert Eval(lib, env, Var("now")) == Ok(Time(f.now));
  }

  lemma EvalLimit(lib: Library, env: Env, limit: string, d: int)
    requires lib.parseDuration(limit) == Some(d)
    ensures Eval(lib, env, Unary(Duration, Lit(Str(limit)))) == Ok(Dur(d))
  {
    assert Eval(lib, env, Lit(Str(limit))) == Ok(Str(limit));
  }

  lemma EvalOlderThan(lib: Library, env: Env, f: Facts, guard: Expr, g: bool, limit: string, d: int)
    requires Shows(env, f) && Bound(env.vars, f, 3)
    requires Eval(lib, env, guard) == Ok(Bool(g)) && lib.parseDuration(limit) == Some(d)
    ensures Eval(lib, env, OlderThan(guard, limit)) == Older(lib, f, g, d)
  {
    EvalAge(lib, env, f);
    EvalLimit(lib, env, limit, d);
    assert Eval(lib, env, Var("has_ref_time")) == Ok(Bool(f.updated != ""));
    assert Eval(lib, env, And(guard, Var("has_ref_time"))) == Ok(Bool(g && f.updated != ""));
  }

  /******* Single stages *******/

  lemma Stage(lib: Library, env: Env, params: seq<Param>, values: map<string, Value>, p: Param)
    requires RunParams(lib, env, params) == Ok(values)
    ensures RunParams(lib, env, params + [p]) ==
            match Eval(lib, Extend(env, values), p.expr)
            case Err(e) => Err(ParamFailed(p.name, e))
            case Ok(v) => Ok(values[p.name := v])
  {
    assert (params + [p])[..|params + [p]| - 1] == params;
  }

  /** The run of `params` has these values, of which the first `n` are known. */
  ghost predicate At(lib: Library, env: Env, params: seq<Param>, values: map<string, Value>, f: Facts, n: nat)
  {
    RunParams(lib, env, params) == Ok(values) && Known(values, f, n)
  }

  function FlagName(n: nat): string
    requires n < 5
  {
    if n == 0 then "ref_time" else if n == 1 then "is_reconciled" else if n == 2 then "has_ref_time"
    else if n == 3 then "is_new_resource" else "generation_mismatch"
  }

  function FlagValue(f: Facts, n: nat): Value
    requires n < 5
  {
    if n == 0 then Str(f.updated) else if n == 1 then Bool(f.status == "True") else if n == 2 then Bool(f.updated != "")
    else if n == 3 then Bool(f.status != "True" && f.generation == 1) else Bool(f.generation > f.observed)
  }

  /** Binding the next name to its value makes one more known. */
  lemma Learn(before: map<string, Value>, f: Facts, n: nat)
    requires n < 5 && Known(before, f, n)
    ensures Known(before[FlagName(n) := FlagValue(f, n)], f, n + 1)
  {
    assert |"generation_mismatch"| == 19 && |"is_new_resource"| == 15 && |"has_ref_time"| == 12;
    assert |"is_reconciled"| == 13 && |"ref_time"| == 8 && |"now"| == 3 && |"resource"| == 8;
    assert "ref_time"[2] == 'f' && "resource"[2] == 's';
  }

  function FlagExpr(n: nat): Expr
    requires n < 5
  {
    if n == 0 then Reconciled("last_updated_time")
    else if n == 1 then Binary(Eq, Reconciled("status"), Lit(Str("True")))
    else if n == 2 then Binary(Ne, Var("ref_time"), Lit(Str("")))
    else if n == 3 then IsNewResource()
    else GenerationMismatch()
  }

  lemma EvalFlag(lib: Library, env: Env, f: Facts, n: nat)
    requires n < 5 && Shows(env, f) && Bound(env.vars, f, n)
    ensures Eval(lib, env, FlagExpr(n)) == Ok(FlagValue(f, n))
  {
    if n == 0 {
      EvalReconciled(lib, env, f);
    } else if n == 1 {
      EvalStatusIsTrue(lib, env, f);
    } else if n == 2 {
      EvalHasRefTime(lib, env, f.updated);
    } else if n == 3 {
      EvalIsNewResource(lib, env, f);
    } else {
      EvalMismatch(lib, env, f);
    }
  }

  /** The first `n` params of the program. */
  function FlagParams(n: nat): seq<Param>
    requires n <= 5
  {
    if n == 0 then [] else FlagParams(n - 1) + [Param(FlagName(n - 1), FlagExpr(n - 1))]
  }

  lemma NextFlag(lib: Library, env: Env, f: Facts, n: nat, ps: seq<Param>, before: map<string, Value>)
    requires n < 5 && Shows(env, f) && At(lib, env, ps, before, f, n)
    ensures At(lib, env, ps + [Param(FlagName(n), FlagExpr(n))], before[FlagName(n) := FlagValue(f, n)], f, n + 1)
  {
    ExtendKnows(env, before, f, n);
    EvalFlag(lib, Extend(env, before), f, n);
    Stage(lib, env, ps, before, Param(FlagName(n), FlagExpr(n)));
    Learn(before, f, n);
  }

  /** The params that do not read the clock have known values. */
  lemma {:induction false} FlagsAreKnown(lib: Library, env: Env, f: Facts, n: nat) returns (values: map<string, Value>)
    requires n <= 5 && Shows(env, f)
    ensures At(lib, env, FlagParams(n), values, f, n)
  {
    if n == 0 {
      values := map[];
    } else {
      var before := FlagsAreKnown(lib, env, f, n - 1);
      NextFlag(lib, env, f, n - 1, FlagParams(n - 1), before);
      values := before[FlagName(n - 1) := FlagValue(f, n - 1)];
    }
  }

  const STALE := "reconciled_and_stale"
  const DEBOUNCED := "not_reconciled_and_debounced"

  /** A value under the name of a clock param leaves the known values known. */
  lemma ClockNameIsNew(values: map<string, Value>, f: Facts, name: string, v: Value)
    requires Known(values, f, 5) && (name == STALE || name == DEBOUNCED)
    ensures Known(values[name := v], f, 5)
  {
    assert |STALE| == 20 && |DEBOUNCED| == 28;
    assert |"generation_mismatch"| == 19 && |"is_new_resource"| == 15;
    assert |"has_ref_time"| == 12 && |"is_reconciled"| == 13 && |"ref_time"| == 8 && |"now"| == 3 && |"resource"| == 8;
  }

  function Stale(lib: Library, f: Facts): Out { Older(lib, f, f.status == "True", 30 * MINUTE) }

  function Debounced(lib: Library, f: Facts): Out { Older(lib, f, f.status != "True", 10 * SECOND) }

  lemma EvalClockParams(lib: Library, env: Env, values: map<string, Value>, f: Facts)
    requires Shows(env, f) && Faithful(lib) && Known(values, f, 5)
    ensures Eval(lib, Extend(env, values), OlderThan(Var("is_reconciled"), "30m")) == Stale(lib, f)
    ensures Eval(lib, Extend(env, values), OlderThan(Unary(Not, Var("is_reconciled")), "10s")) == Debounced(lib, f)
  {
    ExtendKnows(env, values, f, 5);
    var env' := Extend(env, values);
    EvalReconciledFlag(lib, env', f.status == "True");
    EvalOlderThan(lib, env', f, Var("is_reconciled"), f.status == "True", "30m", 30 * MINUTE);
    EvalOlderThan(lib, env', f, Unary(Not, Var("is_reconciled")), f.status != "True", "10s", 10 * SECOND);
  }

  lemma OlderIsBool(lib: Library, f: Facts, guard: bool, limit: int)
    ensures var out := Older(lib, f, guard, limit); out.Ok? ==> out.value.Bool?
  {
  }

  lemma StaleStage(lib: Library, env: Env, f: Facts, ps: seq<Param>, before: map<string, Value>)
    requires Shows(env, f) && Faithful(lib) && At(lib, env, ps, before, f, 5)
    ensures Stale(lib, f).Err? ==>
              RunParams(lib, env, ps + [StaleParam()]) == Err(ParamFailed(STALE, Stale(lib, f).error))
    ensures Stale(lib, f).Ok? ==>
              At(lib, env, ps + [StaleParam()], before[STALE := Stale(lib, f).value], f, 5)
  {
    EvalClockParams(lib, env, before, f);
    Stage(lib, env, ps, before, StaleParam());
    if Stale(lib, f).Ok? { ClockNameIsNew(before, f, STALE, Stale(lib, f).value); }
  }

  lemma DebouncedStage(lib: Library, env: Env, f: Facts, ps: seq<Param>, before: map<string, Value>)
    requires Shows(env, f) && Faithful(lib) && At(lib, env, ps, before, f, 5)
    ensures RunParams(lib, env, ps + [DebouncedParam()]) ==
            match Debounced(lib, f)
            case Err(e) => Err(ParamFailed(DEBOUNCED, e))
            case Ok(y) => Ok(before[DEBOUNCED := y])
  {
    EvalClockParams(lib, env, before, f);
    Stage(lib, env, ps, before, DebouncedParam());
  }

  /** The two params that read the clock: the first of them to fail fails the list. */
  lemma LastTwo(lib: Library, env: Env, f: Facts, ps: seq<Param>, before: map<string, Value>)
    requires Shows(env, f) && Faithful(lib) && At(lib, env, ps, before, f, 5)
    ensures RunParams(lib, env, (ps + [StaleParam()]) + [DebouncedParam()]) ==
            match (Stale(lib, f), Debounced(lib, f))
            case (Err(e), _) => Err(ParamFailed(STALE, e))
            case (Ok(_), Err(e)) => Err(ParamFailed(DEBOUNCED, e))
            case (Ok(x), Ok(y)) => Ok(before[STALE := x][DEBOUNCED := y])
  {
    StaleStage(lib, env, f, ps, before);
    if Stale(lib, f).Ok? {
      DebouncedStage(lib, env, f, ps + [StaleParam()], before[STALE := Stale(lib, f).value]);
    } else {
      StopsAt(lib, env, ps + [StaleParam()], DebouncedParam());
    }
  }

  function StaleParam(): Param { Param(STALE, OlderThan(Var("is_reconciled"), "30m")) }

  function DebouncedParam(): Param { Param(DEBOUNCED, OlderThan(Unary(Not, Var("is_reconciled")), "10s")) }

  lemma StopsAt(lib: Library, env: Env, params: seq<Param>, p: Param)
    requires RunParams(lib, env, params).Err?
    ensures RunParams(lib, env, params + [p]) == RunParams(lib, env, params)
  {
    assert (params + [p])[..|params + [p]| - 1] == params;
  }

  /******* The whole program *******/

  lemma ProgramParams()
    ensures DefaultProgram().params == (FlagParams(5) + [StaleParam()]) + [DebouncedParam()]
  {
    assert FlagParams(1) == [Param(FlagName(0), FlagExpr(0))];
    assert FlagParams(2) == FlagParams(1) + [Param(FlagName(1), FlagExpr(1))];
    assert FlagParams(3) == FlagParams(2) + [Param(FlagName(2), FlagExpr(2))];
    assert FlagParams(4) == FlagParams(3) + [Param(FlagName(3), FlagExpr(3))];
    assert FlagParams(5) == FlagParams(4) + [Param(FlagName(4), FlagExpr(4))];
  }

  /** The four disjuncts of the result. */
  lemma EvalResult(lib: Library, env: Env, a: bool, b: bool, c: bool, d: bool)
    requires Binds(env.vars, "is_new_resource", Bool(a)) && Binds(env.vars, "generation_mismatch", Bool(b))
    requires Binds(env.vars, STALE, Bool(c)) && Binds(env.vars, DEBOUNCED, Bool(d))
    ensures Eval(lib, env, AnyTrigger()) == Ok(Bool(a || b || c || d))
  {
    var ab := Or(Var("is_new_resource"), Var("generation_mismatch"));
    assert Eval(lib, env, Var("is_new_resource")) == Ok(Bool(a));
    assert Eval(lib, env, Var("generation_mismatch")) == Ok(Bool(b));
    assert Eval(lib, env, ab) == Ok(Bool(a || b));
    assert Eval(lib, env, Var(STALE)) == Ok(Bool(c)) && Eval(lib, env, Var(DEBOUNCED)) == Ok(Bool(d));
    assert Eval(lib, env, Or(ab, Var(STALE))) == Ok(Bool(a || b || c));
  }

  lemma FinalBinds(env: Env, f: Facts, values: map<string, Value>, x: Value, y: Value)
    requires Known(values, f, 5)
    ensures var vars := Extend(env, values[STALE := x][DEBOUNCED := y]).vars;
            Bound(vars, f, 5) && Binds(vars, STALE, x) && Binds(vars, DEBOUNCED, y)
  {
    ClockNameIsNew(values, f, STALE, x);
    ClockNameIsNew(values[STALE := x], f, DEBOUNCED, y);
    assert |STALE| == 20 && |DEBOUNCED| == 28;
  }

  /** What the default program comes to once the two params that read the clock have values. */
  predicate Verdict(f: Facts, stale: bool, debounced: bool)
  {
    (f.status != "True" && f.generation == 1) || f.generation > f.observed || stale || debounced
  }

  lemma EvalVerdict(lib: Library, env: Env, f: Facts, values: map<string, Value>, x: bool, y: bool)
    requires Known(values, f, 5)
    ensures var values' := values[STALE := Bool(x)][DEBOUNCED := Bool(y)];
            Eval(lib, Extend(env, values'), AnyTrigger()) == Ok(Bool(Verdict(f, x, y)))
  {
    FinalBinds(env, f, values, Bool(x), Bool(y));
    EvalResult(lib, Extend(env, values[STALE := Bool(x)][DEBOUNCED := Bool(y)]),
               f.status != "True" && f.generation == 1, f.generation > f.observed, x, y);
  }

  lemma RunFails(lib: Library, env: Env, prog: Program, e: Failure)
    requires RunParams(lib, env, prog.params) == Err(e)
    ensures RunProgram(lib, env, prog) == Err(e)
  {
  }

  lemma RunSucceeds(lib: Library, env: Env, prog: Program, values: map<string, Value>, v: Value)
    requires RunParams(lib, env, prog.params) == Ok(values) && Eval(lib, Extend(env, values), prog.result) == Ok(v)
    ensures RunProgram(lib, env, prog) == Ok(v)
  {
  }

  /** The default program, run on any activation that shows these facts. */
  lemma RunDefault(lib: Library, env: Env, f: Facts)
    requires Shows(env, f) && Faithful(lib)
    ensures RunProgram(lib, env, DefaultProgram()) ==
            match (Stale(lib, f), Debounced(lib, f))
            case (Err(e), _) => Err(ParamFailed(STALE, e))
            case (Ok(_), Err(e)) => Err(ParamFailed(DEBOUNCED, e))
            case (Ok(x), Ok(y)) => Ok(Bool(Verdict(f, x == Bool(true), y == Bool(true))))
  {
    var values := FlagsAreKnown(lib, env, f, 5);
    LastTwo(lib, env, f, FlagParams(5), values);
    ProgramParams();
    if Stale(lib, f).Err? {
      RunFails(lib, env, DefaultProgram(), ParamFailed(STALE, Stale(lib, f).error));
    } else if Debounced(lib, f).Err? {
      RunFails(lib, env, DefaultProgram(), ParamFailed(DEBOUNCED, Debounced(lib, f).error));
    } else {
      OlderIsBool(lib, f, f.status == "True", 30 * MINUTE);
      OlderIsBool(lib, f, f.status != "True", 10 * SECOND);
      var x, y := Stale(lib, f).value, Debounced(lib, f).value;
      EvalVerdict(lib, env, f, values, x.b, y.b);
      RunSucceeds(lib, env, DefaultProgram(), values[STALE := x][DEBOUNCED := y], Bool(Verdict(f, x.b, y.b)));
    }
  }

  /******* From resources to facts *******/

  function FactsOf(lib: Library, r: Resource, now: int): Facts
  {
    match LastCondition(r.conditions, "Reconciled")
    case None => Facts(r.generation, "", "", 0, now)
    case Some(c) => Facts(r.generation, lib.formatTime(c.lastUpdatedTime), c.status, c.observedGeneration, now)
  }

  lemma EnvShowsFacts(lib: Library, r: Resource, now: int)
    ensures Shows(EnvFor(lib, r, now), FactsOf(lib, r, now))
  {
    Fields.PlainFields(lib, r);
    LookupHoldsLast(lib, r.conditions, "Reconciled");
    match LastCondition(r.conditions, "Reconciled")
    case None => Fields.ZeroConditionFields();
    case Some(c) => Fields.ConditionMapFields(lib, c);
    assert |"now"| == 3 && |"resource"| == 8;
  }

  /** An age is computed exactly when it is defined, and is then the plain difference. */
  lemma AgeOfCondition(lib: Library, r: Resource, c: Condition, now: int)
    requires Faithful(lib) && LastCondition(r.conditions, "Reconciled") == Some(c)
    ensures Age(lib, FactsOf(lib, r, now)).Ok? <==> AgeDefined(c, now)
    ensures AgeDefined(c, now) ==> Age(lib, FactsOf(lib, r, now)) == Ok(Dur(now - c.lastUpdatedTime))
  {
    var text := lib.formatTime(c.lastUpdatedTime);
    if InRange(c.lastUpdatedTime) {
      assert lib.parseTime(text) == Some(c.lastUpdatedTime);
    } else if lib.parseTime(text).Some? {
      assert !InRange(lib.parseTime(text).value);
    }
  }

  /** The two clock params, from the age of the condition. */
  lemma ClockParams(lib: Library, r: Resource, c: Condition, now: int)
    requires Faithful(lib) && LastCondition(r.conditions, "Reconciled") == Some(c)
    ensures var f := FactsOf(lib, r, now);
            var stale, debounced := Stale(lib, f), Debounced(lib, f);
            && (stale.Ok? && debounced.Ok? <==> AgeDefined(c, now))
            && (AgeDefined(c, now) ==>
                  && stale == Ok(Bool(c.status == "True" && now - c.lastUpdatedTime > 30 * MINUTE))
                  && debounced == Ok(Bool(c.status != "True" && now - c.lastUpdatedTime > 10 * SECOND)))
  {
    AgeOfCondition(lib, r, c, now);
    assert lib.formatTime(c.lastUpdatedTime) != "";
  }

  /** On any activation that shows the resource, the default program comes to true exactly when it is due. */
  lemma DefaultHoldsIffDue(lib: Library, env: Env, r: Resource, now: int)
    requires Faithful(lib) && Shows(env, FactsOf(lib, r, now))
    ensures RunProgram(lib, env, DefaultProgram()) == Ok(Bool(true)) <==> Due(r, now)
  {
    var f := FactsOf(lib, r, now);
    RunDefault(lib, env, f);
    match LastCondition(r.conditions, "Reconciled")
    case None => assert f == Facts(r.generation, "", "", 0, now);
    case Some(c) => ClockParams(lib, r, c, now);
  }

  /** The closed form of the shipped decision: for every resource and every instant the default program
      publishes exactly when the resource is due. */
  lemma DefaultPublishesIffDue(lib: Library, r: Resource, now: int)
    requires Faithful(lib)
    ensures Decide(lib, DefaultProgram(), Some(r), now).shouldPublish <==> now != ZERO_TIME && Due(r, now)
  {
    EnvShowsFacts(lib, r, now);
    DefaultHoldsIffDue(lib, EnvFor(lib, r, now), r, now);
    DecideIffTrue(lib, DefaultProgram(), r, now);
  }
}
