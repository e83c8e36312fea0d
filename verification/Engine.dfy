/** The decision engine: named params evaluated in authored order into a growing activation, then a
    result expression, with a condition lookup that every evaluation overwrites. */
module Engine {
  import opened Wrappers
  import opened Cel
  import opened Resources

  /******* Configuration *******/

  datatype ParamConfig = ParamConfig(name: string, expr: string)

  datatype MessageDecisionConfig = MessageDecisionConfig(params: seq<ParamConfig>, result: string)

  datatype ConfigError =
    | MissingConfig
    | EmptyResult
    | EmptyName
    | EmptyExpr(name: string)
    | DuplicateName(name: string)
    | BadExpr(name: string)
    | BadResult

  /** What is wrong with the param at index `i`, seen after the params before it. */
  function ParamFault(params: seq<ParamConfig>, i: nat): Option<ConfigError>
    requires i < |params|
  {
    if params[i].name == "" then Some(EmptyName)
    else if params[i].expr == "" then Some(EmptyExpr(params[i].name))
    else if exists j :: 0 <= j < i && params[j].name == params[i].name then Some(DuplicateName(params[i].name))
    else None
  }

  /** Every name and expression is there and no name is used twice. */
  ghost predicate WellFormed(cfg: MessageDecisionConfig)
  {
    && cfg.result != ""
    && (forall p :: p in cfg.params ==> p.name != "" && p.expr != "")
    && (forall i, j :: 0 <= i < j < |cfg.params| ==> cfg.params[i].name != cfg.params[j].name)
  }

  method Validate(cfg: MessageDecisionConfig) returns (fault: Option<ConfigError>)
    ensures fault.None? <==> WellFormed(cfg)
    ensures cfg.result == "" ==> fault == Some(EmptyResult)
    ensures cfg.result != "" && fault.Some? ==>
              exists i :: 0 <= i < |cfg.params| && fault == ParamFault(cfg.params, i) &&
                          forall j :: 0 <= j < i ==> ParamFault(cfg.params, j).None?
  {
    if cfg.result == "" {
      return Some(EmptyResult);
    }
    var seenNames: set<string> := {};
    for i := 0 to |cfg.params|
      invariant forall x :: x in seenNames <==> exists j :: 0 <= j < i && cfg.params[j].name == x
      invariant forall j :: 0 <= j < i ==> ParamFault(cfg.params, j).None?
    {
      var p := cfg.params[i];
      assert p in cfg.params;
      if p.name == "" {
        assert ParamFault(cfg.params, i) == Some(EmptyName);
        return Some(EmptyName);
      }
      if p.expr == "" {
        assert ParamFault(cfg.params, i) == Some(EmptyExpr(p.name));
        return Some(EmptyExpr(p.name));
      }
      if p.name in seenNames {
        assert ParamFault(cfg.params, i) == Some(DuplicateName(p.name));
        return Some(DuplicateName(p.name));
      }
      seenNames := seenNames + {p.name};
    }
    forall p | p in cfg.params
      ensures p.name != "" && p.expr != ""
    {
      var i :| 0 <= i < |cfg.params| && cfg.params[i] == p;
      assert ParamFault(cfg.params, i).None?;
    }
    forall i, j | 0 <= i < j < |cfg.params|
      ensures cfg.params[i].name != cfg.params[j].name
    {
      assert ParamFault(cfg.params, j).None?;
    }
    return None;
  }

  /******* Specification of one evaluation *******/

  datatype Param = Param(name: string, expr: Expr)

  datatype Program = Program(params: seq<Param>, result: Expr)

  datatype Failure = ParamFailed(name: string, error: Error) | ResultFailed(error: Error)

  datatype Decision = Decision(reason: string, shouldPublish: bool)

  function ConditionMap(lib: Library, c: Condition): Value
  {
    Map(map[
      "status" := Str(c.status),
      "observed_generation" := Int(c.observedGeneration),
      "last_updated_time" := Str(lib.formatTime(c.lastUpdatedTime)),
      "last_transition_time" := Str(lib.formatTime(c.lastTransitionTime)),
      "reason" := Str(c.reason),
      "message" := Str(c.message)])
  }

  /** The last condition of the given type; an earlier one of the same type is overwritten. */
  function LastCondition(cs: seq<Condition>, kind: string): Option<Condition>
  {
    if cs == [] then None
    else if cs[|cs| - 1].kind == kind then Some(cs[|cs| - 1])
    else LastCondition(cs[..|cs| - 1], kind)
  }

  lemma {:induction false} LastConditionIsLast(cs: seq<Condition>, kind: string, i: nat)
    requires i < |cs| && cs[i].kind == kind
    requires forall j :: i < j < |cs| ==> cs[j].kind != kind
    ensures LastCondition(cs, kind) == Some(cs[i])
  {
    if i < |cs| - 1 { LastConditionIsLast(cs[..|cs| - 1], kind, i); }
  }

  lemma {:induction false} AbsentCondition(cs: seq<Condition>, kind: string)
    ensures LastCondition(cs, kind).None? <==> forall c :: c in cs ==> c.kind != kind
  {
    if cs != [] {
      var n := |cs| - 1;
      AbsentCondition(cs[..n], kind);
      assert cs == cs[..n] + [cs[n]];
      assert cs[n] in cs;
    }
  }

  function Lookup(lib: Library, cs: seq<Condition>): map<string, Value>
  {
    if cs == [] then map[]
    else
      var n := |cs| - 1;
      Lookup(lib, cs[..n])[cs[n].kind := ConditionMap(lib, cs[n])]
  }

  /** For each condition type that occurs the lookup holds the last condition of that type, and no others. */
  lemma {:induction false} LookupHoldsLast(lib: Library, cs: seq<Condition>, kind: string)
    ensures kind in Lookup(lib, cs) <==> LastCondition(cs, kind).Some?
    ensures kind in Lookup(lib, cs) ==> Lookup(lib, cs)[kind] == ConditionMap(lib, LastCondition(cs, kind).value)
  {
    if cs != [] { LookupHoldsLast(lib, cs[..|cs| - 1], kind); }
  }

  method BuildConditionsLookup(lib: Library, cs: seq<Condition>) returns (lookup: map<string, Value>)
    ensures lookup == Lookup(lib, cs)
  {
    lookup := map[];
    for i := 0 to |cs|
      invariant lookup == Lookup(lib, cs[..i])
    {
      lookup := lookup[cs[i].kind := ConditionMap(lib, cs[i])];
      assert cs[..i + 1][..i] == cs[..i];
    }
    assert cs[..|cs|] == cs;
  }

  function LabelValues(labels: map<string, string>): map<string, Value>
  {
    map k | k in labels :: Str(labels[k])
  }

  function OwnerMap(o: OwnerReference): Value
  {
    Map(map["id" := Str(o.id), "href" := Str(o.href), "kind" := Str(o.kind)])
  }

  /** The `resource` variable: labels, owner and metadata are left out when the resource has none. */
  function ResourceMap(lib: Library, r: Resource): Value
  {
    var m := map[
      "id" := Str(r.id),
      "href" := Str(r.href),
      "kind" := Str(r.kind),
      "created_time" := Str(lib.formatTime(r.createdTime)),
      "updated_time" := Str(lib.formatTime(r.updatedTime)),
      "generation" := Int(r.generation)];
    var m := if |r.labels| > 0 then m["labels" := Map(LabelValues(r.labels))] else m;
    var m := match r.ownerReferences
      case Some(o) => m["owner_references" := OwnerMap(o)]
      case None => m;
    match r.metadata
    case Some(md) => Map(m["metadata" := Map(md)])
    case None => Map(m)
  }

  function Activation(lib: Library, r: Resource, now: int): map<string, Value>
  {
    map["resource" := ResourceMap(lib, r), "now" := Time(now)]
  }

  function Extend(env: Env, values: map<string, Value>): Env
  {
    env.(vars := env.vars + values)
  }

  /** The values of the params, each evaluated with the values before it in scope; the first param that
      fails ends the evaluation. */
  function RunParams(lib: Library, env: Env, params: seq<Param>): Result<map<string, Value>, Failure>
  {
    if params == [] then Ok(map[])
    else
      var p := params[|params| - 1];
      match RunParams(lib, env, params[..|params| - 1])
      case Err(f) => Err(f)
      case Ok(values) =>
        match Eval(lib, Extend(env, values), p.expr)
        case Err(e) => Err(ParamFailed(p.name, e))
        case Ok(v) => Ok(values[p.name := v])
  }

  function RunProgram(lib: Library, env: Env, prog: Program): Result<Value, Failure>
  {
    match RunParams(lib, env, prog.params)
    case Err(f) => Err(f)
    case Ok(values) =>
      match Eval(lib, Extend(env, values), prog.result)
      case Err(e) => Err(ResultFailed(e))
      case Ok(v) => Ok(v)
  }

  function ErrorText(e: Error): string
  {
    match e
    case Unbound(x) => "no such attribute: " + x
    case NoSuchKey(k) => "no such key: " + k
    case NoSuchOverload => "no such overload"
    case Overflow => "range error"
    case BadTimestamp => "cannot parse timestamp"
    case BadDuration => "cannot parse duration"
  }

  function TypeName(v: Value): string
  {
    match v
    case Null => "structpb.NullValue"
    case Bool(_) => "bool"
    case Int(_) => "int64"
    case Str(_) => "string"
    case Time(_) => "time.Time"
    case Dur(_) => "time.Duration"
    case Map(_) => "map[string]interface {}"
  }

  const MATCHED := "message decision matched"
  const NOT_MATCHED := "message decision result is false"

  function Conclude(out: Result<Value, Failure>): Decision
  {
    match out
    case Err(ParamFailed(name, e)) => Decision("param \"" + name + "\" evaluation failed: " + ErrorText(e), false)
    case Err(ResultFailed(e)) => Decision("result evaluation failed: " + ErrorText(e), false)
    case Ok(v) =>
      if !v.Bool? then Decision("result expression did not return bool, got " + TypeName(v), false)
      else if v.b then Decision(MATCHED, true)
      else Decision(NOT_MATCHED, false)
  }

  function EnvFor(lib: Library, r: Resource, now: int): Env
  {
    Env(Activation(lib, r, now), Lookup(lib, r.conditions))
  }

  /** The decision as a function of the call alone. */
  function Decide(lib: Library, prog: Program, resource: Option<Resource>, now: int): Decision
  {
    if resource.None? then Decision("resource is nil", false)
    else if now == ZERO_TIME then Decision("now time is zero", false)
    else Conclude(RunProgram(lib, EnvFor(lib, resource.value, now), prog))
  }

  lemma ConcludeIffTrue(out: Result<Value, Failure>)
    ensures Conclude(out).shouldPublish <==> out == Ok(Bool(true))
  {
  }

  lemma DecideIffTrue(lib: Library, prog: Program, r: Resource, now: int)
    ensures Decide(lib, prog, Some(r), now).shouldPublish <==>
            now != ZERO_TIME && RunProgram(lib, EnvFor(lib, r, now), prog) == Ok(Bool(true))
  {
    ConcludeIffTrue(RunProgram(lib, EnvFor(lib, r, now), prog));
  }

  /** A failure of some param is a failure of every longer list of params, and the same one. */
  lemma {:induction false} FirstFailureStays(lib: Library, env: Env, params: seq<Param>, i: nat)
    requires i <= |params| && RunParams(lib, env, params[..i]).Err?
    ensures RunParams(lib, env, params) == RunParams(lib, env, params[..i])
  {
    if i == |params| {
      assert params[..i] == params;
    } else {
      var n := |params| - 1;
      assert params[..n][..i] == params[..i];
      FirstFailureStays(lib, env, params[..n], i);
    }
  }

  /******* The engine *******/

  class DecisionEngine {
    const lib: Library
    const params: seq<Param>
    const result: Expr
    var conditionsLookup: map<string, Value>

    constructor (lib: Library, params: seq<Param>, result: Expr)
      ensures this.lib == lib && this.params == params && this.result == result
      ensures conditionsLookup == map[]
    {
      this.lib := lib;
      this.params := params;
      this.result := result;
      conditionsLookup := map[];
    }

    function Prog(): Program { Program(params, result) }

    method Evaluate(resource: Option<Resource>, now: int) returns (d: Decision)
      modifies this`conditionsLookup
      ensures d == Decide(lib, Prog(), resource, now)
      ensures conditionsLookup == NextLookup(lib, old(conditionsLookup), Call(resource, now))
    {
      if resource.None? {
        return Decision("resource is nil", false);
      }
      if now == ZERO_TIME {
        return Decision("now time is zero", false);
      }
      conditionsLookup := BuildConditionsLookup(lib, resource.value.conditions);
      var activation := Activation(lib, resource.value, now);
      var paramValues: map<string, Value> := map[];
      ghost var env := Env(activation, conditionsLookup);
      for i := 0 to |params|
        invariant RunParams(lib, env, params[..i]) == Ok(paramValues)
      {
        var p := params[i];
        assert params[..i + 1][..i] == params[..i];
        var evalActivation := activation + paramValues;
        var out := Eval(lib, Env(evalActivation, conditionsLookup), p.expr);
        if out.Err? {
          FirstFailureStays(lib, env, params, i + 1);
          return Decision("param \"" + p.name + "\" evaluation failed: " + ErrorText(out.error), false);
        }
        paramValues := paramValues[p.name := out.value];
      }
      assert params[..|params|] == params;
      var resultActivation := activation + paramValues;
      var out := Eval(lib, Env(resultActivation, conditionsLookup), result);
      if out.Err? {
        return Decision("result evaluation failed: " + ErrorText(out.error), false);
      }
      if !out.value.Bool? {
        return Decision("result expression did not return bool, got " + TypeName(out.value), false);
      }
      if out.value.b {
        return Decision(MATCHED, true);
      }
      return Decision(NOT_MATCHED, false);
    }
  }

  ghost predicate Compiles(compile: string -> Option<Expr>, cfg: MessageDecisionConfig)
  {
    && (forall p :: p in cfg.params ==> compile(p.expr).Some?)
    && compile(cfg.result).Some?
  }

  /** The param at index `i` is the first whose expression is refused. */
  ghost predicate FirstRefused(compile: string -> Option<Expr>, params: seq<ParamConfig>, i: int)
  {
    0 <= i < |params| && compile(params[i].expr).None? && forall j :: 0 <= j < i ==> compile(params[j].expr).Some?
  }

  /** `compile` is the CEL compiler in the environment that declares `resource`, `now`, `condition()` and
      every param name. Everything is compiled here, so a config is accepted or refused at start-up. */
  method NewDecisionEngine(lib: Library, cfg: Option<MessageDecisionConfig>, compile: string -> Option<Expr>)
    returns (r: Result<DecisionEngine, ConfigError>)
    ensures r.Ok? <==> cfg.Some? && WellFormed(cfg.value) && Compiles(compile, cfg.value)
    ensures cfg.None? ==> r == Err(MissingConfig)
    ensures cfg.Some? && WellFormed(cfg.value) && r.Err? ==>
              if forall p :: p in cfg.value.params ==> compile(p.expr).Some? then r.error == BadResult
              else exists i :: FirstRefused(compile, cfg.value.params, i) &&
                               r.error == BadExpr(cfg.value.params[i].name)
    ensures r.Ok? ==>
              var e := r.value;
              && fresh(e) && e.lib == lib && e.conditionsLookup == map[]
              && |e.params| == |cfg.value.params|
              && (forall i :: 0 <= i < |e.params| ==>
                    e.params[i].name == cfg.value.params[i].name &&
                    Some(e.params[i].expr) == compile(cfg.value.params[i].expr))
              && Some(e.result) == compile(cfg.value.result)
  {
    if cfg.None? {
      return Err(MissingConfig);
    }
    var fault := Validate(cfg.value);
    if fault.Some? {
      return Err(fault.value);
    }
    var params: seq<Param> := [];
    for i := 0 to |cfg.value.params|
      invariant |params| == i
      invariant forall j :: 0 <= j < i ==>
                  params[j].name == cfg.value.params[j].name &&
                  Some(params[j].expr) == compile(cfg.value.params[j].expr)
    {
      var p := cfg.value.params[i];
      assert p in cfg.value.params;
      var ast := compile(p.expr);
      if ast.None? {
        assert FirstRefused(compile, cfg.value.params, i);
        return Err(BadExpr(p.name));
      }
      params := params + [Param(p.name, ast.value)];
    }
    forall p | p in cfg.value.params
      ensures compile(p.expr).Some?
    {
      var i :| 0 <= i < |cfg.value.params| && cfg.value.params[i] == p;
      assert Some(params[i].expr) == compile(cfg.value.params[i].expr);
    }
    var ast := compile(cfg.value.result);
    if ast.None? {
      return Err(BadResult);
    }
    var e := new DecisionEngine(lib, params, ast.value);
    return Ok(e);
  }

  /******* Runs of calls *******/

  datatype Call = Call(resource: Option<Resource>, now: int)

  /** The lookup a call leaves behind: a call that returns early leaves that of an earlier resource. */
  function NextLookup(lib: Library, lookup: map<string, Value>, call: Call): map<string, Value>
  {
    if call.resource.None? || call.now == ZERO_TIME then lookup else Lookup(lib, call.resource.value.conditions)
  }

  /** One call on an engine whose lookup is `lookup`. The expressions are evaluated with the lookup that is
      in the engine by then, which is what `condition()` reads. */
  function Step(lib: Library, prog: Program, lookup: map<string, Value>, call: Call): (map<string, Value>, Decision)
  {
    var next := NextLookup(lib, lookup, call);
    if call.resource.None? then (next, Decision("resource is nil", false))
    else if call.now == ZERO_TIME then (next, Decision("now time is zero", false))
    else (next, Conclude(RunProgram(lib, Env(Activation(lib, call.resource.value, call.now), next), prog)))
  }

  function Decisions(lib: Library, prog: Program, lookup: map<string, Value>, calls: seq<Call>): (ds: seq<Decision>)
    ensures |ds| == |calls|
    decreases |calls|
  {
    if calls == [] then []
    else
      var (next, d) := Step(lib, prog, lookup, calls[0]);
      [d] + Decisions(lib, prog, next, calls[1..])
  }

  /** No decision of a run of calls depends on the lookup the engine starts with or on the other calls. */
  lemma {:induction false} HistoryIndependence(
    lib: Library, prog: Program, lookup: map<string, Value>, calls: seq<Call>, i: nat)
    requires i < |calls|
    decreases i
    ensures Decisions(lib, prog, lookup, calls)[i] == Decide(lib, prog, calls[i].resource, calls[i].now)
  {
    var (next, d) := Step(lib, prog, lookup, calls[0]);
    if i > 0 {
      HistoryIndependence(lib, prog, next, calls[1..], i - 1);
    }
  }

  lemma ConclusionHasReason(out: Result<Value, Failure>)
    ensures var d := Conclude(out); d.reason != "" && (d.shouldPublish <==> d.reason == MATCHED)
  {
    var d := Conclude(out);
    assert MATCHED[0] == 'm' && |MATCHED| == 24 && |NOT_MATCHED| == 32;
    match out
    case Err(ParamFailed(name, e)) => assert d.reason[0] == 'p';
    case Err(ResultFailed(e)) => assert d.reason[0] == 'r';
    case Ok(v) =>
      if !v.Bool? {
        assert d.reason == "result expression did not return bool, got " + TypeName(v);
        assert d.reason[0] == 'r';
      }
  }

  const PARAM_FAILED := "param \""
  const RESULT_FAILED := "result evaluation failed: "
  const NOT_BOOL := "result expression did not return bool, got "

  /** Two texts that differ at some place: neither begins with the other. */
  predicate Apart(a: string, b: string, i: nat)
  {
    i < |a| && i < |b| && a[i] != b[i]
  }

  lemma FailureReason(f: Failure)
    ensures var reason := Conclude(Err(f)).reason;
            if f.ParamFailed? then
              PARAM_FAILED <= reason && Apart(RESULT_FAILED, reason, 0) && Apart(NOT_BOOL, reason, 0)
            else
              RESULT_FAILED <= reason && Apart(PARAM_FAILED, reason, 0) && Apart(NOT_BOOL, reason, 8)
    ensures Apart(NOT_MATCHED, Conclude(Err(f)).reason, 0)
  {
    assert PARAM_FAILED[0] == 'p' && RESULT_FAILED[0] == NOT_BOOL[0] == 'r' && NOT_MATCHED[0] == 'm';
    assert RESULT_FAILED[8] == 'v' && NOT_BOOL[8] == 'x';
    match f
    case ParamFailed(name, e) =>
      assert Conclude(Err(f)).reason == PARAM_FAILED + (name + "\" evaluation failed: " + ErrorText(e));
    case ResultFailed(e) =>
      assert Conclude(Err(f)).reason == RESULT_FAILED + ErrorText(e);
  }

  lemma ValueReason(v: Value)
    ensures var reason := Conclude(Ok(v)).reason;
            if v.Bool? then
              && Apart(PARAM_FAILED, reason, 0) && Apart(RESULT_FAILED, reason, 0) && Apart(NOT_BOOL, reason, 0)
              && (reason == NOT_MATCHED <==> !v.b)
            else
              && NOT_BOOL <= reason && Apart(NOT_MATCHED, reason, 0)
              && Apart(PARAM_FAILED, reason, 0) && Apart(RESULT_FAILED, reason, 8)
  {
    assert PARAM_FAILED[0] == 'p' && RESULT_FAILED[0] == NOT_BOOL[0] == 'r' && MATCHED[0] == NOT_MATCHED[0] == 'm';
    assert RESULT_FAILED[8] == 'v' && NOT_BOOL[8] == 'x' && |MATCHED| == 24 && |NOT_MATCHED| == 32;
    if !v.Bool? { assert Conclude(Ok(v)).reason == NOT_BOOL + TypeName(v); }
  }

  lemma ConclusionIdentifies(out: Result<Value, Failure>)
    ensures var reason := Conclude(out).reason;
            && (reason == NOT_MATCHED <==> out == Ok(Bool(false)))
            && (PARAM_FAILED <= reason <==> out.Err? && out.error.ParamFailed?)
            && (RESULT_FAILED <= reason <==> out.Err? && out.error.ResultFailed?)
            && (NOT_BOOL <= reason <==> out.Ok? && !out.value.Bool?)
  {
    match out
    case Err(f) => FailureReason(f);
    case Ok(v) => ValueReason(v);
  }

  /** The reason tells what became of the evaluation: false, a failed param, a failed result, or a result that
      is not a bool. */
  lemma ReasonIdentifies(lib: Library, prog: Program, r: Resource, now: int)
    requires now != ZERO_TIME
    ensures var reason, out := Decide(lib, prog, Some(r), now).reason, RunProgram(lib, EnvFor(lib, r, now), prog);
            && (reason == NOT_MATCHED <==> out == Ok(Bool(false)))
            && (PARAM_FAILED <= reason <==> out.Err? && out.error.ParamFailed?)
            && (RESULT_FAILED <= reason <==> out.Err? && out.error.ResultFailed?)
            && (NOT_BOOL <= reason <==> out.Ok? && !out.value.Bool?)
  {
    ConclusionIdentifies(RunProgram(lib, EnvFor(lib, r, now), prog));
  }

  /** An event is published under exactly one reason, and no decision has an empty reason. */
  lemma ReasonTells(lib: Library, prog: Program, resource: Option<Resource>, now: int)
    ensures var d := Decide(lib, prog, resource, now);
            d.reason != "" && (d.shouldPublish <==> d.reason == MATCHED)
  {
    if resource.Some? && now != ZERO_TIME {
      ConclusionHasReason(RunProgram(lib, EnvFor(lib, resource.value, now), prog));
    } else {
      assert MATCHED[0] == 'm' && "resource is nil"[0] == 'r' && "now time is zero"[0] == 'n';
    }
  }
}
