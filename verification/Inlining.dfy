/** What a staged program means: the relation between evaluating params one after another and writing
    every param into the result, and what scoping buys. */
module Inlining {
  import opened Wrappers
  import opened Cel
  import opened Resources
  import opened Engine

  /** `e` with every param written in, the last authored one first, so that a name always stands for the
      latest param of that name before it. */
  function Inline(params: seq<Param>, e: Expr): Expr
  {
    if params == [] then e
    else
      var p := params[|params| - 1];
      Inline(params[..|params| - 1], Subst(e, p.name, p.expr))
  }

  lemma StagedStep(lib: Library, env: Env, values: map<string, Value>, p: Param, e: Expr)
    requires Eval(lib, Extend(env, values), p.expr).Ok?
    ensures var v := Eval(lib, Extend(env, values), p.expr).value;
            Eval(lib, Extend(env, values[p.name := v]), e) == Eval(lib, Extend(env, values), Subst(e, p.name, p.expr))
  {
    var staged := Extend(env, values);
    var v := Eval(lib, staged, p.expr).value;
    SubstitutionLemma(lib, staged, e, p.name, p.expr, v);
    assert Extend(env, values[p.name := v]) == staged.(vars := staged.vars[p.name := v]);
  }

  /** When every param has a value, the staged activation gives any expression the value it has once all
      params are written into it. No condition on names or scoping is needed. */
  lemma {:induction false} StagedEqualsInlined(lib: Library, env: Env, params: seq<Param>, e: Expr)
    requires RunParams(lib, env, params).Ok?
    ensures Eval(lib, Extend(env, RunParams(lib, env, params).value), e) == Eval(lib, env, Inline(params, e))
  {
    if params == [] {
      assert Extend(env, map[]) == env;
    } else {
      var init, p := params[..|params| - 1], params[|params| - 1];
      StagedStep(lib, env, RunParams(lib, env, init).value, p, e);
      StagedEqualsInlined(lib, env, init, Subst(e, p.name, p.expr));
    }
  }

  /** The param at index `i` with the params before it written in. */
  function InlinedParam(params: seq<Param>, i: nat): Expr
    requires i < |params|
  {
    Inline(params[..i], params[i].expr)
  }

  /** Each param, written out in full, has a value. */
  ghost predicate AllHaveValues(lib: Library, env: Env, params: seq<Param>)
  {
    forall i :: 0 <= i < |params| ==> Eval(lib, env, InlinedParam(params, i)).Ok?
  }

  lemma AllButLast(lib: Library, env: Env, params: seq<Param>)
    requires params != []
    ensures var n := |params| - 1;
            AllHaveValues(lib, env, params) <==>
            AllHaveValues(lib, env, params[..n]) && Eval(lib, env, Inline(params[..n], params[n].expr)).Ok?
  {
    var n := |params| - 1;
    forall i | 0 <= i < n
      ensures InlinedParam(params[..n], i) == InlinedParam(params, i)
    {
      assert params[..n][..i] == params[..i];
    }
    assert InlinedParam(params, n) == Inline(params[..n], params[n].expr);
    if AllHaveValues(lib, env, params) {
      forall i | 0 <= i < n
        ensures Eval(lib, env, InlinedParam(params[..n], i)).Ok?
      {
        assert InlinedParam(params[..n], i) == InlinedParam(params, i);
      }
    }
  }

  /** All params have a value exactly when each of them, written out in full, has one. */
  lemma {:induction false} ParamsSucceedIff(lib: Library, env: Env, params: seq<Param>)
    ensures RunParams(lib, env, params).Ok? <==> AllHaveValues(lib, env, params)
  {
    if params != [] {
      var n := |params| - 1;
      ParamsSucceedIff(lib, env, params[..n]);
      AllButLast(lib, env, params);
      if RunParams(lib, env, params[..n]).Ok? {
        StagedEqualsInlined(lib, env, params[..n], params[n].expr);
      }
    }
  }

  /** Every param, written out, has a value and the result, written out, is true. */
  ghost predicate InlinedHolds(lib: Library, env: Env, prog: Program)
  {
    && AllHaveValues(lib, env, prog.params)
    && Eval(lib, env, Inline(prog.params, prog.result)) == Ok(Bool(true))
  }

  lemma RunHoldsIffInlined(lib: Library, env: Env, prog: Program)
    ensures RunProgram(lib, env, prog) == Ok(Bool(true)) <==> InlinedHolds(lib, env, prog)
  {
    ParamsSucceedIff(lib, env, prog.params);
    if RunParams(lib, env, prog.params).Ok? {
      StagedEqualsInlined(lib, env, prog.params, prog.result);
    }
  }

  /** The engine publishes exactly when the written-out params and result hold: strict in the params,
      with error absorption inside each expression only. */
  lemma PublishesIffInlined(lib: Library, prog: Program, r: Resource, now: int)
    ensures Decide(lib, prog, Some(r), now).shouldPublish <==>
            now != ZERO_TIME && InlinedHolds(lib, EnvFor(lib, r, now), prog)
  {
    var env := EnvFor(lib, r, now);
    RunHoldsIffInlined(lib, env, prog);
    DecideIffTrue(lib, prog, r, now);
  }

  /******* Scoping *******/

  function Names(params: seq<Param>): set<string>
  {
    set p | p in params :: p.name
  }

  /** The names an expression may use after `params`. */
  function InScope(params: seq<Param>): set<string>
  {
    {"resource", "now"} + Names(params)
  }

  /** Every param mentions only `resource`, `now` and params before it. */
  ghost predicate Scoped(params: seq<Param>)
  {
    forall i :: 0 <= i < |params| ==> FreeVars(params[i].expr) <= InScope(params[..i])
  }

  ghost predicate WellScoped(prog: Program)
  {
    Scoped(prog.params) && FreeVars(prog.result) <= InScope(prog.params)
  }

  lemma ScopedInit(params: seq<Param>)
    requires params != [] && Scoped(params)
    ensures Scoped(params[..|params| - 1])
    ensures FreeVars(params[|params| - 1].expr) <= InScope(params[..|params| - 1])
  {
    var init := params[..|params| - 1];
    forall i | 0 <= i < |init|
      ensures FreeVars(init[i].expr) <= InScope(init[..i])
    {
      assert init[..i] == params[..i] && init[i] == params[i];
    }
  }

  lemma {:induction false} BoundNames(lib: Library, env: Env, params: seq<Param>)
    requires RunParams(lib, env, params).Ok?
    ensures RunParams(lib, env, params).value.Keys == Names(params)
  {
    if params != [] {
      var init := params[..|params| - 1];
      BoundNames(lib, env, init);
      assert params == init + [params[|params| - 1]];
    }
  }

  predicate IsUnbound(e: Error) { e.Unbound? }

  lemma InScopeNeverUnbound(lib: Library, env: Env, params: seq<Param>, e: Expr)
    requires {"resource", "now"} <= env.vars.Keys && FreeVars(e) <= InScope(params)
    requires RunParams(lib, env, params).Ok?
    ensures var v := Eval(lib, Extend(env, RunParams(lib, env, params).value), e); v.Err? ==> !IsUnbound(v.error)
  {
    BoundNames(lib, env, params);
    UnboundIsFreeAndMissing(lib, Extend(env, RunParams(lib, env, params).value), e);
  }

  lemma {:induction false} ParamsNeverUnbound(lib: Library, env: Env, params: seq<Param>)
    requires Scoped(params) && {"resource", "now"} <= env.vars.Keys
    ensures var out := RunParams(lib, env, params); out.Err? ==> !IsUnbound(out.error.error)
  {
    if params != [] {
      var init := params[..|params| - 1];
      ScopedInit(params);
      ParamsNeverUnbound(lib, env, init);
      if RunParams(lib, env, init).Ok? {
        InScopeNeverUnbound(lib, env, init, params[|params| - 1].expr);
      }
    }
  }

  lemma RunNeverUnbound(lib: Library, env: Env, prog: Program)
    requires WellScoped(prog) && {"resource", "now"} <= env.vars.Keys
    ensures var out := RunProgram(lib, env, prog); out.Err? ==> !IsUnbound(out.error.error)
  {
    ParamsNeverUnbound(lib, env, prog.params);
    if RunParams(lib, env, prog.params).Ok? {
      InScopeNeverUnbound(lib, env, prog.params, prog.result);
    }
  }

  /** A well-scoped program never fails on an unbound variable, in any param or in the result. */
  lemma WellScopedNeverUnbound(lib: Library, prog: Program, r: Resource, now: int)
    requires WellScoped(prog)
    ensures var out := RunProgram(lib, EnvFor(lib, r, now), prog);
            out.Err? ==> !IsUnbound(out.error.error)
  {
    RunNeverUnbound(lib, EnvFor(lib, r, now), prog);
  }

  /** Params appended under new names leave every earlier value as it was. */
  lemma {:induction false} AppendingKeepsValues(lib: Library, env: Env, params: seq<Param>, more: seq<Param>)
    requires RunParams(lib, env, params + more).Ok?
    requires Names(params) !! Names(more)
    ensures RunParams(lib, env, params).Ok?
    ensures forall x :: x in Names(params) ==>
              var values, extended := RunParams(lib, env, params).value, RunParams(lib, env, params + more).value;
              x in values && x in extended && extended[x] == values[x]
  {
    if more == [] {
      assert params + more == params;
      BoundNames(lib, env, params);
    } else {
      var n := |more| - 1;
      assert (params + more)[..|params + more| - 1] == params + more[..n];
      assert forall p :: p in more[..n] ==> p in more;
      AppendingKeepsValues(lib, env, params, more[..n]);
      assert more[n].name in Names(more);
    }
  }

  lemma NamesAppend(params: seq<Param>, more: seq<Param>)
    ensures Names(params + more) == Names(params) + Names(more)
  {
  }

  lemma AppendingKeepsRun(lib: Library, env: Env, prog: Program, more: seq<Param>)
    requires Names(prog.params) !! Names(more)
    requires FreeVars(prog.result) !! Names(more)
    requires RunParams(lib, env, prog.params + more).Ok?
    ensures RunProgram(lib, env, Program(prog.params + more, prog.result)) == RunProgram(lib, env, prog)
  {
    AppendingKeepsValues(lib, env, prog.params, more);
    BoundNames(lib, env, prog.params);
    BoundNames(lib, env, prog.params + more);
    NamesAppend(prog.params, more);
    var values, extended := RunParams(lib, env, prog.params).value, RunParams(lib, env, prog.params + more).value;
    var before, after := Extend(env, values), Extend(env, extended);
    forall x | x in FreeVars(prog.result)
      ensures (x in before.vars <==> x in after.vars) && (x in before.vars ==> before.vars[x] == after.vars[x])
    {
      assert x in extended <==> x in values;
    }
    EvalReadsFreeVars(lib, before, after, prog.result);
  }

  /** So a program whose result mentions none of the new names decides as before, provided the new params
      have values. */
  lemma AppendingKeepsDecision(lib: Library, prog: Program, more: seq<Param>, r: Resource, now: int)
    requires Names(prog.params) !! Names(more)
    requires FreeVars(prog.result) !! Names(more)
    requires RunParams(lib, EnvFor(lib, r, now), prog.params + more).Ok?
    ensures Decide(lib, Program(prog.params + more, prog.result), Some(r), now) == Decide(lib, prog, Some(r), now)
  {
    AppendingKeepsRun(lib, EnvFor(lib, r, now), prog, more);
  }

  /******* Strictness between stages *******/

  /** A program whose result would absorb the failure of its only param, were the param written in: the
      param selects a field that no resource has. */
  function AbsorbingProgram(): Program
  {
    Program([Param("p", Select(Var("resource"), "nope"))], Or(Lit(Bool(true)), Var("p")))
  }

  lemma AbsorbingIsWellScoped()
    ensures WellScoped(AbsorbingProgram())
  {
    assert FreeVars(AbsorbingProgram().result) == {"p"};
    assert AbsorbingProgram().params[0] in AbsorbingProgram().params;
  }

  lemma NoSuchField(lib: Library, r: Resource)
    ensures SelectField(ResourceMap(lib, r), "nope") == Err(NoSuchKey("nope"))
  {
    assert |"nope"| == 4 && "nope"[0] == 'n' && "href"[0] == 'h' && "kind"[0] == 'k';
    assert |"id"| == 2 && |"created_time"| == 12 && |"updated_time"| == 12 && |"generation"| == 10;
    assert |"labels"| == 6 && |"owner_references"| == 16 && |"metadata"| == 8;
  }

  lemma AbsorbingRun(lib: Library, env: Env, resource: Value)
    requires "resource" in env.vars && env.vars["resource"] == resource
    requires SelectField(resource, "nope") == Err(NoSuchKey("nope"))
    ensures var prog := AbsorbingProgram();
            && Eval(lib, env, Inline(prog.params, prog.result)) == Ok(Bool(true))
            && RunProgram(lib, env, prog) == Err(ParamFailed("p", NoSuchKey("nope")))
  {
    var prog := AbsorbingProgram();
    var broken := Select(Var("resource"), "nope");
    assert prog.params[..0] == [];
    assert Inline([], Or(Lit(Bool(true)), broken)) == Or(Lit(Bool(true)), broken);
    assert Subst(Var("p"), "p", broken) == broken;
    assert Subst(prog.result, "p", broken) == Or(Lit(Bool(true)), broken);
    assert RunParams(lib, env, []) == Ok(map[]);
    assert Extend(env, map[]) == env;
    assert Eval(lib, env, Var("resource")) == Ok(resource);
    assert Eval(lib, env, broken) == Err(NoSuchKey("nope"));
  }

  /** A param that fails blocks the event, for every resource and instant, even where the written-out result
      would have absorbed the failure; and this program passes every check made at start-up. */
  lemma FailedParamIsNotAbsorbed(lib: Library, r: Resource, now: int)
    requires now != ZERO_TIME
    ensures var prog := AbsorbingProgram();
            && WellScoped(prog)
            && Eval(lib, EnvFor(lib, r, now), Inline(prog.params, prog.result)) == Ok(Bool(true))
            && !Decide(lib, prog, Some(r), now).shouldPublish
  {
    AbsorbingIsWellScoped();
    NoSuchField(lib, r);
    assert |"now"| == 3 && |"resource"| == 8;
    AbsorbingRun(lib, EnvFor(lib, r, now), ResourceMap(lib, r));
    DecideIffTrue(lib, AbsorbingProgram(), r, now);
  }
}
