/** The part of CEL that message decisions are written in: values, expressions and evaluation.

    Evaluation yields a value or an error. Errors are strict everywhere except in `&&`, `||` and the
    branch of `?:` that is not taken, where the other operand can absorb them (section "Logical
    Operators" of the CEL Language Definition). Instants and durations are counted in nanoseconds. */
module Cel {
  import opened Wrappers
  import Strings

  datatype Value =
    | Null
    | Bool(b: bool)
    | Int(i: int)
    | Str(s: string)
    | Time(t: int)
    | Dur(d: int)
    | Map(fields: map<string, Value>)

  datatype UnaryOp = Not | Timestamp | Duration | ConditionCall

  datatype BinaryOp = Eq | Ne | Gt | Sub

  datatype Expr =
    | Lit(v: Value)
    | Var(name: string)
    | Select(e: Expr, field: string)
    | Unary(uop: UnaryOp, e: Expr)
    | Binary(bop: BinaryOp, l: Expr, r: Expr)
    | And(l: Expr, r: Expr)
    | Or(l: Expr, r: Expr)
    | Ite(c: Expr, l: Expr, r: Expr)

  datatype Error =
    | Unbound(name: string)
    | NoSuchKey(key: string)
    | NoSuchOverload
    | Overflow
    | BadTimestamp
    | BadDuration

  type Out = Result<Value, Error>

  const MIN_INT64: int := -0x8000_0000_0000_0000
  const MAX_INT64: int := 0x7FFF_FFFF_FFFF_FFFF

  predicate FitsInt64(x: int) { MIN_INT64 <= x <= MAX_INT64 }

  const SECOND: int := 1_000_000_000
  const MINUTE: int := 60 * SECOND

  /** Go's zero `time.Time`: midnight of 1 January of year 1, counted from the Unix epoch. */
  const ZERO_TIME: int := -62_135_596_800 * SECOND

  /** The last nanosecond of year 9999. */
  const MAX_TIME: int := 253_402_300_800 * SECOND - 1

  /** The instants a CEL timestamp may denote. */
  predicate InRange(t: int) { ZERO_TIME <= t <= MAX_TIME }

  /** The Go and CEL library calls that turn text into instants and durations and back:
      `time.Time.Format(time.RFC3339Nano)`, `time.Parse(time.RFC3339, _)` and `time.ParseDuration`. */
  datatype Library = Library(
    formatTime: int -> string,
    parseTime: string -> Option<int>,
    parseDuration: string -> Option<int>)

  /** What is assumed of the library: a formatted instant is never the empty string; formatting then
      parsing is the identity in range, and does not come back into range from outside; and the two
      durations of the default program mean what they say. */
  ghost predicate Faithful(lib: Library)
  {
    && (forall t: int :: lib.formatTime(t) != "")
    && (forall t: int :: InRange(t) ==> lib.parseTime(lib.formatTime(t)) == Some(t))
    && (forall t: int :: !InRange(t) && lib.parseTime(lib.formatTime(t)).Some?
                         ==> !InRange(lib.parseTime(lib.formatTime(t)).value))
    && lib.parseDuration("30m") == Some(30 * MINUTE)
    && lib.parseDuration("10s") == Some(10 * SECOND)
  }

  /** A library that writes instants as a sign and tally marks: the assumptions can be met. */
  function TallyLibrary(): Library
  {
    Library(
      (t: int) => if t >= 0 then ['+'] + seq(t, _ => '|') else ['-'] + seq(-t, _ => '|'),
      (s: string) => if s == "" then None else if s[0] == '+' then Some(|s| - 1) else Some(1 - |s|),
      (s: string) => if s == "30m" then Some(30 * MINUTE) else if s == "10s" then Some(10 * SECOND) else None)
  }

  lemma FaithfulIsSatisfiable()
    ensures Faithful(TallyLibrary())
  {
    assert "30m"[0] == '3' && "10s"[0] == '1';
    forall t: int
      ensures TallyLibrary().formatTime(t) != "" && TallyLibrary().parseTime(TallyLibrary().formatTime(t)) == Some(t)
    {
      assert |TallyLibrary().formatTime(t)| == 1 + if t >= 0 then t else -t;
    }
  }

  /** `vars` is the activation; `conditions` is what the `condition()` function looks names up in. */
  datatype Env = Env(vars: map<string, Value>, conditions: map<string, Value>)

  /** The stand-in for a condition that is not there: its time fields are empty strings. */
  function ZeroCondition(): Value
  {
    Map(map[
      "status" := Str(""),
      "observed_generation" := Int(0),
      "last_updated_time" := Str(""),
      "last_transition_time" := Str(""),
      "reason" := Str(""),
      "message" := Str("")])
  }

  /** The binding of `condition(name)`. */
  function LookupCondition(conditions: map<string, Value>, name: Value): Value
  {
    if name.Str? && name.s in conditions then conditions[name.s] else ZeroCondition()
  }

  function ToTimestamp(lib: Library, v: Value): Out
  {
    match v
    case Time(_) => Ok(v)
    case Int(i) => if InRange(i * SECOND) then Ok(Time(i * SECOND)) else Err(Overflow)
    case Str(s) =>
      (match lib.parseTime(s)
       case Some(t) => if InRange(t) then Ok(Time(t)) else Err(Overflow)
       case None => Err(BadTimestamp))
    case _ => Err(NoSuchOverload)
  }

  function ToDuration(lib: Library, v: Value): Out
  {
    match v
    case Dur(_) => Ok(v)
    case Int(i) => Ok(Dur(i))
    case Str(s) =>
      (match lib.parseDuration(s)
       case Some(d) => Ok(Dur(d))
       case None => Err(BadDuration))
    case _ => Err(NoSuchOverload)
  }

  function ApplyUnary(lib: Library, env: Env, op: UnaryOp, v: Value): Out
  {
    match op
    case Not => if v.Bool? then Ok(Bool(!v.b)) else Err(NoSuchOverload)
    case Timestamp => ToTimestamp(lib, v)
    case Duration => ToDuration(lib, v)
    case ConditionCall => Ok(LookupCondition(env.conditions, v))
  }

  function Greater(l: Value, r: Value): Out
  {
    match (l, r)
    case (Bool(x), Bool(y)) => Ok(Bool(x && !y))
    case (Int(x), Int(y)) => Ok(Bool(x > y))
    case (Str(x), Str(y)) => Ok(Bool(!Strings.Leq(x, y)))
    case (Time(x), Time(y)) => Ok(Bool(x > y))
    case (Dur(x), Dur(y)) => Ok(Bool(x > y))
    case _ => Err(NoSuchOverload)
  }

  /** Differences that do not fit their type are errors, not wrapped or saturated values. */
  function Subtract(l: Value, r: Value): Out
  {
    match (l, r)
    case (Int(x), Int(y)) => if FitsInt64(x - y) then Ok(Int(x - y)) else Err(Overflow)
    case (Dur(x), Dur(y)) => if FitsInt64(x - y) then Ok(Dur(x - y)) else Err(Overflow)
    case (Time(x), Time(y)) => if FitsInt64(x - y) then Ok(Dur(x - y)) else Err(Overflow)
    case (Time(x), Dur(y)) => if InRange(x - y) then Ok(Time(x - y)) else Err(Overflow)
    case _ => Err(NoSuchOverload)
  }

  function ApplyBinary(op: BinaryOp, l: Value, r: Value): Out
  {
    match op
    case Eq => Ok(Bool(l == r))
    case Ne => Ok(Bool(l != r))
    case Gt => Greater(l, r)
    case Sub => Subtract(l, r)
  }

  /** `&&` for `absorbing == false` and `||` for `absorbing == true`: one operand equal to the absorbing
      value decides the result whatever the other operand is, an error included. */
  function Logical(absorbing: bool, l: Out, r: Out): Out
  {
    if l == Ok(Bool(absorbing)) || r == Ok(Bool(absorbing)) then Ok(Bool(absorbing))
    else if l.Err? then l
    else if r.Err? then r
    else if l.value.Bool? && r.value.Bool? then Ok(Bool(!absorbing))
    else Err(NoSuchOverload)
  }

  function SelectField(v: Value, field: string): Out
  {
    if !v.Map? then Err(NoSuchOverload)
    else if field in v.fields then Ok(v.fields[field])
    else Err(NoSuchKey(field))
  }

  function Eval(lib: Library, env: Env, e: Expr): Out
  {
    match e
    case Lit(v) => Ok(v)
    case Var(name) => if name in env.vars then Ok(env.vars[name]) else Err(Unbound(name))
    case Select(e1, field) =>
      var v := Eval(lib, env, e1);
      if v.Err? then v else SelectField(v.value, field)
    case Unary(op, e1) =>
      var v := Eval(lib, env, e1);
      if v.Err? then v else ApplyUnary(lib, env, op, v.value)
    case Binary(op, l, r) =>
      var x := Eval(lib, env, l);
      if x.Err? then x else
      var y := Eval(lib, env, r);
      if y.Err? then y else ApplyBinary(op, x.value, y.value)
    case And(l, r) => Logical(false, Eval(lib, env, l), Eval(lib, env, r))
    case Or(l, r) => Logical(true, Eval(lib, env, l), Eval(lib, env, r))
    case Ite(c, l, r) =>
      var x := Eval(lib, env, c);
      if x.Err? then x
      else if !x.value.Bool? then Err(NoSuchOverload)
      else if x.value.b then Eval(lib, env, l)
      else Eval(lib, env, r)
  }

  /** `e` with every occurrence of the variable `x` replaced by the expression `by`. */
  function Subst(e: Expr, x: string, def: Expr): Expr
  {
    match e
    case Lit(_) => e
    case Var(name) => if name == x then def else e
    case Select(e1, field) => Select(Subst(e1, x, def), field)
    case Unary(op, e1) => Unary(op, Subst(e1, x, def))
    case Binary(op, l, r) => Binary(op, Subst(l, x, def), Subst(r, x, def))
    case And(l, r) => And(Subst(l, x, def), Subst(r, x, def))
    case Or(l, r) => Or(Subst(l, x, def), Subst(r, x, def))
    case Ite(c, l, r) => Ite(Subst(c, x, def), Subst(l, x, def), Subst(r, x, def))
  }

  /** Binding a variable to the value of an expression is the same as writing the expression there. */
  lemma {:induction false} SubstitutionLemma(lib: Library, env: Env, e: Expr, x: string, def: Expr, v: Value)
    requires Eval(lib, env, def) == Ok(v)
    ensures Eval(lib, env.(vars := env.vars[x := v]), e) == Eval(lib, env, Subst(e, x, def))
  {
    match e
    case Lit(_) =>
    case Var(_) =>
    case Select(e1, _) => SubstitutionLemma(lib, env, e1, x, def, v);
    case Unary(_, e1) => SubstitutionLemma(lib, env, e1, x, def, v);
    case Binary(_, l, r) =>
      SubstitutionLemma(lib, env, l, x, def, v);
      SubstitutionLemma(lib, env, r, x, def, v);
    case And(l, r) =>
      SubstitutionLemma(lib, env, l, x, def, v);
      SubstitutionLemma(lib, env, r, x, def, v);
    case Or(l, r) =>
      SubstitutionLemma(lib, env, l, x, def, v);
      SubstitutionLemma(lib, env, r, x, def, v);
    case Ite(c, l, r) =>
      SubstitutionLemma(lib, env, c, x, def, v);
      SubstitutionLemma(lib, env, l, x, def, v);
      SubstitutionLemma(lib, env, r, x, def, v);
  }

  function FreeVars(e: Expr): set<string>
  {
    match e
    case Lit(_) => {}
    case Var(name) => {name}
    case Select(e1, _) => FreeVars(e1)
    case Unary(_, e1) => FreeVars(e1)
    case Binary(_, l, r) => FreeVars(l) + FreeVars(r)
    case And(l, r) => FreeVars(l) + FreeVars(r)
    case Or(l, r) => FreeVars(l) + FreeVars(r)
    case Ite(c, l, r) => FreeVars(c) + FreeVars(l) + FreeVars(r)
  }

  /** Evaluation reads nothing of the activation but the variables of the expression. */
  lemma {:induction false} EvalReadsFreeVars(lib: Library, env: Env, env': Env, e: Expr)
    requires env.conditions == env'.conditions
    requires forall x :: x in FreeVars(e) ==> (x in env.vars <==> x in env'.vars)
    requires forall x :: x in FreeVars(e) && x in env.vars ==> env.vars[x] == env'.vars[x]
    ensures Eval(lib, env, e) == Eval(lib, env', e)
  {
    match e
    case Lit(_) =>
    case Var(_) =>
    case Select(e1, _) => EvalReadsFreeVars(lib, env, env', e1);
    case Unary(_, e1) => EvalReadsFreeVars(lib, env, env', e1);
    case Binary(_, l, r) =>
      EvalReadsFreeVars(lib, env, env', l);
      EvalReadsFreeVars(lib, env, env', r);
    case And(l, r) =>
      EvalReadsFreeVars(lib, env, env', l);
      EvalReadsFreeVars(lib, env, env', r);
    case Or(l, r) =>
      EvalReadsFreeVars(lib, env, env', l);
      EvalReadsFreeVars(lib, env, env', r);
    case Ite(c, l, r) =>
      EvalReadsFreeVars(lib, env, env', c);
      EvalReadsFreeVars(lib, env, env', l);
      EvalReadsFreeVars(lib, env, env', r);
  }

  /** An unbound-variable error names a free variable of the expression that the activation lacks. */
  lemma {:induction false} UnboundIsFreeAndMissing(lib: Library, env: Env, e: Expr)
    ensures var v := Eval(lib, env, e);
            v.Err? && v.error.Unbound? ==> v.error.name in FreeVars(e) && v.error.name !in env.vars
  {
    match e
    case Lit(_) =>
    case Var(_) =>
    case Select(e1, _) => UnboundIsFreeAndMissing(lib, env, e1);
    case Unary(_, e1) => UnboundIsFreeAndMissing(lib, env, e1);
    case Binary(_, l, r) =>
      UnboundIsFreeAndMissing(lib, env, l);
      UnboundIsFreeAndMissing(lib, env, r);
    case And(l, r) =>
      UnboundIsFreeAndMissing(lib, env, l);
      UnboundIsFreeAndMissing(lib, env, r);
    case Or(l, r) =>
      UnboundIsFreeAndMissing(lib, env, l);
      UnboundIsFreeAndMissing(lib, env, r);
    case Ite(c, l, r) =>
      UnboundIsFreeAndMissing(lib, env, c);
      UnboundIsFreeAndMissing(lib, env, l);
      UnboundIsFreeAndMissing(lib, env, r);
  }

  /** Binding more variables never changes a value, it can only turn an error into one: a variable that is
      missing and yet does no harm was absorbed, and so plays no part in the value. */
  lemma {:induction false} MoreBindingsKeepValues(lib: Library, env: Env, env': Env, e: Expr)
    requires env.conditions == env'.conditions
    requires forall x :: x in env.vars ==> x in env'.vars && env'.vars[x] == env.vars[x]
    ensures Eval(lib, env, e).Ok? ==> Eval(lib, env', e) == Eval(lib, env, e)
  {
    match e
    case Lit(_) =>
    case Var(_) =>
    case Select(e1, _) => MoreBindingsKeepValues(lib, env, env', e1);
    case Unary(_, e1) => MoreBindingsKeepValues(lib, env, env', e1);
    case Binary(_, l, r) =>
      MoreBindingsKeepValues(lib, env, env', l);
      MoreBindingsKeepValues(lib, env, env', r);
    case And(l, r) =>
      MoreBindingsKeepValues(lib, env, env', l);
      MoreBindingsKeepValues(lib, env, env', r);
    case Or(l, r) =>
      MoreBindingsKeepValues(lib, env, env', l);
      MoreBindingsKeepValues(lib, env, env', r);
    case Ite(c, l, r) =>
      MoreBindingsKeepValues(lib, env, env', c);
      MoreBindingsKeepValues(lib, env, env', l);
      MoreBindingsKeepValues(lib, env, env', r);
  }

  /******* What the operators mean *******/

  /** Either operand of `||` alone can make it true and either operand of `&&` alone can make it false,
      whatever the other one is, an error included; the other value needs both operands. */
  lemma EitherSideDecides(lib: Library, env: Env, l: Expr, r: Expr)
    ensures Eval(lib, env, Or(l, r)) == Ok(Bool(true)) <==>
            Eval(lib, env, l) == Ok(Bool(true)) || Eval(lib, env, r) == Ok(Bool(true))
    ensures Eval(lib, env, Or(l, r)) == Ok(Bool(false)) <==>
            Eval(lib, env, l) == Ok(Bool(false)) && Eval(lib, env, r) == Ok(Bool(false))
    ensures Eval(lib, env, And(l, r)) == Ok(Bool(false)) <==>
            Eval(lib, env, l) == Ok(Bool(false)) || Eval(lib, env, r) == Ok(Bool(false))
    ensures Eval(lib, env, And(l, r)) == Ok(Bool(true)) <==>
            Eval(lib, env, l) == Ok(Bool(true)) && Eval(lib, env, r) == Ok(Bool(true))
  {
  }

  /** Both operators give a bool or fail, and a failing left operand is the failure that shows. */
  lemma LogicalFails(lib: Library, env: Env, l: Expr, r: Expr)
    ensures var out := Eval(lib, env, Or(l, r));
            && (out.Ok? ==> out.value.Bool?)
            && (out.Err? && Eval(lib, env, l).Err? ==> out == Eval(lib, env, l))
    ensures var out := Eval(lib, env, And(l, r));
            && (out.Ok? ==> out.value.Bool?)
            && (out.Err? && Eval(lib, env, l).Err? ==> out == Eval(lib, env, l))
  {
  }

  /** Exchanging the operands never changes a value. */
  lemma SwapKeepsValue(lib: Library, env: Env, l: Expr, r: Expr, v: Value)
    ensures Eval(lib, env, Or(l, r)) == Ok(v) <==> Eval(lib, env, Or(r, l)) == Ok(v)
    ensures Eval(lib, env, And(l, r)) == Ok(v) <==> Eval(lib, env, And(r, l)) == Ok(v)
  {
    LogicalFails(lib, env, l, r);
    LogicalFails(lib, env, r, l);
    EitherSideDecides(lib, env, l, r);
    EitherSideDecides(lib, env, r, l);
  }

  /** `e1 || e2 || ...` for `b == true` and `e1 && e2 && ...` for `b == false`: the operator that one `b`
      among the operands decides. */
  function Chain(b: bool, es: seq<Expr>): Expr
    requires es != []
  {
    if |es| == 1 then es[0]
    else
      var n := |es| - 1;
      if b then Or(Chain(b, es[..n]), es[n]) else And(Chain(b, es[..n]), es[n])
  }

  ghost predicate SomeIs(lib: Library, env: Env, es: seq<Expr>, b: bool)
  {
    exists e :: e in es && Eval(lib, env, e) == Ok(Bool(b))
  }

  ghost predicate AllAre(lib: Library, env: Env, es: seq<Expr>, b: bool)
  {
    forall e :: e in es ==> Eval(lib, env, e) == Ok(Bool(b))
  }

  lemma QuantifiersSnoc(lib: Library, env: Env, es: seq<Expr>, e: Expr, b: bool)
    ensures SomeIs(lib, env, es + [e], b) <==> SomeIs(lib, env, es, b) || Eval(lib, env, e) == Ok(Bool(b))
    ensures AllAre(lib, env, es + [e], b) <==> AllAre(lib, env, es, b) && Eval(lib, env, e) == Ok(Bool(b))
  {
    assert e in es + [e];
    if SomeIs(lib, env, es, b) {
      var d :| d in es && Eval(lib, env, d) == Ok(Bool(b));
      assert d in es + [e];
    }
    if AllAre(lib, env, es + [e], b) {
      assert forall d :: d in es ==> d in es + [e];
    }
  }

  /** A chain of any length comes to `b` iff some operand does, and to the other value iff all do. */
  lemma {:induction false} ChainMeans(lib: Library, env: Env, b: bool, es: seq<Expr>)
    requires es != []
    ensures Eval(lib, env, Chain(b, es)) == Ok(Bool(b)) <==> SomeIs(lib, env, es, b)
    ensures Eval(lib, env, Chain(b, es)) == Ok(Bool(!b)) <==> AllAre(lib, env, es, !b)
  {
    if |es| == 1 {
      assert es[0] in es;
    } else {
      var init, last := es[..|es| - 1], es[|es| - 1];
      ChainMeans(lib, env, b, init);
      EitherSideDecides(lib, env, Chain(b, init), last);
      assert es == init + [last];
      QuantifiersSnoc(lib, env, init, last, b);
      QuantifiersSnoc(lib, env, init, last, !b);
    }
  }

  /** So the order of the operands, and how often each is written, never matters to whether a chain is
      true or false. */
  lemma ChainOrderIsFree(lib: Library, env: Env, b: bool, es: seq<Expr>, fs: seq<Expr>, v: bool)
    requires es != [] && fs != [] && forall e :: e in es <==> e in fs
    ensures Eval(lib, env, Chain(b, es)) == Ok(Bool(v)) <==> Eval(lib, env, Chain(b, fs)) == Ok(Bool(v))
  {
    ChainMeans(lib, env, b, es);
    ChainMeans(lib, env, b, fs);
  }

  /** A true condition gives the first branch and a false one the second, whatever the other branch is;
      any other condition fails, as itself if it is a failure. */
  lemma IteMeans(lib: Library, env: Env, c: Expr, l: Expr, r: Expr)
    ensures Eval(lib, env, c) == Ok(Bool(true)) ==> Eval(lib, env, Ite(c, l, r)) == Eval(lib, env, l)
    ensures Eval(lib, env, c) == Ok(Bool(false)) ==> Eval(lib, env, Ite(c, l, r)) == Eval(lib, env, r)
    ensures Eval(lib, env, c).Err? ==> Eval(lib, env, Ite(c, l, r)) == Eval(lib, env, c)
    ensures Eval(lib, env, c).Ok? && !Eval(lib, env, c).value.Bool? ==>
              Eval(lib, env, Ite(c, l, r)) == Err(NoSuchOverload)
  {
  }

  /** Values of one ordered type. */
  predicate Comparable(l: Value, r: Value)
  {
    || (l.Bool? && r.Bool?) || (l.Int? && r.Int?) || (l.Str? && r.Str?)
    || (l.Time? && r.Time?) || (l.Dur? && r.Dur?)
  }

  /** `>` is defined exactly between values of one ordered type, and of two such values exactly one holds:
      greater, less, or equal. */
  lemma GreaterIsTotal(l: Value, r: Value)
    ensures Greater(l, r).Ok? <==> Comparable(l, r)
    ensures Comparable(l, r) ==>
              var gt, lt := Greater(l, r) == Ok(Bool(true)), Greater(r, l) == Ok(Bool(true));
              (gt || lt || l == r) && !(gt && lt) && (l == r ==> !gt)
  {
    if l.Str? && r.Str? {
      Strings.LeqTotal(l.s, r.s);
      Strings.LeqReflexive(l.s);
      if Strings.Leq(l.s, r.s) && Strings.Leq(r.s, l.s) { Strings.LeqAntisymmetric(l.s, r.s); }
    }
  }

  /** A difference is exact or it is an error: nothing wraps around and nothing is cut off. */
  lemma DifferencesAreExact(x: int, y: int)
    ensures forall d :: Subtract(Int(x), Int(y)) == Ok(d) <==> FitsInt64(x - y) && d == Int(x - y)
    ensures forall d :: Subtract(Dur(x), Dur(y)) == Ok(d) <==> FitsInt64(x - y) && d == Dur(x - y)
    ensures forall d :: Subtract(Time(x), Time(y)) == Ok(d) <==> FitsInt64(x - y) && d == Dur(x - y)
  {
  }

  /** Numbers convert to instants by the second from the Unix epoch on and to durations by the nanosecond;
      an instant or a duration converts to itself, and a formatted instant back to the instant, unless it is
      out of range. */
  lemma ConversionsMean(lib: Library, i: int, t: int)
    requires Faithful(lib)
    ensures ToTimestamp(lib, Int(0)) == Ok(Time(0)) && ToTimestamp(lib, Time(t)) == Ok(Time(t))
    ensures ToTimestamp(lib, Int(i)).Ok? && ToTimestamp(lib, Int(i + 1)).Ok? ==>
              Subtract(ToTimestamp(lib, Int(i + 1)).value, ToTimestamp(lib, Int(i)).value) ==
              ToDuration(lib, Int(1_000_000_000))
    ensures ToDuration(lib, Int(i)) == Ok(Dur(i)) && ToDuration(lib, Dur(i)) == Ok(Dur(i))
    ensures ToDuration(lib, Str("10s")) == ToDuration(lib, Int(10_000_000_000))
    ensures ToTimestamp(lib, Str(lib.formatTime(t))) == Ok(Time(t)) <==> InRange(t)
    ensures !InRange(t) ==> ToTimestamp(lib, Str(lib.formatTime(t))).Err?
  {
    if InRange(t) {
      assert lib.parseTime(lib.formatTime(t)) == Some(t);
    } else if lib.parseTime(lib.formatTime(t)).Some? {
      assert !InRange(lib.parseTime(lib.formatTime(t)).value);
    }
  }

  /** Going back by a positive duration leads to an earlier instant, as far away as the duration says. */
  lemma GoingBack(t: int, d: int)
    requires Subtract(Time(t), Dur(d)).Ok? && FitsInt64(d)
    ensures var u := Subtract(Time(t), Dur(d)).value;
            && Subtract(Time(t), u) == Ok(Dur(d))
            && (Greater(Time(t), u) == Ok(Bool(true)) <==> Greater(Dur(d), Dur(0)) == Ok(Bool(true)))
            && (Greater(u, Time(t)) == Ok(Bool(true)) <==> Greater(Dur(0), Dur(d)) == Ok(Bool(true)))
  {
  }
}
