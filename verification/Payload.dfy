/** Event payloads: a definition tree is validated, compiled to nodes once, and evaluated per event with
    absent values and empty objects left out.

    CEL itself is a parameter here: `compiles` says which source texts the compiler accepts, and a
    `Runner` gives the value of an accepted text for a resource and a decision reason, or nothing when
    evaluation fails or has no value. */
module Payload {
  import opened Wrappers
  import opened Resources

  datatype Scalar = IntLit(i: int) | FloatLit(f: real) | BoolLit(b: bool)

  /** A definition as it comes out of YAML. `NilObject` is a map-typed nil; `Unsupported` is any value
      that is neither text, number, boolean, nil nor a map with string keys. */
  datatype Raw =
    | Nil
    | Text(s: string)
    | Literal(v: Scalar)
    | Object(fields: map<string, Raw>)
    | NilObject
    | Unsupported(typeName: string)

  datatype Node =
    | Program(source: string)
    | Children(fields: map<string, Node>)
    | Constant(c: Option<Scalar>)

  datatype Tree<V> = Leaf(value: V) | Given(scalar: Scalar) | Branch(fields: map<string, Tree<V>>)

  type Runner<V> = (string, Resource, string) -> Option<V>

  /******* Paths *******/

  type Path = seq<string>

  function RawAt(raw: Raw, path: Path): Option<Raw>
    decreases |path|
  {
    if path == [] then Some(raw)
    else if raw.Object? && path[0] in raw.fields then RawAt(raw.fields[path[0]], path[1..])
    else None
  }

  function TreeAt<V>(t: Option<Tree<V>>, path: Path): Option<Tree<V>>
    decreases |path|
  {
    if path == [] || t.None? then t
    else if t.value.Branch? && path[0] in t.value.fields then TreeAt(Some(t.value.fields[path[0]]), path[1..])
    else None
  }

  /** Every node of the definition, at whatever depth, satisfies `p`. */
  ghost predicate Everywhere(raw: Raw, p: Raw -> bool)
  {
    forall path :: RawAt(raw, path).Some? ==> p(RawAt(raw, path).value)
  }

  lemma EverywhereUnfolds(raw: Raw, p: Raw -> bool)
    ensures Everywhere(raw, p) <==>
            p(raw) && (raw.Object? ==> forall k :: k in raw.fields ==> Everywhere(raw.fields[k], p))
  {
    if Everywhere(raw, p) {
      assert RawAt(raw, []) == Some(raw);
      if raw.Object? {
        forall k, path | k in raw.fields && RawAt(raw.fields[k], path).Some?
          ensures p(RawAt(raw.fields[k], path).value)
        {
          assert ([k] + path)[1..] == path;
          assert RawAt(raw, [k] + path) == RawAt(raw.fields[k], path);
        }
      }
    } else {
      var path :| RawAt(raw, path).Some? && !p(RawAt(raw, path).value);
      if path != [] {
        assert RawAt(raw.fields[path[0]], path[1..]) == RawAt(raw, path);
      }
    }
  }

  /******* Validation at load time *******/

  predicate NotBlank(raw: Raw)
  {
    raw != Nil && raw != Text("")
  }

  /** The path leads to a node that breaks the rule. */
  ghost predicate Breaks(raw: Raw, path: Path, rule: Raw -> bool)
  {
    RawAt(raw, path).Some? && !rule(RawAt(raw, path).value)
  }

  lemma BreaksBelow(data: map<string, Raw>, k: string, path: Path, rule: Raw -> bool)
    requires k in data && Breaks(data[k], path, rule)
    ensures Breaks(Object(data), [k] + path, rule)
  {
    assert ([k] + path)[1..] == path;
  }

  /** Keys are visited in any order; whether there is a fault does not depend on it, and the path reported
      is that of some faulty node. */
  method ValidateMessageDataLeaves(data: map<string, Raw>) returns (fault: Option<Path>)
    ensures fault.None? <==> Everywhere(Object(data), NotBlank)
    ensures fault.Some? ==> Breaks(Object(data), fault.value, NotBlank)
    decreases Object(data)
  {
    EverywhereUnfolds(Object(data), NotBlank);
    var remaining := data.Keys;
    while remaining != {}
      invariant remaining <= data.Keys
      invariant forall k :: k in data && k !in remaining ==> Everywhere(data[k], NotBlank)
      decreases |remaining|
    {
      var k :| k in remaining;
      var v := data[k];
      EverywhereUnfolds(v, NotBlank);
      var below: Option<Path> := None;
      match v {
        case Nil => below := Some([]);
        case Text(s) => if s == "" { below := Some([]); }
        case Object(fields) =>
          assert v < Object(data);
          below := ValidateMessageDataLeaves(fields);
        case _ =>
      }
      if below.Some? {
        BreaksBelow(data, k, below.value, NotBlank);
        return Some([k] + below.value);
      }
      remaining := remaining - {k};
    }
    return None;
  }

  /******* Compilation *******/

  datatype ValueDef = ValueDef(
    literal: Option<Scalar>,
    children: Option<map<string, Raw>>,
    expression: string,
    expressionSet: bool)

  function ParseValueDef(raw: Raw): Option<ValueDef>
  {
    match raw
    case Text(s) => Some(ValueDef(None, None, s, true))
    case Literal(v) => Some(ValueDef(Some(v), None, "", false))
    case Nil => None
    case Object(fields) => Some(ValueDef(None, Some(fields), "", false))
    case NilObject => Some(ValueDef(None, None, "", false))
    case Unsupported(_) => None
  }

  /** The compiled form of a definition, if it is accepted. */
  function Compile(compiles: string -> bool, raw: Raw): Option<Node>
  {
    match raw
    case Nil => None
    case Text(s) => if s != "" && compiles(s) then Some(Program(s)) else None
    case Literal(v) => Some(Constant(Some(v)))
    case Object(fields) =>
      if forall k :: k in fields ==> Compile(compiles, fields[k]).Some? then
        Some(Children(map k | k in fields :: Compile(compiles, fields[k]).value))
      else None
    case NilObject => Some(Constant(None))
    case Unsupported(_) => None
  }

  lemma CompiledFields(compiles: string -> bool, def: map<string, Raw>, nodes: map<string, Node>)
    requires nodes.Keys == def.Keys
    requires forall k :: k in nodes ==> Compile(compiles, def[k]) == Some(nodes[k])
    ensures Compile(compiles, Object(def)) == Some(Children(nodes))
  {
    var fields := Object(def).fields;
    assert forall k :: k in fields ==> Compile(compiles, fields[k]).Some?;
    var compiled := Compile(compiles, Object(def)).value.fields;
    assert compiled.Keys == nodes.Keys;
    assert forall k :: k in nodes ==> compiled[k] == nodes[k];
    assert compiled == nodes;
  }

  /** What the builder asks of a single node. */
  predicate Compilable(compiles: string -> bool, raw: Raw)
  {
    NotBlank(raw) && Supported(raw) && TextCompiles(compiles, raw)
  }

  /** Keys are visited in any order; whether the map is accepted does not depend on it, and the path reported
      is that of some node that is refused. */
  method CompileMap(compiles: string -> bool, def: map<string, Raw>) returns (r: Result<map<string, Node>, Path>)
    ensures Compile(compiles, Object(def)) == if r.Ok? then Some(Children(r.value)) else None
    ensures r.Err? ==> Breaks(Object(def), r.error, n => Compilable(compiles, n))
    decreases Object(def), 0
  {
    var nodes: map<string, Node> := map[];
    var remaining := def.Keys;
    while remaining != {}
      invariant remaining <= def.Keys && nodes.Keys == def.Keys - remaining
      invariant forall k :: k in nodes ==> Compile(compiles, def[k]) == Some(nodes[k])
      decreases |remaining|
    {
      var k :| k in remaining;
      assert def[k] < Object(def);
      var node := CompileNode(compiles, def[k]);
      if node.Err? {
        BreaksBelow(def, k, node.error, n => Compilable(compiles, n));
        return Err([k] + node.error);
      }
      nodes := nodes[k := node.value];
      remaining := remaining - {k};
    }
    CompiledFields(compiles, def, nodes);
    return Ok(nodes);
  }

  method CompileNode(compiles: string -> bool, raw: Raw) returns (r: Result<Node, Path>)
    ensures Compile(compiles, raw) == if r.Ok? then Some(r.value) else None
    ensures r.Err? ==> Breaks(raw, r.error, n => Compilable(compiles, n))
    decreases raw, 1
  {
    var parsed := ParseValueDef(raw);
    if parsed.None? {
      return Err([]);
    }
    var vd := parsed.value;
    if vd.children.Some? {
      var children := CompileMap(compiles, vd.children.value);
      if children.Err? {
        return Err(children.error);
      }
      return Ok(Children(children.value));
    } else if vd.expressionSet && vd.expression == "" {
      return Err([]);
    } else if vd.expression != "" {
      if !compiles(vd.expression) {
        return Err([]);
      }
      return Ok(Program(vd.expression));
    } else {
      return Ok(Constant(vd.literal));
    }
  }

  predicate Supported(raw: Raw)
  {
    !raw.Unsupported?
  }

  predicate TextCompiles(compiles: string -> bool, raw: Raw)
  {
    raw.Text? ==> compiles(raw.s)
  }

  /** The builder accepts exactly the definitions that validation accepts, whose leaves all have a
      supported type and whose texts all compile; order of visiting plays no part. */
  lemma {:induction false} AcceptedIff(compiles: string -> bool, raw: Raw)
    ensures Compile(compiles, raw).Some? <==>
            && Everywhere(raw, NotBlank)
            && Everywhere(raw, Supported)
            && Everywhere(raw, n => TextCompiles(compiles, n))
  {
    EverywhereUnfolds(raw, NotBlank);
    EverywhereUnfolds(raw, Supported);
    EverywhereUnfolds(raw, n => TextCompiles(compiles, n));
    if raw.Object? {
      forall k | k in raw.fields
        ensures Compile(compiles, raw.fields[k]).Some? <==>
                && Everywhere(raw.fields[k], NotBlank)
                && Everywhere(raw.fields[k], Supported)
                && Everywhere(raw.fields[k], n => TextCompiles(compiles, n))
      {
        AcceptedIff(compiles, raw.fields[k]);
      }
    }
  }

  /******* Evaluation *******/

  function EvalNode<V>(run: Runner<V>, r: Resource, reason: string, node: Node): Option<Tree<V>>
  {
    match node
    case Program(source) =>
      (match run(source, r, reason)
       case Some(v) => Some(Leaf(v))
       case None => None)
    case Constant(c) =>
      (match c
       case Some(v) => Some(Given(v))
       case None => None)
    case Children(fields) =>
      var kept := map k | k in fields && EvalNode(run, r, reason, fields[k]).Some? ::
                    EvalNode(run, r, reason, fields[k]).value;
      if |kept| == 0 then None else Some(Branch(kept))
  }

  /** The payload of a map of nodes: the entries that have a value. */
  ghost predicate Evaluates<V>(
    run: Runner<V>, r: Resource, reason: string, nodes: map<string, Node>, result: map<string, Tree<V>>)
  {
    && result.Keys <= nodes.Keys
    && forall k :: k in nodes ==>
         EvalNode(run, r, reason, nodes[k]) == if k in result then Some(result[k]) else None
  }

  function Kept<V>(run: Runner<V>, r: Resource, reason: string, nodes: map<string, Node>)
    : (result: map<string, Tree<V>>)
    ensures Evaluates(run, r, reason, nodes, result)
  {
    map k | k in nodes && EvalNode(run, r, reason, nodes[k]).Some? :: EvalNode(run, r, reason, nodes[k]).value
  }

  lemma EvaluatedFields<V>(
    run: Runner<V>, r: Resource, reason: string, nodes: map<string, Node>, result: map<string, Tree<V>>)
    requires Evaluates(run, r, reason, nodes, result)
    ensures EvalNode(run, r, reason, Children(nodes)) == if |result| == 0 then None else Some(Branch(result))
  {
    var fields := Children(nodes).fields;
    var kept := map k | k in fields && EvalNode(run, r, reason, fields[k]).Some? ::
                  EvalNode(run, r, reason, fields[k]).value;
    assert kept == result;
    assert EvalNode(run, r, reason, Children(nodes)) == if |kept| == 0 then None else Some(Branch(kept));
  }

  method EvalCompiledMap<V>(run: Runner<V>, r: Resource, reason: string, nodes: map<string, Node>)
    returns (result: map<string, Tree<V>>)
    ensures result == Kept(run, r, reason, nodes)
    decreases Children(nodes), 0
  {
    result := map[];
    var remaining := nodes.Keys;
    while remaining != {}
      invariant remaining <= nodes.Keys && result.Keys <= nodes.Keys - remaining
      invariant forall k :: k in nodes && k !in remaining ==>
                  EvalNode(run, r, reason, nodes[k]) == if k in result then Some(result[k]) else None
      decreases |remaining|
    {
      var k :| k in remaining;
      assert nodes[k] < Children(nodes);
      var val := EvalCompiledNode(run, r, reason, nodes[k]);
      if val.Some? {
        result := result[k := val.value];
      }
      remaining := remaining - {k};
    }
    assert result == Kept(run, r, reason, nodes);
  }

  method EvalCompiledNode<V>(run: Runner<V>, r: Resource, reason: string, node: Node) returns (val: Option<Tree<V>>)
    ensures val == EvalNode(run, r, reason, node)
    decreases node, 1
  {
    match node {
      case Children(fields) =>
        var nested := EvalCompiledMap(run, r, reason, fields);
        EvaluatedFields(run, r, reason, fields, nested);
        if |nested| == 0 {
          return None;
        }
        return Some(Branch(nested));
      case Program(source) =>
        var out := run(source, r, reason);
        match out {
          case Some(v) => return Some(Leaf(v));
          case None => return None;
        }
      case Constant(c) =>
        match c {
          case Some(v) => return Some(Given(v));
          case None => return None;
        }
    }
  }

  /******* What a payload means *******/

  /** The value of a leaf of the definition, read directly off the definition. */
  function LeafValue<V>(run: Runner<V>, r: Resource, reason: string, raw: Raw): Option<Tree<V>>
  {
    match raw
    case Text(s) => (match run(s, r, reason) case Some(v) => Some(Leaf(v)) case None => None)
    case Literal(v) => Some(Given(v))
    case _ => None
  }

  /** Some leaf at or below `path` has a value. */
  ghost predicate Yields<V>(run: Runner<V>, r: Resource, reason: string, raw: Raw, path: Path)
  {
    exists below: Path :: RawAt(raw, path + below).Some? &&
                          LeafValue(run, r, reason, RawAt(raw, path + below).value).Some?
  }

  lemma YieldsUnfolds<V>(run: Runner<V>, r: Resource, reason: string, raw: Raw)
    requires raw.Object?
    ensures Yields(run, r, reason, raw, []) <==>
            exists k :: k in raw.fields && Yields(run, r, reason, raw.fields[k], [])
  {
    if Yields(run, r, reason, raw, []) {
      var below: Path :| RawAt(raw, [] + below).Some? && LeafValue(run, r, reason, RawAt(raw, [] + below).value).Some?;
      assert [] + below == below;
      var k := below[0];
      assert RawAt(raw.fields[k], [] + below[1..]) == RawAt(raw, below) by { assert [] + below[1..] == below[1..]; }
      assert Yields(run, r, reason, raw.fields[k], []);
    }
    if k :| k in raw.fields && Yields(run, r, reason, raw.fields[k], []) {
      var below: Path :| RawAt(raw.fields[k], [] + below).Some? &&
                         LeafValue(run, r, reason, RawAt(raw.fields[k], [] + below).value).Some?;
      assert ([] + ([k] + below))[1..] == below == [] + below;
      assert RawAt(raw, [] + ([k] + below)) == RawAt(raw.fields[k], below);
    }
  }

  lemma ChildrenHaveValue<V>(run: Runner<V>, r: Resource, reason: string, nodes: map<string, Node>)
    ensures EvalNode(run, r, reason, Children(nodes)).Some? <==>
            exists k :: k in nodes && EvalNode(run, r, reason, nodes[k]).Some?
  {
    var kept := Kept(run, r, reason, nodes);
    EvaluatedFields(run, r, reason, nodes, kept);
    if |kept| == 0 {
      assert kept.Keys == {};
    } else {
      var k :| k in kept;
      assert k in nodes;
    }
  }

  /** An accepted definition has a value exactly when one of its leaves has. */
  lemma {:induction false} ValueIffSomeLeaf<V>(
    compiles: string -> bool, run: Runner<V>, r: Resource, reason: string, raw: Raw)
    requires Compile(compiles, raw).Some?
    ensures EvalNode(run, r, reason, Compile(compiles, raw).value).Some? <==> Yields(run, r, reason, raw, [])
  {
    var node := Compile(compiles, raw).value;
    if raw.Object? {
      forall k | k in raw.fields
        ensures EvalNode(run, r, reason, node.fields[k]).Some? <==> Yields(run, r, reason, raw.fields[k], [])
      {
        ValueIffSomeLeaf(compiles, run, r, reason, raw.fields[k]);
      }
      YieldsUnfolds(run, r, reason, raw);
      ChildrenHaveValue(run, r, reason, node.fields);
    } else {
      assert RawAt(raw, [] + []) == Some(raw);
      if Yields(run, r, reason, raw, []) { LeafYields(run, r, reason, raw); }
    }
  }

  lemma LeafYields<V>(run: Runner<V>, r: Resource, reason: string, raw: Raw)
    requires !raw.Object? && Yields(run, r, reason, raw, [])
    ensures LeafValue(run, r, reason, raw).Some?
  {
    var below: Path :| RawAt(raw, [] + below).Some? && LeafValue(run, r, reason, RawAt(raw, [] + below).value).Some?;
    assert below == [];
  }

  lemma YieldsBelowKey<V>(run: Runner<V>, r: Resource, reason: string, raw: Raw, path: Path)
    requires path != []
    ensures Yields(run, r, reason, raw, path) <==>
            raw.Object? && path[0] in raw.fields && Yields(run, r, reason, raw.fields[path[0]], path[1..])
  {
    if Yields(run, r, reason, raw, path) {
      var below: Path :| RawAt(raw, path + below).Some? &&
                         LeafValue(run, r, reason, RawAt(raw, path + below).value).Some?;
      assert (path + below)[1..] == path[1..] + below;
      assert RawAt(raw, path + below) == RawAt(raw.fields[path[0]], path[1..] + below);
    }
    if raw.Object? && path[0] in raw.fields && Yields(run, r, reason, raw.fields[path[0]], path[1..]) {
      var child := raw.fields[path[0]];
      var below: Path :| RawAt(child, path[1..] + below).Some? &&
                         LeafValue(run, r, reason, RawAt(child, path[1..] + below).value).Some?;
      assert (path + below)[1..] == path[1..] + below;
      assert RawAt(raw, path + below) == RawAt(child, path[1..] + below);
    }
  }

  /** What a payload tree must show at a path: a value exactly when some leaf at or below the path has
      one; at a leaf, the value of that leaf; at an object, an object. */
  ghost predicate ShowsAt<V>(run: Runner<V>, r: Resource, reason: string, raw: Raw, path: Path, t: Option<Tree<V>>)
  {
    && (t.Some? <==> Yields(run, r, reason, raw, path))
    && (RawAt(raw, path).Some? && !RawAt(raw, path).value.Object? ==>
          t == LeafValue(run, r, reason, RawAt(raw, path).value))
    && (RawAt(raw, path).Some? && RawAt(raw, path).value.Object? && t.Some? ==> t.value.Branch?)
  }

  lemma TreeBelowKey<V>(run: Runner<V>, r: Resource, reason: string, nodes: map<string, Node>, path: Path)
    requires path != []
    ensures TreeAt(EvalNode(run, r, reason, Children(nodes)), path) ==
            TreeAt(Some(Branch(Kept(run, r, reason, nodes))), path)
    ensures TreeAt(Some(Branch(Kept(run, r, reason, nodes))), path) ==
            if path[0] in nodes then TreeAt(EvalNode(run, r, reason, nodes[path[0]]), path[1..]) else None
  {
    var kept := Kept(run, r, reason, nodes);
    EvaluatedFields(run, r, reason, nodes, kept);
    if |kept| == 0 { assert kept.Keys == {}; }
  }

  /** Compiling a definition and evaluating the nodes gives the tree that the definition itself describes. */
  lemma {:induction false} CompiledMeaning<V>(
    compiles: string -> bool, run: Runner<V>, r: Resource, reason: string, raw: Raw, path: Path)
    requires Compile(compiles, raw).Some?
    ensures ShowsAt(run, r, reason, raw, path, TreeAt(EvalNode(run, r, reason, Compile(compiles, raw).value), path))
    decreases |path|
  {
    var node := Compile(compiles, raw).value;
    if path == [] {
      ValueIffSomeLeaf(compiles, run, r, reason, raw);
    } else {
      YieldsBelowKey(run, r, reason, raw, path);
      if raw.Object? {
        TreeBelowKey(run, r, reason, node.fields, path);
        if path[0] in raw.fields {
          CompiledMeaning(compiles, run, r, reason, raw.fields[path[0]], path[1..]);
        }
      }
    }
  }

  /** Leaf by leaf: an expression shows the value it has, if it has one; a number or a boolean shows as it is;
      an empty map-typed value and a path that the definition does not have show nothing. */
  lemma LeavesShow<V>(
    compiles: string -> bool, run: Runner<V>, r: Resource, reason: string, raw: Raw, path: Path)
    requires Compile(compiles, raw).Some?
    ensures var shown, at := TreeAt(EvalNode(run, r, reason, Compile(compiles, raw).value), path), RawAt(raw, path);
            && (at.Some? && at.value.Text? ==>
                  var v := run(at.value.s, r, reason);
                  (shown.Some? <==> v.Some?) && (v.Some? ==> shown.value == Leaf(v.value)))
            && (at.Some? && at.value.Literal? ==> shown == Some(Given(at.value.v)))
            && (at.Some? && at.value.Object? && shown.Some? ==> shown.value.Branch?)
            && (at.None? || at.value.NilObject? ==> shown.None?)
  {
    CompiledMeaning(compiles, run, r, reason, raw, path);
    if RawAt(raw, path).None? { NothingBelowNothing(raw, path); }
  }

  lemma {:induction false} NothingBelowNothing(raw: Raw, path: Path)
    requires RawAt(raw, path).None?
    ensures forall below: Path :: RawAt(raw, path + below).None?
  {
    forall below: Path
      ensures RawAt(raw, path + below).None?
    {
      assert (path + below)[0] == path[0] && (path + below)[1..] == path[1..] + below;
      if raw.Object? && path[0] in raw.fields { NothingBelowNothing(raw.fields[path[0]], path[1..]); }
    }
  }

  /** The tree `t` shows what it must at every path. */
  ghost predicate Means<V>(run: Runner<V>, r: Resource, reason: string, raw: Raw, t: Option<Tree<V>>)
  {
    forall path :: ShowsAt(run, r, reason, raw, path, TreeAt(t, path))
  }

  lemma MeansBelow<V>(run: Runner<V>, r: Resource, reason: string, raw: Raw, t: Option<Tree<V>>, k: string)
    requires Means(run, r, reason, raw, t) && raw.Object? && k in raw.fields
    ensures Means(run, r, reason, raw.fields[k], TreeAt(t, [k]))
  {
    assert ShowsAt(run, r, reason, raw, [], TreeAt(t, []));
    forall path: Path
      ensures ShowsAt(run, r, reason, raw.fields[k], path, TreeAt(TreeAt(t, [k]), path))
    {
      var full := [k] + path;
      assert full[1..] == path && [k][1..] == [];
      assert ShowsAt(run, r, reason, raw, full, TreeAt(t, full));
      assert RawAt(raw, full) == RawAt(raw.fields[k], path);
      YieldsBelowKey(run, r, reason, raw, full);
      assert TreeAt(TreeAt(t, [k]), path) == TreeAt(t, full);
    }
  }

  lemma MeaningKeys<V>(run: Runner<V>, r: Resource, reason: string, raw: Raw, t: Option<Tree<V>>, k: string)
    requires Means(run, r, reason, raw, t) && raw.Object? && t.Some?
    ensures t.value.Branch?
    ensures k in t.value.fields <==> Yields(run, r, reason, raw, [k])
    ensures k in t.value.fields ==> k in raw.fields && TreeAt(t, [k]) == Some(t.value.fields[k])
  {
    assert RawAt(raw, []) == Some(raw);
    assert ShowsAt(run, r, reason, raw, [], TreeAt(t, []));
    assert ShowsAt(run, r, reason, raw, [k], TreeAt(t, [k]));
    var rest: Path := [k][1..];
    assert rest == [];
    assert TreeAt(t, [k]) == if k in t.value.fields then TreeAt(Some(t.value.fields[k]), rest) else None;
    YieldsBelowKey(run, r, reason, raw, [k]);
  }

  /** Showing the right thing at every path leaves no freedom: there is one such tree. */
  lemma {:induction false} MeaningIsUnique<V>(
    run: Runner<V>, r: Resource, reason: string, raw: Raw, t: Option<Tree<V>>, u: Option<Tree<V>>)
    requires Means(run, r, reason, raw, t) && Means(run, r, reason, raw, u)
    ensures t == u
  {
    assert RawAt(raw, []) == Some(raw);
    assert ShowsAt(run, r, reason, raw, [], TreeAt(t, [])) && ShowsAt(run, r, reason, raw, [], TreeAt(u, []));
    if raw.Object? && t.Some? {
      forall k
        ensures k in t.value.fields <==> k in u.value.fields
        ensures k in t.value.fields ==> t.value.fields[k] == u.value.fields[k]
      {
        MeaningKeys(run, r, reason, raw, t, k);
        MeaningKeys(run, r, reason, raw, u, k);
        if k in t.value.fields {
          MeansBelow(run, r, reason, raw, t, k);
          MeansBelow(run, r, reason, raw, u, k);
          MeaningIsUnique(run, r, reason, raw.fields[k], TreeAt(t, [k]), TreeAt(u, [k]));
        }
      }
      assert t.value.fields == u.value.fields;
    }
  }

  /** So compiled evaluation is the direct reading of an accepted definition. */
  lemma CompiledIsTheMeaning<V>(
    compiles: string -> bool, run: Runner<V>, r: Resource, reason: string, raw: Raw, t: Option<Tree<V>>)
    requires Compile(compiles, raw).Some?
    ensures t == EvalNode(run, r, reason, Compile(compiles, raw).value) <==> Means(run, r, reason, raw, t)
  {
    var built := EvalNode(run, r, reason, Compile(compiles, raw).value);
    forall path
      ensures ShowsAt(run, r, reason, raw, path, TreeAt(built, path))
    {
      CompiledMeaning(compiles, run, r, reason, raw, path);
    }
    if Means(run, r, reason, raw, t) { MeaningIsUnique(run, r, reason, raw, t, built); }
  }

  /******* The builder *******/

  datatype BuilderError = NotAMap | Refused(path: Path)

  method NewBuilder(compiles: string -> bool, def: Raw) returns (r: Result<map<string, Node>, BuilderError>)
    ensures r.Ok? <==> def.NilObject? || (def.Object? && Compile(compiles, def).Some?)
    ensures r.Ok? && def.Object? ==> Compile(compiles, def) == Some(Children(r.value))
    ensures r.Ok? && def.NilObject? ==> r.value == map[]
    ensures r.Err? ==>
              if def.Object? then r.error.Refused? && Breaks(def, r.error.path, n => Compilable(compiles, n))
              else r.error == NotAMap
  {
    match def {
      case Object(fields) =>
        var nodes := CompileMap(compiles, fields);
        if nodes.Err? {
          return Err(Refused(nodes.error));
        }
        return Ok(nodes.value);
      case NilObject => return Ok(map[]);
      case _ => return Err(NotAMap);
    }
  }

  /** The payload of an accepted definition, at every path into it, whatever order maps are visited in. */
  lemma PayloadMeaning<V>(
    compiles: string -> bool, run: Runner<V>, r: Resource, reason: string,
    def: map<string, Raw>, nodes: map<string, Node>, path: Path)
    requires Compile(compiles, Object(def)) == Some(Children(nodes)) && path != []
    ensures ShowsAt(run, r, reason, Object(def), path, TreeAt(Some(Branch(Kept(run, r, reason, nodes))), path))
  {
    CompiledMeaning(compiles, run, r, reason, Object(def), path);
    TreeBelowKey(run, r, reason, nodes, path);
  }
}
