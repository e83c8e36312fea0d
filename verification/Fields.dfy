/** What an expression can read of a resource: every field of `resource`, `now`, and every field of
    `condition(..)`, and what happens to a field that the resource does not have. */
module Fields {
  import opened Wrappers
  import opened Cel
  import opened Resources
  import opened Engine

  /******* The variables *******/

  function Field(name: string): Expr
  {
    Select(Var("resource"), name)
  }

  lemma BaseVariables(lib: Library, r: Resource, now: int)
    ensures Eval(lib, EnvFor(lib, r, now), Var("resource")) == Ok(ResourceMap(lib, r))
    ensures Eval(lib, EnvFor(lib, r, now), Var("now")) == Ok(Time(now))
  {
    assert |"now"| == 3 && |"resource"| == 8;
  }

  lemma FieldOf(lib: Library, r: Resource, now: int, name: string)
    ensures Eval(lib, EnvFor(lib, r, now), Field(name)) == SelectField(ResourceMap(lib, r), name)
  {
    BaseVariables(lib, r, now);
  }

  lemma FieldOfField(lib: Library, r: Resource, now: int, name: string, inner: string)
    ensures Eval(lib, EnvFor(lib, r, now), Select(Field(name), inner)) ==
            match SelectField(ResourceMap(lib, r), name)
            case Err(e) => Err(e)
            case Ok(v) => SelectField(v, inner)
  {
    FieldOf(lib, r, now, name);
  }

  /******* The resource *******/

  lemma PlainFields(lib: Library, r: Resource)
    ensures SelectField(ResourceMap(lib, r), "id") == Ok(Str(r.id))
    ensures SelectField(ResourceMap(lib, r), "href") == Ok(Str(r.href))
    ensures SelectField(ResourceMap(lib, r), "kind") == Ok(Str(r.kind))
    ensures SelectField(ResourceMap(lib, r), "created_time") == Ok(Str(lib.formatTime(r.createdTime)))
    ensures SelectField(ResourceMap(lib, r), "updated_time") == Ok(Str(lib.formatTime(r.updatedTime)))
    ensures SelectField(ResourceMap(lib, r), "generation") == Ok(Int(r.generation))
  {
    assert |"id"| == 2 && |"href"| == 4 && |"kind"| == 4 && "href"[0] == 'h' && "kind"[0] == 'k';
    assert |"created_time"| == 12 && |"updated_time"| == 12 && "created_time"[0] == 'c' && "updated_time"[0] == 'u';
    assert |"generation"| == 10 && |"labels"| == 6 && |"owner_references"| == 16 && |"metadata"| == 8;
  }

  lemma LabelsField(lib: Library, r: Resource)
    ensures SelectField(ResourceMap(lib, r), "labels") ==
            if r.labels == map[] then Err(NoSuchKey("labels")) else Ok(Map(LabelValues(r.labels)))
  {
    assert |"id"| == 2 && |"href"| == 4 && |"kind"| == 4 && |"created_time"| == 12 && |"updated_time"| == 12;
    assert |"generation"| == 10 && |"labels"| == 6 && |"owner_references"| == 16 && |"metadata"| == 8;
    assert r.labels == map[] <==> |r.labels| == 0 by {
      if |r.labels| == 0 { assert r.labels.Keys == {}; }
    }
  }

  lemma MetadataField(lib: Library, r: Resource)
    ensures SelectField(ResourceMap(lib, r), "metadata") ==
            match r.metadata case None => Err(NoSuchKey("metadata")) case Some(md) => Ok(Map(md))
  {
    assert |"id"| == 2 && |"href"| == 4 && |"kind"| == 4 && |"created_time"| == 12 && |"updated_time"| == 12;
    assert |"generation"| == 10 && |"labels"| == 6 && |"owner_references"| == 16 && |"metadata"| == 8;
  }

  lemma OwnerField(lib: Library, r: Resource)
    ensures SelectField(ResourceMap(lib, r), "owner_references") ==
            match r.ownerReferences case None => Err(NoSuchKey("owner_references")) case Some(o) => Ok(OwnerMap(o))
  {
    assert |"id"| == 2 && |"href"| == 4 && |"kind"| == 4 && |"created_time"| == 12 && |"updated_time"| == 12;
    assert |"generation"| == 10 && |"labels"| == 6 && |"owner_references"| == 16 && |"metadata"| == 8;
  }

  lemma OwnerFields(o: OwnerReference)
    ensures SelectField(OwnerMap(o), "id") == Ok(Str(o.id))
    ensures SelectField(OwnerMap(o), "href") == Ok(Str(o.href))
    ensures SelectField(OwnerMap(o), "kind") == Ok(Str(o.kind))
  {
    assert |"id"| == 2 && |"href"| == 4 && |"kind"| == 4 && "href"[0] == 'h' && "kind"[0] == 'k';
  }

  /** Each plain field of the resource reads as that field. */
  lemma ResourceReads(lib: Library, r: Resource, now: int)
    ensures var env := EnvFor(lib, r, now);
            && Eval(lib, env, Field("id")) == Ok(Str(r.id))
            && Eval(lib, env, Field("href")) == Ok(Str(r.href))
            && Eval(lib, env, Field("kind")) == Ok(Str(r.kind))
            && Eval(lib, env, Field("created_time")) == Ok(Str(lib.formatTime(r.createdTime)))
            && Eval(lib, env, Field("updated_time")) == Ok(Str(lib.formatTime(r.updatedTime)))
            && Eval(lib, env, Field("generation")) == Ok(Int(r.generation))
  {
    PlainFields(lib, r);
    FieldOf(lib, r, now, "id");
    FieldOf(lib, r, now, "href");
    FieldOf(lib, r, now, "kind");
    FieldOf(lib, r, now, "created_time");
    FieldOf(lib, r, now, "updated_time");
    FieldOf(lib, r, now, "generation");
  }

  /** A label reads as its value. A resource without any label has no `labels` at all. */
  lemma LabelReads(lib: Library, r: Resource, now: int, key: string)
    ensures Eval(lib, EnvFor(lib, r, now), Select(Field("labels"), key)) ==
            if r.labels == map[] then Err(NoSuchKey("labels"))
            else if key in r.labels then Ok(Str(r.labels[key]))
            else Err(NoSuchKey(key))
  {
    LabelsField(lib, r);
    FieldOfField(lib, r, now, "labels", key);
  }

  lemma MetadataReads(lib: Library, r: Resource, now: int, key: string)
    ensures Eval(lib, EnvFor(lib, r, now), Select(Field("metadata"), key)) ==
            match r.metadata
            case None => Err(NoSuchKey("metadata"))
            case Some(md) => if key in md then Ok(md[key]) else Err(NoSuchKey(key))
  {
    MetadataField(lib, r);
    FieldOfField(lib, r, now, "metadata", key);
  }

  /** The owner's fields read as they are; without an owner each of them is the same missing key. */
  lemma OwnerReads(lib: Library, r: Resource, now: int)
    ensures var env := EnvFor(lib, r, now);
            var id, href, kind :=
              Eval(lib, env, Select(Field("owner_references"), "id")),
              Eval(lib, env, Select(Field("owner_references"), "href")),
              Eval(lib, env, Select(Field("owner_references"), "kind"));
            match r.ownerReferences
            case None => id == href == kind == Err(NoSuchKey("owner_references"))
            case Some(o) => id == Ok(Str(o.id)) && href == Ok(Str(o.href)) && kind == Ok(Str(o.kind))
  {
    OwnerField(lib, r);
    FieldOfField(lib, r, now, "owner_references", "id");
    FieldOfField(lib, r, now, "owner_references", "href");
    FieldOfField(lib, r, now, "owner_references", "kind");
    if r.ownerReferences.Some? { OwnerFields(r.ownerReferences.value); }
  }

  const FIELDS := {"id", "href", "kind", "created_time", "updated_time", "generation", "labels", "owner_references",
                   "metadata"}

  lemma OnlyFields(lib: Library, r: Resource, name: string)
    requires name !in FIELDS
    ensures SelectField(ResourceMap(lib, r), name) == Err(NoSuchKey(name))
  {
  }

  /** Nothing else of a resource can be read. */
  lemma NoOtherField(lib: Library, r: Resource, now: int, name: string)
    requires name !in FIELDS
    ensures Eval(lib, EnvFor(lib, r, now), Field(name)) == Err(NoSuchKey(name))
  {
    OnlyFields(lib, r, name);
    FieldOf(lib, r, now, name);
  }

  /******* Conditions *******/

  function ConditionField(kind: string, name: string): Expr
  {
    Select(Unary(ConditionCall, Lit(Str(kind))), name)
  }

  lemma ConditionOf(lib: Library, r: Resource, now: int, kind: string, name: string)
    ensures Eval(lib, EnvFor(lib, r, now), ConditionField(kind, name)) ==
            SelectField(match LastCondition(r.conditions, kind)
                        case None => ZeroCondition()
                        case Some(c) => ConditionMap(lib, c), name)
  {
    var env := EnvFor(lib, r, now);
    LookupHoldsLast(lib, r.conditions, kind);
    assert Eval(lib, env, Lit(Str(kind))) == Ok(Str(kind));
    assert Eval(lib, env, Unary(ConditionCall, Lit(Str(kind)))) == Ok(LookupCondition(env.conditions, Str(kind)));
  }

  lemma SixFields(
    m: map<string, Value>, status: Value, observed: Value, updated: Value, transition: Value, reason: Value,
    message: Value)
    requires m == map[
               "status" := status, "observed_generation" := observed, "last_updated_time" := updated,
               "last_transition_time" := transition, "reason" := reason, "message" := message]
    ensures SelectField(Map(m), "status") == Ok(status)
    ensures SelectField(Map(m), "observed_generation") == Ok(observed)
    ensures SelectField(Map(m), "last_updated_time") == Ok(updated)
    ensures SelectField(Map(m), "last_transition_time") == Ok(transition)
    ensures SelectField(Map(m), "reason") == Ok(reason)
    ensures SelectField(Map(m), "message") == Ok(message)
  {
    assert |"last_updated_time"| == 17 && |"status"| == 6 && |"observed_generation"| == 19;
    assert |"last_transition_time"| == 20 && |"reason"| == 6 && |"message"| == 7;
    assert "status"[0] == 's' && "reason"[0] == 'r';
  }

  lemma ZeroConditionFields()
    ensures SelectField(ZeroCondition(), "status") == Ok(Str(""))
    ensures SelectField(ZeroCondition(), "observed_generation") == Ok(Int(0))
    ensures SelectField(ZeroCondition(), "last_updated_time") == Ok(Str(""))
    ensures SelectField(ZeroCondition(), "last_transition_time") == Ok(Str(""))
    ensures SelectField(ZeroCondition(), "reason") == Ok(Str(""))
    ensures SelectField(ZeroCondition(), "message") == Ok(Str(""))
  {
    SixFields(ZeroCondition().fields, Str(""), Int(0), Str(""), Str(""), Str(""), Str(""));
  }

  lemma ConditionMapFields(lib: Library, c: Condition)
    ensures SelectField(ConditionMap(lib, c), "status") == Ok(Str(c.status))
    ensures SelectField(ConditionMap(lib, c), "observed_generation") == Ok(Int(c.observedGeneration))
    ensures SelectField(ConditionMap(lib, c), "last_updated_time") == Ok(Str(lib.formatTime(c.lastUpdatedTime)))
    ensures SelectField(ConditionMap(lib, c), "last_transition_time") == Ok(Str(lib.formatTime(c.lastTransitionTime)))
    ensures SelectField(ConditionMap(lib, c), "reason") == Ok(Str(c.reason))
    ensures SelectField(ConditionMap(lib, c), "message") == Ok(Str(c.message))
  {
    SixFields(ConditionMap(lib, c).fields, Str(c.status), Int(c.observedGeneration),
              Str(lib.formatTime(c.lastUpdatedTime)), Str(lib.formatTime(c.lastTransitionTime)),
              Str(c.reason), Str(c.message));
  }

  /** Every field of `condition(kind)` is that of the last condition of the type. Without such a condition
      texts and times are empty strings and the observed generation is 0, and nothing fails. */
  lemma ConditionReads(lib: Library, r: Resource, now: int, kind: string)
    ensures var env, found := EnvFor(lib, r, now), LastCondition(r.conditions, kind);
            && Eval(lib, env, ConditionField(kind, "status")) ==
               Ok(Str(if found.Some? then found.value.status else ""))
            && Eval(lib, env, ConditionField(kind, "observed_generation")) ==
               Ok(Int(if found.Some? then found.value.observedGeneration else 0))
            && Eval(lib, env, ConditionField(kind, "last_updated_time")) ==
               Ok(Str(if found.Some? then lib.formatTime(found.value.lastUpdatedTime) else ""))
            && Eval(lib, env, ConditionField(kind, "last_transition_time")) ==
               Ok(Str(if found.Some? then lib.formatTime(found.value.lastTransitionTime) else ""))
            && Eval(lib, env, ConditionField(kind, "reason")) ==
               Ok(Str(if found.Some? then found.value.reason else ""))
            && Eval(lib, env, ConditionField(kind, "message")) ==
               Ok(Str(if found.Some? then found.value.message else ""))
  {
    ConditionOf(lib, r, now, kind, "status");
    ConditionOf(lib, r, now, kind, "observed_generation");
    ConditionOf(lib, r, now, kind, "last_updated_time");
    ConditionOf(lib, r, now, kind, "last_transition_time");
    ConditionOf(lib, r, now, kind, "reason");
    ConditionOf(lib, r, now, kind, "message");
    match LastCondition(r.conditions, kind)
    case None => ZeroConditionFields();
    case Some(c) => ConditionMapFields(lib, c);
  }

  /******* A missing field that does no harm *******/

  /** `resource.owner_references.kind == "Cluster"` */
  function OwnedByCluster(): Expr
  {
    Binary(Eq, Select(Field("owner_references"), "kind"), Lit(Str("Cluster")))
  }

  /** `resource.generation > 0` */
  function Generated(): Expr
  {
    Binary(Gt, Field("generation"), Lit(Int(0)))
  }

  lemma TextIs(lib: Library, env: Env, e: Expr, text: string)
    ensures Eval(lib, env, Binary(Eq, e, Lit(Str(text)))) ==
            match Eval(lib, env, e) case Err(x) => Err(x) case Ok(v) => Ok(Bool(v == Str(text)))
  {
    assert Eval(lib, env, Lit(Str(text))) == Ok(Str(text));
  }

  lemma IsPositive(lib: Library, env: Env, e: Expr, i: int)
    requires Eval(lib, env, e) == Ok(Int(i))
    ensures Eval(lib, env, Binary(Gt, e, Lit(Int(0)))) == Ok(Bool(i > 0))
  {
    assert Eval(lib, env, Lit(Int(0))) == Ok(Int(0));
  }

  lemma EvalOwnedByCluster(lib: Library, r: Resource, now: int)
    ensures Eval(lib, EnvFor(lib, r, now), OwnedByCluster()) ==
            match r.ownerReferences
            case None => Err(NoSuchKey("owner_references"))
            case Some(o) => Ok(Bool(o.kind == "Cluster"))
  {
    OwnerReads(lib, r, now);
    TextIs(lib, EnvFor(lib, r, now), Select(Field("owner_references"), "kind"), "Cluster");
  }

  lemma EvalGenerated(lib: Library, r: Resource, now: int)
    ensures Eval(lib, EnvFor(lib, r, now), Generated()) == Ok(Bool(r.generation > 0))
  {
    ResourceReads(lib, r, now);
    IsPositive(lib, EnvFor(lib, r, now), Field("generation"), r.generation);
  }

  lemma RunResult(lib: Library, env: Env, result: Expr)
    ensures RunProgram(lib, env, Program([], result)) == Ok(Bool(true)) <==> Eval(lib, env, result) == Ok(Bool(true))
  {
    assert Extend(env, map[]) == env;
  }

  lemma DisjunctionDecides(lib: Library, l: Expr, r: Expr, res: Resource, now: int)
    requires now != ZERO_TIME
    ensures Decide(lib, Program([], Or(l, r)), Some(res), now).shouldPublish <==>
            || Eval(lib, EnvFor(lib, res, now), l) == Ok(Bool(true))
            || Eval(lib, EnvFor(lib, res, now), r) == Ok(Bool(true))
  {
    var env := EnvFor(lib, res, now);
    DecideIffTrue(lib, Program([], Or(l, r)), res, now);
    RunResult(lib, env, Or(l, r));
    EitherSideDecides(lib, env, l, r);
  }

  /** A result with a missing field on either side of `||` publishes exactly when a disjunct that can be
      evaluated is true: a resource without an owner is published from generation 1 on. */
  lemma MissingFieldIsAbsorbed(lib: Library, r: Resource, now: int)
    requires now != ZERO_TIME
    ensures var publishes := (r.ownerReferences.Some? && r.ownerReferences.value.kind == "Cluster") || r.generation > 0;
            && (Decide(lib, Program([], Or(OwnedByCluster(), Generated())), Some(r), now).shouldPublish <==> publishes)
            && (Decide(lib, Program([], Or(Generated(), OwnedByCluster())), Some(r), now).shouldPublish <==> publishes)
  {
    EvalOwnedByCluster(lib, r, now);
    EvalGenerated(lib, r, now);
    var owned, generated := OwnedByCluster(), Generated();
    DisjunctionDecides(lib, owned, generated, r, now);
    DisjunctionDecides(lib, generated, owned, r, now);
  }
}
