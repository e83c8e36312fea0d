/** When the shipped decision publishes over time: what the closed form gives operators, and where it
    falls short of what the documentation says. */
module Due {
  import opened Wrappers
  import opened Cel
  import opened Resources
  import opened Engine
  import opened DefaultDecision

  /** The age of the Reconciled condition, if there is one, has not outgrown a duration. */
  predicate AgeFits(r: Resource, now: int)
  {
    match LastCondition(r.conditions, "Reconciled")
    case None => true
    case Some(c) => now - c.lastUpdatedTime <= MAX_INT64
  }

  /** An unchanged resource that is due stays due for exactly as long as the age of its condition fits a
      duration; without the condition it stays due for ever. */
  lemma DueStaysDue(r: Resource, earlier: int, later: int)
    requires Due(r, earlier) && earlier <= later
    ensures Due(r, later) <==> AgeFits(r, later)
  {
  }

  /** The same of the engine's decision. */
  lemma PublishableStaysPublishable(lib: Library, r: Resource, earlier: int, later: int)
    requires Faithful(lib) && ZERO_TIME <= earlier <= later && AgeFits(r, later)
    ensures Decide(lib, DefaultProgram(), Some(r), earlier).shouldPublish ==>
              Decide(lib, DefaultProgram(), Some(r), later).shouldPublish
  {
    DefaultPublishesIffDue(lib, r, earlier);
    DefaultPublishesIffDue(lib, r, later);
    if earlier != ZERO_TIME && Due(r, earlier) { DueStaysDue(r, earlier, later); }
  }

  /** Instants that start no later than the threshold of a condition, end after it and are at most `gap`
      apart include one, within `gap` of the threshold, at which the resource is due. */
  lemma {:induction false} SomeInstantIsDue(r: Resource, c: Condition, instants: seq<int>, gap: int) returns (i: nat)
    requires LastCondition(r.conditions, "Reconciled") == Some(c)
    requires InRange(c.lastUpdatedTime) && FitsInt64(Threshold(c.status) + gap)
    requires instants != [] && instants[0] <= c.lastUpdatedTime + Threshold(c.status) < instants[|instants| - 1]
    requires forall k :: 0 <= k < |instants| - 1 ==> instants[k + 1] - instants[k] <= gap
    ensures i < |instants| && Due(r, instants[i])
    ensures 0 < instants[i] - (c.lastUpdatedTime + Threshold(c.status)) <= gap
  {
    var limit := c.lastUpdatedTime + Threshold(c.status);
    i := |instants| - 1;
    while instants[i - 1] > limit
      invariant 0 < i < |instants| && instants[i] > limit
      decreases i
    {
      i := i - 1;
    }
    assert instants[i - 1 + 1] - instants[i - 1] <= gap;
  }

  /** The two triggers without a time in them: a generation ahead of the observed one, and a first
      generation that is not reconciled. */
  predicate ImmediateTrigger(r: Resource, c: Condition)
  {
    r.generation > c.observedGeneration || (c.status != "True" && r.generation == 1)
  }

  /** These are published at once exactly when the age of the condition can be computed at all, although
      the age is no part of either rule. */
  lemma ImmediateTriggerPublishesIff(lib: Library, r: Resource, c: Condition, now: int)
    requires Faithful(lib) && now != ZERO_TIME
    requires LastCondition(r.conditions, "Reconciled") == Some(c) && ImmediateTrigger(r, c)
    ensures Decide(lib, DefaultProgram(), Some(r), now).shouldPublish <==> AgeDefined(c, now)
  {
    DefaultPublishesIffDue(lib, r, now);
  }

  /** A cluster at generation 2, observed at generation 1, whose condition carries Go's zero time. */
  function NeverUpdated(): Resource
  {
    Resource("c1", "", "Cluster", 0, 0, 2, map[], None, None,
             [Condition("Reconciled", "False", 1, ZERO_TIME, ZERO_TIME, "", "")])
  }

  /** Its generation mismatch is not published at any instant from 1970 on. */
  lemma MismatchHeldBack(lib: Library, now: int)
    requires Faithful(lib) && now >= 0
    ensures !Decide(lib, DefaultProgram(), Some(NeverUpdated()), now).shouldPublish
  {
    var c := NeverUpdated().conditions[0];
    LastConditionIsLast(NeverUpdated().conditions, "Reconciled", 0);
    ImmediateTriggerPublishesIff(lib, NeverUpdated(), c, now);
  }
}
