/** The order of delivery: a read hands over what comes next on the stream, and a consumer takes it in that
    order. */
module DeliveryOrder {
  import opened Wrappers
  import opened Models
  import opened Delivery
  import opened DeliveryInvariant
  import opened DeliveryTheorems
  import opened DeliveryRuns

  // ---- what a read hands over ---------------------------------------------------------------------

  /** The entries that wait for the group, oldest first, up to ten of them. */
  ghost predicate NextInOrder(s: State, batch: seq<Entry>) {
    var first := if s.delivered < s.trimmed then s.trimmed else s.delivered;
    && |batch| == (if |s.log| <= first then 0 else if |s.log| - first < 10 then |s.log| - first else 10)
    && forall j :: 0 <= j < |batch| ==> batch[j] == first + j
  }

  lemma BatchIsNextInOrder(s: State)
    requires NextUndelivered(s) < |s.log|
    ensures NextInOrder(s, Batch(s))
  {
  }

  // ---- one consumer -------------------------------------------------------------------------------

  /** Every consumer's batch is in stream order. */
  ghost predicate BatchesAscend(s: State) {
    forall c: Process, j: nat, k: nat :: j < k && Held(s, c, j) && Held(s, c, k) ==>
      HeldEntry(s, c, j) < HeldEntry(s, c, k)
  }

  lemma MovedKeepsAscending(s: State, r: State, d: Process)
    requires BatchesAscend(s) && AtStage(s, d)
    requires || r.consumers == s.consumers[d := NextEntry(s.consumers[d])]
             || exists stage: Stage :: !stage.Received? && r.consumers == ToStage(s, d, stage).consumers
    ensures BatchesAscend(r)
  {
    var advanced := r.consumers == s.consumers[d := NextEntry(s.consumers[d])];
    if advanced {
      AdvanceHeld(s, r, d);
    }
    forall c: Process, j: nat, k: nat | j < k && Held(r, c, j) && Held(r, c, k)
      ensures HeldEntry(r, c, j) < HeldEntry(r, c, k)
    {
      var shift := if c == d && advanced then 1 else 0;
      assert Held(s, c, j + shift) && HeldEntry(s, c, j + shift) == HeldEntry(r, c, j);
      assert Held(s, c, k + shift) && HeldEntry(s, c, k + shift) == HeldEntry(r, c, k);
    }
  }

  lemma StepKeepsAscending(s: State, step: Step)
    requires BatchesAscend(s) && Enabled(s, step)
    ensures BatchesAscend(Apply(s, step))
  {
    var r := Apply(s, step);
    if OnEntry(step) {
      WorkMoves(s, step, step.c);
      MovedKeepsAscending(s, r, step.c);
    } else {
      forall c: Process, j: nat, k: nat | j < k && Held(r, c, j) && Held(r, c, k)
        ensures HeldEntry(r, c, j) < HeldEntry(r, c, k)
      {
        if ActorOf(step) != ConsumerActor(c) {
          CountersAreOwn(s, step, ConsumerActor(c));
          assert Held(s, c, j) && Held(s, c, k);
        }
      }
    }
  }

  lemma {:induction false} RunKeepsAscending(s: State, steps: seq<Step>)
    requires BatchesAscend(s) && Possible(s, steps)
    ensures BatchesAscend(After(s, steps))
    decreases |steps|
  {
    if steps != [] {
      StepKeepsAscending(s, steps[0]);
      RunKeepsAscending(Apply(s, steps[0]), steps[1..]);
    }
  }

  lemma ReachableAscends(s: State)
    requires Reachable(s)
    ensures BatchesAscend(s)
  {
    var steps :| Possible(INITIAL, steps) && After(INITIAL, steps) == s;
    RunKeepsAscending(INITIAL, steps);
  }

  /** Consumer `c` is through with everything up to `o`, unless it is still at `o` itself. */
  ghost predicate Passed(s: State, c: Process, o: Entry) {
    && o < s.delivered
    && forall j: nat :: Held(s, c, j) ==>
         || HeldEntry(s, c, j) > o
         || (j == 0 && HeldEntry(s, c, j) == o && !s.consumers[c].stage.Received?)
  }

  lemma MovedKeepsPassed(s: State, r: State, d: Process, o: Entry)
    requires BatchesAscend(s) && AtStage(s, d) && Passed(s, d, o) && r.delivered == s.delivered
    requires || r.consumers == s.consumers[d := NextEntry(s.consumers[d])]
             || exists stage: Stage :: !stage.Received? && r.consumers == ToStage(s, d, stage).consumers
    ensures Passed(r, d, o)
  {
    var advanced := r.consumers == s.consumers[d := NextEntry(s.consumers[d])];
    if advanced {
      AdvanceHeld(s, r, d);
    }
    forall j: nat | Held(r, d, j)
      ensures || HeldEntry(r, d, j) > o
              || (j == 0 && HeldEntry(r, d, j) == o && !r.consumers[d].stage.Received?)
    {
      var k := if advanced then j + 1 else j;
      assert Held(s, d, k) && HeldEntry(s, d, k) == HeldEntry(r, d, j);
    }
  }

  lemma ReadKeepsPassed(s: State, c: Process, effect: Effect, o: Entry)
    requires Passed(s, c, o) && Enabled(s, Read(c, effect))
    ensures Passed(Apply(s, Read(c, effect)), c, o)
  {
    var r := Apply(s, Read(c, effect));
    if effect == Done {
      BatchIsNextInOrder(s);
      forall j: nat | Held(r, c, j) ensures HeldEntry(r, c, j) > o {
        assert HeldEntry(r, c, j) == Batch(s)[j];
      }
    }
  }

  lemma StepKeepsPassed(s: State, step: Step, c: Process, o: Entry)
    requires BatchesAscend(s) && Passed(s, c, o) && Enabled(s, step)
    ensures Passed(Apply(s, step), c, o)
  {
    var r := Apply(s, step);
    StreamFrame(s, step);
    if ActorOf(step) != ConsumerActor(c) {
      CountersAreOwn(s, step, ConsumerActor(c));
      forall j: nat | Held(r, c, j)
        ensures || HeldEntry(r, c, j) > o
                || (j == 0 && HeldEntry(r, c, j) == o && !r.consumers[c].stage.Received?)
      {
        assert Held(s, c, j) && HeldEntry(s, c, j) == HeldEntry(r, c, j);
      }
    } else if OnEntry(step) {
      WorkMoves(s, step, c);
      MovedKeepsPassed(s, r, c, o);
    } else if step.Read? {
      ReadKeepsPassed(s, c, step.effect, o);
    }
  }

  lemma {:induction false} RunKeepsPassed(s: State, steps: seq<Step>, c: Process, o: Entry)
    requires BatchesAscend(s) && Passed(s, c, o) && Possible(s, steps)
    ensures Passed(After(s, steps), c, o)
    decreases |steps|
  {
    if steps != [] {
      StepKeepsAscending(s, steps[0]);
      StepKeepsPassed(s, steps[0], c, o);
      RunKeepsPassed(Apply(s, steps[0]), steps[1..], c, o);
    }
  }

  lemma NormalizePasses(s: State, c: Process, result: Option<NormalizedAttributes>)
    requires Inv(s) && BatchesAscend(s) && Enabled(s, Normalize(c, result))
    ensures Passed(Apply(s, Normalize(c, result)), c, AtHand(s, c))
  {
    AtHandIsPending(s, c);
    var r := Apply(s, Normalize(c, result));
    if result.None? {
      AdvanceHeld(s, r, c);
    }
    forall j: nat | Held(r, c, j)
      ensures || HeldEntry(r, c, j) > AtHand(s, c)
              || (j == 0 && HeldEntry(r, c, j) == AtHand(s, c) && !r.consumers[c].stage.Received?)
    {
      var k := if result.None? then j + 1 else j;
      assert Held(s, c, k) && HeldEntry(s, c, k) == HeldEntry(r, c, j);
      assert Held(s, c, 0) && HeldEntry(s, c, 0) == AtHand(s, c);
    }
  }

  /** A consumer normalizes in stream order: whatever it normalizes later stands later on the stream. */
  lemma NormalizesInOrder(s: State, c: Process, result: Option<NormalizedAttributes>, steps: seq<Step>,
                          again: Option<NormalizedAttributes>)
    requires Reachable(s) && Enabled(s, Normalize(c, result))
    requires Possible(Apply(s, Normalize(c, result)), steps)
    requires Enabled(After(Apply(s, Normalize(c, result)), steps), Normalize(c, again))
    ensures AtHand(s, c) < AtHand(After(Apply(s, Normalize(c, result)), steps), c)
  {
    ReachableHolds(s);
    ReachableAscends(s);
    NormalizePasses(s, c, result);
    StepKeepsAscending(s, Normalize(c, result));
    RunKeepsPassed(Apply(s, Normalize(c, result)), steps, c, AtHand(s, c));
    var r := After(Apply(s, Normalize(c, result)), steps);
    assert Held(r, c, 0) && HeldEntry(r, c, 0) == AtHand(r, c);
  }

  // ---- a single consumer --------------------------------------------------------------------------

  /** What has been published stands in stream order, before all that the consumer has still to publish. */
  ghost predicate PublishedInOrder(s: State, c: Process) {
    && (forall k: nat, l: nat :: k < l < |s.out| ==> s.out[k].entry < s.out[l].entry)
    && (forall k: nat :: k < |s.out| ==> s.out[k].entry < s.delivered)
    && (forall k: nat, j: nat :: k < |s.out| && Held(s, c, j) ==>
          || s.out[k].entry < HeldEntry(s, c, j)
          || (j == 0 && s.out[k].entry == HeldEntry(s, c, j) && s.consumers[c].stage.Published?))
  }

  lemma SameOutKeepsOrder(s: State, step: Step, c: Process)
    requires PublishedInOrder(s, c) && BatchesAscend(s) && Enabled(s, step) && !step.PublishNormalized?
    ensures PublishedInOrder(Apply(s, step), c)
  {
    var r := Apply(s, step);
    MessageFrame(s, step);
    StreamFrame(s, step);
    forall k: nat, j: nat | k < |r.out| && Held(r, c, j)
      ensures || r.out[k].entry < HeldEntry(r, c, j)
              || (j == 0 && r.out[k].entry == HeldEntry(r, c, j) && r.consumers[c].stage.Published?)
    {
      HeldComesFrom(s, step, c, j);
    }
  }

  /** What a consumer holds after a step it held before, or has just been handed; only an entry at hand that it
      stays at changes its stage. */
  lemma HeldComesFrom(s: State, step: Step, c: Process, j: nat)
    requires Enabled(s, step) && Held(Apply(s, step), c, j)
    ensures var r := Apply(s, step);
      || HeldEntry(r, c, j) >= s.delivered
      || (exists k: nat :: k > 0 && Held(s, c, k) && HeldEntry(s, c, k) == HeldEntry(r, c, j))
      || (&& Held(s, c, j) && HeldEntry(s, c, j) == HeldEntry(r, c, j)
          && (s.consumers[c].stage.Published? ==> r.consumers[c].stage.Published?))
  {
    var r := Apply(s, step);
    if ActorOf(step) != ConsumerActor(c) {
      CountersAreOwn(s, step, ConsumerActor(c));
    } else if OnEntry(step) {
      WorkMoves(s, step, c);
      if r.consumers == s.consumers[c := NextEntry(s.consumers[c])] {
        AdvanceHeld(s, r, c);
        assert Held(s, c, j + 1) && HeldEntry(s, c, j + 1) == HeldEntry(r, c, j);
      } else {
        assert Held(s, c, j);
      }
    } else if step.Read? {
      BatchIsNextInOrder(s);
    }
  }

  /** The entry at hand comes after all that is published, and before all else that is held. */
  lemma AtHandIsNext(s: State, c: Process)
    requires PublishedInOrder(s, c) && BatchesAscend(s) && AtStage(s, c) && !s.consumers[c].stage.Published?
    ensures forall k: nat :: k < |s.out| ==> s.out[k].entry < AtHand(s, c)
    ensures forall j: nat :: Held(s, c, j) && j > 0 ==> AtHand(s, c) < HeldEntry(s, c, j)
  {
    assert Held(s, c, 0) && HeldEntry(s, c, 0) == AtHand(s, c);
  }

  lemma OutStaysAscending(s: State, r: State, c: Process)
    requires PublishedInOrder(s, c) && AtStage(s, c) && AtHand(s, c) < s.delivered == r.delivered
    requires forall k: nat :: k < |s.out| ==> s.out[k].entry < AtHand(s, c)
    requires r.out == s.out || (|r.out| == |s.out| + 1 && s.out <= r.out && r.out[|s.out|].entry == AtHand(s, c))
    ensures forall k: nat, l: nat :: k < l < |r.out| ==> r.out[k].entry < r.out[l].entry
    ensures forall k: nat :: k < |r.out| ==> r.out[k].entry <= AtHand(s, c) && r.out[k].entry < r.delivered
  {
    assert forall k: nat :: k < |s.out| ==> r.out[k] == s.out[k];
  }

  lemma PublishKeepsOrder(s: State, c: Process, effect: Effect)
    requires ConsumersOk(s) && StreamOk(s) && PublishedInOrder(s, c) && BatchesAscend(s)
    requires Enabled(s, PublishNormalized(c, effect))
    ensures PublishedInOrder(Apply(s, PublishNormalized(c, effect)), c)
  {
    var r := Apply(s, PublishNormalized(c, effect));
    assert Held(s, c, 0) && HeldEntry(s, c, 0) == AtHand(s, c);
    AtHandIsNext(s, c);
    OutStaysAscending(s, r, c);
    if effect != Done {
      AdvanceHeld(s, r, c);
      forall j: nat | Held(r, c, j) ensures AtHand(s, c) < HeldEntry(r, c, j) {
        assert Held(s, c, j + 1) && HeldEntry(s, c, j + 1) == HeldEntry(r, c, j);
      }
    } else {
      forall j: nat | Held(r, c, j)
        ensures j == 0 || AtHand(s, c) < HeldEntry(r, c, j)
        ensures j == 0 ==> HeldEntry(r, c, j) == AtHand(s, c)
      {
        assert Held(s, c, j) && HeldEntry(s, c, j) == HeldEntry(r, c, j);
      }
    }
  }

  lemma {:induction false} RunPublishesInOrder(s: State, steps: seq<Step>, c: Process)
    requires Inv(s) && BatchesAscend(s) && PublishedInOrder(s, c) && Possible(s, steps)
    requires forall step :: step in steps && ActorOf(step).ConsumerActor? ==> ActorOf(step) == ConsumerActor(c)
    ensures PublishedInOrder(After(s, steps), c)
    decreases |steps|
  {
    if steps != [] {
      assert steps[0] in steps && forall step :: step in steps[1..] ==> step in steps;
      StepKeepsInv(s, steps[0]);
      StepKeepsAscending(s, steps[0]);
      if steps[0].PublishNormalized? {
        PublishKeepsOrder(s, c, steps[0].effect);
      } else {
        SameOutKeepsOrder(s, steps[0], c);
      }
      RunPublishesInOrder(Apply(s, steps[0]), steps[1..], c);
    }
  }

  /** With one consumer the normalized events are published in the order of the login events. */
  lemma OneConsumerPublishesInOrder(steps: seq<Step>, c: Process)
    requires Possible(INITIAL, steps)
    requires forall step :: step in steps && ActorOf(step).ConsumerActor? ==> ActorOf(step) == ConsumerActor(c)
    ensures var out := After(INITIAL, steps).out;
      forall k: nat, l: nat :: k < l < |out| ==> out[k].entry < out[l].entry
  {
    InitialHolds();
    RunPublishesInOrder(INITIAL, steps, c);
  }
}
