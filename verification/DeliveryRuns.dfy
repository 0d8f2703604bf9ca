/** Runs by actor: who took which step, and what follows when every consumer keeps to right values. */
module DeliveryRuns {
  import opened Wrappers
  import opened Models
  import opened Delivery
  import opened DeliveryInvariant
  import opened DeliveryTheorems

  // ---- actors -------------------------------------------------------------------------------------

  datatype Actor = IngesterActor(i: Process) | ConsumerActor(c: Process)

  function ActorOf(step: Step): Actor {
    match step
    case Ingest(i, _) => IngesterActor(i)
    case Persist(i, _) => IngesterActor(i)
    case PublishLogin(i, _, _) => IngesterActor(i)
    case StopIngester(i) => IngesterActor(i)
    case StartConsumer(c) => ConsumerActor(c)
    case Read(c, _) => ConsumerActor(c)
    case Normalize(c, _) => ConsumerActor(c)
    case Write(c, _) => ConsumerActor(c)
    case PublishNormalized(c, _) => ConsumerActor(c)
    case Ack(c, _) => ConsumerActor(c)
    case StopConsumer(c) => ConsumerActor(c)
  }

  /** A step of one actor leaves the program counters of the others alone. */
  lemma CountersAreOwn(s: State, step: Step, actor: Actor)
    requires Enabled(s, step) && ActorOf(step) != actor
    ensures match actor
            case IngesterActor(i) =>
              && (i in Apply(s, step).ingesters <==> i in s.ingesters)
              && (i in s.ingesters ==> Apply(s, step).ingesters[i] == s.ingesters[i])
            case ConsumerActor(c) =>
              && (c in Apply(s, step).consumers <==> c in s.consumers)
              && (c in s.consumers ==> Apply(s, step).consumers[c] == s.consumers[c])
  {
    match actor
    case IngesterActor(i) => IngesterCounterIsOwn(s, step, i);
    case ConsumerActor(c) => ConsumerCounterIsOwn(s, step, c);
  }

  lemma IngesterCounterIsOwn(s: State, step: Step, i: Process)
    requires Enabled(s, step) && ActorOf(step) != IngesterActor(i)
    ensures i in Apply(s, step).ingesters <==> i in s.ingesters
    ensures i in s.ingesters ==> Apply(s, step).ingesters[i] == s.ingesters[i]
  {
  }

  lemma ConsumerCounterIsOwn(s: State, step: Step, c: Process)
    requires Enabled(s, step) && ActorOf(step) != ConsumerActor(c)
    ensures c in Apply(s, step).consumers <==> c in s.consumers
    ensures c in s.consumers ==> Apply(s, step).consumers[c] == s.consumers[c]
  {
    if OnEntry(step) {
      WorkMoves(s, step, step.c);
    } else {
      RestIsOwn(s, step, c);
    }
  }

  lemma RestIsOwn(s: State, step: Step, c: Process)
    requires Enabled(s, step) && ActorOf(step) != ConsumerActor(c) && !OnEntry(step)
    ensures c in Apply(s, step).consumers <==> c in s.consumers
    ensures c in s.consumers ==> Apply(s, step).consumers[c] == s.consumers[c]
  {
    match step
    case Read(d, effect) =>
    case _ =>
  }

  /** A run has gone on by steps of others only. */
  ghost predicate OnlyOthers(before: seq<Step>, after: seq<Step>, me: Actor) {
    before <= after && forall k :: |before| <= k < |after| ==> ActorOf(after[k]) != me
  }

  lemma {:induction false} AfterAppend(s: State, steps: seq<Step>, last: Step)
    requires Possible(s, steps) && Enabled(After(s, steps), last)
    ensures Possible(s, steps + [last]) && After(s, steps + [last]) == Apply(After(s, steps), last)
    decreases |steps|
  {
    if steps == [] {
      assert steps + [last] == [last];
      assert Possible(Apply(s, last), []);
    } else {
      assert (steps + [last])[1..] == steps[1..] + [last];
      AfterAppend(Apply(s, steps[0]), steps[1..], last);
    }
  }

  lemma {:induction false} LastStep(s: State, steps: seq<Step>)
    requires Possible(s, steps) && steps != []
    ensures var init, last := steps[..|steps| - 1], steps[|steps| - 1];
      Possible(s, init) && Enabled(After(s, init), last) && After(s, steps) == Apply(After(s, init), last)
    decreases |steps|
  {
    if |steps| == 1 {
      assert steps[..0] == [] && steps[1..] == [];
      assert Possible(s, []);
    } else {
      LastStep(Apply(s, steps[0]), steps[1..]);
      assert steps[..|steps| - 1][1..] == steps[1..][..|steps| - 2];
    }
  }

  // ---- right values -------------------------------------------------------------------------------

  /** What a consumer may make of a record. */
  type Judgement = (Record, NormalizedAttributes) -> bool

  /** A normalization that returns, returns something `right`. */
  ghost predicate RightStep(s: State, step: Step, right: Judgement) {
    step.Normalize? && step.result.Some? && AtStage(s, step.c) ==> right(s.log[AtHand(s, step.c)], step.result.value)
  }

  ghost predicate RightRun(s: State, steps: seq<Step>, right: Judgement)
    requires Possible(s, steps)
    decreases |steps|
  {
    steps == [] || (RightStep(s, steps[0], right) && RightRun(Apply(s, steps[0]), steps[1..], right))
  }

  /** Nothing but right values is under way, committed, or published. */
  ghost predicate StagesRight(s: State, right: Judgement) {
    forall c :: AtStage(s, c) && !s.consumers[c].stage.Received? ==> right(s.log[AtHand(s, c)], s.consumers[c].stage.n)
  }

  ghost predicate RowsRight(s: State, right: Judgement) {
    forall o: nat :: o < |s.log| && Value(s, o).Some? ==> right(s.log[o], Value(s, o).value)
  }

  ghost predicate MessagesRight(s: State, right: Judgement) {
    forall k: nat :: k < |s.out| ==> right(s.out[k].record, s.out[k].normalized)
  }

  lemma StepKeepsStagesRight(s: State, step: Step, right: Judgement)
    requires ConsumersOk(s) && StagesOk(s) && Enabled(s, step) && StagesRight(s, right) && RightStep(s, step, right)
    ensures StagesRight(Apply(s, step), right)
  {
    var r := Apply(s, step);
    StreamFrame(s, step);
    forall c | AtStage(r, c) && !r.consumers[c].stage.Received?
      ensures right(r.log[AtHand(r, c)], r.consumers[c].stage.n)
    {
      if OnEntry(step) && step.c == c {
        StageIsCarried(s, step);
      } else {
        OthersKeepTheirStage(s, step, c);
      }
      assert Held(s, c, 0) && HeldEntry(s, c, 0) == AtHand(s, c);
    }
  }

  /** A consumer still on the same entry carries the value it got from normalizing. */
  lemma StageIsCarried(s: State, step: Step)
    requires OnEntry(step) && Enabled(s, step)
    ensures var r, c := Apply(s, step), step.c;
      AtStage(r, c) && !r.consumers[c].stage.Received? ==>
        && r.log == s.log && AtHand(r, c) == AtHand(s, c)
        && r.consumers[c].stage.n == if step.Normalize? then step.result.value else s.consumers[c].stage.n
    ensures step.Normalize? && AtStage(Apply(s, step), step.c) && !Apply(s, step).consumers[step.c].stage.Received?
      ==> step.result.Some?
  {
  }

  lemma OthersKeepTheirStage(s: State, step: Step, c: Process)
    requires Enabled(s, step) && !(OnEntry(step) && step.c == c)
    requires c in Apply(s, step).consumers && Apply(s, step).consumers[c].Working?
    requires !Apply(s, step).consumers[c].stage.Received?
    ensures c in s.consumers && Apply(s, step).consumers[c] == s.consumers[c]
  {
    if ActorOf(step) != ConsumerActor(c) {
      CountersAreOwn(s, step, ConsumerActor(c));
    }
  }

  lemma StepKeepsRowsRight(s: State, step: Step, right: Judgement)
    requires Inv(s) && Enabled(s, step) && StagesRight(s, right) && RowsRight(s, right)
    ensures RowsRight(Apply(s, step), right)
  {
    if step.PublishLogin? {
      PublishLoginDisturbsNobody(s, step.i, step.effect, step.trimTo);
    } else {
      LogStays(s, step);
      forall o: nat | o < |s.log| && Value(Apply(s, step), o).Some?
        ensures right(s.log[o], Value(Apply(s, step), o).value)
      {
        if step.Write? && o == AtHand(s, step.c) {
          WrittenIsRight(s, step.c, step.effect, right);
        } else {
          ValueStays(s, step, o);
        }
      }
    }
  }

  lemma LogStays(s: State, step: Step)
    requires Enabled(s, step) && !step.PublishLogin?
    ensures Apply(s, step).log == s.log
  {
    match step
    case Write(c, effect) =>
    case _ =>
  }

  lemma WrittenIsRight(s: State, c: Process, effect: Effect, right: Judgement)
    requires RowsOk(s) && Enabled(s, Write(c, effect)) && StagesRight(s, right) && RowsRight(s, right)
    ensures var o, r := AtHand(s, c), Apply(s, Write(c, effect));
      o < |r.log| && r.log == s.log && (Value(r, o).Some? ==> right(s.log[o], Value(r, o).value))
  {
    UpdateTouchesOneEntry(s, AtHand(s, c), s.consumers[c].stage.n);
  }

  lemma ValueStays(s: State, step: Step, o: Entry)
    requires RowsOk(s) && Enabled(s, step) && !step.PublishLogin?
    requires o < |s.log| && (step.Write? ==> o != AtHand(s, step.c))
    ensures Apply(s, step).log == s.log && Value(Apply(s, step), o) == Value(s, o)
  {
    match step
    case Persist(i, effect) => if effect != NotDone { InsertedRows(s.rows, s.ingesters[i].records); }
    case Write(c, effect) => UpdateTouchesOneEntry(s, AtHand(s, c), s.consumers[c].stage.n);
    case PublishLogin(_, _, _) =>
    case _ => assert Apply(s, step).rows == s.rows;
  }

  lemma StepKeepsMessagesRight(s: State, step: Step, right: Judgement)
    requires Enabled(s, step) && StagesRight(s, right) && MessagesRight(s, right)
    ensures MessagesRight(Apply(s, step), right)
  {
    if !step.PublishNormalized? {
      MessageFrame(s, step);
    }
  }

  lemma {:induction false} RunKeepsRight(s: State, steps: seq<Step>, right: Judgement)
    requires Inv(s) && Possible(s, steps) && RightRun(s, steps, right)
    requires StagesRight(s, right) && RowsRight(s, right) && MessagesRight(s, right)
    ensures RowsRight(After(s, steps), right) && MessagesRight(After(s, steps), right)
    decreases |steps|
  {
    if steps != [] {
      StepKeepsInv(s, steps[0]);
      StepKeepsStagesRight(s, steps[0], right);
      StepKeepsRowsRight(s, steps[0], right);
      StepKeepsMessagesRight(s, steps[0], right);
      RunKeepsRight(Apply(s, steps[0]), steps[1..], right);
    }
  }

  // ---- consumer by consumer -----------------------------------------------------------------------

  /** What consumer `c` itself has normalized is right. */
  ghost predicate OwnRight(s: State, steps: seq<Step>, right: Judgement, c: Process)
    requires Possible(s, steps)
    decreases |steps|
  {
    steps == []
    || (&& (ActorOf(steps[0]) == ConsumerActor(c) ==> RightStep(s, steps[0], right))
        && OwnRight(Apply(s, steps[0]), steps[1..], right, c))
  }

  /** A run is right if every consumer does its part. */
  lemma {:induction false} AllOwnRight(s: State, steps: seq<Step>, right: Judgement)
    requires Possible(s, steps) && forall c :: OwnRight(s, steps, right, c)
    ensures RightRun(s, steps, right)
    decreases |steps|
  {
    if steps != [] {
      if steps[0].Normalize? {
        assert OwnRight(s, steps, right, steps[0].c);
      }
      forall c ensures OwnRight(Apply(s, steps[0]), steps[1..], right, c) {
        assert OwnRight(s, steps, right, c);
      }
      AllOwnRight(Apply(s, steps[0]), steps[1..], right);
    }
  }

  lemma {:induction false} AnythingIsRight(s: State, steps: seq<Step>, right: Judgement, c: Process)
    requires Possible(s, steps) && forall record, n :: right(record, n)
    ensures OwnRight(s, steps, right, c)
    decreases |steps|
  {
    if steps != [] {
      AnythingIsRight(Apply(s, steps[0]), steps[1..], right, c);
    }
  }

  lemma {:induction false} OwnRightAppend(s: State, steps: seq<Step>, last: Step, right: Judgement, c: Process)
    requires Possible(s, steps) && Enabled(After(s, steps), last) && OwnRight(s, steps, right, c)
    requires ActorOf(last) == ConsumerActor(c) ==> RightStep(After(s, steps), last, right)
    ensures Possible(s, steps + [last]) && OwnRight(s, steps + [last], right, c)
    decreases |steps|
  {
    AfterAppend(s, steps, last);
    if steps == [] {
      assert steps + [last] == [last] && [last][1..] == [];
      assert OwnRight(Apply(s, last), [], right, c);
    } else {
      assert (steps + [last])[1..] == steps[1..] + [last];
      OwnRightAppend(Apply(s, steps[0]), steps[1..], last, right, c);
    }
  }

  lemma {:induction false} OthersLeaveOwnRight(s: State, before: seq<Step>, after: seq<Step>, right: Judgement,
                                                 c: Process)
    requires Possible(s, before) && OwnRight(s, before, right, c)
    requires Possible(s, after) && OnlyOthers(before, after, ConsumerActor(c))
    ensures OwnRight(s, after, right, c)
    decreases |after|
  {
    if |after| == |before| {
      assert after == before;
    } else {
      var init, last := after[..|after| - 1], after[|after| - 1];
      LastStep(s, after);
      OthersLeaveOwnRight(s, before, init, right, c);
      OwnRightAppend(s, init, last, right, c);
      assert after == init + [last];
    }
  }
}
