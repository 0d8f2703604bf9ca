/** The delivery protocol without faults: whatever is ingested is normalized. */
module DeliveryCleanRuns {
  import opened Wrappers
  import opened Models
  import opened Delivery
  import opened DeliveryInvariant
  import opened DeliveryTheorems

  // ---- from the stream on -------------------------------------------------------------------------

  /** A step in which nothing fails and nobody stops. */
  predicate Clean(step: Step) {
    match step
    case Persist(_, effect) => effect == Done
    case PublishLogin(_, effect, _) => effect == Done
    case Read(_, effect) => effect == Done
    case Normalize(_, result) => result.Some?
    case Write(_, effect) => effect == Done
    case PublishNormalized(_, effect) => effect == Done
    case Ack(_, effect) => effect == Done
    case StopIngester(_) => false
    case StopConsumer(_) => false
    case _ => true
  }

  lemma {:induction false} CleanRunAbandonsNothing(s: State, steps: seq<Step>)
    requires Possible(s, steps) && forall step :: step in steps ==> Clean(step)
    ensures After(s, steps).abandoned == s.abandoned
    decreases |steps|
  {
    if steps != [] {
      assert Clean(steps[0]);
      assert forall step :: step in steps[1..] ==> step in steps;
      CleanRunAbandonsNothing(Apply(s, steps[0]), steps[1..]);
    }
  }

  lemma {:induction false} RunSplits(s: State, steps: seq<Step>, k: nat)
    requires Possible(s, steps) && k <= |steps|
    ensures Possible(s, steps[..k]) && Possible(After(s, steps[..k]), steps[k..])
    ensures After(s, steps) == After(After(s, steps[..k]), steps[k..])
    decreases |steps|
  {
    if k == 0 {
      assert steps[..0] == [] && steps[0..] == steps;
    } else {
      RunSplits(Apply(s, steps[0]), steps[1..], k - 1);
      assert steps[..k][1..] == steps[1..][..k - 1] && steps[1..][k - 1..] == steps[k..];
    }
  }

  /** A run without faults that has come to rest: no consumer is at work. */
  ghost predicate CleanAndIdle(steps: seq<Step>) {
    && Possible(INITIAL, steps) && (forall step :: step in steps ==> Clean(step))
    && forall c :: c in After(INITIAL, steps).consumers ==> After(INITIAL, steps).consumers[c].Reading?
  }

  /** Then nothing is pending: all that was ever given out is acked, so that it has its committed value and its
      message, trimmed since or not; and what the group has passed without giving it out was trimmed before. */
  lemma CleanRunDeliversAll(steps: seq<Step>)
    requires CleanAndIdle(steps)
    ensures var s := After(INITIAL, steps);
      && s.pending == {}
      && (forall o :: o in DeliveredIn(INITIAL, steps) <==> o in s.acked)
      && (forall o: nat :: o < s.delivered && o !in s.acked ==> HasStatus(steps, o, TrimmedUndelivered))
  {
    CleanRunAbandonsNothing(INITIAL, steps);
    InitialHolds();
    RunKeepsInv(INITIAL, steps);
    forall o ensures InGroup(After(INITIAL, steps), o) <==> o in DeliveredIn(INITIAL, steps) {
      DeliveredStaysInGroup(INITIAL, steps, o);
    }
  }

  /** So an entry that was pending at any moment of the run is acked at its end. */
  lemma PendingIsAckedInTheEnd(steps: seq<Step>, k: nat, o: Entry)
    requires CleanAndIdle(steps) && k <= |steps|
    ensures Possible(INITIAL, steps[..k])
    ensures o in After(INITIAL, steps[..k]).pending ==> o in After(INITIAL, steps).acked
  {
    RunSplits(INITIAL, steps, k);
    CleanRunDeliversAll(steps);
    DeliveredStaysInGroup(After(INITIAL, steps[..k]), steps[k..], o);
  }

  // ---- from the row on ----------------------------------------------------------------------------

  /** A committed event is on the stream, or a running call has still to put it there. */
  ghost predicate OnStreamOrOwed(s: State, id: EventId) {
    || (exists o: nat :: o < |s.log| && s.log[o].id == id)
    || (exists i: Process, j: nat :: Owed(s, i, j) && OwedId(s, i, j) == id)
  }

  ghost predicate NothingForgotten(s: State) {
    forall id :: id in s.rows ==> OnStreamOrOwed(s, id)
  }

  lemma StillOnStreamOrOwed(s: State, r: State, id: EventId)
    requires OnStreamOrOwed(s, id) && s.log <= r.log
    requires forall i: Process, j: nat :: Owed(s, i, j) ==> Owed(r, i, j) && OwedId(r, i, j) == OwedId(s, i, j)
    ensures OnStreamOrOwed(r, id)
  {
    if i: Process, j: nat :| Owed(s, i, j) && OwedId(s, i, j) == id {
      assert Owed(r, i, j) && OwedId(r, i, j) == id;
    } else {
      var o: nat :| o < |s.log| && s.log[o].id == id;
      assert r.log[o] == s.log[o];
    }
  }

  lemma CleanPersistForgetsNothing(s: State, i: Process)
    requires NothingForgotten(s) && Enabled(s, Persist(i, Done))
    ensures NothingForgotten(Apply(s, Persist(i, Done)))
  {
    var r, records := Apply(s, Persist(i, Done)), s.ingesters[i].records;
    InsertedRows(s.rows, records);
    forall id | id in r.rows ensures OnStreamOrOwed(r, id) {
      if id in s.rows {
        StillOnStreamOrOwed(s, r, id);
      } else {
        var j: nat :| j < |records| && records[j].id == id;
        assert Owed(r, i, j) && OwedId(r, i, j) == id;
      }
    }
  }

  lemma CleanPublishForgetsNothing(s: State, i: Process, trimTo: nat)
    requires NothingForgotten(s) && Enabled(s, PublishLogin(i, Done, trimTo))
    ensures NothingForgotten(Apply(s, PublishLogin(i, Done, trimTo)))
  {
    var r, me := Apply(s, PublishLogin(i, Done, trimTo)), s.ingesters[i];
    forall id | id in r.rows ensures OnStreamOrOwed(r, id) {
      if k: Process, j: nat :| Owed(s, k, j) && OwedId(s, k, j) == id {
        if k == i && j == me.next {
          assert r.log[|s.log|].id == id;
        } else {
          assert Owed(r, k, j) && OwedId(r, k, j) == id;
        }
      } else {
        assert OnStreamOrOwed(s, id);
        var o: nat :| o < |s.log| && s.log[o].id == id;
        assert r.log[o] == s.log[o];
      }
    }
  }

  lemma CleanStepForgetsNothing(s: State, step: Step)
    requires NothingForgotten(s) && Enabled(s, step) && Clean(step)
    ensures NothingForgotten(Apply(s, step))
  {
    var r := Apply(s, step);
    match step
    case Persist(i, effect) => CleanPersistForgetsNothing(s, i);
    case PublishLogin(i, effect, trimTo) => CleanPublishForgetsNothing(s, i, trimTo);
    case Ingest(i, records) =>
      forall id | id in r.rows ensures OnStreamOrOwed(r, id) {
        StillOnStreamOrOwed(s, r, id);
      }
    case StopIngester(i) =>
    case StopConsumer(c) =>
    case _ =>
      ConsumersAddNoRows(s, step);
      forall id | id in r.rows ensures OnStreamOrOwed(r, id) {
        StillOnStreamOrOwed(s, r, id);
      }
  }

  lemma ConsumersAddNoRows(s: State, step: Step)
    requires Enabled(s, step) && (OnEntry(step) || step.StartConsumer? || step.Read? || step.StopConsumer?)
    ensures Apply(s, step).rows.Keys == s.rows.Keys
    ensures Apply(s, step).log == s.log && Apply(s, step).ingesters == s.ingesters
  {
    ConsumersLeaveIngestion(s, step);
    match step
    case Write(c, effect) =>
    case _ =>
  }

  lemma {:induction false} CleanRunForgetsNothing(s: State, steps: seq<Step>)
    requires NothingForgotten(s) && Possible(s, steps) && forall step :: step in steps ==> Clean(step)
    ensures NothingForgotten(After(s, steps))
    decreases |steps|
  {
    if steps != [] {
      assert Clean(steps[0]);
      CleanStepForgetsNothing(s, steps[0]);
      assert forall step :: step in steps[1..] ==> step in steps;
      CleanRunForgetsNothing(Apply(s, steps[0]), steps[1..]);
    }
  }

  /** From ingestion to the second stream: without faults, once all calls and consumers have come to rest and the
      group has read all there is, every committed event has its normalized attributes in its row and a message
      with that same value, unless it was trimmed before it could be delivered. */
  lemma CleanRunNormalizesAll(steps: seq<Step>, id: EventId) returns (o: Entry)
    requires CleanAndIdle(steps) && After(INITIAL, steps).ingesters == map[]
    requires NextUndelivered(After(INITIAL, steps)) >= |After(INITIAL, steps).log|
    requires id in After(INITIAL, steps).rows
    ensures var s := After(INITIAL, steps);
      && o < |s.log| && s.log[o].id == id
      && (HasStatus(steps, o, TrimmedUndelivered)
          || exists k: nat :: k < |s.out| && s.out[k].record == s.log[o]
                              && s.rows[id] == Row(s.log[o], Some(s.out[k].normalized)))
  {
    var s := After(INITIAL, steps);
    CleanRunForgetsNothing(INITIAL, steps);
    assert OnStreamOrOwed(s, id);
    o :| o < |s.log| && s.log[o].id == id;
    CleanRunDeliversAll(steps);
    ExactlyOneStatus(steps, o);
    if o in s.acked {
      assert Reachable(s);
      AckedIsDurable(s, o);
    }
  }
}
