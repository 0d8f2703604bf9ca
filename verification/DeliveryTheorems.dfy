/** What the delivery protocol promises, over all runs. */
module DeliveryTheorems {
  import opened Wrappers
  import opened Models
  import opened Delivery
  import opened DeliveryInvariant

  // ---- at every moment --------------------------------------------------------------------------

  /** An acked entry has its normalized attributes committed and a message with that same value. */
  lemma AckedIsDurable(s: State, o: Entry)
    requires Reachable(s) && o in s.acked
    ensures o < |s.log| && s.log[o].id in s.rows
    ensures exists k: nat :: k < |s.out| && s.out[k].record == s.log[o]
                             && s.rows[s.log[o].id] == Row(s.log[o], Some(s.out[k].normalized))
  {
    ReachableHolds(s);
    var k := s.sent[o];
    assert s.out[k].record == s.log[o];
  }

  /** Persist comes before publish on both hops: what is on either stream is committed. */
  lemma PublishedIsPersisted(s: State)
    requires Reachable(s)
    ensures forall o: nat :: o < |s.log| ==> s.log[o].id in s.rows && s.rows[s.log[o].id].record == s.log[o]
    ensures forall k: nat :: k < |s.out| ==>
      && s.out[k].record.id in s.rows
      && s.rows[s.out[k].record.id] == Row(s.out[k].record, Some(s.out[k].normalized))
  {
    ReachableHolds(s);
    forall k: nat | k < |s.out|
      ensures s.out[k].record.id in s.rows
              && s.rows[s.out[k].record.id] == Row(s.out[k].record, Some(s.out[k].normalized))
    {
      var o := s.out[k].entry;
      assert s.sent[o] == k;
    }
  }

  /** No login event is on its stream twice, and none yields two normalized events. */
  lemma AtMostOneMessage(s: State)
    requires Reachable(s)
    ensures forall o: nat, p: nat :: o < p < |s.log| ==> s.log[o].id != s.log[p].id
    ensures forall k: nat, l: nat :: k < l < |s.out| ==> s.out[k].record.id != s.out[l].record.id
  {
    ReachableHolds(s);
    forall k: nat, l: nat | k < l < |s.out| ensures s.out[k].record.id != s.out[l].record.id {
      var o, p := s.out[k].entry, s.out[l].entry;
      assert s.sent[o] == k && s.sent[p] == l;
      assert o != p;
    }
  }

  // ---- every entry has its place ------------------------------------------------------------------

  /** What a step gives out, to a consumer or into a lost reply. */
  function DeliveredBy(s: State, step: Step): set<Entry>
    requires Enabled(s, step)
  {
    if step.Read? && step.effect != NotDone then set o | o in Batch(s) else {}
  }

  /** What a run has given out. */
  function DeliveredIn(s: State, steps: seq<Step>): set<Entry>
    requires Possible(s, steps)
    decreases |steps|
  {
    if steps == [] then {} else DeliveredBy(s, steps[0]) + DeliveredIn(Apply(s, steps[0]), steps[1..])
  }

  predicate InGroup(s: State, o: Entry) {
    o in s.pending || o in s.acked
  }

  lemma StepDelivers(s: State, step: Step, o: Entry)
    requires Enabled(s, step)
    ensures InGroup(Apply(s, step), o) <==> InGroup(s, o) || o in DeliveredBy(s, step)
  {
    match step
    case Read(c, effect) =>
    case Ack(c, effect) =>
    case _ => assert Apply(s, step).pending == s.pending && Apply(s, step).acked == s.acked;
  }

  /** An entry is pending or acked exactly when some read has given it out; trimming changes nothing about it. */
  lemma {:induction false} DeliveredStaysInGroup(s: State, steps: seq<Step>, o: Entry)
    requires Possible(s, steps)
    ensures InGroup(After(s, steps), o) <==> InGroup(s, o) || o in DeliveredIn(s, steps)
    decreases |steps|
  {
    if steps != [] {
      StepDelivers(s, steps[0], o);
      DeliveredStaysInGroup(Apply(s, steps[0]), steps[1..], o);
    }
  }

  datatype Status = WaitingUndelivered | TrimmedUndelivered | PendingEntry | AckedEntry

  /** The status of an entry after a run: still on the stream where the group will come to it, dropped from the
      stream without ever having been given out, pending, or acked. */
  predicate HasStatus(steps: seq<Step>, o: Entry, status: Status)
    requires Possible(INITIAL, steps)
  {
    var s := After(INITIAL, steps);
    match status
    case WaitingUndelivered => s.delivered <= o && s.trimmed <= o
    case TrimmedUndelivered => o < s.trimmed && o !in DeliveredIn(INITIAL, steps)
    case PendingEntry => o in s.pending
    case AckedEntry => o in s.acked
  }

  /** Every entry ever added has exactly one status. */
  lemma ExactlyOneStatus(steps: seq<Step>, o: Entry)
    requires Possible(INITIAL, steps) && o < |After(INITIAL, steps).log|
    ensures exists status ::
      HasStatus(steps, o, status) && forall other :: HasStatus(steps, o, other) ==> other == status
  {
    var s := After(INITIAL, steps);
    InitialHolds();
    RunKeepsInv(INITIAL, steps);
    DeliveredStaysInGroup(INITIAL, steps, o);
    var status := if o in s.pending then PendingEntry
                  else if o in s.acked then AckedEntry
                  else if o < s.trimmed then TrimmedUndelivered
                  else WaitingUndelivered;
    assert HasStatus(steps, o, status);
    forall other | HasStatus(steps, o, other) ensures other == status {
      match other
      case WaitingUndelivered =>
      case TrimmedUndelivered =>
      case PendingEntry =>
      case AckedEntry =>
    }
  }

  /** An entry can be lost to trimming only once `STREAM_MAXLEN` newer ones have been added. */
  lemma LossNeedsBacklog(steps: seq<Step>, o: Entry)
    requires Possible(INITIAL, steps) && o < |After(INITIAL, steps).log|
    requires HasStatus(steps, o, TrimmedUndelivered)
    ensures o + STREAM_MAXLEN < |After(INITIAL, steps).log|
  {
    InitialHolds();
    RunKeepsInv(INITIAL, steps);
  }

  /** Once given out, to a consumer or into a lost reply, an entry is pending or acked for ever, never lost. */
  lemma DeliveredIsNeverLost(s: State, c: Process, effect: Effect, steps: seq<Step>, o: Entry)
    requires Reachable(s) && Enabled(s, Read(c, effect)) && effect != NotDone && o in Batch(s)
    requires Possible(Apply(s, Read(c, effect)), steps)
    ensures InGroup(After(Apply(s, Read(c, effect)), steps), o)
  {
    StepDelivers(s, Read(c, effect), o);
    DeliveredStaysInGroup(Apply(s, Read(c, effect)), steps, o);
  }

  /** A pending entry is being worked on by one consumer, or was abandoned, never both. */
  lemma PendingIsAccountedFor(s: State, o: Entry)
    requires Reachable(s) && o in s.pending
    ensures o in s.abandoned <==> !exists c: Process, j: nat :: Held(s, c, j) && HeldEntry(s, c, j) == o
  {
    ReachableHolds(s);
  }

  // ---- from now on ------------------------------------------------------------------------------

  /** Committed rows stay, with the fields that ingestion gave them. */
  ghost predicate RowsStay(s: State, r: State) {
    forall id :: id in s.rows ==> id in r.rows && r.rows[id].record == s.rows[id].record
  }

  /** Streams are append-only; rows, deliveries, acks and abandonments are never taken back. */
  ghost predicate Later(s: State, r: State) {
    && RowsStay(s, r)
    && s.log <= r.log && s.out <= r.out
    && s.delivered <= r.delivered && s.trimmed <= r.trimmed
    && s.acked <= r.acked && s.abandoned <= r.abandoned
    && (forall o :: o in s.sent ==> o in r.sent && r.sent[o] == s.sent[o])
  }

  // which steps change which part of the state

  lemma StreamFrame(s: State, step: Step)
    requires Enabled(s, step)
    ensures var r := Apply(s, step);
      s.log <= r.log && s.trimmed <= r.trimmed && s.delivered <= r.delivered
  {
    match step
    case Read(c, effect) =>
    case PublishLogin(i, effect, trimTo) =>
    case _ =>
  }

  lemma OutcomesFrame(s: State, step: Step)
    requires Enabled(s, step)
    ensures s.acked <= Apply(s, step).acked && s.abandoned <= Apply(s, step).abandoned
  {
    match step
    case Normalize(c, result) =>
    case Ack(c, effect) =>
    case _ =>
  }

  lemma RowsFrame(s: State, step: Step)
    requires Enabled(s, step)
    ensures RowsStay(s, Apply(s, step))
  {
    match step
    case Persist(i, effect) => if effect != NotDone { InsertedRows(s.rows, s.ingesters[i].records); }
    case Write(c, effect) =>
    case _ => assert Apply(s, step).rows == s.rows;
  }

  lemma MessageFrame(s: State, step: Step)
    requires Enabled(s, step) && !step.PublishNormalized?
    ensures Apply(s, step).out == s.out && Apply(s, step).sent == s.sent
  {
    match step
    case Write(c, effect) =>
    case _ =>
  }

  lemma StepIsLater(s: State, step: Step)
    requires ConsumersOk(s) && StagesOk(s) && Enabled(s, step)
    ensures Later(s, Apply(s, step))
  {
    StreamFrame(s, step);
    OutcomesFrame(s, step);
    RowsFrame(s, step);
    if step.PublishNormalized? {
      PublishIsLater(s, step.c, step.effect);
    } else {
      MessageFrame(s, step);
    }
  }

  lemma PublishIsLater(s: State, c: Process, effect: Effect)
    requires ConsumersOk(s) && StagesOk(s) && Enabled(s, PublishNormalized(c, effect))
    ensures var r := Apply(s, PublishNormalized(c, effect));
      s.out <= r.out && forall o :: o in s.sent ==> o in r.sent && r.sent[o] == s.sent[o]
  {
    AtHandIsPending(s, c);
    assert AtHand(s, c) !in s.sent;
  }

  lemma {:induction false} RunIsLater(s: State, steps: seq<Step>)
    requires Inv(s) && Possible(s, steps)
    ensures Later(s, After(s, steps))
    decreases |steps|
  {
    if steps != [] {
      StepKeepsInv(s, steps[0]);
      StepIsLater(s, steps[0]);
      RunIsLater(Apply(s, steps[0]), steps[1..]);
    }
  }

  /** Once delivered, an entry is never delivered again: only new messages are read. */
  lemma DeliveredOnce(s: State, steps: seq<Step>, o: Entry)
    requires Reachable(s) && Possible(s, steps) && o < s.delivered
    ensures var r := After(s, steps); NextUndelivered(r) < |r.log| ==> o !in Batch(r)
  {
    ReachableHolds(s);
    RunKeepsInv(s, steps);
    RunIsLater(s, steps);
    var r := After(s, steps);
    if NextUndelivered(r) < |r.log| {
      BatchIsNew(r);
    }
  }

  /** Nobody will normalize `o` again: it was delivered, and whoever still holds it is past that. */
  ghost predicate Started(s: State, o: Entry) {
    && o < s.delivered
    && (forall c: Process, j: nat :: Held(s, c, j) && HeldEntry(s, c, j) == o ==>
          j == 0 && !s.consumers[c].stage.Received?)
  }

  lemma NormalizeStarts(s: State, c: Process, result: Option<NormalizedAttributes>)
    requires Inv(s) && Enabled(s, Normalize(c, result))
    ensures Started(Apply(s, Normalize(c, result)), AtHand(s, c))
  {
    AtHandIsPending(s, c);
    var r := Apply(s, Normalize(c, result));
    forall d: Process, j: nat | Held(r, d, j) && HeldEntry(r, d, j) == AtHand(s, c)
      ensures d == c && j == 0 && result.Some?
    {
      if result.None? {
        AdvanceHeld(s, r, c);
      }
      var k := if d == c && result.None? then j + 1 else j;
      assert Held(s, d, k) && HeldEntry(s, d, k) == HeldEntry(r, d, j);
      if d != c || k != 0 {
        OthersAreHeldElsewhere(s, c, d, k);
      }
    }
  }

  lemma StepKeepsStarted(s: State, step: Step, o: Entry)
    requires Inv(s) && Enabled(s, step) && Started(s, o)
    ensures Started(Apply(s, step), o)
  {
    if OnEntry(step) {
      WorkKeepsStarted(s, step, step.c, o);
    } else {
      if step.Read? {
        BatchIsNew(s);
      }
      NoWorkKeepsStarted(s, step, o);
    }
  }

  lemma NoWorkKeepsStarted(s: State, step: Step, o: Entry)
    requires !OnEntry(step)
    requires Enabled(s, step) && Started(s, o) && (step.Read? ==> o !in Batch(s))
    ensures Started(Apply(s, step), o)
  {
    var r := Apply(s, step);
    forall c: Process, j: nat | Held(r, c, j) && HeldEntry(r, c, j) == o
      ensures j == 0 && !r.consumers[c].stage.Received?
    {
      if !step.Read? || step.c != c {
        assert Held(s, c, j) && HeldEntry(s, c, j) == o && r.consumers[c] == s.consumers[c];
      }
    }
  }

  /** After a consumer's own step it is through with the entry at hand, or at a later stage of it. */
  lemma WorkMoves(s: State, step: Step, d: Process)
    requires OnEntry(step)
    requires Enabled(s, step) && step.c == d
    ensures var r := Apply(s, step);
      && r.delivered == s.delivered
      && (|| r.consumers == s.consumers[d := NextEntry(s.consumers[d])]
          || exists stage: Stage :: !stage.Received? && r.consumers == ToStage(s, d, stage).consumers)
  {
    match step
    case Normalize(c, result) =>
      if result.Some? { assert Apply(s, step).consumers == ToStage(s, d, Normalized(result.value)).consumers; }
    case Write(c, effect) =>
      if effect == Done { assert Apply(s, step).consumers == ToStage(s, d, Written(s.consumers[c].stage.n)).consumers; }
    case PublishNormalized(c, effect) =>
      if effect == Done {
        assert Apply(s, step).consumers == ToStage(s, d, Published(s.consumers[c].stage.n)).consumers;
      }
    case Ack(c, effect) =>
  }

  lemma WorkKeepsStarted(s: State, step: Step, d: Process, o: Entry)
    requires Inv(s) && Started(s, o)
    requires OnEntry(step)
    requires Enabled(s, step) && step.c == d
    ensures Started(Apply(s, step), o)
  {
    WorkMoves(s, step, d);
    MovedStaysStarted(s, Apply(s, step), d, o);
  }

  lemma MovedStaysStarted(s: State, r: State, d: Process, o: Entry)
    requires Started(s, o) && AtStage(s, d) && r.delivered == s.delivered
    requires || r.consumers == s.consumers[d := NextEntry(s.consumers[d])]
             || exists stage: Stage :: !stage.Received? && r.consumers == ToStage(s, d, stage).consumers
    ensures Started(r, o)
  {
    var advanced := r.consumers == s.consumers[d := NextEntry(s.consumers[d])];
    if advanced {
      AdvanceHeld(s, r, d);
    }
    forall c: Process, j: nat | Held(r, c, j) && HeldEntry(r, c, j) == o
      ensures j == 0 && !r.consumers[c].stage.Received?
    {
      var k := if c == d && advanced then j + 1 else j;
      assert Held(s, c, k) && HeldEntry(s, c, k) == o;
    }
  }

  lemma {:induction false} RunKeepsStarted(s: State, steps: seq<Step>, o: Entry)
    requires Inv(s) && Possible(s, steps) && Started(s, o)
    ensures Started(After(s, steps), o)
    decreases |steps|
  {
    if steps != [] {
      StepKeepsInv(s, steps[0]);
      StepKeepsStarted(s, steps[0], o);
      RunKeepsStarted(Apply(s, steps[0]), steps[1..], o);
    }
  }

  /** Each entry is normalized at most once: after one attempt, none can follow in any run. */
  lemma ProcessedOnce(s: State, c: Process, result: Option<NormalizedAttributes>, steps: seq<Step>,
                      d: Process, again: Option<NormalizedAttributes>)
    requires Reachable(s) && Enabled(s, Normalize(c, result))
    requires Possible(Apply(s, Normalize(c, result)), steps)
    requires Enabled(After(Apply(s, Normalize(c, result)), steps), Normalize(d, again))
    ensures AtHand(After(Apply(s, Normalize(c, result)), steps), d) != AtHand(s, c)
  {
    ReachableHolds(s);
    NormalizeStarts(s, c, result);
    StepKeepsInv(s, Normalize(c, result));
    RunKeepsStarted(Apply(s, Normalize(c, result)), steps, AtHand(s, c));
    var r := After(Apply(s, Normalize(c, result)), steps);
    assert Held(r, d, 0) && HeldEntry(r, d, 0) == AtHand(r, d);
  }

  // ---- what is settled stays settled --------------------------------------------------------------

  /** Acked or abandoned: no consumer will touch the entry again. */
  ghost predicate Settled(s: State, o: Entry) {
    o < |s.log| && (o in s.acked || o in s.abandoned)
  }

  lemma SettledIsNotHeld(s: State, o: Entry)
    requires Inv(s) && Settled(s, o)
    ensures forall c: Process, j: nat :: Held(s, c, j) ==> HeldEntry(s, c, j) != o
  {
  }

  /** A step touches the row and the message of no entry but the one at hand. */
  lemma StepTouchesOnlyAtHand(s: State, step: Step, o: Entry)
    requires RowsOk(s) && IngestersOk(s) && Enabled(s, step) && o < |s.log|
    requires forall c :: AtStage(s, c) ==> AtHand(s, c) != o
    ensures var r := Apply(s, step);
      o < |r.log| && Value(r, o) == Value(s, o) && (o in r.sent <==> o in s.sent)
  {
    match step
    case Persist(i, effect) => if effect != NotDone { InsertedRows(s.rows, s.ingesters[i].records); }
    case Write(c, effect) => UpdateTouchesOneEntry(s, AtHand(s, c), s.consumers[c].stage.n);
    case PublishNormalized(c, effect) => assert AtHand(s, c) != o;
    case _ =>
  }

  lemma StepKeepsSettled(s: State, step: Step, o: Entry)
    requires Inv(s) && Enabled(s, step) && Settled(s, o)
    ensures var r := Apply(s, step);
      && Settled(r, o) && Value(r, o) == Value(s, o) && (o in r.sent <==> o in s.sent)
  {
    SettledIsNotHeld(s, o);
    StepIsLater(s, step);
    forall c | AtStage(s, c) ensures AtHand(s, c) != o {
      assert Held(s, c, 0) && HeldEntry(s, c, 0) == AtHand(s, c);
    }
    StepTouchesOnlyAtHand(s, step, o);
  }

  /** An acked entry keeps its committed value for ever; a failed or abandoned one stays pending for
      ever, with whatever row and message it had: nothing is redelivered. */
  lemma {:induction false} SettledForever(s: State, steps: seq<Step>, o: Entry)
    requires Inv(s) && Possible(s, steps) && Settled(s, o)
    ensures var r := After(s, steps);
      && Settled(r, o) && Value(r, o) == Value(s, o) && (o in r.sent <==> o in s.sent)
      && (o in s.acked ==> o in r.acked)
      && (o in s.abandoned ==> o in r.pending)
    decreases |steps|
  {
    if steps != [] {
      StepKeepsInv(s, steps[0]);
      StepIsLater(s, steps[0]);
      StepKeepsSettled(s, steps[0], o);
      assert o in s.abandoned ==> o in Apply(s, steps[0]).abandoned;
      SettledForever(Apply(s, steps[0]), steps[1..], o);
    }
  }

  /** The call for entry `AtHand(s, c)` raises: the entry is given up without an ack. */
  predicate Fails(step: Step) {
    match step
    case Normalize(_, result) => result.None?
    case Write(_, effect) => effect != Done
    case PublishNormalized(_, effect) => effect != Done
    case Ack(_, effect) => effect == NotDone
    case _ => false
  }

  /** A message whose processing failed stays pending in every continuation. */
  lemma FailedStaysPending(s: State, step: Step, steps: seq<Step>)
    requires Reachable(s) && Enabled(s, step) && Fails(step)
    requires Possible(Apply(s, step), steps)
    ensures AtHand(s, step.c) in After(Apply(s, step), steps).pending
  {
    ReachableHolds(s);
    AtHandIsPending(s, step.c);
    StepKeepsInv(s, step);
    SettledForever(Apply(s, step), steps, AtHand(s, step.c));
  }

  /** So does every message of a batch whose consumer was stopped, or whose delivery was lost. */
  lemma StoppedStaysPending(s: State, c: Process, steps: seq<Step>, j: nat)
    requires Reachable(s) && Held(s, c, j) && Enabled(s, StopConsumer(c))
    requires Possible(Apply(s, StopConsumer(c)), steps)
    ensures HeldEntry(s, c, j) in After(Apply(s, StopConsumer(c)), steps).pending
  {
    ReachableHolds(s);
    StepKeepsInv(s, StopConsumer(c));
    assert HeldEntry(s, c, j) in s.consumers[c].batch;
    SettledForever(Apply(s, StopConsumer(c)), steps, HeldEntry(s, c, j));
  }

  lemma LostReadStaysPending(s: State, c: Process, steps: seq<Step>, o: Entry)
    requires Reachable(s) && Enabled(s, Read(c, ReplyLost)) && o in Batch(s)
    requires Possible(Apply(s, Read(c, ReplyLost)), steps)
    ensures o in After(Apply(s, Read(c, ReplyLost)), steps).pending
  {
    ReachableHolds(s);
    BatchIsNew(s);
    StepKeepsInv(s, Read(c, ReplyLost));
    SettledForever(Apply(s, Read(c, ReplyLost)), steps, o);
  }

  // ---- what was never published -------------------------------------------------------------------

  /** A committed event that is not on the stream and that no call is going to put there. */
  ghost predicate Unpublished(s: State, id: EventId) {
    && id in s.rows
    && (forall o: nat :: o < |s.log| ==> s.log[o].id != id)
    && (forall i: Process, j: nat :: Owed(s, i, j) ==> OwedId(s, i, j) != id)
  }

  /** The steps of a consumer leave the ingestion calls and their stream alone. */
  lemma ConsumersLeaveIngestion(s: State, step: Step)
    requires Enabled(s, step) && (OnEntry(step) || step.StartConsumer? || step.Read? || step.StopConsumer?)
    ensures Apply(s, step).log == s.log && Apply(s, step).ingesters == s.ingesters
  {
    match step
    case Write(c, effect) =>
    case Read(c, effect) =>
    case _ =>
  }

  lemma SameOwed(s: State, r: State)
    requires r.ingesters == s.ingesters
    ensures forall i: Process, j: nat :: Owed(r, i, j) ==> Owed(s, i, j) && OwedId(r, i, j) == OwedId(s, i, j)
  {
  }

  lemma StepKeepsUnpublished(s: State, step: Step, id: EventId)
    requires Enabled(s, step) && Unpublished(s, id)
    ensures Unpublished(Apply(s, step), id)
  {
    match step
    case Ingest(i, records) => IngestKeepsUnpublished(s, i, records, id);
    case Persist(i, effect) => PersistKeepsUnpublished(s, i, effect, id);
    case PublishLogin(i, effect, trimTo) => PublishKeepsUnpublished(s, i, effect, trimTo, id);
    case StopIngester(i) => StopKeepsUnpublished(s, i, id);
    case _ =>
      RowsFrame(s, step);
      ConsumersLeaveIngestion(s, step);
      SameOwed(s, Apply(s, step));
  }

  lemma IngestKeepsUnpublished(s: State, i: Process, records: seq<Record>, id: EventId)
    requires Enabled(s, Ingest(i, records)) && Unpublished(s, id)
    ensures Unpublished(Apply(s, Ingest(i, records)), id)
  {
    var r := Apply(s, Ingest(i, records));
    forall k: Process, j: nat | Owed(r, k, j) ensures OwedId(r, k, j) != id {
      assert Owed(s, k, j) && OwedId(s, k, j) == OwedId(r, k, j);
    }
  }

  lemma StopKeepsUnpublished(s: State, i: Process, id: EventId)
    requires Enabled(s, StopIngester(i)) && Unpublished(s, id)
    ensures Unpublished(Apply(s, StopIngester(i)), id)
  {
    var r := Apply(s, StopIngester(i));
    forall k: Process, j: nat | Owed(r, k, j) ensures OwedId(r, k, j) != id {
      assert Owed(s, k, j) && OwedId(s, k, j) == OwedId(r, k, j);
    }
  }

  lemma PersistKeepsUnpublished(s: State, i: Process, effect: Effect, id: EventId)
    requires Enabled(s, Persist(i, effect)) && Unpublished(s, id)
    ensures Unpublished(Apply(s, Persist(i, effect)), id)
  {
    var r := Apply(s, Persist(i, effect));
    if effect != NotDone {
      InsertedRows(s.rows, s.ingesters[i].records);
    }
    forall k: Process, j: nat | Owed(r, k, j) ensures OwedId(r, k, j) != id {
      if k != i {
        assert Owed(s, k, j) && OwedId(s, k, j) == OwedId(r, k, j);
      }
    }
  }

  lemma PublishKeepsUnpublished(s: State, i: Process, effect: Effect, trimTo: nat, id: EventId)
    requires Enabled(s, PublishLogin(i, effect, trimTo)) && Unpublished(s, id)
    ensures Unpublished(Apply(s, PublishLogin(i, effect, trimTo)), id)
  {
    var r := Apply(s, PublishLogin(i, effect, trimTo));
    assert Owed(s, i, s.ingesters[i].next) && OwedId(s, i, s.ingesters[i].next) != id;
    forall k: Process, j: nat | Owed(r, k, j) ensures OwedId(r, k, j) != id {
      assert Owed(s, k, j) && OwedId(s, k, j) == OwedId(r, k, j);
    }
  }

  lemma {:induction false} RunKeepsUnpublished(s: State, steps: seq<Step>, id: EventId)
    requires Possible(s, steps) && Unpublished(s, id)
    ensures Unpublished(After(s, steps), id)
    decreases |steps|
  {
    if steps != [] {
      StepKeepsUnpublished(s, steps[0], id);
      RunKeepsUnpublished(Apply(s, steps[0]), steps[1..], id);
    }
  }

  /** A publish that failed is not made up for: the row stays committed, and in no continuation is the
      event on the stream. */
  lemma FailedPublishStaysOff(s: State, i: Process, trimTo: nat, steps: seq<Step>)
    requires Reachable(s) && Enabled(s, PublishLogin(i, NotDone, trimTo))
    requires Possible(Apply(s, PublishLogin(i, NotDone, trimTo)), steps)
    ensures var id, r := OwedId(s, i, s.ingesters[i].next), After(Apply(s, PublishLogin(i, NotDone, trimTo)), steps);
      id in r.rows && forall o: nat :: o < |r.log| ==> r.log[o].id != id
  {
    ReachableHolds(s);
    var r, next := Apply(s, PublishLogin(i, NotDone, trimTo)), s.ingesters[i].next;
    assert Owed(s, i, next);
    forall k: Process, j: nat | Owed(r, k, j) ensures OwedId(r, k, j) != OwedId(s, i, next) {
      assert Owed(s, k, j) && OwedId(s, k, j) == OwedId(r, k, j) && (k != i || j != next);
    }
    RunKeepsUnpublished(r, steps, OwedId(s, i, next));
  }

  /** The same for every record that a stopped call had still to publish. */
  lemma StoppedCallPublishesNoMore(s: State, i: Process, j: nat, steps: seq<Step>)
    requires Reachable(s) && Owed(s, i, j)
    requires Possible(Apply(s, StopIngester(i)), steps)
    ensures var id, r := OwedId(s, i, j), After(Apply(s, StopIngester(i)), steps);
      id in r.rows && forall o: nat :: o < |r.log| ==> r.log[o].id != id
  {
    ReachableHolds(s);
    var r := Apply(s, StopIngester(i));
    forall k: Process, l: nat | Owed(r, k, l) ensures OwedId(r, k, l) != OwedId(s, i, j) {
      assert Owed(s, k, l) && OwedId(s, k, l) == OwedId(r, k, l) && k != i;
    }
    RunKeepsUnpublished(r, steps, OwedId(s, i, j));
  }

  /** And for a whole batch whose commit went through while its reply was lost: the caller is told that it
      failed, the rows are there, and no continuation publishes them. */
  lemma LostCommitStaysOff(s: State, i: Process, j: nat, steps: seq<Step>)
    requires Reachable(s) && Enabled(s, Persist(i, ReplyLost)) && j < |s.ingesters[i].records|
    requires Possible(Apply(s, Persist(i, ReplyLost)), steps)
    ensures var id, r := s.ingesters[i].records[j].id, After(Apply(s, Persist(i, ReplyLost)), steps);
      id in r.rows && forall o: nat :: o < |r.log| ==> r.log[o].id != id
  {
    ReachableHolds(s);
    var r, id := Apply(s, Persist(i, ReplyLost)), s.ingesters[i].records[j].id;
    InsertedRows(s.rows, s.ingesters[i].records);
    forall k: Process, l: nat | Owed(r, k, l) ensures OwedId(r, k, l) != id {
      assert Owed(s, k, l) && OwedId(s, k, l) == OwedId(r, k, l) && OwedId(s, k, l) in s.rows;
    }
    assert Unpublished(r, id);
    RunKeepsUnpublished(r, steps, id);
  }
}
