/** The code that takes the steps of the delivery protocol: ingestion calls and consumers. */
module DeliveryCode {
  import opened Wrappers
  import opened Models
  import opened Delivery
  import opened DeliveryInvariant
  import opened DeliveryTheorems
  import opened DeliveryRuns
  import opened DeliveryOrder

  /** Nothing leaves the stream, and what is acked or abandoned stays so. */
  predicate Settling(s: State, r: State) {
    s.log <= r.log && s.acked <= r.acked && s.abandoned <= r.abandoned
  }

  /** What a step on the entry at hand leads to: the next stage of the same entry, or the next entry
      with this one acked or abandoned. */
  predicate WorkDone(s: State, r: State, step: Step)
    requires OnEntry(step) && AtStage(s, step.c)
  {
    var o, me := AtHand(s, step.c), s.consumers[step.c];
    && step.c in r.consumers
    && if Fails(step) then r.consumers[step.c] == NextEntry(me) && o in r.abandoned
       else if step.Ack? then r.consumers[step.c] == NextEntry(me) && o in r.acked
       else r.consumers[step.c].Working? && r.consumers[step.c].batch == me.batch
            && match step
               case Normalize(_, result) => r.consumers[step.c].stage == Normalized(result.value)
               case Write(_, _) => r.consumers[step.c].stage.Written?
               case PublishNormalized(_, _) => r.consumers[step.c].stage.Published?
               case _ => false
  }

  lemma WorkOutcome(s: State, step: Step)
    requires ConsumersOk(s) && StagesOk(s) && OnEntry(step) && Enabled(s, step)
    ensures WorkDone(s, Apply(s, step), step)
  {
    AtHandIsPending(s, step.c);
  }

  /** Whether a consumer's step on its entry is enabled depends on that consumer alone. */
  lemma EnabledBySelf(s: State, r: State, step: Step)
    requires OnEntry(step) && Enabled(s, step)
    requires step.c in r.consumers && r.consumers[step.c] == s.consumers[step.c] && |s.log| <= |r.log|
    ensures Enabled(r, step)
  {
  }

  lemma ReadOutcome(s: State, c: Process, effect: Effect)
    requires Inv(s) && Enabled(s, Read(c, effect))
    ensures var r := Apply(s, Read(c, effect));
      && Settling(s, r)
      && Batch(s) != [] && (forall k :: 0 <= k < |Batch(s)| ==> Batch(s)[k] < |r.log|)
      && r.consumers[c] == (if effect == Done then Working(Batch(s), Received) else Reading)
      && (effect == ReplyLost ==> forall o :: o in Batch(s) ==> o in r.abandoned)
  {
    BatchIsNew(s);
  }

  /** What becomes of the calls that process one message. */
  datatype Calls = Calls(normalized: Option<NormalizedAttributes>, write: Effect, publish: Effect, ack: Effect) {
    predicate Succeed() {
      normalized.Some? && write == Done && publish == Done && ack != NotDone
    }
  }

  datatype PersistFailed = PersistFailed

  /** The records of a batch, in input order. */
  function Records(ids: seq<EventId>, events: seq<LoginEvent>): (records: seq<Record>)
    requires |ids| == |events|
    ensures |records| == |ids| && forall j :: 0 <= j < |ids| ==> records[j] == Record(ids[j], events[j])
  {
    seq(|ids|, j requires 0 <= j < |ids| => Record(ids[j], events[j]))
  }

  ghost predicate Committed(s: State, records: seq<Record>) {
    forall j: nat :: j < |records| ==> records[j].id in s.rows && s.rows[records[j].id].record == records[j]
  }

  /** The program counter of an ingestion call with the records from `next` on still to publish. */
  function StillToPublish(records: seq<Record>, next: nat): Option<Ingester> {
    if next < |records| then Some(Publishing(records, next)) else None
  }

  /** Call `i` has added nothing to `login_events`. */
  ghost predicate NoPublish(before: seq<Step>, after: seq<Step>, i: Process) {
    before <= after && forall k :: |before| <= k < |after| ==> !(after[k].PublishLogin? && after[k].i == i)
  }

  /** Every record whose publish goes through is on the stream, behind what was there before, in input order:
      record `j` at position `at[j]`. */
  ghost predicate InPlace(before: seq<Record>, log: seq<Record>, records: seq<Record>, publish: nat -> Effect,
                          at: seq<nat>) {
    && |at| == |records| && before <= log
    && (forall j: nat :: j < |at| && publish(j) != NotDone ==>
          |before| <= at[j] < |log| && log[at[j]] == records[j])
    && (forall j: nat, k: nat :: j < k < |at| && publish(j) != NotDone && publish(k) != NotDone ==> at[j] < at[k])
  }

  lemma InPlaceNext(before: seq<Record>, log: seq<Record>, longer: seq<Record>, records: seq<Record>, next: Record,
                    publish: nat -> Effect, at: seq<nat>, place: nat)
    requires InPlace(before, log, records, publish, at) && log <= longer
    requires publish(|records|) != NotDone ==> |log| <= place < |longer| && longer[place] == next
    ensures InPlace(before, longer, records + [next], publish, at + [place])
  {
  }

  /** What a read delivers to nobody. */
  function Lost(s: State, read: Effect): seq<Entry> {
    if read == ReplyLost && NextUndelivered(s) < |s.log| then Batch(s) else []
  }

  /** After step number `k` consumer `c` acted for the first time since `before`. */
  ghost predicate ReadAfter(before: seq<Step>, after: seq<Step>, k: nat, c: Process) {
    && |before| <= k <= |after| && Possible(INITIAL, after[..k]) && OnlyOthers(before, after[..k], ConsumerActor(c))
  }

  lemma ReadAfterStays(before: seq<Step>, after: seq<Step>, longer: seq<Step>, k: nat, c: Process)
    requires ReadAfter(before, after, k, c) && after <= longer
    ensures longer[..k] == after[..k] && ReadAfter(before, longer, k, c)
  {
  }

  class Pipeline {
    var state: State
    ghost var trace: seq<Step>

    /** The state is where the trace leads. */
    ghost predicate Valid()
      reads this
    {
      Possible(INITIAL, trace) && state == After(INITIAL, trace)
    }

    lemma ValidIsReachable()
      requires Valid()
      ensures Reachable(state) && Inv(state)
    {
      ReachableHolds(state);
    }

    constructor ()
      ensures Valid() && state == INITIAL
    {
      state, trace := INITIAL, [];
    }

    method Do(step: Step)
      requires Valid() && Enabled(state, step)
      modifies this
      ensures Valid() && state == Apply(old(state), step) && trace == old(trace) + [step]
      ensures Later(old(state), state)
    {
      ValidIsReachable();
      StepIsLater(state, step);
      AfterAppend(INITIAL, trace, step);
      trace := trace + [step];
      state := Apply(state, step);
    }

    /** The program counter of an actor, if it is running. */
    static function Counter(s: State, me: Actor): (Option<Ingester>, Option<Consumer>) {
      match me
      case IngesterActor(i) => (if i in s.ingesters then Some(s.ingesters[i]) else None, None)
      case ConsumerActor(c) => (None, if c in s.consumers then Some(s.consumers[c]) else None)
    }

    /** An await of `me`: any number of steps of the others. */
    method Await(me: Actor)
      requires Valid()
      modifies this
      ensures Valid() && OnlyOthers(old(trace), trace, me)
      ensures Counter(state, me) == Counter(old(state), me)
      ensures Later(old(state), state)
    {
      var count :| count >= 0;
      for k := 0 to count
        invariant Valid() && OnlyOthers(old(trace), trace, me)
        invariant Counter(state, me) == Counter(old(state), me)
        invariant Later(old(state), state)
      {
        var step: Step := *;
        if ActorOf(step) != me && Enabled(state, step) {
          CountersAreOwn(state, step, me);
          Do(step);
        }
      }
    }

    // ---- the consumer ---------------------------------------------------------------------------

    /** One of the four steps of consumer `step.c` on its entry at hand, after the await before it.  If the
        step is right, so remains the consumer's part of the run. */
    method Work(step: Step, ghost right: Judgement)
      requires Valid() && OnEntry(step) && Enabled(state, step)
      requires OwnRight(INITIAL, trace, right, step.c) && RightStep(state, step, right)
      modifies this
      ensures Valid() && Settling(old(state), state) && old(trace) <= trace
      ensures WorkDone(old(state), state, step)
      ensures OwnRight(INITIAL, trace, right, step.c)
    {
      Await(ConsumerActor(step.c));
      OthersLeaveOwnRight(INITIAL, old(trace), trace, right, step.c);
      EnabledBySelf(old(state), state, step);
      OwnRightAppend(INITIAL, trace, step, right, step.c);
      ValidIsReachable();
      WorkOutcome(state, step);
      Do(step);
    }

    /** `_process_message`: normalize, write, publish, ack, in this order; any exception ends it
        without an ack, and never escapes. */
    method ProcessMessage(c: Process, calls: Calls, ghost right: Judgement)
      requires Valid() && AtStage(state, c) && state.consumers[c].stage.Received?
      requires OwnRight(INITIAL, trace, right, c)
      requires calls.normalized.Some? ==> right(state.log[AtHand(state, c)], calls.normalized.value)
      modifies this
      ensures Valid() && Settling(old(state), state) && old(trace) <= trace
      ensures c in state.consumers && state.consumers[c] == NextEntry(old(state).consumers[c])
      ensures if calls.Succeed() then AtHand(old(state), c) in state.acked
              else AtHand(old(state), c) in state.abandoned
      ensures OwnRight(INITIAL, trace, right, c)
    {
      Work(Normalize(c, calls.normalized), right);
      if calls.normalized.Some? {
        Work(Write(c, calls.write), right);
        if calls.write == Done {
          Work(PublishNormalized(c, calls.publish), right);
          if calls.publish == Done {
            Work(Ack(c, calls.ack), right);
          }
        }
      }
    }

    /** XREADGROUP of new messages, which takes effect while others go on.  When the call raises, nothing is
        processed; what it had delivered by then is abandoned. */
    method ReadGroup(c: Process, read: Effect, ghost right: Judgement) returns (batch: seq<Entry>, ghost k: nat)
      requires Valid() && c in state.consumers && state.consumers[c].Reading?
      requires OwnRight(INITIAL, trace, right, c)
      modifies this
      ensures Valid() && Settling(old(state), state) && old(trace) <= trace
      ensures c in state.consumers && state.consumers[c] == if batch == [] then Reading else Working(batch, Received)
      ensures ReadAfter(old(trace), trace, k, c)
      // all that waits at that moment, oldest first, up to ten
      ensures if read == Done then NextInOrder(After(INITIAL, trace[..k]), batch) else batch == []
      ensures forall o :: o in Lost(After(INITIAL, trace[..k]), read) ==> o in state.abandoned
      ensures forall j :: 0 <= j < |batch| ==> batch[j] < |state.log|
      ensures OwnRight(INITIAL, trace, right, c)
    {
      Await(ConsumerActor(c));
      OthersLeaveOwnRight(INITIAL, old(trace), trace, right, c);
      k := |trace|;
      assert trace[..k] == trace;
      batch := [];
      if NextUndelivered(state) < |state.log| {
        ValidIsReachable();
        ReadOutcome(state, c, read);
        BatchIsNextInOrder(state);
        batch := if read == Done then Batch(state) else [];
        OwnRightAppend(INITIAL, trace, Read(c, read), right, c);
        ghost var before := trace;
        Do(Read(c, read));
        assert trace[..k] == before;
      }
    }

    /** One round of `run_consumer_loop`: a read, then the messages it delivered, one after the other.
        Whatever happens to some of them, every one gets its turn.  `calls` tells what becomes of the calls
        for the n-th message, given its record. */
    method Round(c: Process, read: Effect, calls: (nat, Record) -> Calls, ghost right: Judgement)
      returns (batch: seq<Entry>, ghost k: nat)
      requires Valid() && c in state.consumers && state.consumers[c].Reading?
      requires OwnRight(INITIAL, trace, right, c)
      requires forall j: nat, record ::
        calls(j, record).normalized.Some? ==> right(record, calls(j, record).normalized.value)
      modifies this
      ensures Valid() && Settling(old(state), state) && old(trace) <= trace
      ensures c in state.consumers && state.consumers[c].Reading?
      ensures ReadAfter(old(trace), trace, k, c)
      // all that waits at that moment, oldest first, up to ten
      ensures if read == Done then NextInOrder(After(INITIAL, trace[..k]), batch) else batch == []
      ensures forall j :: 0 <= j < |batch| ==> batch[j] < |state.log|
      ensures forall j: nat :: j < |batch| ==>
        if calls(j, state.log[batch[j]]).Succeed() then batch[j] in state.acked else batch[j] in state.abandoned
      ensures OwnRight(INITIAL, trace, right, c)
    {
      batch, k := ReadGroup(c, read, right);
      ghost var first := trace;
      for j := 0 to |batch|
        invariant Valid() && Settling(old(state), state) && first <= trace && OwnRight(INITIAL, trace, right, c)
        invariant forall l :: 0 <= l < |batch| ==> batch[l] < |state.log|
        invariant c in state.consumers
        invariant state.consumers[c] == if j == |batch| then Reading else Working(batch[j..], Received)
        invariant forall l: nat :: l < j ==>
          if calls(l, state.log[batch[l]]).Succeed() then batch[l] in state.acked else batch[l] in state.abandoned
      {
        assert batch[j..][0] == batch[j] && batch[j..][1..] == batch[j + 1..];
        ProcessMessage(c, calls(j, state.log[batch[j]]), right);
      }
      ReadAfterStays(old(trace), first, trace, k, c);
    }

    // ---- ingestion --------------------------------------------------------------------------------

    /** The commit of a call's records.  It can fail of itself, or because an id is already taken. */
    method PersistMany(i: Process, records: seq<Record>, effect: Effect) returns (ok: bool)
      requires Valid() && i !in state.ingesters
      modifies this
      ensures Valid() && NoPublish(old(trace), trace, i)
      ensures ok ==> Committed(state, records)
      ensures old(state).log <= state.log
      ensures !Insertable(old(state).rows, records) ==> !ok
      ensures ok ==> effect == Done && Counter(state, IngesterActor(i)).0 == StillToPublish(records, 0)
      ensures !ok ==> i !in state.ingesters && (effect != Done || !Insertable(state.rows, records))
    {
      Do(Ingest(i, records));
      Await(IngesterActor(i));
      var done := if Insertable(state.rows, records) then effect else NotDone;
      if done != NotDone {
        InsertedRows(state.rows, records);
      }
      RowsFrame(state, Persist(i, done));
      Do(Persist(i, done));
      ok := done == Done;
    }

    /** `_safe_publish`: a failure is swallowed. */
    method SafePublish(i: Process, records: seq<Record>, next: nat, effect: Effect) returns (ghost at: nat)
      requires Valid() && next < |records| && i in state.ingesters && state.ingesters[i] == Publishing(records, next)
      requires Committed(state, records)
      modifies this
      ensures Valid() && Committed(state, records)
      ensures Counter(state, IngesterActor(i)).0 == StillToPublish(records, next + 1)
      ensures old(state).log <= state.log
      ensures effect != NotDone ==> |old(state).log| <= at < |state.log| && state.log[at] == records[next]
    {
      Await(IngesterActor(i));
      assert TrimAllowed(state, state.trimmed);
      var trimTo: nat :| TrimAllowed(state, trimTo);
      at := |state.log|;
      Do(PublishLogin(i, effect, trimTo));
    }

    /** The loop of `ingest_many`: every committed record is tried, whatever became of the others. */
    method PublishAll(i: Process, records: seq<Record>, publish: nat -> Effect) returns (ghost at: seq<nat>)
      requires Valid() && Committed(state, records)
      requires Counter(state, IngesterActor(i)).0 == StillToPublish(records, 0)
      modifies this
      ensures Valid() && Committed(state, records) && i !in state.ingesters
      ensures InPlace(old(state).log, state.log, records, publish, at)
    {
      at := [];
      for j := 0 to |records|
        invariant Valid() && Committed(state, records)
        invariant Counter(state, IngesterActor(i)).0 == StillToPublish(records, j)
        invariant InPlace(old(state).log, state.log, records[..j], publish, at)
      {
        ghost var log := state.log;
        ghost var place := SafePublish(i, records, j, publish(j));
        InPlaceNext(old(state).log, log, state.log, records[..j], records[j], publish, at, place);
        assert records[..j + 1] == records[..j] + [records[j]];
        at := at + [place];
      }
      assert records[..|records|] == records;
    }

    /** `ingest_many`: `ids` are the ids drawn for the events, `publish` what becomes of each publish.
        A batch that fails to commit publishes nothing; once it is committed every record is tried. */
    method IngestMany(i: Process, events: seq<LoginEvent>, ids: seq<EventId>, persist: Effect, publish: nat -> Effect)
      returns (r: Result<seq<EventId>, PersistFailed>, ghost at: seq<nat>)
      requires Valid() && i !in state.ingesters && |ids| == |events|
      modifies this
      ensures Valid() && i !in state.ingesters
      ensures r.Ok? ==> persist == Done && r.value == ids && Committed(state, Records(ids, events))
      ensures r.Ok? ==> InPlace(old(state).log, state.log, Records(ids, events), publish, at)
      ensures r.Raised? ==> NoPublish(old(trace), trace, i)
      ensures r.Raised? ==> persist != Done || !Insertable(state.rows, Records(ids, events))
    {
      var records := Records(ids, events);
      var ok := PersistMany(i, records, persist);
      if !ok {
        return Raised(PersistFailed), [];
      }
      at := PublishAll(i, records, publish);
      r := Ok(seq(|records|, j requires 0 <= j < |records| => records[j].id));
    }

    /** `ingest_one`. */
    method IngestOne(i: Process, event: LoginEvent, id: EventId, persist: Effect, publish: Effect)
      returns (r: Result<EventId, PersistFailed>)
      requires Valid() && i !in state.ingesters
      modifies this
      ensures Valid() && i !in state.ingesters
      ensures r.Ok? ==> persist == Done && r.value == id && Committed(state, [Record(id, event)])
      ensures r.Ok? ==> old(state).log <= state.log
      ensures r.Ok? && publish != NotDone ==> Record(id, event) in state.log[|old(state).log|..]
      ensures r.Raised? ==> NoPublish(old(trace), trace, i)
      ensures r.Raised? ==> persist != Done || !Insertable(state.rows, [Record(id, event)])
    {
      var record := Record(id, event);
      var ok := PersistMany(i, [record], persist);
      if !ok {
        return Raised(PersistFailed);
      }
      ghost var at := SafePublish(i, [record], 0, publish);
      assert publish != NotDone ==> state.log[|old(state).log|..][at - |old(state).log|] == record;
      r := Ok(record.id);
    }
  }
}
