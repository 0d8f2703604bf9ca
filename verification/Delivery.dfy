/** The delivery protocol: ingestion's dual write, the `login_events` stream with its consumer group,
    and the consumers' normalize / write / publish / ack.

    Any number of ingestion calls and of consumers take part, each with its own program counter, and a
    run is any interleaving of their atomic steps.  An effect on the database or on Redis can fail,
    can succeed while its reply is lost, or can succeed; a process can stop between any two steps.
 */
module Delivery {
  import opened Wrappers
  import opened Models

  const STREAM_MAXLEN: nat := 10000
  const READ_COUNT: nat := 10

  type EventId = nat
  type Entry = nat     // the n-th XADD on `login_events`
  type Process = nat

  /** A login event with the id assigned on ingestion. */
  datatype Record = Record(id: EventId, event: LoginEvent)

  datatype Row = Row(record: Record, normalized: Option<NormalizedAttributes>)

  /** A message of `normalized_events`; `entry` notes which login event it came from. */
  datatype Message = Message(entry: Entry, record: Record, normalized: NormalizedAttributes)

  /** An ingestion call: before its commit, or publishing record number `next`. */
  datatype Ingester =
    | Persisting(records: seq<Record>)
    | Publishing(records: seq<Record>, next: nat)

  datatype Stage =
    | Received
    | Normalized(n: NormalizedAttributes)
    | Written(n: NormalizedAttributes)
    | Published(n: NormalizedAttributes)

  /** A consumer: between batches, or at a stage of the first entry of what is left of its batch. */
  datatype Consumer =
    | Reading
    | Working(batch: seq<Entry>, stage: Stage)

  datatype State = State(
    rows: map<EventId, Row>,         // committed rows
    log: seq<Record>,                // everything ever added to `login_events`
    trimmed: nat,                    // the stream has dropped the entries before this one
    delivered: nat,                  // the group's last-delivered position
    pending: set<Entry>,             // the group's pending list
    acked: set<Entry>,
    out: seq<Message>,               // everything ever added to `normalized_events`
    ingesters: map<Process, Ingester>,
    consumers: map<Process, Consumer>,
    sent: map<Entry, nat>,           // history: where in `out` the message of an entry is
    abandoned: set<Entry>)           // history: delivered, but given up before the ack

  const INITIAL := State(map[], [], 0, 0, {}, {}, [], map[], map[], map[], {})

  /** What becomes of an attempted effect: done, done but the caller sees an error, or not done. */
  datatype Effect = Done | ReplyLost | NotDone

  datatype Step =
    | Ingest(i: Process, records: seq<Record>)
    | Persist(i: Process, effect: Effect)
    | PublishLogin(i: Process, effect: Effect, trimTo: nat)
    | StopIngester(i: Process)
    | StartConsumer(c: Process)
    | Read(c: Process, effect: Effect)
    | Normalize(c: Process, result: Option<NormalizedAttributes>)   // None: decoding or normalizing raised
    | Write(c: Process, effect: Effect)
    | PublishNormalized(c: Process, effect: Effect)
    | Ack(c: Process, effect: Effect)
    | StopConsumer(c: Process)

  // ---- guards ---------------------------------------------------------------------------------

  /** The primary key lets the whole batch in: ids are new and distinct. */
  predicate Insertable(rows: map<EventId, Row>, records: seq<Record>) {
    && (forall j :: 0 <= j < |records| ==> records[j].id !in rows)
    && (forall j, k :: 0 <= j < k < |records| ==> records[j].id != records[k].id)
  }

  /** XADD with an approximate maxlen may drop any number of old entries, but keeps `STREAM_MAXLEN`. */
  predicate TrimAllowed(s: State, trimTo: nat) {
    s.trimmed <= trimTo && (trimTo == s.trimmed || trimTo + STREAM_MAXLEN <= |s.log| + 1)
  }

  /** The first entry a read of new messages can deliver. */
  function NextUndelivered(s: State): nat {
    if s.delivered < s.trimmed then s.trimmed else s.delivered
  }

  predicate AtStage(s: State, c: Process) {
    c in s.consumers && s.consumers[c].Working? && s.consumers[c].batch != []
    && s.consumers[c].batch[0] < |s.log|
  }

  /** The steps of a consumer on the entry it has at hand. */
  predicate OnEntry(step: Step) {
    step.Normalize? || step.Write? || step.PublishNormalized? || step.Ack?
  }

  predicate Enabled(s: State, step: Step) {
    match step
    case Ingest(i, _) => i !in s.ingesters
    case Persist(i, effect) =>
      i in s.ingesters && s.ingesters[i].Persisting?
      && (effect == NotDone || Insertable(s.rows, s.ingesters[i].records))
    case PublishLogin(i, effect, trimTo) =>
      i in s.ingesters && s.ingesters[i].Publishing? && s.ingesters[i].next < |s.ingesters[i].records|
      && TrimAllowed(s, trimTo)
    case StopIngester(i) => i in s.ingesters
    case StartConsumer(c) => c !in s.consumers
    case Read(c, _) => c in s.consumers && s.consumers[c].Reading? && NextUndelivered(s) < |s.log|
    case Normalize(c, _) => AtStage(s, c) && s.consumers[c].stage.Received?
    case Write(c, _) => AtStage(s, c) && s.consumers[c].stage.Normalized?
    case PublishNormalized(c, _) => AtStage(s, c) && s.consumers[c].stage.Written?
    case Ack(c, _) => AtStage(s, c) && s.consumers[c].stage.Published?
    case StopConsumer(c) => c in s.consumers
  }

  // ---- effects --------------------------------------------------------------------------------

  /** INSERT of a batch in one transaction. */
  function InsertRows(rows: map<EventId, Row>, records: seq<Record>): map<EventId, Row> {
    if records == [] then rows
    else InsertRows(rows, records[..|records| - 1])[records[|records| - 1].id := Row(records[|records| - 1], None)]
  }

  /** UPDATE of one row; without such a row it changes nothing and raises nothing. */
  function UpdateRow(rows: map<EventId, Row>, id: EventId, n: NormalizedAttributes): map<EventId, Row> {
    if id in rows then rows[id := rows[id].(normalized := Some(n))] else rows
  }

  /** The consumer once it is through with the first entry of its batch. */
  function NextEntry(consumer: Consumer): Consumer
    requires consumer.Working? && consumer.batch != []
  {
    if |consumer.batch| == 1 then Reading else Working(consumer.batch[1..], Received)
  }

  /** The consumer goes on to its next entry. */
  function Advance(s: State, c: Process): State
    requires AtStage(s, c)
  {
    s.(consumers := s.consumers[c := NextEntry(s.consumers[c])])
  }

  /** An exception: logged, no ack, on to the next entry. */
  function GiveUp(s: State, c: Process): State
    requires AtStage(s, c)
  {
    Advance(s, c).(abandoned := s.abandoned + {s.consumers[c].batch[0]})
  }

  function ToStage(s: State, c: Process, stage: Stage): State
    requires AtStage(s, c)
  {
    s.(consumers := s.consumers[c := Working(s.consumers[c].batch, stage)])
  }

  /** The batch a read delivers. */
  function Batch(s: State): seq<Entry>
    requires NextUndelivered(s) < |s.log|
  {
    var first := NextUndelivered(s);
    var count := if |s.log| - first < READ_COUNT then |s.log| - first else READ_COUNT;
    seq(count, j requires 0 <= j => first + j)
  }

  function Deliver(s: State): State
    requires NextUndelivered(s) < |s.log|
  {
    s.(delivered := NextUndelivered(s) + |Batch(s)|, pending := s.pending + set o | o in Batch(s))
  }

  function Apply(s: State, step: Step): State
    requires Enabled(s, step)
  {
    match step
    case Ingest(i, records) => s.(ingesters := s.ingesters[i := Persisting(records)])
    case Persist(i, effect) =>
      var records := s.ingesters[i].records;
      if effect == NotDone then s.(ingesters := s.ingesters - {i})
      else
        var inserted := s.(rows := InsertRows(s.rows, records));
        if effect == Done && records != [] then inserted.(ingesters := s.ingesters[i := Publishing(records, 0)])
        else inserted.(ingesters := s.ingesters - {i})
    case PublishLogin(i, effect, trimTo) =>
      // a publish failure is logged and swallowed: the loop goes on either way
      var me := s.ingesters[i];
      var added := if effect == NotDone then s else s.(log := s.log + [me.records[me.next]], trimmed := trimTo);
      if me.next + 1 == |me.records| then added.(ingesters := s.ingesters - {i})
      else added.(ingesters := s.ingesters[i := Publishing(me.records, me.next + 1)])
    case StopIngester(i) => s.(ingesters := s.ingesters - {i})
    case StartConsumer(c) => s.(consumers := s.consumers[c := Reading])
    case Read(c, effect) =>
      match effect {
        case NotDone => s
        case ReplyLost => Deliver(s).(abandoned := s.abandoned + set o | o in Batch(s))
        case Done => Deliver(s).(consumers := s.consumers[c := Working(Batch(s), Received)])
      }
    case Normalize(c, result) =>
      if result.None? then GiveUp(s, c) else ToStage(s, c, Normalized(result.value))
    case Write(c, effect) =>
      var o, n := s.consumers[c].batch[0], s.consumers[c].stage.n;
      var written := if effect == NotDone then s else s.(rows := UpdateRow(s.rows, s.log[o].id, n));
      if effect == Done then ToStage(written, c, Written(n)) else GiveUp(written, c)
    case PublishNormalized(c, effect) =>
      var o, n := s.consumers[c].batch[0], s.consumers[c].stage.n;
      var published :=
        if effect == NotDone then s
        else s.(out := s.out + [Message(o, s.log[o], n)], sent := s.sent[o := |s.out|]);
      if effect == Done then ToStage(published, c, Published(n)) else GiveUp(published, c)
    case Ack(c, effect) =>
      var o := s.consumers[c].batch[0];
      if effect == NotDone then GiveUp(s, c)
      else Advance(s.(pending := s.pending - {o}, acked := s.acked + ({o} * s.pending)), c)
    case StopConsumer(c) =>
      var left := if s.consumers[c].Working? then set o | o in s.consumers[c].batch else {};
      s.(consumers := s.consumers - {c}, abandoned := s.abandoned + left)
  }

  // ---- runs -----------------------------------------------------------------------------------

  predicate Possible(s: State, steps: seq<Step>)
    decreases |steps|
  {
    steps == [] || (Enabled(s, steps[0]) && Possible(Apply(s, steps[0]), steps[1..]))
  }

  function After(s: State, steps: seq<Step>): State
    requires Possible(s, steps)
    decreases |steps|
  {
    if steps == [] then s else After(Apply(s, steps[0]), steps[1..])
  }

  /** A state that some run reaches. */
  ghost predicate Reachable(s: State) {
    exists steps :: Possible(INITIAL, steps) && After(INITIAL, steps) == s
  }
}
