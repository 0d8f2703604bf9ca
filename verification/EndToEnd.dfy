/** The stages together: what is on `normalized_events`, and in the rows, is what the normalization service
    makes of the raw attributes that were ingested. */
module EndToEnd {
  import opened Wrappers
  import opened Models
  import opened Delivery
  import opened DeliveryInvariant
  import opened DeliveryTheorems
  import opened DeliveryRuns
  import opened DeliveryCode
  import Adapters
  import Config
  import Explanations
  import ResolutionLaws
  import opened Directories
  import L = LdapEnrichment
  import Service

  function Primary(reader: Adapters.DnReader, record: Record): Unified {
    Adapters.Extract(record.event.protocol, record.event.rawAttributes, reader)
  }

  /** What a consumer with the service may make of a record: what the service returns under some outcome of
      enrichment.  If the directory is known not to change, there is no choice but to enrich from it or to do
      without. */
  ghost predicate IsRight(config: Config.NormalizationConfig, reader: Adapters.DnReader, d: Option<Directory>,
                          record: Record, n: NormalizedAttributes) {
    && Service.IsResult(config, record.event.protocol, Primary(reader, record), n)
    && (d.Some? ==> || Service.IsEnriched(config, d.value, record.event.protocol, Primary(reader, record), n)
                    || Service.IsDegraded(config, record.event.protocol, Primary(reader, record), n))
  }

  ghost function Right(config: Config.NormalizationConfig, reader: Adapters.DnReader, d: Option<Directory>): Judgement {
    (record, n) => IsRight(config, reader, d, record, n)
  }

  /** All that this service's adapter has done agrees with the directory, if one is given. */
  ghost predicate Undisturbed(service: Service.NormalizationService, d: Option<Directory>)
    reads service, service.adapter
  {
    var asked := Service.Asked(service.config);
    d.Some? && asked.Valid() ==> L.Unchanging(service.adapter.ops, d.value, asked)
  }

  lemma ReturnedIsRight(service: Service.NormalizationService, d: Option<Directory>, record: Record,
                        directory: L.SearchReply, faults: L.Faults, attempt: Service.Attempt, read: L.CacheRead,
                        r: Result<NormalizedAttributes, Service.ValidationError>)
    requires service.Valid() && Undisturbed(service, d) && r.Ok?
    requires Service.Promised(service.config, service.adapter.reader, service.adapter.ops, record.event.protocol,
                              Primary(service.adapter.reader, record), directory, faults, attempt, read, r)
    ensures IsRight(service.config, service.adapter.reader, d, record, r.value)
  {
  }

  /** A normalization that raises ends the message, as `_process_message` has it. */
  method NormalizeRecord(service: Service.NormalizationService, record: Record, call: nat, directory: L.SearchReply,
                         faults: L.Faults, ghost d: Option<Directory>)
    returns (n: Option<NormalizedAttributes>, ghost attempt: Service.Attempt, ghost read: L.CacheRead)
    requires service.Valid() && record.event.protocol in PROTOCOLS
    modifies service`degraded, service`log, service.adapter`cache, service.adapter`ops
    ensures service.Valid()
    ensures var protocol, primary := record.event.protocol, Primary(service.adapter.reader, record);
      && attempt
         == Service.AttemptFor(service.config, service.adapter.reader, protocol, primary, read, directory, faults)
      && Service.Proper(protocol, attempt)
      && var made := Service.Normalized(service.config, protocol, primary, attempt);
         n == if made.Valid() then Some(made) else None
    ensures ResolutionLaws.GoodWeights(service.config) ==> n.Some?
    ensures n.Some? && Undisturbed(service, d) ==>
      IsRight(service.config, service.adapter.reader, d, record, n.value)
  {
    var r;
    ghost var k;
    r, attempt, read, k := service.Normalize(call, record.event, directory, faults);
    n := None;
    if r.Ok? {
      if Undisturbed(service, d) {
        ReturnedIsRight(service, d, record, directory, faults, attempt, read, r);
      }
      n := Some(r.value);
    }
  }

  /** Processing a message with a value that is known to be right on a condition. */
  method ProcessRecord(pipeline: Pipeline, c: Process, calls: Calls, ghost right: Judgement, ghost known: bool)
    requires pipeline.Valid() && AtStage(pipeline.state, c) && pipeline.state.consumers[c].stage.Received?
    requires OwnRight(INITIAL, pipeline.trace, right, c)
    requires known && calls.normalized.Some? ==>
      right(pipeline.state.log[AtHand(pipeline.state, c)], calls.normalized.value)
    modifies pipeline
    ensures pipeline.Valid() && c in pipeline.state.consumers
    ensures pipeline.state.consumers[c] == NextEntry(old(pipeline.state).consumers[c])
    ensures if calls.Succeed() then AtHand(old(pipeline.state), c) in pipeline.state.acked
            else AtHand(old(pipeline.state), c) in pipeline.state.abandoned
    ensures known ==> OwnRight(INITIAL, pipeline.trace, right, c)
  {
    ghost var judged := right;
    if !known {
      judged := (record, n) => true;
      AnythingIsRight(INITIAL, pipeline.trace, judged, c);
    }
    pipeline.ProcessMessage(c, calls, judged);
  }

  /** A consumer that normalizes with the service keeps its part of the run right, whatever the others do; and
      right with regard to a directory, as long as that does not change. */
  method ConsumeMessage(pipeline: Pipeline, c: Process, service: Service.NormalizationService, call: nat,
                        directory: L.SearchReply, faults: L.Faults, write: Effect, publish: Effect, ack: Effect,
                        ghost d: Option<Directory>)
    requires pipeline.Valid() && AtStage(pipeline.state, c) && pipeline.state.consumers[c].stage.Received?
    requires service.Valid() && pipeline.state.log[AtHand(pipeline.state, c)].event.protocol in PROTOCOLS
    requires OwnRight(INITIAL, pipeline.trace, Right(service.config, service.adapter.reader, d), c)
    modifies pipeline, service`degraded, service`log, service.adapter`cache, service.adapter`ops
    ensures pipeline.Valid() && service.Valid()
    ensures c in pipeline.state.consumers
    ensures pipeline.state.consumers[c] == NextEntry(old(pipeline.state).consumers[c])
    // under good weights nothing but a failed write, publish or ack can keep the message from its ack
    ensures ResolutionLaws.GoodWeights(service.config) ==>
      if write == Done && publish == Done && ack != NotDone then AtHand(old(pipeline.state), c) in pipeline.state.acked
      else AtHand(old(pipeline.state), c) in pipeline.state.abandoned
    ensures Undisturbed(service, d) ==>
      OwnRight(INITIAL, pipeline.trace, Right(service.config, service.adapter.reader, d), c)
  {
    var record := pipeline.state.log[pipeline.state.consumers[c].batch[0]];
    var n, _, _ := NormalizeRecord(service, record, call, directory, faults, d);
    ProcessRecord(pipeline, c, Calls(n, write, publish, ack), Right(service.config, service.adapter.reader, d),
                  Undisturbed(service, d));
  }

  /** The record tells what was extracted from the raw attributes, and what a directory added if one did, and
      nothing else. */
  ghost predicate IsTold(config: Config.NormalizationConfig, reader: Adapters.DnReader, record: Record,
                         n: NormalizedAttributes)
  {
    exists added: Unified ::
      && (record.event.protocol == "ldap" ==> added == Explanations.NOTHING)
      && Explanations.IsExplained(config, record.event.protocol, Primary(reader, record), added, n)
  }

  /** From ingestion to `normalized_events`, over every run with faults and crashes in which the consumers
      normalize with the service: a published event is a committed login event together with what the service
      makes of its raw attributes, the row holds the same value, and the value passes the schema and tells where
      it comes from.  Over a directory that does not change it is what a plain look-up leads to, or what LDAP
      disabled leads to. */
  lemma PublishedIsNormalization(steps: seq<Step>, config: Config.NormalizationConfig, reader: Adapters.DnReader,
                                 d: Option<Directory>, k: nat)
    requires Possible(INITIAL, steps) && k < |After(INITIAL, steps).out|
    requires forall c :: OwnRight(INITIAL, steps, Right(config, reader, d), c)
    ensures var s := After(INITIAL, steps); var m := s.out[k];
      && m.record in s.log && m.record.id in s.rows
      && s.rows[m.record.id] == Row(m.record, Some(m.normalized))
      && IsRight(config, reader, d, m.record, m.normalized) && IsTold(config, reader, m.record, m.normalized)
  {
    var s, right := After(INITIAL, steps), Right(config, reader, d);
    InitialHolds();
    AllOwnRight(INITIAL, steps, right);
    RunKeepsRight(INITIAL, steps, right);
    RunKeepsInv(INITIAL, steps);
    assert Reachable(s);
    PublishedIsPersisted(s);
    var m := s.out[k];
    assert s.sent[m.entry] == k && m.record == s.log[m.entry];
    var added := Service.ResultIsExplained(config, m.record.event.protocol, Primary(reader, m.record), m.normalized);
  }

  /** And so is whatever is committed for an entry of the stream, published yet or not. */
  lemma CommittedIsNormalization(steps: seq<Step>, config: Config.NormalizationConfig, reader: Adapters.DnReader,
                                 d: Option<Directory>, o: Entry)
    requires Possible(INITIAL, steps) && o < |After(INITIAL, steps).log|
    requires forall c :: OwnRight(INITIAL, steps, Right(config, reader, d), c)
    ensures var s := After(INITIAL, steps);
      Value(s, o).Some? ==> IsRight(config, reader, d, s.log[o], Value(s, o).value)
  {
    var right := Right(config, reader, d);
    InitialHolds();
    AllOwnRight(INITIAL, steps, right);
    RunKeepsRight(INITIAL, steps, right);
  }
}
