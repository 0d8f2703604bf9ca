# NAAS: a verified model of ingestion, enrichment and resolution

NAAS takes in login events from OIDC, SAML and LDAP sources, stores each one, puts it on a Redis stream,
and normalizes it: a consumer extracts five unified attributes from the protocol's raw bag, may enrich
them from a directory, resolves conflicts between the sources with a confidence for each attribute,
stores the outcome in the row of the event, and publishes it on a second stream. This project models
that pipeline in Dafny and proves what it promises.

| file | what it models |
|---|---|
| `Delivery.dfy` | the dual write, the stream with its consumer group, and the consumers, as a machine whose steps any number of processes take in any order; every effect on the database or on Redis can fail, or succeed and lose its reply, and a process can stop between any two steps |
| `DeliveryInvariant.dfy` | what every step keeps |
| `DeliveryTheorems.dfy` | what follows for all runs |
| `DeliveryCleanRuns.dfy` | what follows for runs without faults |
| `DeliveryOrder.dfy` | in which order entries are handed over, normalized and published |
| `DeliveryRuns.dfy` | runs seen actor by actor, and what follows when every consumer keeps to right values |
| `DeliveryCode.dfy` | the ingestion calls and the consumer loop as methods that take those steps; at every await the other processes take any steps of theirs |
| `EndToEnd.dfy` | the delivery protocol with the normalization service as its consumer |
| `ConnectionPool.dfy` | the bounded pool of directory connections, as a machine and as methods |
| `Directories.dfy` | a directory server: matching, which attributes are returned, and when two queries come to the same search |
| `LdapEnrichment.dfy` | the three-state enrichment cache and `enrich` |
| `Service.dfy` | the normalization service: the enrichment decision, the three stages, the degraded flag |
| `Contributions.dfy` | the sources of each attribute, filled in place |
| `Explanations.dfy` | what a resolved record tells of its sources, and why which value stands |
| `Resolution.dfy`, `ResolutionLaws.dfy` | conflict resolution and confidence, and their laws |
| `CanonicalValues.dfy`, `Text.dfy` | canonical departments and employee types; strip, lower and title |
| `Adapters.dfy`, `Config.dfy`, `Models.dfy` | extraction, configuration, the exchanged data and its bounds |
| `Ldif.dfy` | the LDIF record parser of the infrastructure checks, and a printer for it |
| `Polling.dfy` | the demo's poll loop |
| `Ordering.dfy`, `Sequences.dfy`, `Dictionaries.dfy`, `Sets.dfy`, `Wrappers.dfy` | `sorted`, loops that pass over items, dictionaries that keep insertion order, set sizes, options and results |

Code that changes state step by step is a class or a method, proved against a function of the old state
or of the inputs; code made of expressions is a function. What a call cannot know - which effects fail,
what the directory replies, what the clock reads, what other processes do meanwhile - is a parameter or
an arbitrary choice. Confidences are `real`. Two departures from Python are made throughout: characters
outside ASCII pass through case conversion unchanged, and the JSON codec is known by its round trip only.

Where the code and what is said about it differ, the model follows the code:

- `normalize` is documented never to raise. Configured weights are not checked when the configuration is
  loaded, and a weight outside [0, 1] for any attribute but the department makes the schema refuse the
  result. `Service.NeverRaisesIff` gives the exact condition, and `Service.BadWeightRaises` the record.
- `_pool_search` does not catch cancellation, so a cancelled holder keeps its slot for ever.
  `ConnectionPool.PoolIsSafe` states the conservation law with the lost slots counted,
  `ConnectionPool.ServedUnlessAllLeaked` when a waiting search can still be served, and
  `ConnectionPool.CancelledHolderKeepsSlot` shows a run of three steps that ends a pool of one.
- The cache key holds the looked-up value only, neither the correlation field nor the attribute list.
  `LdapEnrichment.SharedKeyNeedsOneRequest`: a stored entry answers another query rightly, whatever the
  directory holds, exactly when both queries come to the same search (the same compared attribute and the
  same attributes returned) or neither can find anything. `LdapEnrichment.RestrictedAnswerIsServed` shows a
  directory for which it fails.
- `_poll_loop` is documented to wait for non-null attributes. It skips SQL nulls, but the text of the JSON
  null passes. `Polling.AttributesArePresentIff` gives the exact condition and `Polling.NullTextIsReturned`
  the fetch. It takes a fetch that returns text: the column is JSONB, which the driver decodes.
- The LDIF parser folds continuation lines into the dn value but files the record under the first line.
  `Ldif.AllFoundAsWrittenIff`: every record is found under the dn that was written exactly when no dn was
  continued by any text or has white space around it. `Ldif.FoldedDnIsLost` shows a file.
- redis-py sends `maxlen` as an approximate bound unless told otherwise, so trimming may keep more entries
  than `STREAM_MAXLEN`, never fewer; the model lets it.

## Model

| member | source | states |
|---|---|---|
| DeliveryInvariant.StepKeepsInv | services/identity-normalization/app/consumer.py:88-207 | every step of any ingestion call or consumer, with any failure, lost reply or stop, keeps the invariant that ties positions, pending list, rows, both streams and all program counters together |
| DeliveryInvariant.RunKeepsInv | services/identity-normalization/app/consumer.py:88-207 | so does every run, for any number of processes |
| DeliveryTheorems.AckedIsDurable | services/identity-normalization/app/consumer.py:167-179 | in every reachable state an acked login event has its normalized attributes committed in its row, and a message on `normalized_events` with exactly that value |
| DeliveryTheorems.PublishedIsPersisted | services/identity-normalization/app/service.py:244-262 | persist comes before publish on both hops: every message ever on either stream has its committed row, with the ingested fields and, for the second stream, with the very value published |
| DeliveryTheorems.ExactlyOneStatus | shared/naas_shared/redis_client.py:43-49 | after every run, every entry ever added is in exactly one of: waiting, trimmed without ever having been given out, pending, acked |
| DeliveryTheorems.DeliveredStaysInGroup | services/identity-normalization/app/consumer.py:97-106 | over every run an entry is pending or acked exactly when some read of it has given the entry out; trimming makes no difference |
| DeliveryTheorems.DeliveredIsNeverLost | services/identity-normalization/app/consumer.py:97-106 | what a read gives out, to a consumer or into a lost reply, is pending or acked in every continuation |
| DeliveryTheorems.LossNeedsBacklog | shared/naas_shared/redis_client.py:43-49 | an entry is lost to trimming only after at least `STREAM_MAXLEN` newer additions |
| DeliveryTheorems.PendingIsAccountedFor | services/identity-normalization/app/consumer.py:63-69 | a pending entry is either held by a consumer or given up, never both |
| DeliveryTheorems.AtMostOneMessage | services/identity-normalization/app/consumer.py:97-106 | no login event is twice on its stream, and none ever has two normalized events |
| DeliveryTheorems.DeliveredOnce | services/identity-normalization/app/consumer.py:97-106 | a delivered entry is in no later batch, in any continuation |
| DeliveryTheorems.ProcessedOnce | services/identity-normalization/app/consumer.py:157-167 | after one attempt to normalize an entry no run normalizes it again |
| DeliveryTheorems.RunIsLater | shared/naas_shared/redis_client.py:43-49 | streams only grow, rows keep their ingested fields, and deliveries, acks and failures are never taken back |
| DeliveryTheorems.SettledForever | services/identity-normalization/app/consumer.py:188-207 | an acked or abandoned entry keeps its row value and its messages in every continuation; an abandoned one stays pending |
| DeliveryTheorems.FailedStaysPending | services/identity-normalization/app/consumer.py:188-207 | an exception in normalize, write, publish or ack leaves the message pending for ever |
| DeliveryTheorems.StoppedStaysPending | services/identity-normalization/app/consumer.py:90-94 | when a consumer is cancelled, all that is left of its batch stays pending |
| DeliveryTheorems.LostReadStaysPending | services/identity-normalization/app/consumer.py:95-115 | when the reply of a read is lost, what it delivered stays pending and is not read again |
| DeliveryTheorems.FailedPublishStaysOff | services/event-ingestion/app/service.py:60-75 | a publish that failed is not made up for: the row stays committed, and in no continuation is the event on the stream |
| DeliveryTheorems.StoppedCallPublishesNoMore | services/event-ingestion/app/service.py:47-58 | the same for every record that a stopped ingestion call had still to publish |
| DeliveryTheorems.LostCommitStaysOff | services/event-ingestion/app/adapters.py:59-62 | a batch whose commit went through while its reply was lost: the rows are there, and no continuation publishes them |
| DeliveryCleanRuns.CleanRunDeliversAll | services/identity-normalization/app/consumer.py:125-136 | without faults, once the consumers are idle nothing is pending and what was ever given out is exactly what is acked, trimmed since or not; what the group passed otherwise was trimmed before |
| DeliveryCleanRuns.PendingIsAckedInTheEnd | services/identity-normalization/app/consumer.py:125-136 | so whatever was pending at any moment of such a run is acked at its end |
| DeliveryCleanRuns.CleanRunForgetsNothing | services/event-ingestion/app/service.py:47-58 | without faults every committed event is on the stream, or a running call has still to put it there |
| DeliveryCleanRuns.CleanRunNormalizesAll | services/identity-normalization/app/consumer.py:157-179 | without faults, once everything has come to rest, every committed event has its normalized attributes in its row and a message with that value, unless it was trimmed before it could be delivered |
| DeliveryOrder.NormalizesInOrder | services/identity-normalization/app/consumer.py:125-136 | in every run each consumer normalizes the entries in stream order: whatever it normalizes later was added later |
| DeliveryOrder.OneConsumerPublishesInOrder | services/identity-normalization/app/consumer.py:125-179 | with a single consumer the normalized events are in the order of the login events, in every run |
| DeliveryCode.Pipeline.ProcessMessage | services/identity-normalization/app/consumer.py:139-207 | the consumer leaves the message for the next one; it is acked exactly when normalize, write, publish and ack all go through in this order, and given up otherwise, whatever others do in between |
| DeliveryCode.Pipeline.ReadGroup | services/identity-normalization/app/consumer.py:95-124 | a read hands over, oldest first and without a gap, what waits for the group when it takes effect among steps of others, all of it up to ten entries; a read that raises processes nothing, and what it had delivered is given up |
| DeliveryCode.Pipeline.Round | services/identity-normalization/app/consumer.py:88-136 | one failed message does not stall the batch: what the read handed over is taken in stream order, and each message is acked or given up on its own merits, among steps of others; if every value is right, the consumer's part of the run is |
| DeliveryCode.Pipeline.PersistMany | services/event-ingestion/app/adapters.py:59-62 | a batch is committed as a whole, or the call publishes nothing; an id that is taken or comes twice makes it fail, and nothing else but a failed commit does |
| DeliveryCode.Pipeline.SafePublish | services/event-ingestion/app/service.py:60-75 | a failed publish is swallowed and the next record gets its turn |
| DeliveryCode.Pipeline.PublishAll | services/event-ingestion/app/service.py:56-57 | every committed record whose publish goes through is on the stream, in input order, whatever became of the others |
| DeliveryCode.Pipeline.IngestMany | services/event-ingestion/app/service.py:47-58 | on success the ids come back in input order, every row is committed, and every record whose publish goes through is on the stream, in input order and behind what was there; on failure the call publishes nothing |
| DeliveryCode.Pipeline.IngestOne | services/event-ingestion/app/service.py:36-45 | the same for one event |
| EndToEnd.PublishedIsNormalization | services/identity-normalization/app/consumer.py:157-179 | over every run whose consumers normalize with the service: a published event is a committed login event together with what the service makes of its raw attributes, the row holds that value, and it passes the schema under any weights; it tells what was extracted and what a directory added, and nothing else; over an unchanging directory it is what a plain look-up there leads to, or what LDAP disabled leads to |
| EndToEnd.CommittedIsNormalization | services/identity-normalization/app/consumer.py:167-173 | the same for every value committed for an entry of the stream, published yet or not |
| EndToEnd.NormalizeRecord | services/identity-normalization/app/consumer.py:167-170 | the value is what is resolved from the record, the cache and the directory's reply, and there is one exactly when the schema accepts it; it is right, also with regard to an unchanging directory |
| EndToEnd.ConsumeMessage | services/identity-normalization/app/consumer.py:139-207 | a consumer that normalizes with the service keeps its own part of any run right, whatever the others do in between: the premise of the two theorems; under good weights only a failed write, publish or ack keeps the message from its ack |
| DeliveryRuns.AllOwnRight | services/identity-normalization/app/consumer.py:139-207 | if every consumer keeps its own part right, the whole run is right |
| ConnectionPool.StepKeepsInv | services/identity-normalization/app/adapters/ldap.py:430-453 | every step of any search keeps: slots conserved, connections exclusive and known, failed connections out of circulation |
| ConnectionPool.PoolIsSafe | services/identity-normalization/app/adapters/ldap.py:430-453 | in every run queued and held slots add up to the pool size less the cancelled holders, `put_nowait` never finds the queue full, no connection is in two places, and a failed connection never comes back |
| ConnectionPool.OpenIsBounded | services/identity-normalization/app/adapters/ldap.py:404-412 | no run has more connections queued or held than slots |
| ConnectionPool.NoConnectionIsForgotten | services/identity-normalization/app/adapters/ldap.py:430-453 | connections are reused, not dropped: in every run each one ever created is queued, held, given up after a failed search, or lost with a cancelled holder |
| ConnectionPool.SessionsAreBounded | services/identity-normalization/app/adapters/ldap.py:430-453 | so the sessions that are neither failed nor lost with a cancelled holder never outnumber the slots |
| ConnectionPool.ServedUnlessAllLeaked | services/identity-normalization/app/adapters/ldap.py:430-431 | a waiting search can still be served if and only if some slot has not been lost |
| ConnectionPool.CancelledHolderKeepsSlot | services/identity-normalization/app/adapters/ldap.py:444 | a run that shows a lost slot: taken and cancelled, the only slot is neither queued nor held, and no search is ever served again |
| ConnectionPool.SharedPool.constructor | services/identity-normalization/app/adapters/ldap.py:303-325 | a fresh pool has all its slots queued and empty |
| ConnectionPool.SharedPool.UseSlot | services/identity-normalization/app/adapters/ldap.py:433-453 | exactly which steps a search takes with its slot, among any steps of others: if the search came back the very connection it ran on is in the queue, a failed one is unbound and discarded for good, a failed creation gives the empty slot back |
| ConnectionPool.SharedPool.PoolSearch | services/identity-normalization/app/adapters/ldap.py:396-453 | a search that was given a slot takes exactly those steps and ends with the directory's reply, its connection back in the queue, or raises if and only if creating or searching failed; one that was not is still in the line |
| ConnectionPool.SharedPool.TakeSlot | services/identity-normalization/app/adapters/ldap.py:430-453 | the same for a search already in the line, so that it can be followed until it is served |
| Directories.InterchangeableIff | services/identity-normalization/app/adapters/ldap.py:579-603 | two queries about a value are answered alike, whatever is in the directory, exactly when they compare the same attribute and return the same of the five, or when nothing can match |
| Directories.NamingAllIsNamingNone | services/identity-normalization/app/adapters/ldap.py:578-585 | naming all five attributes, in any order, sends what naming none sends |
| Directories.RepliesAnswer | services/identity-normalization/app/adapters/ldap.py:586-632 | replying with all matching entries comes to the answer that is expected of the directory: the first match, as far as it is returned |
| LdapEnrichment.HitIsFresh | services/identity-normalization/app/adapters/ldap.py:541-572 | a hit on a key that only `enrich` wrote is the unexpired answer of a completed search for that value; a positive answer is never read as the sentinel, and no own entry is corrupt |
| LdapEnrichment.FreshIsHit | services/identity-normalization/app/adapters/ldap.py:541-572 | and conversely: what was stored and has not expired is a hit |
| LdapEnrichment.HitIsRecent | services/identity-normalization/app/adapters/ldap.py:684-694 | over every run whose calls use one time to live, a hit is the answer of a search that was stored for that long and less than that long ago |
| LdapEnrichment.OpKeepsValid | services/identity-normalization/app/adapters/ldap.py:684-694 | every cache entry with a known origin stores the answer of a completed search for its key, with its time to live, through every completion, write, deletion and passing of time |
| LdapEnrichment.CachedAnswersAgree | services/identity-normalization/app/adapters/ldap.py:538-634 | after any operations of any calls, over an unchanging directory that was only asked what comes to the same search, the cache answers what the directory would, or not at all |
| LdapEnrichment.SharedKeyNeedsOneRequest | services/identity-normalization/app/adapters/ldap.py:538-585 | the key leaves the query out: an entry answers another query rightly, for every content of the directory, exactly when both come to the same search or neither can find anything |
| LdapEnrichment.RestrictedAnswerIsServed | services/identity-normalization/app/adapters/ldap.py:578-585 | a directory that shows it: the answer to a search for one attribute is served to a search for all, without the department the directory holds |
| LdapEnrichment.LdapAdapter.Lookup | services/identity-normalization/app/adapters/ldap.py:541-577 | what the cache holds at the moment of the read is the answer, and without a hit there is none; a corrupt entry is dropped at most |
| LdapEnrichment.LdapAdapter.CacheWrite | services/identity-normalization/app/adapters/ldap.py:684-694 | the call stores the answer of that search for the time to live it was given, and does nothing else; a write that goes through makes it the fresh one for its value |
| LdapEnrichment.LdapAdapter.Search | services/identity-normalization/app/adapters/ldap.py:578-634 | the directory's reply decides: a completed search is reported and stored for the given time to live, and raises only if it could not be stored; a failed one reports its class and stores nothing; an unknown attribute raises; the call does just that to the cache |
| LdapEnrichment.LdapAdapter.Enrich | services/identity-normalization/app/adapters/ldap.py:490-634 | a hit at the moment of the read is the answer, and without one the directory's reply decides; it raises in the stated cases only; what the call itself does to the cache is stated exactly, with its time to live; an answer is fresh, recent if all calls use one time to live, and over an unchanging directory the directory's, hit or not; an unmappable field is refused |
| Resolution.ListedWinner | services/identity-normalization/app/resolution.py:275-280 | the first source of the priority list that is present wins |
| Resolution.FallbackWinner | services/identity-normalization/app/resolution.py:282-284 | with no listed source present the heaviest wins, and of equals the one that contributed first |
| Explanations.WinnerWins | services/identity-normalization/app/resolution.py:275-284 | both together: the winner is decided by the list if it names a source that is present, and by the weights otherwise |
| Resolution.PickWinner | services/identity-normalization/app/resolution.py:261-284 | the walk of the list and the maximum compute that winner, its value and its weight |
| Resolution.ApplyMergeStrategy | services/identity-normalization/app/resolution.py:344-380 | the merged list is the sorted form of what the strategy means as a set |
| Resolution.ResolveGroups | services/identity-normalization/app/resolution.py:287-341 | the loops compute the groups detail defined on sets and cardinalities |
| Resolution.Resolve | services/identity-normalization/app/resolution.py:40-126 | the loops compute the resolution of every attribute that has a source, and the weighted sum; `Explanations.FieldsAreSources` and `Explanations.NothingIsLost` say what that record holds |
| Explanations.FieldsAreSources | services/identity-normalization/app/resolution.py:65-126 | every scalar of the record is absent exactly when no source gave that attribute, and otherwise what some source gave for that same attribute; the groups are those of the merge, in order; protocol and enrichment are passed through |
| Explanations.NothingIsLost | services/identity-normalization/app/resolution.py:65-126 | from the record alone it can be told of every source what it gave for every scalar, and whether it gave groups |
| Explanations.BothAreExplained | services/identity-normalization/app/resolution.py:40-126 | the record of an event and a directory tells of each just what it contributed, of nobody else anything, its fields are what it tells, and where the two disagree the configured list or else the weights decide, the event's own source going first among equals |
| Config.OwnWeightDecides | services/identity-normalization/app/normalization_config.py:82-99 | an attribute's own weight for a source decides, and touches no other attribute or source |
| Config.GlobalWeightDecidesElsewhere | services/identity-normalization/app/normalization_config.py:82-99 | a global weight decides for exactly the attributes that have no weight of their own for that source |
| Config.SettingsAreUsed | services/identity-normalization/app/normalization_config.py:101-120 | a configured priority and merge strategy are used; the defaults are no priority, and union |
| ResolutionLaws.OverallConfidence | services/identity-normalization/app/resolution.py:28-34 | the overall confidence is 0.15, 0.25, 0.20, 0.25 and 0.15 times the confidence of name, address, department, employee type and groups, added up, for the clamp never acts; and at most the importance of what has a source |
| ResolutionLaws.ResolvedIsValid | shared/naas_shared/models.py:85-207 | under weights in [0, 1] every resolution passes the schema: confidences in [0, 1], employee type a literal, known sources |
| ResolutionLaws.DepartmentConfidenceInRange | services/identity-normalization/app/resolution.py:250-258 | the clamped penalty keeps a department detail valid under any weights |
| ResolutionLaws.GroupsConfidenceInRange | services/identity-normalization/app/resolution.py:317-331 | with several sources the groups confidence lies in [0.7, 1] |
| ResolutionLaws.CorroboratedIff | services/identity-normalization/app/resolution.py:320-331 | the groups that count as shared are exactly those that two different sources list |
| ResolutionLaws.MergeStrategiesAreNested | services/identity-normalization/app/resolution.py:344-380 | intersection ⊆ priority ⊆ union, for any number of sources |
| ResolutionLaws.ListedGroupsWin | services/identity-normalization/app/resolution.py:363-367 | the priority strategy takes the groups of the first listed source that gave any |
| ResolutionLaws.UnlistedGroupsFallBack | services/identity-normalization/app/resolution.py:370-373 | and if no listed source gave any, those of the source whose name comes first in the order of strings |
| ResolutionLaws.GroupsAreAscending | services/identity-normalization/app/resolution.py:303-341 | the groups are strictly ascending, the reported total is their number, and each comes from some source; the sources are named in order, and the strategy is the configured one |
| ResolutionLaws.GroupsIgnoreOrder | services/identity-normalization/app/resolution.py:303-341 | the result does not depend on the order of the sources, nor on order or repetitions within a list |
| ResolutionLaws.OneSourceNeedsNoStrategy | services/identity-normalization/app/resolution.py:303-315 | for one source the shortcut gives what any strategy would have merged |
| ResolutionLaws.TwoSourceUnion | services/identity-normalization/app/resolution.py:317-331 | union of A and B scores 0.7 + 0.3 · \|A∩B\| / \|A∪B\| |
| ResolutionLaws.TwoSourceIntersection | services/identity-normalization/app/resolution.py:317-331 | intersection scores 1 when it is not empty and 0.7 when it is |
| ResolutionLaws.DemoRecoversFraction | demo/demo_normalization.py:470-475 | from the confidence alone the demo reads off the corroborated fraction, for any strategy and any number of sources |
| ResolutionLaws.ScalarProvenance | services/identity-normalization/app/resolution.py:129-181 | from a scalar detail of any variant the full source-to-value map can be rebuilt |
| ResolutionLaws.DepartmentProvenance | services/identity-normalization/app/resolution.py:184-247 | the same for a department detail |
| ResolutionLaws.DepartmentFlagProvenance | services/identity-normalization/app/service.py:270-314 | for departments recorded by the service the mapped flags can be rebuilt too |
| ResolutionLaws.AgreementNeverLowers | services/identity-normalization/app/resolution.py:157-181 | a further source that agrees keeps the value and never lowers the confidence |
| ResolutionLaws.DepartmentAgreementNeverLowers | services/identity-normalization/app/resolution.py:216-258 | the same for departments after penalty and clamp, unless the newcomer is the first to be unmapped |
| ResolutionLaws.ServiceAgreementNeverLowers | services/identity-normalization/app/service.py:303-312 | which never happens with the flags the service computes |
| ResolutionLaws.DisagreementNeverScoresHigher | services/identity-normalization/app/resolution.py:165-181 | disagreeing sources never score above the same sources agreeing on the resolved value, and below them as soon as any source has weight |
| ResolutionLaws.UnmappedPenaltyIsExact | services/identity-normalization/app/resolution.py:197-258 | for any sources, unanimous or not, being mapped costs nothing, and being unmapped exactly 0.2 but never more than there is |
| ResolutionLaws.DepartmentDisagreementNeverScoresHigher | services/identity-normalization/app/resolution.py:231-258 | the same for departments with the winner's mapped status, after penalty and clamp |
| ResolutionLaws.AliasesAreUnanimous | services/identity-normalization/app/resolution.py:212-231 | several raw departments resolve unanimously exactly when they are spellings or aliases of one department |
| Ordering.LessIsComesBefore | services/identity-normalization/app/resolution.py:344-380 | the order of `sorted` is by first difference, a proper prefix going first |
| CanonicalValues.FlagIsRecovered | services/identity-normalization/app/service.py:317-334 | for every ASCII value the recovered flag is exactly the one that `normalize_department` computed and the adapter dropped |
| CanonicalValues.DepartmentIsIdempotent | services/identity-normalization/app/normalization_values.py:85-145 | canonicalising twice is canonicalising once |
| CanonicalValues.DepartmentIsKept | services/identity-normalization/app/normalization_values.py:85-145 | what is canonicalised is, spelling and aliases aside, the department of the text it was made from |
| CanonicalValues.UnknownIsTitled | services/identity-normalization/app/normalization_values.py:117-121 | a department that the table does not know is kept, trimmed and set in title case letter by letter |
| CanonicalValues.DepartmentsAgreeIff | services/identity-normalization/app/normalization_values.py:85-145 | two values give one department exactly when they fold to one key or are aliases of one name |
| CanonicalValues.CaseAndPaddingDoNotMatter | services/identity-normalization/app/normalization_values.py:103-178 | neither case nor surrounding white space changes department, flag or employee type |
| CanonicalValues.NormalizeEmployeeType | services/identity-normalization/app/normalization_values.py:148-178 | one of the three literals or nothing |
| CanonicalValues.LiteralsAreFixed | services/identity-normalization/app/normalization_values.py:148-178 | the three literals stand for themselves |
| Contributions.ContributeRecords | services/identity-normalization/app/service.py:270-314 | exactly the present attributes of a source are recorded under its name, behind the sources known before, and what others said stays |
| Contributions.ContributeKeepsServiceTable | services/identity-normalization/app/service.py:270-314 | the tables the service builds keep order and contents in step, name known protocols, hold literal employee types and recomputed flags |
| Contributions.AttributeSources.Record | services/identity-normalization/app/service.py:337-364 | the in-place updates of the nested dictionary have exactly that effect |
| Service.SkippingChangesNothing | services/identity-normalization/app/service.py:135-224 | a skipped enrichment, for whatever reason, gives the result of the same record with LDAP disabled in every field but `enrichment` |
| Service.NormalizedIsExplained | services/identity-normalization/app/service.py:174-224 | after a match or a positive hit the record tells just what was extracted and what the reply's attributes are; after any other outcome nothing of a directory is in it |
| Service.AdditionIsExplained | services/identity-normalization/app/service.py:118-224 | the same in terms of what the cache held and the directory replied, with no outcome in between |
| Service.EnrichmentIsWarranted | services/identity-normalization/app/service.py:135-224 | which enrichment a record gets, and for which reason it is skipped, exactly: by configuration, event, cache and directory, down to the class of the LDAP error |
| Service.CorrelationOf | services/identity-normalization/app/service.py:142-146 | which attribute the configured key looks up: that attribute's value if it is there and not empty |
| Service.NeverRaisesIff | services/identity-normalization/app/service.py:62-104 | `normalize` returns a valid record for every event and every LDAP outcome exactly when all weights of attributes other than the department are in [0, 1] |
| Service.BadWeightRaises | shared/naas_shared/models.py:85-95 | for any weight out of range, a record on which `normalize` raises |
| Service.ReplayAlternates | services/identity-normalization/app/service.py:192-230 | after any sequence of outcomes, logged connection errors and recoveries alternate, beginning with an error, and the flag says which comes next |
| Service.StrictAlternation | services/identity-normalization/app/service.py:192-230 | between two logged errors lies a recovery, and between two recoveries an error |
| Service.FlagIsDifference | services/identity-normalization/app/service.py:192-230 | the degraded flag is the number of errors minus the number of recoveries |
| Service.FlagIsLastContact | services/identity-normalization/app/service.py:192-230 | the flag is up exactly when a connection error has not been followed by a search that came back; cache hits tell nothing |
| Service.EveryErrorIsLogged | services/identity-normalization/app/service.py:211-218 | every connection error is logged once, loudly or demoted |
| Service.NormalizationService.MapOutcomeToEnrichment | services/identity-normalization/app/service.py:174-224 | attributes are merged for a match or a positive hit only; flag and log move as the outcome says, and cache hits leave the flag alone |
| Service.NormalizationService.DetermineEnrichment | services/identity-normalization/app/service.py:118-172 | what becomes of enrichment follows from the configuration, the event, what the cache held when it was read and what the directory replied; a call does to the cache what it has to, with the configured time to live, and nothing is done without one; a reply is recent; flag and log move as the outcome says |
| Service.NormalizationService.Normalize | services/identity-normalization/app/service.py:62-104 | the three stages together return the resolution of what was extracted and of what cache and directory replied, and raise only if the schema refuses it; the record tells exactly what was extracted and what the directory added, and has the enrichment that is warranted; what was remembered is younger than the configured time to live; skipping degrades without interference, and over an unchanging directory the record is what a plain look-up would have led to, but for the flag that says the answer was remembered |
| Adapters.ReadFromOwnKey | services/identity-normalization/app/adapters/_mapping.py:79-103 | for every protocol each unified attribute is read from its own raw key and from nothing else in the bag |
| Adapters.ExtractKeeps | services/identity-normalization/app/adapters/_mapping.py:48-76 | what is of the right type is kept and the rest dropped, never raised: text exactly when the key holds a string, an employee type exactly when that string is a known alias |
| Adapters.ExtractedIsCanonical | services/identity-normalization/app/adapters/_mapping.py:79-103 | an extracted department is canonical and still the department of the raw text, and an extracted employee type stands for itself |
| Adapters.KeysOfProtocols | services/identity-normalization/app/adapters/saml.py:26-32 | the raw key of every attribute in every protocol |
| Adapters.GroupsKeepPlace | services/identity-normalization/app/adapters/_mapping.py:60-76 | every item of a raw list that gives a group name gives it once and in its place, and nothing else is there |
| Adapters.ReduceMemberOf | services/identity-normalization/app/adapters/ldap.py:167-193 | every value that reduces to a name gives it, once and in its place, and nothing else is there: stated by the positions the names come from, which leaves one result only (`Sequences.SelectionIsUnique`) |
| Adapters.NameIsReduced | services/identity-normalization/app/adapters/ldap.py:98-164 | whatever white space is around it, a blank item gives nothing, a bare name itself, and a DN what its cn holds |
| Adapters.DecodeAll | services/identity-normalization/app/adapters/ldap.py:228-245 | every value that decodes is there, once and in its place, and nothing else, stated in the same way |
| Adapters.ReadResults | services/identity-normalization/app/adapters/ldap.py:617-632 | the first entry found, decoded and extracted, or no match |
| Adapters.EntryIsRead | services/identity-normalization/app/adapters/ldap.py:196-263 | of an entry the scalars are the first values of their attributes if they decode, normalized, and the groups the names in all values that decode, in their places |
| Config.ValidateLdapEnrichment | services/identity-normalization/app/normalization_config.py:152-193 | start-up goes through exactly when the correlation key and all enrichment attributes are known fields and `on_failure` is `continue` |
| Ldif.ParseLdifBlocks | tests/infrastructure/ldif_helpers.py:53-102 | the loop computes what the line-by-line function computes on every list of lines |
| Ldif.ParseOfPrint | tests/infrastructure/ldif_helpers.py:75-102 | parsing a printed file gives its meaning, however it was folded and spaced, and with comments and lines without a colon anywhere ('Notes on LDIF Syntax' of RFC 2849) |
| Ldif.RoundTrip | tests/infrastructure/ldif_helpers.py:53-102 | records with distinct dns come back, each under its dn, with every attribute's values in order and nothing else |
| Ldif.FaithfulRoundTrip | tests/infrastructure/ldif_helpers.py:53-102 | when values are folded after a character that is not white space and names are lower-case, what was written is what is read |
| Ldif.ReadAsWrittenIff | tests/infrastructure/ldif_helpers.py:77-91 | a folded value survives exactly when its first line has no white space at either end |
| Ldif.AllFoundAsWrittenIff | tests/infrastructure/ldif_helpers.py:77-102 | parsing a printed file with distinct dns finds every record under the dn that was written exactly when no dn was continued by any text or has white space around it |
| Ldif.KeyAsWrittenIff | tests/infrastructure/ldif_helpers.py:77-102 | the same for one record: otherwise whatever is under its written dn is another record |
| Ldif.FoldedDnIsLost | tests/infrastructure/ldif_helpers.py:77-83 | a file that shows it |
| Ldif.SkippedAnywhere | tests/infrastructure/ldif_helpers.py:78-83 | a comment or a line without a colon changes nothing, wherever it stands in whatever file |
| Ldif.OrphanIsDropped | tests/infrastructure/ldif_helpers.py:95-97 | an attribute line between records is dropped |
| Ldif.NothingToFold | tests/infrastructure/ldif_helpers.py:59-67 | between records a leading space folds nothing |
| Polling.BuildRowMap | demo/demo_normalization.py:375-386 | the loop over the rows computes the id-to-row map |
| Polling.RowMapIsLast | demo/demo_normalization.py:375-386 | every id is given its last row that is not null, with that row's protocol and its attributes as decoded, and only ids with such a row are in the map |
| Polling.RowMapFailsIff | demo/demo_normalization.py:379-381 | the map fails exactly when some row that is not null does not decode |
| Polling.OrderDoesNotMatter | demo/demo_normalization.py:375-386 | without repeated ids the order of the rows makes no difference |
| Polling.PollLoop | demo/demo_normalization.py:356-401 | results come back in the order of the ids, each with the protocol and the attributes of its row, from the first fetch that has them all; a time-out comes at the deadline and names exactly the missing ids in their order; there are at most ⌈timeout / 0.5⌉ + 1 fetches |
| Polling.MissingInPlace | demo/demo_normalization.py:391-392 | the missing ids are exactly those still to be normalized, each as often as it was asked for and in its place |
| Polling.AttributesArePresentIff | demo/demo_normalization.py:375-389 | every result carries attributes exactly when no id's last row holds the text of the JSON null |
| Polling.NullTextIsReturned | demo/demo_normalization.py:379-389 | a fetch that shows it: one row with that text makes the loop return a result without attributes |

## Left out

- HTTP routes, health probes, start-up wiring, settings, the correlation-id middleware, and the text of log lines.
- PostgreSQL, Redis and python-ldap themselves: only commit or rollback, streams with one consumer group, get, set with expiry and delete, and a search that answers or fails are modelled.
- Automatic retries in redis-py, eviction of whole keys, loss of the consumer group, its idempotent creation at id 0, and deletion of rows by the demo's cleanup.
- A request that the server applies only after the caller was stopped: a stopped process has either done an effect or not.
- Delivery.Apply: an UPDATE that matches no row changes nothing, as in the code; `created_at` and the columns of later stages are not part of a row.
- DeliveryCode.Pipeline.Round: one turn of the endless loop; the sleeps between turns are left out.
- DeliveryCode.Pipeline.IngestMany: that a record whose publish fails stays off the stream is not part of its contract; `DeliveryTheorems.FailedPublishStaysOff` proves it over runs.
- Decoding a stream message: that it gives back the ingested record is taken from the JSON round trip; a message that does not decode is a normalization that raises.
- LdapEnrichment.HitIsFresh: an entry written by anything but `enrich` may be corrupt, or may decode to some unified dictionary; JSON of any other shape is not modelled.
- Directories.InterchangeableIff: a directory is a list of entries with a matching rule for each attribute and a set of operational attributes; referrals, size limits and access control are not modelled.
- ConnectionPool.SharedPool.PoolSearch: the order in which waiting searches are served is left open, and how long one waits is not bounded.
- The construction and escaping of the search filter, and the parsing of distinguished names by `ldap.dn.str2dn`: a DN is reduced by an arbitrary function to an optional name.
- A correlation key naming the list attribute `groups`: the value cannot be escaped into a filter, so `enrich` is taken to raise.
- Service.NormalizationService.Normalize: the protocol is one of the three the schema admits, as it is on every stored record.
- Attribute names in the configuration other than the five unified ones, which nothing reads, and loading the configuration file.
- CanonicalValues.FlagIsRecovered: outside ASCII `title` and `lower` do not commute, and the flag is not always recovered; the same restriction holds for the other laws on case.
- Floating-point rounding: confidences are reals.
- Ldif.RoundTrip: folding of comment lines, base64 values and the order of the keys of the resulting dictionaries are not modelled; white space is that of ASCII.
- Polling.PollLoop: the clock is assumed to advance by the interval at least between two readings with a sleep in between.
- Rich rendering, argument parsing, the other checks of `verify_results`, and the stages that have no code yet.
