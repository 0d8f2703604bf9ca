/** The normalization service: extraction, enrichment decision, resolution, and the state it keeps
    between events. */
module Service {
  import opened Wrappers
  import opened Models
  import opened Config
  import opened Dictionaries
  import opened Resolution
  import opened Directories
  import opened LdapEnrichment
  import opened ResolutionLaws
  import opened Contributions
  import opened Explanations
  import opened Sequences
  import Adapters
  import CanonicalValues
  import Text

  // ---- the enrichment decision ------------------------------------------------------------------

  /** The value enrichment correlates on, as Python's truthiness sees it. */
  datatype Correlation = NothingToLookUp | LookUp(value: string) | LookUpList

  function CorrelationOf(u: Unified, key: string): (c: Correlation)
    ensures forall v: string :: c == LookUp(v) <==>
      && v != ""
      && (|| (key == "display_name" && u.displayName == Some(v))
          || (key == "primary_email" && u.primaryEmail == Some(v))
          || (key == "department" && u.department == Some(v))
          || (key == "employee_type" && u.employeeType == Some(v)))
    ensures c == LookUpList <==> key == "groups" && u.groups != []
  {
    var text :=
      if key == "display_name" then u.displayName
      else if key == "primary_email" then u.primaryEmail
      else if key == "department" then u.department
      else if key == "employee_type" then u.employeeType
      else None;
    if text.Some? && text.value != "" then LookUp(text.value)
    else if key == "groups" && u.groups != [] then LookUpList
    else NothingToLookUp
  }

  /** What became of one call of `enrich`. */
  datatype Attempt = NotAttempted(reason: SkipReason) | Replied(reply: Reply) | AttemptRaised

  function EnrichmentFor(a: Attempt): Enrichment {
    match a
    case NotAttempted(reason) => Skipped(reason)
    case AttemptRaised => Skipped(LdapSearchError)
    case Replied(reply) =>
      match reply.outcome
      case Match => Applied(false)
      case HitPositive => Applied(true)
      case NoMatch => Skipped(NoLdapMatch)
      case HitNegative => Skipped(NoLdapMatch)
      case Timeout => Skipped(LdapTimeout)
      case ConnectionError => Skipped(LdapConnectionError)
      case _ => Skipped(LdapSearchError)
  }

  /** The attributes that are merged: those of a match or of a positive hit. */
  function MergedAttrs(a: Attempt): Option<Unified> {
    if a.Replied? && (a.reply.outcome == Match || a.reply.outcome == HitPositive) then a.reply.attrs else None
  }

  // ---- normalization as a function ----------------------------------------------------------------

  datatype ValidationError = ValidationError

  /** The record is constructed, or the schema refuses it. */
  function Checked(n: NormalizedAttributes): Result<NormalizedAttributes, ValidationError> {
    if n.Valid() then Ok(n) else Raised(ValidationError)
  }

  function WithMerged(t: SourceTable, a: Attempt): SourceTable {
    if MergedAttrs(a).Some? then Contribute(t, "ldap", MergedAttrs(a).value) else t
  }

  function TableFor(protocol: string, primary: Unified, a: Attempt): SourceTable {
    WithMerged(Contribute(EmptyTable(), protocol, primary), a)
  }

  /** An event of a known protocol, and a usable reply if there was one. */
  predicate Proper(protocol: string, a: Attempt) {
    protocol in PROTOCOLS && (a.Replied? ==> a.reply.Valid())
  }

  lemma TableForIsServiceTable(protocol: string, primary: Unified, a: Attempt)
    requires Proper(protocol, a) && primary.Valid()
    ensures ServiceTable(TableFor(protocol, primary, a))
  {
    ContributeKeepsServiceTable(EmptyTable(), protocol, primary);
    var t := Contribute(EmptyTable(), protocol, primary);
    if MergedAttrs(a).Some? {
      ContributeKeepsServiceTable(t, "ldap", MergedAttrs(a).value);
    }
  }

  /** The record that `normalize` builds; constructing it raises when the schema refuses it. */
  ghost function Normalized(config: NormalizationConfig, protocol: string, primary: Unified, a: Attempt)
    : NormalizedAttributes
    requires Proper(protocol, a) && primary.Valid()
  {
    TableForIsServiceTable(protocol, primary, a);
    Resolved(TableFor(protocol, primary, a), config, protocol, EnrichmentFor(a))
  }

  /** Degradation does not interfere: a skipped enrichment leaves the result of the same record with
      LDAP disabled, up to the reason given. */
  lemma SkippingChangesNothing(config: NormalizationConfig, protocol: string, primary: Unified, a: Attempt)
    requires Proper(protocol, a) && primary.Valid()
    requires EnrichmentFor(a).Skipped?
    ensures Normalized(config, protocol, primary, a).(enrichment := Skipped(LdapDisabled))
         == Normalized(config, protocol, primary, NotAttempted(LdapDisabled))
  {
    assert MergedAttrs(a).None?;
  }

  /** The record tells what was extracted and, after a match or a positive hit, what the directory added: just
      that, and after any other outcome nothing of the directory. */
  lemma NormalizedIsExplained(config: NormalizationConfig, protocol: string, primary: Unified, a: Attempt)
    requires Proper(protocol, a) && primary.Valid() && (protocol == "ldap" ==> !a.Replied?)
    ensures var n := Normalized(config, protocol, primary, a);
      if a.Replied? && (a.reply.outcome == Match || a.reply.outcome == HitPositive) && a.reply.attrs.Some?
      then IsExplained(config, protocol, primary, a.reply.attrs.value, n)
      else IsExplained(config, protocol, primary, NOTHING, n)
  {
    var t, added := Contribute(EmptyTable(), protocol, primary), MergedAttrs(a);
    ContributeRecords(EmptyTable(), protocol, primary);
    TableForIsServiceTable(protocol, primary, a);
    if added.Some? {
      ContributeRecords(t, "ldap", added.value);
    }
    BothAreExplained(t, TableFor(protocol, primary, a), protocol, primary, if added.Some? then added.value else NOTHING,
                     config, EnrichmentFor(a), Normalized(config, protocol, primary, a));
  }

  // ---- when normalize can raise -------------------------------------------------------------------

  /** `normalize` returns a record, rather than raising, for these raw attributes. */
  ghost predicate Accepted(config: NormalizationConfig, reader: Adapters.DnReader,
                           protocol: string, raw: map<string, Raw>, a: Attempt)
    requires Proper(protocol, a)
  {
    Normalized(config, protocol, Adapters.Extract(protocol, raw, reader), a).Valid()
  }

  /** No record and no LDAP outcome makes `normalize` raise. */
  ghost predicate NeverRaises(config: NormalizationConfig, reader: Adapters.DnReader) {
    forall protocol, raw, a :: Proper(protocol, a) ==> Accepted(config, reader, protocol, raw, a)
  }

  lemma GoodWeightsSuffice(config: NormalizationConfig, protocol: string, primary: Unified, a: Attempt)
    requires GoodWeights(config)
    requires Proper(protocol, a) && primary.Valid()
    ensures Normalized(config, protocol, primary, a).Valid()
  {
    TableForIsServiceTable(protocol, primary, a);
    ResolvedIsValid(TableFor(protocol, primary, a), config, protocol, EnrichmentFor(a));
  }

  /** A raw attribute bag from which `protocol` extracts the attribute `f` and no other. */
  function Only(protocol: string, f: Field): map<string, Raw> {
    var key := Adapters.RulesOf(protocol).Key(f);
    if f == Groups then map[key := Arr([Str("e")])] else map[key := Str("e")]
  }

  lemma OneBareGroup(reader: Adapters.DnReader)
    ensures Adapters.CoerceStrList(Arr([Str("e")])) == ["e"]
    ensures Adapters.ReduceAll(["e"], reader) == ["e"]
  {
    Text.StripTrims("e");
    FirstIsPicked(Adapters.CoerceStr, [Str("e")]);
    FirstIsPicked(Adapters.Reducer(reader), ["e"]);
  }

  lemma OneLetter()
    ensures CanonicalValues.Key("e") in CanonicalValues.EMPLOYEE_TYPE_CANONICAL
  {
    assert Text.Trimmed("e");
    CanonicalValues.KeyIs("e", "e");
  }

  lemma OnlyExtracts(protocol: string, f: Field, reader: Adapters.DnReader)
    requires protocol in PROTOCOLS && f != Department
    ensures var u := Adapters.Extract(protocol, Only(protocol, f), reader);
      if f == Groups then u.groups != [] else u.Text(f).Some?
  {
    if f == Groups {
      OneBareGroup(reader);
    } else {
      OneLetter();
      Adapters.ExtractKeeps(protocol, Only(protocol, f), reader, "e");
      assert Adapters.Lookup(Only(protocol, f), Adapters.RulesOf(protocol).Key(f)) == Str("e");
    }
  }

  lemma SingleContribution(protocol: string, f: Field, u: Unified, config: NormalizationConfig)
    requires protocol in PROTOCOLS && u.Valid() && f != Department
    requires if f == Groups then u.groups != [] else u.Text(f).Some?
    ensures var t := TableFor(protocol, u, NotAttempted(LdapDisabled));
      t.Valid() && t.Contributed(f) && DetailOf(t, f, config).confidence == config.WeightFor(f, protocol)
  {
    TableForIsServiceTable(protocol, u, NotAttempted(LdapDisabled));
    ContributeRecords(EmptyTable(), protocol, u);
    SingleDetail(TableFor(protocol, u, NotAttempted(LdapDisabled)), protocol, f, u, config);
  }

  lemma SingleDetail(t: SourceTable, protocol: string, f: Field, u: Unified, config: NormalizationConfig)
    requires t.Valid() && AllRecorded(EmptyTable(), t, protocol, u) && f != Department
    requires if f == Groups then u.groups != [] else u.Text(f).Some?
    ensures t.Contributed(f) && DetailOf(t, f, config).confidence == config.WeightFor(f, protocol)
  {
    assert if f == Groups then t.groups.keys == [protocol] else t.TextOf(f).keys == [protocol];
  }

  /** A weight out of range breaks the promise that `normalize` never raises: the record that carries
      just that attribute from just that source is refused by the schema. */
  lemma BadWeightRaises(config: NormalizationConfig, f: Field, protocol: string, reader: Adapters.DnReader)
    returns (raw: map<string, Raw>, a: Attempt)
    requires protocol in PROTOCOLS && f != Department
    requires !(0.0 <= config.WeightFor(f, protocol) <= 1.0)
    ensures Proper(protocol, a) && !Accepted(config, reader, protocol, raw, a)
  {
    raw, a := Only(protocol, f), NotAttempted(LdapDisabled);
    OnlyExtracts(protocol, f, reader);
    var primary := Adapters.Extract(protocol, raw, reader);
    SingleContribution(protocol, f, primary, config);
    var t := TableFor(protocol, primary, a);
    assert f in DetailsOf(t, config) && DetailsOf(t, config)[f] == DetailOf(t, f, config);
  }

  lemma GoodWeightsNeverRaise(config: NormalizationConfig, reader: Adapters.DnReader)
    requires GoodWeights(config)
    ensures NeverRaises(config, reader)
  {
    forall protocol, raw, a | Proper(protocol, a)
      ensures Accepted(config, reader, protocol, raw, a)
    {
      GoodWeightsSuffice(config, protocol, Adapters.Extract(protocol, raw, reader), a);
    }
  }

  /** `normalize` never raises exactly when every weight of every attribute but the department is a
      probability; the loader accepts configurations for which this fails. */
  lemma NeverRaisesIff(config: NormalizationConfig, reader: Adapters.DnReader)
    ensures NeverRaises(config, reader) <==> GoodWeights(config)
  {
    if GoodWeights(config) {
      GoodWeightsNeverRaise(config, reader);
    } else {
      var f: Field, s :| f != Department && s in PROTOCOLS && !(0.0 <= config.WeightFor(f, s) <= 1.0);
      var raw, a := BadWeightRaises(config, f, s, reader);
    }
  }

  // ---- the cache does not show ----------------------------------------------------------------------

  /** What an uncached look-up would have come to. */
  function PlainLookup(answer: Option<Unified>): Attempt {
    Replied(LiveAnswer(answer))
  }

  function WithoutCacheHit(e: Enrichment): Enrichment {
    if e.Applied? then Applied(false) else e
  }

  /** What a service of this configuration asks of the directory, value apart: always the same. */
  function Asked(config: NormalizationConfig): (q: Query)
    ensures ValidateLdapEnrichment(config.ldap).None? ==> q.Valid()
  {
    Query(config.ldap.correlationKey, config.ldap.enrichAttributes)
  }

  /** There is a call of `enrich` to make. */
  predicate Calls(config: NormalizationConfig, protocol: string, primary: Unified) {
    config.ldap.enabled && protocol != "ldap" && CorrelationOf(primary, config.ldap.correlationKey).LookUp?
  }

  /** `n` passes the schema and is what is resolved under some outcome of enrichment. */
  ghost predicate IsResult(config: NormalizationConfig, protocol: string, primary: Unified, n: NormalizedAttributes) {
    && n.Valid() && primary.Valid()
    && exists a: Attempt ::
         Proper(protocol, a) && (protocol == "ldap" ==> !a.Replied?) && n == Normalized(config, protocol, primary, a)
  }

  /** So it tells what was extracted, and what a directory added if one did, and nothing else. */
  lemma ResultIsExplained(config: NormalizationConfig, protocol: string, primary: Unified, n: NormalizedAttributes)
    returns (added: Unified)
    requires IsResult(config, protocol, primary, n)
    ensures (protocol == "ldap" ==> added == NOTHING) && IsExplained(config, protocol, primary, added, n)
  {
    var a: Attempt :|
      Proper(protocol, a) && (protocol == "ldap" ==> !a.Replied?) && n == Normalized(config, protocol, primary, a);
    NormalizedIsExplained(config, protocol, primary, a);
    added := if MergedAttrs(a).Some? then MergedAttrs(a).value else NOTHING;
  }

  /** `n` is what a plain look-up in this directory leads to, but for the flag that says the answer was
      remembered. */
  ghost predicate IsEnriched(config: NormalizationConfig, d: Directory, protocol: string, primary: Unified,
                             n: NormalizedAttributes) {
    && protocol in PROTOCOLS && primary.Valid() && Asked(config).Valid() && Calls(config, protocol, primary)
    && n.(enrichment := WithoutCacheHit(n.enrichment))
       == Normalized(config, protocol, primary,
                     PlainLookup(d.Lookup(Asked(config), CorrelationOf(primary, config.ldap.correlationKey).value)))
  }

  /** `n` is what LDAP disabled leads to, but for the reason given. */
  ghost predicate IsDegraded(config: NormalizationConfig, protocol: string, primary: Unified, n: NormalizedAttributes) {
    && protocol in PROTOCOLS && primary.Valid() && n.enrichment.Skipped?
    && n.(enrichment := Skipped(LdapDisabled)) == Normalized(config, protocol, primary, NotAttempted(LdapDisabled))
  }

  /** A reply that tells what the directory holds, fresh or remembered, normalizes like the plain look-up,
      but for the flag that says it was remembered. */
  lemma AnsweredNormalizesAsPlain(config: NormalizationConfig, protocol: string, primary: Unified, reply: Reply)
    requires protocol in PROTOCOLS && primary.Valid() && reply.Valid() && reply.outcome in ANSWERED
    requires reply.attrs.Some? <==> reply.outcome == Match || reply.outcome == HitPositive
    ensures var n, p := Normalized(config, protocol, primary, Replied(reply)),
                        Normalized(config, protocol, primary, PlainLookup(reply.attrs));
      n.(enrichment := WithoutCacheHit(n.enrichment)) == p
  {
    assert MergedAttrs(Replied(reply)) == MergedAttrs(PlainLookup(reply.attrs));
  }

  // ---- what becomes of enrichment --------------------------------------------------------------------

  /** What has to become of enrichment, given what the cache held when it was read: left out when switched off,
      for an LDAP event, and without anything to look up; otherwise what `enrich` comes to. */
  function AttemptFor(config: NormalizationConfig, reader: Adapters.DnReader, protocol: string, primary: Unified,
                      read: CacheRead, directory: SearchReply, faults: Faults): Attempt
  {
    if !config.ldap.enabled then NotAttempted(LdapDisabled)
    else if protocol == "ldap" then NotAttempted(LdapEvent)
    else
      match CorrelationOf(primary, config.ldap.correlationKey)
      case NothingToLookUp => NotAttempted(InvalidCorrelationKey)
      case LookUpList => AttemptRaised
      case LookUp(value) => Called(config, reader, read, directory, faults)
  }

  /** What becomes of a call of `enrich`. */
  function Called(config: NormalizationConfig, reader: Adapters.DnReader, read: CacheRead, directory: SearchReply,
                  faults: Faults): Attempt
  {
    match EnrichOutcome(Asked(config), read, directory, faults, reader)
    case Ok(reply) => Replied(reply)
    case Raised(_) => AttemptRaised
  }

  /** What the directory, asked or remembered, has to add. */
  function Added(config: NormalizationConfig, reader: Adapters.DnReader, protocol: string, primary: Unified,
                 read: CacheRead, directory: SearchReply, faults: Faults): Unified
  {
    if !Calls(config, protocol, primary) || faults.readFails then NOTHING
    else if read.Hit? then if read.answer.Some? then read.answer.value else NOTHING
    else if directory.Answered? && directory.results != [] && faults.write == Written
    then Adapters.ReadEntry(directory.results[0], reader)
    else NOTHING
  }

  /** When a call of `enrich` leads to this enrichment. */
  predicate CallWarrants(e: Enrichment, read: CacheRead, directory: SearchReply, faults: Faults) {
    var searched := !faults.readFails && !read.Hit?;
    match e
    case Applied(remembered) =>
      if remembered then !faults.readFails && read.Hit? && read.answer.Some?
      else searched && directory.Answered? && directory.results != [] && faults.write == Written
    case Skipped(NoLdapMatch) =>
      || (!faults.readFails && read == Hit(None))
      || (searched && directory == Answered([]) && faults.write == Written)
    case Skipped(LdapTimeout) =>
      searched && (directory == Failed(ClientTimeout) || directory == Failed(TimeLimitExceeded))
    case Skipped(LdapConnectionError) => searched && directory == Failed(ServerDown)
    case Skipped(LdapSearchError) =>
      || faults.readFails
      || (searched && directory.Answered? && faults.write != Written)
      || (searched && (directory == Failed(OtherLdapError) || directory == Failed(NotAnLdapError)))
    case _ => false
  }

  /** When a record gets this enrichment. */
  predicate IsWarranted(e: Enrichment, config: NormalizationConfig, protocol: string, primary: Unified, read: CacheRead,
                        directory: SearchReply, faults: Faults)
  {
    var correlation := CorrelationOf(primary, config.ldap.correlationKey);
    if !config.ldap.enabled then e == Skipped(LdapDisabled)
    else if protocol == "ldap" then e == Skipped(LdapEvent)
    else if correlation == NothingToLookUp then e == Skipped(InvalidCorrelationKey)
    else if correlation == LookUpList then e == Skipped(LdapSearchError)
    else CallWarrants(e, read, directory, faults)
  }

  lemma CallIsWarranted(config: NormalizationConfig, reader: Adapters.DnReader, read: CacheRead,
                        directory: SearchReply, faults: Faults)
    requires ValidateLdapEnrichment(config.ldap).None?
    ensures CallWarrants(EnrichmentFor(Called(config, reader, read, directory, faults)), read, directory, faults)
  {
    assert Asked(config).attributes.Some? ==> Unrecognised(Asked(config).attributes.value) == [];
  }

  lemma OneCallWarrant(e: Enrichment, other: Enrichment, read: CacheRead, directory: SearchReply, faults: Faults)
    requires CallWarrants(e, read, directory, faults) && CallWarrants(other, read, directory, faults)
    ensures e == other
  {
  }

  /** One enrichment is warranted, and it is the one given. */
  lemma EnrichmentIsWarranted(config: NormalizationConfig, reader: Adapters.DnReader, protocol: string,
                              primary: Unified, read: CacheRead, directory: SearchReply, faults: Faults, e: Enrichment)
    requires ValidateLdapEnrichment(config.ldap).None?
    ensures IsWarranted(e, config, protocol, primary, read, directory, faults)
       <==> e == EnrichmentFor(AttemptFor(config, reader, protocol, primary, read, directory, faults))
  {
    CallIsWarranted(config, reader, read, directory, faults);
    if Calls(config, protocol, primary) && CallWarrants(e, read, directory, faults) {
      OneCallWarrant(e, EnrichmentFor(Called(config, reader, read, directory, faults)), read, directory, faults);
    }
  }

  lemma CallAdds(config: NormalizationConfig, reader: Adapters.DnReader, read: CacheRead, directory: SearchReply,
                 faults: Faults, protocol: string, primary: Unified)
    requires ValidateLdapEnrichment(config.ldap).None? && Calls(config, protocol, primary)
    ensures var added := MergedAttrs(Called(config, reader, read, directory, faults));
      Added(config, reader, protocol, primary, read, directory, faults) == if added.Some? then added.value else NOTHING
  {
    assert Asked(config).attributes.Some? ==> Unrecognised(Asked(config).attributes.value) == [];
  }

  /** What the cache or the directory had for the event is what the record tells of the directory. */
  lemma AdditionIsExplained(config: NormalizationConfig, reader: Adapters.DnReader, protocol: string,
                            primary: Unified, read: CacheRead, directory: SearchReply, faults: Faults)
    requires ValidateLdapEnrichment(config.ldap).None? && primary.Valid()
    requires Proper(protocol, AttemptFor(config, reader, protocol, primary, read, directory, faults))
    ensures IsExplained(config, protocol, primary,
                        Added(config, reader, protocol, primary, read, directory, faults),
                        Normalized(config, protocol, primary,
                                   AttemptFor(config, reader, protocol, primary, read, directory, faults)))
  {
    var a := AttemptFor(config, reader, protocol, primary, read, directory, faults);
    NormalizedIsExplained(config, protocol, primary, a);
    if Calls(config, protocol, primary) {
      CallAdds(config, reader, read, directory, faults, protocol, primary);
    }
  }

  // ---- state-change logging -----------------------------------------------------------------------

  datatype LogLine = ConnectionErrorLogged | ConnectionErrorDemoted | RecoveryLogged | OtherLine

  function NextDegraded(degraded: bool, outcome: Outcome): bool {
    match outcome
    case Match => false
    case NoMatch => false
    case ConnectionError => true
    case _ => degraded
  }

  function LinesFor(degraded: bool, outcome: Outcome): seq<LogLine> {
    match outcome
    case Match => if degraded then [RecoveryLogged] else []
    case HitPositive => []
    case NoMatch => [OtherLine] + if degraded then [RecoveryLogged] else []
    case ConnectionError => [if degraded then ConnectionErrorDemoted else ConnectionErrorLogged]
    case _ => [OtherLine]
  }

  /** What one attempt does to the flag and to the log. */
  function DegradedAfter(degraded: bool, a: Attempt): bool {
    if a.Replied? then NextDegraded(degraded, a.reply.outcome) else degraded
  }

  function LinesAfter(degraded: bool, a: Attempt): seq<LogLine> {
    match a
    case NotAttempted(reason) => if reason == InvalidCorrelationKey then [OtherLine] else []
    case AttemptRaised => [OtherLine]
    case Replied(reply) => LinesFor(degraded, reply.outcome)
  }

  /** The state and the log after any sequence of outcomes. */
  function Replay(outcomes: seq<Outcome>): (bool, seq<LogLine>) {
    if outcomes == [] then (false, [])
    else
      var (degraded, log) := Replay(outcomes[..|outcomes| - 1]);
      var last := outcomes[|outcomes| - 1];
      (NextDegraded(degraded, last), log + LinesFor(degraded, last))
  }

  /** Errors and recoveries strictly alternate, beginning with an error; `degraded` tells which is next. */
  predicate Alternates(log: seq<LogLine>, degraded: bool) {
    if log == [] then !degraded
    else
      var init, last := log[..|log| - 1], log[|log| - 1];
      match last
      case ConnectionErrorLogged => degraded && Alternates(init, false)
      case RecoveryLogged => !degraded && Alternates(init, true)
      case _ => Alternates(init, degraded)
  }

  function Count(log: seq<LogLine>, line: LogLine): nat {
    if log == [] then 0
    else Count(log[..|log| - 1], line) + if log[|log| - 1] == line then 1 else 0
  }

  lemma AppendLines(log: seq<LogLine>, degraded: bool, outcome: Outcome)
    requires Alternates(log, degraded)
    ensures Alternates(log + LinesFor(degraded, outcome), NextDegraded(degraded, outcome))
  {
    var lines := LinesFor(degraded, outcome);
    if |lines| == 0 {
      assert log + lines == log;
    } else if |lines| == 1 {
      assert (log + lines)[..|log|] == log;
    } else {
      var one := log + [lines[0]];
      assert one[..|log|] == log;
      assert (log + lines)[..|one|] == one;
    }
  }

  lemma {:induction false} ReplayAlternates(outcomes: seq<Outcome>)
    ensures Alternates(Replay(outcomes).1, Replay(outcomes).0)
  {
    if outcomes != [] {
      var init, last := outcomes[..|outcomes| - 1], outcomes[|outcomes| - 1];
      ReplayAlternates(init);
      AppendLines(Replay(init).1, Replay(init).0, last);
    }
  }

  /** Outcome `i` was a connection error, and nothing since has shown that the directory can be reached. */
  predicate LostSince(outcomes: seq<Outcome>, i: nat) {
    && i < |outcomes| && outcomes[i] == ConnectionError
    && forall j :: i < j < |outcomes| ==> outcomes[j] != Match && outcomes[j] != NoMatch
  }

  /** The flag is up exactly when the last outcome that tells whether the directory can be reached was a connection
      error; a cache hit tells nothing. */
  lemma {:induction false} FlagIsLastContact(outcomes: seq<Outcome>)
    ensures Replay(outcomes).0 <==> exists i: nat :: LostSince(outcomes, i)
  {
    if outcomes != [] {
      var n := |outcomes| - 1;
      FlagIsLastContact(outcomes[..n]);
      if outcomes[n] == ConnectionError {
        assert LostSince(outcomes, n);
      } else if outcomes[n] != Match && outcomes[n] != NoMatch {
        if i: nat :| LostSince(outcomes[..n], i) {
          assert LostSince(outcomes, i);
        }
        if i: nat :| LostSince(outcomes, i) {
          assert LostSince(outcomes[..n], i);
        }
      }
    }
  }

  function CountOutcomes(outcomes: seq<Outcome>, outcome: Outcome): nat {
    if outcomes == [] then 0
    else CountOutcomes(outcomes[..|outcomes| - 1], outcome) + if outcomes[|outcomes| - 1] == outcome then 1 else 0
  }

  lemma {:induction false} CountAppend(log: seq<LogLine>, lines: seq<LogLine>, line: LogLine)
    ensures Count(log + lines, line) == Count(log, line) + Count(lines, line)
    decreases |lines|
  {
    if lines == [] {
      assert log + lines == log;
    } else {
      assert (log + lines)[..|log + lines| - 1] == log + lines[..|lines| - 1];
      CountAppend(log, lines[..|lines| - 1], line);
    }
  }

  lemma CountOne(line: LogLine, counted: LogLine)
    ensures Count([line], counted) == if line == counted then 1 else 0
  {
    assert [line][..0] == [];
  }

  lemma ErrorLines(degraded: bool, outcome: Outcome)
    ensures var lines := LinesFor(degraded, outcome);
      Count(lines, ConnectionErrorLogged) + Count(lines, ConnectionErrorDemoted)
      == if outcome == ConnectionError then 1 else 0
  {
    forall line, counted ensures Count([line], counted) == if line == counted then 1 else 0 {
      CountOne(line, counted);
    }
    CountAppend([OtherLine], [RecoveryLogged], ConnectionErrorLogged);
    CountAppend([OtherLine], [RecoveryLogged], ConnectionErrorDemoted);
  }

  /** Every connection error is logged once, loudly or demoted. */
  lemma {:induction false} EveryErrorIsLogged(outcomes: seq<Outcome>)
    ensures var log := Replay(outcomes).1;
      Count(log, ConnectionErrorLogged) + Count(log, ConnectionErrorDemoted)
      == CountOutcomes(outcomes, ConnectionError)
  {
    if outcomes != [] {
      var init, last := outcomes[..|outcomes| - 1], outcomes[|outcomes| - 1];
      EveryErrorIsLogged(init);
      var lines := LinesFor(Replay(init).0, last);
      ErrorLines(Replay(init).0, last);
      CountAppend(Replay(init).1, lines, ConnectionErrorLogged);
      CountAppend(Replay(init).1, lines, ConnectionErrorDemoted);
    }
  }

  /** The flag is the number of errors logged minus the number of recoveries. */
  lemma {:induction false} FlagIsDifference(log: seq<LogLine>, degraded: bool)
    requires Alternates(log, degraded)
    ensures Count(log, ConnectionErrorLogged) - Count(log, RecoveryLogged) == if degraded then 1 else 0
  {
    if log != [] {
      match log[|log| - 1]
      case ConnectionErrorLogged => FlagIsDifference(log[..|log| - 1], false);
      case RecoveryLogged => FlagIsDifference(log[..|log| - 1], true);
      case _ => FlagIsDifference(log[..|log| - 1], degraded);
    }
  }

  /** Between two logged errors there is a recovery, and between two recoveries an error. */
  lemma {:induction false} StrictAlternation(log: seq<LogLine>, degraded: bool, i: nat, j: nat)
    requires Alternates(log, degraded) && i < j < |log| && log[i] == log[j]
    requires log[i] == ConnectionErrorLogged || log[i] == RecoveryLogged
    ensures exists k :: i < k < j && log[k] != log[i]
                        && (log[k] == ConnectionErrorLogged || log[k] == RecoveryLogged)
    decreases |log|
  {
    var init, last := log[..|log| - 1], log[|log| - 1];
    var before := if last == ConnectionErrorLogged then false else if last == RecoveryLogged then true else degraded;
    if j < |init| {
      StrictAlternation(init, before, i, j);
      var k :| i < k < j && init[k] != init[i] && (init[k] == ConnectionErrorLogged || init[k] == RecoveryLogged);
      assert log[k] == init[k];
    } else {
      var k := LastChange(init, before, i, log[i] == RecoveryLogged);
      assert log[k] == init[k] && log[i] == init[i];
    }
  }

  /** If line `i` left the flag at `!degraded`, something after it changed the flag. */
  lemma {:induction false} LastChange(log: seq<LogLine>, degraded: bool, i: nat, recovered: bool) returns (k: nat)
    requires Alternates(log, degraded) && i < |log|
    requires log[i] == if recovered then RecoveryLogged else ConnectionErrorLogged
    requires degraded == recovered
    ensures i < k < |log| && log[k] == if recovered then ConnectionErrorLogged else RecoveryLogged
    decreases |log|
  {
    var init, last := log[..|log| - 1], log[|log| - 1];
    if last == ConnectionErrorLogged || last == RecoveryLogged {
      k := |log| - 1;
    } else {
      k := LastChange(init, degraded, i, recovered);
    }
  }

  // ---- what a call leaves behind --------------------------------------------------------------------

  /** A reply that tells what the directory holds is recent, and is, hit or not, what an unchanging directory would
      say. */
  ghost predicate Transparent(config: NormalizationConfig, past: Past, reply: Reply, value: string)
  {
    reply.outcome in ANSWERED ==>
      && (reply.attrs.Some? <==> reply.outcome == Match || reply.outcome == HitPositive)
      && Reliable(past, Asked(config), value, config.ldap.cacheTtlSeconds, reply.attrs)
  }

  /** `call` looked `value` up: after operation number `k` it read the cache and met `read`, it has done to the
      cache, since `before`, what `enrich` has to do and no more, and `attempt` is what became of it. */
  ghost predicate LookedUp(config: NormalizationConfig, reader: Adapters.DnReader, before: seq<Op>, past: Past,
                           call: nat, value: string, directory: SearchReply, faults: Faults, attempt: Attempt,
                           read: CacheRead, k: nat)
  {
    && ReadAt(past.start, past.codec, past.ops, |before|, k, call, value, read)
    && Did(before, past, call, Asked(config), value, config.ldap.cacheTtlSeconds, read, directory, faults, reader)
    && attempt == Called(config, reader, read, directory, faults)
    && (attempt.Replied? ==> attempt.reply.Valid() && Transparent(config, past, attempt.reply, value))
  }

  /** What enrichment was attempted for an event, and what it left in the cache.  `attempt` names what happened. */
  ghost predicate Attempted(config: NormalizationConfig, reader: Adapters.DnReader, before: seq<Op>, past: Past,
                            call: nat, protocol: string, primary: Unified, directory: SearchReply, faults: Faults,
                            attempt: Attempt, read: CacheRead, k: nat)
  {
    && attempt == AttemptFor(config, reader, protocol, primary, read, directory, faults)
    && if !Calls(config, protocol, primary) then past.ops == before
       else LookedUp(config, reader, before, past, call, CorrelationOf(primary, config.ldap.correlationKey).value,
                     directory, faults, attempt, read, k)
  }

  /** Over an unchanging directory the cache does not show. */
  ghost predicate CacheDoesNotShow(config: NormalizationConfig, ops: seq<Op>, protocol: string, primary: Unified,
                                   n: NormalizedAttributes)
    requires Asked(config).Valid()
  {
    forall d: Directory :: Unchanging(ops, d, Asked(config)) ==> IsEnriched(config, d, protocol, primary, n)
  }

  /** What the record comes to, in terms of the event, the cache and the directory alone. */
  ghost predicate IsRecord(config: NormalizationConfig, reader: Adapters.DnReader, protocol: string, primary: Unified,
                           directory: SearchReply, faults: Faults, read: CacheRead, n: NormalizedAttributes) {
    var added := Added(config, reader, protocol, primary, read, directory, faults);
    && (protocol == "ldap" ==> added == NOTHING)
    && IsExplained(config, protocol, primary, added, n)
    && IsWarranted(n.enrichment, config, protocol, primary, read, directory, faults)
  }

  /** What the result of `normalize` is good for. */
  ghost predicate Promised(config: NormalizationConfig, reader: Adapters.DnReader, ops: seq<Op>, protocol: string,
                           primary: Unified, directory: SearchReply, faults: Faults, attempt: Attempt,
                           read: CacheRead, r: Result<NormalizedAttributes, ValidationError>)
    requires Asked(config).Valid()
  {
    match r
    case Raised(_) => !GoodWeights(config)
    case Ok(n) =>
      // it tells what was extracted and what the directory added, and which enrichment it got
      && IsRecord(config, reader, protocol, primary, directory, faults, read, n)
      && IsResult(config, protocol, primary, n)
      // without an answer it is what LDAP disabled leads to; with one the cache does not show
      && (n.enrichment.Skipped? ==> IsDegraded(config, protocol, primary, n))
      && if attempt.Replied? && attempt.reply.outcome in ANSWERED
         then CacheDoesNotShow(config, ops, protocol, primary, n)
         else IsDegraded(config, protocol, primary, n)
  }

  lemma RecordFacts(config: NormalizationConfig, reader: Adapters.DnReader, protocol: string, primary: Unified,
                    directory: SearchReply, faults: Faults, a: Attempt, read: CacheRead)
    requires ValidateLdapEnrichment(config.ldap).None? && Proper(protocol, a) && primary.Valid()
    requires a == AttemptFor(config, reader, protocol, primary, read, directory, faults)
    ensures IsRecord(config, reader, protocol, primary, directory, faults, read,
                     Normalized(config, protocol, primary, a))
  {
    EnrichmentIsWarranted(config, reader, protocol, primary, read, directory, faults, EnrichmentFor(a));
    AdditionIsExplained(config, reader, protocol, primary, read, directory, faults);
  }

  lemma CacheFacts(config: NormalizationConfig, past: Past, protocol: string, primary: Unified, a: Attempt)
    requires ValidateLdapEnrichment(config.ldap).None? && Proper(protocol, a) && primary.Valid()
    requires a.Replied? ==>
      && Calls(config, protocol, primary)
      && Transparent(config, past, a.reply, CorrelationOf(primary, config.ldap.correlationKey).value)
    ensures var n := Normalized(config, protocol, primary, a);
      && (EnrichmentFor(a).Skipped? ==> IsDegraded(config, protocol, primary, n))
      && if a.Replied? && a.reply.outcome in ANSWERED then CacheDoesNotShow(config, past.ops, protocol, primary, n)
         else EnrichmentFor(a).Skipped?
  {
    if EnrichmentFor(a).Skipped? {
      SkippingChangesNothing(config, protocol, primary, a);
    }
    if a.Replied? && a.reply.outcome in ANSWERED {
      AnsweredNormalizesAsPlain(config, protocol, primary, a.reply);
    }
  }

  lemma NormalizedIsPromised(config: NormalizationConfig, reader: Adapters.DnReader, past: Past, protocol: string,
                             primary: Unified, directory: SearchReply, faults: Faults, a: Attempt, read: CacheRead)
    requires ValidateLdapEnrichment(config.ldap).None? && Proper(protocol, a) && primary.Valid()
    requires a == AttemptFor(config, reader, protocol, primary, read, directory, faults)
    requires a.Replied? ==>
      && Calls(config, protocol, primary)
      && Transparent(config, past, a.reply, CorrelationOf(primary, config.ldap.correlationKey).value)
    ensures Promised(config, reader, past.ops, protocol, primary, directory, faults, a, read,
                     Checked(Normalized(config, protocol, primary, a)))
  {
    if GoodWeights(config) {
      GoodWeightsSuffice(config, protocol, primary, a);
    }
    var n := Normalized(config, protocol, primary, a);
    assert IsRecord(config, reader, protocol, primary, directory, faults, read, n) by {
      RecordFacts(config, reader, protocol, primary, directory, faults, a, read);
    }
    assert n.Valid() ==> IsResult(config, protocol, primary, n);
    CacheFacts(config, past, protocol, primary, a);
  }

  // ---- the service --------------------------------------------------------------------------------

  class NormalizationService {
    const config: NormalizationConfig
    const adapter: LdapAdapter
    var degraded: bool
    var log: seq<LogLine>

    ghost predicate Valid()
      reads this, adapter
    {
      && ValidateLdapEnrichment(config.ldap).None?
      && adapter.Valid() && adapter.cache.OnlyOurs()
      && Alternates(log, degraded)
    }

    constructor (config: NormalizationConfig, adapter: LdapAdapter)
      requires ValidateLdapEnrichment(config.ldap).None?
      requires adapter.Valid() && adapter.cache.OnlyOurs()
      ensures Valid() && !degraded && log == []
      ensures this.config == config && this.adapter == adapter
    {
      this.config, this.adapter := config, adapter;
      degraded, log := false, [];
    }

    /** `_clear_ldap_degraded`. */
    method ClearLdapDegraded()
      modifies this`degraded, this`log
      ensures !degraded && log == old(log) + if old(degraded) then [RecoveryLogged] else []
    {
      if degraded {
        log := log + [RecoveryLogged];
        degraded := false;
      }
    }

    /** `_map_outcome_to_enrichment`. */
    method MapOutcomeToEnrichment(reply: Reply, sources: AttributeSources) returns (e: Enrichment)
      modifies this`degraded, this`log, sources
      ensures e == EnrichmentFor(Replied(reply))
      ensures sources.Table() == WithMerged(old(sources.Table()), Replied(reply))
      ensures degraded == NextDegraded(old(degraded), reply.outcome)
      ensures log == old(log) + LinesFor(old(degraded), reply.outcome)
    {
      match reply.outcome {
        case Match =>
          if reply.attrs.Some? {
            sources.Record("ldap", reply.attrs.value);
          }
          ClearLdapDegraded();
          e := Applied(false);
        case HitPositive =>
          if reply.attrs.Some? {
            sources.Record("ldap", reply.attrs.value);
          }
          e := Applied(true);
        case NoMatch =>
          log := log + [OtherLine];
          ClearLdapDegraded();
          e := Skipped(NoLdapMatch);
        case HitNegative =>
          log := log + [OtherLine];
          e := Skipped(NoLdapMatch);
        case Timeout =>
          log := log + [OtherLine];
          e := Skipped(LdapTimeout);
        case ConnectionError =>
          if !degraded {
            log := log + [ConnectionErrorLogged];
            degraded := true;
          } else {
            log := log + [ConnectionErrorDemoted];
          }
          e := Skipped(LdapConnectionError);
        case _ =>
          log := log + [OtherLine];
          e := Skipped(LdapSearchError);
      }
    }

    /** `_determine_enrichment`. */
    method DetermineEnrichment(call: nat, protocol: string, primary: Unified, sources: AttributeSources,
                               directory: SearchReply, faults: Faults)
      returns (e: Enrichment, ghost attempt: Attempt, ghost read: CacheRead, ghost k: nat)
      requires Valid()
      modifies this`degraded, this`log, adapter`cache, adapter`ops, sources
      ensures Valid()
      ensures Attempted(config, adapter.reader, old(adapter.ops), adapter.SoFar(), call, protocol, primary, directory,
                        faults, attempt, read, k)
      ensures e == EnrichmentFor(attempt)
      ensures sources.Table() == WithMerged(old(sources.Table()), attempt)
      ensures degraded == DegradedAfter(old(degraded), attempt)
      ensures log == old(log) + LinesAfter(old(degraded), attempt)
    {
      read, k := Miss, 0;
      if !config.ldap.enabled {
        return Skipped(LdapDisabled), NotAttempted(LdapDisabled), read, k;
      }
      if protocol == "ldap" {
        return Skipped(LdapEvent), NotAttempted(LdapEvent), read, k;
      }
      var correlation := CorrelationOf(primary, config.ldap.correlationKey);
      match correlation {
        case NothingToLookUp =>
          AppendLines(log, degraded, Timeout);
          log := log + [OtherLine];
          return Skipped(InvalidCorrelationKey), NotAttempted(InvalidCorrelationKey), read, k;
        case LookUpList =>
          // a list cannot be escaped into a filter: enrich raises
          AppendLines(log, degraded, Timeout);
          log := log + [OtherLine];
          return Skipped(LdapSearchError), AttemptRaised, read, k;
        case LookUp(value) =>
          e, attempt, read, k := CallEnrich(call, value, sources, directory, faults);
      }
    }

    method TryEnrich(call: nat, value: string, directory: SearchReply, faults: Faults)
      returns (r: Result<Reply, EnrichError>, ghost read: CacheRead, ghost k: nat)
      requires Valid()
      modifies adapter`cache, adapter`ops
      ensures Valid()
      ensures LookedUp(config, adapter.reader, old(adapter.ops), adapter.SoFar(), call, value, directory, faults,
                       if r.Ok? then Replied(r.value) else AttemptRaised, read, k)
    {
      r, read, k := adapter.Enrich(call, config.ldap.correlationKey, value, config.ldap.cacheTtlSeconds,
                                   config.ldap.enrichAttributes, directory, faults);
    }

    /** The guarded call of `enrich`, and what is made of its outcome. */
    method CallEnrich(call: nat, value: string, sources: AttributeSources, directory: SearchReply, faults: Faults)
      returns (e: Enrichment, ghost attempt: Attempt, ghost read: CacheRead, ghost k: nat)
      requires Valid()
      modifies this`degraded, this`log, adapter`cache, adapter`ops, sources
      ensures Valid()
      ensures LookedUp(config, adapter.reader, old(adapter.ops), adapter.SoFar(), call, value, directory, faults,
                       attempt, read, k)
      ensures degraded == DegradedAfter(old(degraded), attempt)
      ensures log == old(log) + LinesAfter(old(degraded), attempt)
      ensures e == EnrichmentFor(attempt)
      ensures sources.Table() == WithMerged(old(sources.Table()), attempt)
    {
      var r;
      r, read, k := TryEnrich(call, value, directory, faults);
      match r {
        case Raised(_) =>
          AppendLines(log, degraded, Timeout);
          log := log + [OtherLine];
          e, attempt := Skipped(LdapSearchError), AttemptRaised;
        case Ok(reply) =>
          AppendLines(log, degraded, reply.outcome);
          e := MapOutcomeToEnrichment(reply, sources);
          attempt := Replied(reply);
      }
    }

    /** What the adapter of the event's protocol extracts. */
    function Primary(event: LoginEvent): (u: Unified)
      ensures u.Valid()
    {
      Adapters.Extract(event.protocol, event.rawAttributes, adapter.reader)
    }

    /** The first stages of `normalize`: extract, and enrich. */
    method CollectSources(call: nat, event: LoginEvent, directory: SearchReply, faults: Faults)
      returns (sources: AttributeSources, e: Enrichment, ghost attempt: Attempt, ghost read: CacheRead, ghost k: nat)
      requires Valid() && event.protocol in PROTOCOLS
      modifies this`degraded, this`log, adapter`cache, adapter`ops
      ensures Valid() && fresh(sources)
      ensures Attempted(config, adapter.reader, old(adapter.ops), adapter.SoFar(), call, event.protocol,
                        Primary(event), directory, faults, attempt, read, k)
      ensures sources.Table() == TableFor(event.protocol, Primary(event), attempt) && e == EnrichmentFor(attempt)
      ensures degraded == DegradedAfter(old(degraded), attempt)
      ensures log == old(log) + LinesAfter(old(degraded), attempt)
    {
      var primary := Primary(event);
      sources := new AttributeSources();
      sources.Record(event.protocol, primary);
      e, attempt, read, k := DetermineEnrichment(call, event.protocol, primary, sources, directory, faults);
    }

    /** The last stage of `normalize`: resolve, and let the schema check the record. */
    method ResolveSources(protocol: string, ghost primary: Unified, sources: AttributeSources, enrichment: Enrichment,
                          ghost attempt: Attempt)
      returns (r: Result<NormalizedAttributes, ValidationError>)
      requires Proper(protocol, attempt) && primary.Valid() && enrichment == EnrichmentFor(attempt)
      requires sources.Table() == TableFor(protocol, primary, attempt)
      ensures r == Checked(Normalized(config, protocol, primary, attempt))
    {
      TableForIsServiceTable(protocol, primary, attempt);
      var n := Resolve(sources.Table(), config, protocol, enrichment);
      r := Checked(n);
    }

    /** `normalize`: extract, enrich, resolve. */
    method Normalize(call: nat, event: LoginEvent, directory: SearchReply, faults: Faults)
      returns (r: Result<NormalizedAttributes, ValidationError>, ghost attempt: Attempt, ghost read: CacheRead,
               ghost k: nat)
      requires Valid() && event.protocol in PROTOCOLS
      modifies this`degraded, this`log, adapter`cache, adapter`ops
      ensures Valid()
      ensures Attempted(config, adapter.reader, old(adapter.ops), adapter.SoFar(), call, event.protocol,
                        Primary(event), directory, faults, attempt, read, k)
      ensures degraded == DegradedAfter(old(degraded), attempt)
      ensures log == old(log) + LinesAfter(old(degraded), attempt)
      // what was attempted is resolved, unless the schema refuses it
      ensures r == Checked(Normalized(config, event.protocol, Primary(event), attempt))
      ensures Promised(config, adapter.reader, adapter.ops, event.protocol, Primary(event), directory, faults, attempt,
                       read, r)
    {
      var sources, enrichment;
      sources, enrichment, attempt, read, k := CollectSources(call, event, directory, faults);
      r := ResolveSources(event.protocol, Primary(event), sources, enrichment, attempt);
      NormalizedIsPromised(config, adapter.reader, adapter.SoFar(), event.protocol, Primary(event), directory, faults,
                           attempt, read);
    }
  }
}
