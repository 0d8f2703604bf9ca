/** The normalization configuration: authority weights, priorities, merge strategies, enrichment. */
module Config {
  import opened Wrappers
  import opened Models

  const UNKNOWN_SOURCE_WEIGHT_FLOOR: real := 0.5

  const UNIFIED_TO_LDAP: map<string, string> := map[
    "display_name" := "cn",
    "primary_email" := "mail",
    "department" := "departmentNumber",
    "employee_type" := "employeeType",
    "groups" := "memberOf"
  ]

  datatype AttributeConfig = AttributeConfig(
    priority: Option<seq<string>>,
    weights: Option<map<string, real>>,
    mergeStrategy: Option<Strategy>)

  /** A time to live: the schema, and SETEX, refuse anything but a positive number. */
  type Seconds = n: nat | n > 0 witness 1

  datatype LdapEnrichmentConfig = LdapEnrichmentConfig(
    enabled: bool,
    correlationKey: string,
    onFailure: string,
    cacheTtlSeconds: Seconds,
    enrichAttributes: Option<seq<string>>)

  datatype ConfigError = BadCorrelationKey | BadOnFailure | BadEnrichAttributes(bad: seq<string>)

  /** `attributes` is read at the five unified names only, so it is keyed by `Field`. */
  datatype NormalizationConfig = NormalizationConfig(
    sourceWeights: map<string, real>,
    attributes: map<Field, AttributeConfig>,
    ldap: LdapEnrichmentConfig)
  {
    function WeightFor(f: Field, source: string): real {
      if && f in attributes
         && attributes[f].weights.Some?
         && source in attributes[f].weights.value
      then attributes[f].weights.value[source]
      else if source in sourceWeights then sourceWeights[source]
      else UNKNOWN_SOURCE_WEIGHT_FLOOR
    }

    predicate HasOwnWeight(f: Field, source: string) {
      f in attributes && attributes[f].weights.Some? && source in attributes[f].weights.value
    }

    /** This configuration with one weight of one attribute set. */
    function WithOwnWeight(f: Field, source: string, w: real): NormalizationConfig {
      var a := if f in attributes then attributes[f] else AttributeConfig(None, None, None);
      var weights := if a.weights.Some? then a.weights.value else map[];
      this.(attributes := attributes[f := a.(weights := Some(weights[source := w]))])
    }

    /** This configuration with one global weight set. */
    function WithGlobalWeight(source: string, w: real): NormalizationConfig {
      this.(sourceWeights := sourceWeights[source := w])
    }

    function PriorityFor(f: Field): seq<string> {
      if f in attributes && attributes[f].priority.Some? then attributes[f].priority.value else []
    }

    function MergeStrategyFor(f: Field): Strategy {
      if f in attributes && attributes[f].mergeStrategy.Some? then attributes[f].mergeStrategy.value
      else Union
    }

    /** Every weight a known protocol can be given for `f` is a probability.  The loader does not
        check this. */
    predicate WeightsInRange(f: Field) {
      forall s :: s in PROTOCOLS ==> 0.0 <= WeightFor(f, s) <= 1.0
    }
  }

  /** An attribute's own weight for a source decides, and touches no other attribute and no other source. */
  lemma OwnWeightDecides(config: NormalizationConfig, f: Field, source: string, w: real)
    ensures var changed := config.WithOwnWeight(f, source, w);
      forall g, s :: changed.WeightFor(g, s) == if g == f && s == source then w else config.WeightFor(g, s)
  {
  }

  /** A global weight decides for all attributes that have no weight of their own for that source. */
  lemma GlobalWeightDecidesElsewhere(config: NormalizationConfig, source: string, w: real)
    ensures forall g, s :: config.WithGlobalWeight(source, w).WeightFor(g, s)
                           == if s == source && !config.HasOwnWeight(g, s) then w else config.WeightFor(g, s)
  {
  }

  /** A source that is not configured at all weighs one half. */
  lemma UnknownSourceWeighsHalf(config: NormalizationConfig, f: Field, source: string)
    requires source !in config.sourceWeights && !config.HasOwnWeight(f, source)
    ensures config.WeightFor(f, source) == 0.5
  {
  }

  /** What is configured for an attribute is used; without it there is no priority, and the strategy is union. */
  lemma SettingsAreUsed(config: NormalizationConfig, f: Field, a: AttributeConfig)
    ensures var changed := config.(attributes := config.attributes[f := a]);
      && changed.PriorityFor(f) == (match a.priority case Some(listed) => listed case None => [])
      && changed.MergeStrategyFor(f) == (match a.mergeStrategy case Some(strategy) => strategy case None => Union)
    ensures f !in config.attributes ==> config.PriorityFor(f) == [] && config.MergeStrategyFor(f) == Union
  {
  }

  function Unrecognised(names: seq<string>): (bad: seq<string>)
    ensures bad == [] <==> forall n :: n in names ==> n in UNIFIED_TO_LDAP
  {
    if names == [] then []
    else (if names[0] in UNIFIED_TO_LDAP then [] else [names[0]]) + Unrecognised(names[1..])
  }

  /** `_validate_ldap_enrichment`: what must hold before the service starts. */
  function ValidateLdapEnrichment(c: LdapEnrichmentConfig): (error: Option<ConfigError>)
    ensures error.None? <==>
      && c.correlationKey in UNIFIED_TO_LDAP
      && c.onFailure == "continue"
      && (c.enrichAttributes.Some? ==> forall n :: n in c.enrichAttributes.value ==> n in UNIFIED_TO_LDAP)
  {
    if c.correlationKey !in UNIFIED_TO_LDAP then Some(BadCorrelationKey)
    else if c.onFailure != "continue" then Some(BadOnFailure)
    else if c.enrichAttributes.Some? && Unrecognised(c.enrichAttributes.value) != []
    then Some(BadEnrichAttributes(Unrecognised(c.enrichAttributes.value)))
    else None
  }
}
