/** Conflict resolution and confidence scoring: which contribution wins for each unified attribute,
    how far it is to be trusted, and the overall confidence. */
module Resolution {
  import opened Wrappers
  import opened Models
  import opened Config
  import opened Dictionaries
  import opened Ordering

  /** What an attribute adds to the overall confidence: its importance times its own confidence. */
  function Share(f: Field, confidence: real): real {
    match f
    case DisplayName => 0.15 * confidence
    case PrimaryEmail => 0.25 * confidence
    case Department => 0.20 * confidence
    case EmployeeType => 0.25 * confidence
    case Groups => 0.15 * confidence
  }

  /** A department contribution: the normalized name and whether the canonical map knew it. */
  datatype Mapped = Mapped(value: string, wasMapped: bool)

  /** What each source says about each attribute. */
  datatype SourceTable = SourceTable(
    text: map<Field, Dict<string>>,
    department: Dict<Mapped>,
    groups: Dict<seq<string>>)
  {
    function TextOf(f: Field): Dict<string> {
      if f in text then text[f] else Empty()
    }

    predicate Contributed(f: Field) {
      match f
      case Department => department.keys != []
      case Groups => groups.keys != []
      case _ => TextOf(f).keys != []
    }

    ghost predicate Valid() {
      && department.Valid()
      && groups.Valid()
      && (forall f :: f in text ==> text[f].Valid())
    }

    /** Every contribution comes from a known protocol. */
    ghost predicate KnownSources() {
      && department.table.Keys <= PROTOCOLS
      && groups.table.Keys <= PROTOCOLS
      && (forall f :: f in text ==> text[f].table.Keys <= PROTOCOLS)
    }
  }

  // ---- scalars --------------------------------------------------------------------------------

  function Max(a: real, b: real): real { if a < b then b else a }

  function Min(a: real, b: real): real { if b < a then b else a }

  function Clamp(x: real): real { Max(0.0, Min(1.0, x)) }

  /** `max(weight_for(attr, s) for s in sources_map)`. */
  function MaxWeight(f: Field, keys: seq<string>, config: NormalizationConfig): (w: real)
    requires keys != []
    ensures forall k :: k in keys ==> config.WeightFor(f, k) <= w
    ensures exists k :: k in keys && config.WeightFor(f, k) == w
  {
    if |keys| == 1 then config.WeightFor(f, keys[0])
    else
      assert forall k :: k in keys <==> k == keys[0] || k in keys[1..];
      Max(config.WeightFor(f, keys[0]), MaxWeight(f, keys[1..], config))
  }

  /** The first key of a priority list that has a value. */
  function FirstPresent<V>(priority: seq<string>, table: map<string, V>): (w: Option<string>)
    ensures w.Some? ==> w.value in table
  {
    if priority == [] then None
    else if priority[0] in table then Some(priority[0])
    else FirstPresent(priority[1..], table)
  }

  ghost predicate IsFirstPresent<V>(priority: seq<string>, table: map<string, V>, i: nat) {
    i < |priority| && priority[i] in table && forall j :: 0 <= j < i ==> priority[j] !in table
  }

  lemma {:induction false} FirstPresentIsFirst<V>(priority: seq<string>, table: map<string, V>) returns (i: nat)
    requires exists p :: p in priority && p in table
    ensures IsFirstPresent(priority, table, i) && FirstPresent(priority, table) == Some(priority[i])
    decreases |priority|
  {
    i := 0;
    if priority[0] !in table {
      var p :| p in priority && p in table;
      assert priority == [priority[0]] + priority[1..];
      assert p in priority[1..];
      i := FirstPresentIsFirst(priority[1..], table);
      assert forall j :: 0 < j <= i ==> priority[j] == priority[1..][j - 1];
      i := i + 1;
    }
  }

  lemma {:induction false} NonePresent<V>(priority: seq<string>, table: map<string, V>)
    requires forall p :: p in priority ==> p !in table
    ensures FirstPresent(priority, table) == None
    decreases |priority|
  {
    if priority != [] {
      assert priority[0] in priority;
      NonePresent(priority[1..], table);
    }
  }

  function Weights(f: Field, keys: seq<string>, config: NormalizationConfig): seq<real> {
    seq(|keys|, i requires 0 <= i < |keys| => config.WeightFor(f, keys[i]))
  }

  /** Where the maximum is, and of equals the first one. */
  function FirstMax(ws: seq<real>): (i: nat)
    requires ws != []
    ensures i < |ws| && forall j :: 0 <= j < |ws| ==> ws[j] <= ws[i]
    ensures forall j :: 0 <= j < i ==> ws[j] < ws[i]
  {
    var n := |ws| - 1;
    if n == 0 then 0
    else
      var best := FirstMax(ws[..n]);
      assert forall j :: 0 <= j < n ==> ws[..n][j] == ws[j];
      if ws[best] < ws[n] then n else best
  }

  /** The first key of greatest weight, as `max` with a key function finds it. */
  function Heaviest(f: Field, keys: seq<string>, config: NormalizationConfig): (w: string)
    requires keys != []
    ensures w in keys
    ensures forall k :: k in keys ==> config.WeightFor(f, k) <= config.WeightFor(f, w)
  {
    var ws := Weights(f, keys, config);
    assert forall k :: k in keys ==> config.WeightFor(f, k) <= ws[FirstMax(ws)] by {
      forall k | k in keys ensures config.WeightFor(f, k) <= ws[FirstMax(ws)] {
        var j :| 0 <= j < |keys| && keys[j] == k;
        assert ws[j] == config.WeightFor(f, k);
      }
    }
    keys[FirstMax(ws)]
  }

  /** The source whose value stands when the sources disagree. */
  function Winner(f: Field, d: Dict<string>, config: NormalizationConfig): (w: string)
    requires d.Valid() && d.keys != []
    ensures w in d.table
  {
    var configured := FirstPresent(config.PriorityFor(f), d.table);
    if configured.Some? then configured.value else Heaviest(f, d.keys, config)
  }

  /** The first listed source that is present wins. */
  lemma ListedWinner(f: Field, d: Dict<string>, config: NormalizationConfig) returns (i: nat)
    requires d.Valid() && d.keys != [] && exists p :: p in config.PriorityFor(f) && p in d.table
    ensures IsFirstPresent(config.PriorityFor(f), d.table, i) && Winner(f, d, config) == config.PriorityFor(f)[i]
  {
    i := FirstPresentIsFirst(config.PriorityFor(f), d.table);
  }

  /** Without a listed source that is present the heaviest one wins, and of equals the one that contributed
      first. */
  lemma FallbackWinner(f: Field, d: Dict<string>, config: NormalizationConfig) returns (i: nat)
    requires d.Valid() && d.keys != [] && forall p :: p in config.PriorityFor(f) ==> p !in d.table
    ensures i < |d.keys| && Winner(f, d, config) == d.keys[i]
    ensures forall j :: 0 <= j < |d.keys| ==> config.WeightFor(f, d.keys[j]) <= config.WeightFor(f, d.keys[i])
    ensures forall j :: 0 <= j < i ==> config.WeightFor(f, d.keys[j]) < config.WeightFor(f, d.keys[i])
  {
    NonePresent(config.PriorityFor(f), d.table);
    var ws := Weights(f, d.keys, config);
    i := FirstMax(ws);
    assert forall j :: 0 <= j < |d.keys| ==> ws[j] == config.WeightFor(f, d.keys[j]);
  }

  /** `max` with the weight as its key. */
  method MaxByWeight(f: Field, keys: seq<string>, config: NormalizationConfig) returns (best: string)
    requires keys != []
    ensures best == Heaviest(f, keys, config)
  {
    best := keys[0];
    ghost var ws := Weights(f, keys, config);
    for i := 1 to |keys|
      invariant best == keys[FirstMax(ws[..i])]
    {
      assert ws[..i + 1][..i] == ws[..i];
      if config.WeightFor(f, best) < config.WeightFor(f, keys[i]) {
        best := keys[i];
      }
    }
    assert ws[..|keys|] == ws;
  }

  /** `_pick_winner`. */
  method PickWinner(f: Field, d: Dict<string>, config: NormalizationConfig)
    returns (winner: string, value: string, weight: real)
    requires d.Valid() && d.keys != []
    ensures winner == Winner(f, d, config)
    ensures winner in d.table && value == d.table[winner] && weight == config.WeightFor(f, winner)
  {
    var priority := config.PriorityFor(f);
    for i := 0 to |priority|
      invariant FirstPresent(priority, d.table) == FirstPresent(priority[i..], d.table)
    {
      if priority[i] in d.table {
        return priority[i], d.table[priority[i]], config.WeightFor(f, priority[i]);
      }
      assert priority[i..][1..] == priority[i + 1..];
    }
    winner := MaxByWeight(f, d.keys, config);
    value, weight := d.table[winner], config.WeightFor(f, winner);
  }

  /** `_resolve_scalar`. */
  function ResolveText(f: Field, d: Dict<string>, config: NormalizationConfig): (r: Detail)
    requires d.Valid() && d.keys != []
    ensures !r.ListMerge?
  {
    if |d.keys| == 1 then
      SingleSource(config.WeightFor(f, d.keys[0]), d.table[d.keys[0]], d.keys)
    else if AllEqual(d) then
      Unanimous(MaxWeight(f, d.keys, config), d.table[d.keys[0]], SortList(d.keys))
    else
      var w := Winner(f, d, config);
      Priority(config.WeightFor(f, w) * 0.8, d.table[w], w,
               map s | s in d.table && s != w :: d.table[s], true)
  }

  function ApplyUnmappedPenalty(confidence: real, wasMapped: bool): (r: real)
    ensures 0.0 <= r <= 1.0
  {
    Clamp(if wasMapped then confidence else confidence - 0.2)
  }

  /** The department contributions without their flags. */
  function Names(d: Dict<Mapped>): (n: Dict<string>)
    ensures d.Valid() ==> n.Valid()
  {
    Dict(d.keys, map s | s in d.table :: d.table[s].value)
  }

  predicate AllMapped(d: Dict<Mapped>) {
    forall s :: s in d.table ==> d.table[s].wasMapped
  }

  /** `_resolve_department`. */
  function ResolveDepartment(d: Dict<Mapped>, config: NormalizationConfig): (r: Detail)
    requires d.Valid() && d.keys != []
    ensures !r.ListMerge?
  {
    var names := Names(d);
    if |d.keys| == 1 then
      var only := d.table[d.keys[0]];
      SingleSource(ApplyUnmappedPenalty(config.WeightFor(Department, d.keys[0]), only.wasMapped),
                   only.value, d.keys)
    else if AllEqual(names) then
      Unanimous(ApplyUnmappedPenalty(MaxWeight(Department, d.keys, config), AllMapped(d)),
                names.table[d.keys[0]], SortList(d.keys))
    else
      var w := Winner(Department, names, config);
      Priority(ApplyUnmappedPenalty(config.WeightFor(Department, w) * 0.8, d.table[w].wasMapped),
               names.table[w], w, map s | s in names.table && s != w :: names.table[s], true)
  }

  // ---- groups ---------------------------------------------------------------------------------

  ghost function GroupsOf(d: Dict<seq<string>>, s: string): set<string> {
    if s in d.table then Elements(d.table[s]) else {}
  }

  ghost function UnionOf(d: Dict<seq<string>>): set<string> {
    set s, g | s in d.table && g in d.table[s] :: g
  }

  ghost function IntersectionOf(d: Dict<seq<string>>): set<string> {
    set g | g in UnionOf(d) && forall s :: s in d.table ==> g in d.table[s]
  }

  /** The groups of the first source of `order` that is present and not empty. */
  ghost function FirstNonEmpty(d: Dict<seq<string>>, order: seq<string>): set<string> {
    if order == [] then {}
    else if GroupsOf(d, order[0]) != {} then GroupsOf(d, order[0])
    else FirstNonEmpty(d, order[1..])
  }

  /** What a merge strategy means, whatever the order of the sources and of their lists. */
  ghost function Merged(strategy: Strategy, d: Dict<seq<string>>, priority: seq<string>): set<string> {
    match strategy
    case Union => UnionOf(d)
    case Intersection => IntersectionOf(d)
    case Prioritised => FirstNonEmpty(d, priority + SortedOf(d.table.Keys))
  }

  lemma {:induction false} FirstNonEmptyAppend(d: Dict<seq<string>>, before: seq<string>, rest: seq<string>)
    ensures FirstNonEmpty(d, before + rest)
         == if FirstNonEmpty(d, before) != {} then FirstNonEmpty(d, before) else FirstNonEmpty(d, rest)
  {
    if before == [] {
      assert before + rest == rest;
    } else {
      assert (before + rest)[1..] == before[1..] + rest;
      FirstNonEmptyAppend(d, before[1..], rest);
    }
  }

  method IntersectAll(d: Dict<seq<string>>) returns (common: set<string>)
    requires d.Valid() && d.keys != []
    ensures common == IntersectionOf(d)
  {
    common := set g | g in d.table[d.keys[0]];
    for i := 1 to |d.keys|
      invariant forall g :: g in common <==> forall j :: 0 <= j < i ==> g in d.table[d.keys[j]]
    {
      common := common * (set g | g in d.table[d.keys[i]]);
    }
    assert forall g :: g in common ==> g in d.table[d.keys[0]];
    assert forall g :: g in IntersectionOf(d) ==> forall j :: 0 <= j < |d.keys| ==> g in d.table[d.keys[j]];
  }

  method UniteAll(d: Dict<seq<string>>) returns (all: set<string>)
    requires d.Valid()
    ensures all == UnionOf(d)
  {
    all := {};
    for i := 0 to |d.keys|
      invariant forall g :: g in all <==> exists j :: 0 <= j < i && g in d.table[d.keys[j]]
    {
      all := all + (set g | g in d.table[d.keys[i]]);
    }
    forall g | g in UnionOf(d) ensures g in all {
      var s :| s in d.table && g in d.table[s];
      var j :| 0 <= j < |d.keys| && d.keys[j] == s;
    }
  }

  /** Walks `order` to the first source that is present with a non-empty list. */
  method FirstListed(d: Dict<seq<string>>, order: seq<string>) returns (first: set<string>)
    ensures first == FirstNonEmpty(d, order)
  {
    for i := 0 to |order|
      invariant FirstNonEmpty(d, order) == FirstNonEmpty(d, order[i..])
    {
      if order[i] in d.table && d.table[order[i]] != [] {
        assert d.table[order[i]][0] in GroupsOf(d, order[i]);
        return set g | g in d.table[order[i]];
      }
      assert order[i..][1..] == order[i + 1..];
      assert GroupsOf(d, order[i]) == {};
    }
    first := {};
  }

  /** The priority strategy: the configured order first, then all keys in sorted order. */
  method MergePrioritised(d: Dict<seq<string>>, priority: seq<string>) returns (first: set<string>)
    requires d.Valid()
    ensures first == Merged(Prioritised, d, priority)
  {
    var keys := Sort(set s | s in d.keys);
    assert (set s | s in d.keys) == d.table.Keys;
    FirstNonEmptyAppend(d, priority, keys);
    first := FirstListed(d, priority);
    if first == {} {
      first := FirstListed(d, keys);
    }
  }

  /** `_apply_merge_strategy`. */
  method ApplyMergeStrategy(strategy: Strategy, d: Dict<seq<string>>, priority: seq<string>)
    returns (merged: seq<string>)
    requires d.Valid() && d.keys != []
    ensures merged == SortedOf(Merged(strategy, d, priority))
    ensures Ascending(merged)
  {
    var result;
    match strategy {
      case Intersection => result := IntersectAll(d);
      case Prioritised => result := MergePrioritised(d, priority);
      case Union => result := UniteAll(d);
    }
    merged := Sort(result);
  }

  /** The sources that list a group. */
  ghost function Holders(d: Dict<seq<string>>, g: string): set<string> {
    set s | s in d.table && g in d.table[s]
  }

  /** The merged groups that more than one source lists. */
  ghost function Corroborated(d: Dict<seq<string>>, merged: set<string>): set<string> {
    set g | g in merged && |Holders(d, g)| > 1
  }

  ghost function Fraction(d: Dict<seq<string>>, merged: set<string>): real {
    if merged == {} then 0.0 else |Corroborated(d, merged)| as real / |merged| as real
  }

  /** The holders among the given keys. */
  ghost function HoldersAmong(d: Dict<seq<string>>, g: string, keys: seq<string>): set<string> {
    set s | s in Holders(d, g) && s in keys
  }

  lemma HoldersNext(d: Dict<seq<string>>, g: string, i: nat)
    requires d.Valid() && i < |d.keys|
    ensures |HoldersAmong(d, g, d.keys[..i + 1])|
         == |HoldersAmong(d, g, d.keys[..i])| + if g in d.table[d.keys[i]] then 1 else 0
  {
    var before, key := HoldersAmong(d, g, d.keys[..i]), d.keys[i];
    assert d.keys[..i + 1] == d.keys[..i] + [key];
    assert key !in d.keys[..i];
    assert HoldersAmong(d, g, d.keys[..i + 1]) == if g in d.table[key] then before + {key} else before;
  }

  lemma HoldersAmongAll(d: Dict<seq<string>>, g: string)
    requires d.Valid()
    ensures HoldersAmong(d, g, d.keys[..0]) == {} && HoldersAmong(d, g, d.keys[..|d.keys|]) == Holders(d, g)
  {
    assert d.keys[..|d.keys|] == d.keys;
  }

  method CountHolders(d: Dict<seq<string>>, g: string) returns (count: nat)
    requires d.Valid()
    ensures count == |Holders(d, g)|
  {
    count := 0;
    HoldersAmongAll(d, g);
    for i := 0 to |d.keys|
      invariant count == |HoldersAmong(d, g, d.keys[..i])|
    {
      HoldersNext(d, g, i);
      if g in d.table[d.keys[i]] {
        count := count + 1;
      }
    }
  }

  lemma CorroboratedNext(d: Dict<seq<string>>, merged: seq<string>, i: nat)
    requires Ascending(merged) && i < |merged|
    ensures |Corroborated(d, Elements(merged[..i + 1]))|
         == |Corroborated(d, Elements(merged[..i]))| + if |Holders(d, merged[i])| > 1 then 1 else 0
  {
    var before, g := Corroborated(d, Elements(merged[..i])), merged[i];
    LessIsIrreflexive(g);
    assert g !in Elements(merged[..i]);
    assert Elements(merged[..i + 1]) == Elements(merged[..i]) + {g};
    assert Corroborated(d, Elements(merged[..i + 1])) == if |Holders(d, g)| > 1 then before + {g} else before;
  }

  method CountCorroborated(d: Dict<seq<string>>, merged: seq<string>) returns (shared: nat)
    requires d.Valid() && Ascending(merged)
    ensures shared == |Corroborated(d, Elements(merged))|
  {
    shared := 0;
    for i := 0 to |merged|
      invariant shared == |Corroborated(d, Elements(merged[..i]))|
    {
      CorroboratedNext(d, merged, i);
      var holders := CountHolders(d, merged[i]);
      if holders > 1 {
        shared := shared + 1;
      }
    }
    assert merged[..|merged|] == merged;
  }

  ghost function OnlySource(d: Dict<seq<string>>, config: NormalizationConfig): Detail
    requires d.Valid() && |d.keys| == 1
  {
    var only := Elements(d.table[d.keys[0]]);
    ListMerge(config.WeightFor(Groups, d.keys[0]), SortedOf(only), config.MergeStrategyFor(Groups), |only|, d.keys)
  }

  ghost function ManySources(d: Dict<seq<string>>, config: NormalizationConfig): Detail {
    var merged := Merged(config.MergeStrategyFor(Groups), d, config.PriorityFor(Groups));
    ListMerge(0.7 + 0.3 * Fraction(d, merged), SortedOf(merged), config.MergeStrategyFor(Groups), |merged|,
              SortedOf(d.table.Keys))
  }

  /** What the groups resolve to. */
  ghost function GroupsDetail(d: Dict<seq<string>>, config: NormalizationConfig): (r: Detail)
    requires d.Valid() && d.keys != []
    ensures r.ListMerge?
  {
    if |d.keys| == 1 then OnlySource(d, config) else ManySources(d, config)
  }

  /** The fraction of the merged groups that more than one source lists. */
  method CorroboratedShare(d: Dict<seq<string>>, merged: seq<string>) returns (fraction: real)
    requires d.Valid() && Ascending(merged)
    ensures fraction == Fraction(d, Elements(merged))
  {
    fraction := 0.0;
    AscendingLength(merged);
    if merged != [] {
      var shared := CountCorroborated(d, merged);
      fraction := shared as real / |merged| as real;
    }
  }

  method SortedSources(d: Dict<seq<string>>) returns (sources: seq<string>)
    requires d.Valid()
    ensures sources == SortedOf(d.table.Keys)
  {
    sources := Sort(set s | s in d.keys);
    assert (set s | s in d.keys) == d.table.Keys;
  }

  method MergeSources(d: Dict<seq<string>>, config: NormalizationConfig) returns (r: Detail)
    requires d.Valid() && d.keys != []
    ensures r == ManySources(d, config)
  {
    var strategy := config.MergeStrategyFor(Groups);
    var merged := ApplyMergeStrategy(strategy, d, config.PriorityFor(Groups));
    var fraction := CorroboratedShare(d, merged);
    var sources := SortedSources(d);
    AscendingLength(merged);
    r := ListMerge(0.7 + 0.3 * fraction, merged, strategy, |merged|, sources);
  }

  /** `_resolve_groups`. */
  method ResolveGroups(d: Dict<seq<string>>, config: NormalizationConfig) returns (r: Detail)
    requires d.Valid() && d.keys != []
    ensures r == GroupsDetail(d, config)
  {
    if |d.keys| == 1 {
      var merged := Sort(set g | g in d.table[d.keys[0]]);
      return ListMerge(config.WeightFor(Groups, d.keys[0]), merged, config.MergeStrategyFor(Groups), |merged|, d.keys);
    }
    r := MergeSources(d, config);
  }

  // ---- all attributes -------------------------------------------------------------------------

  ghost function DetailOf(t: SourceTable, f: Field, config: NormalizationConfig): (r: Detail)
    requires t.Valid() && t.Contributed(f)
    ensures r.ListMerge? <==> f == Groups
  {
    match f
    case Department => ResolveDepartment(t.department, config)
    case Groups => GroupsDetail(t.groups, config)
    case _ => ResolveText(f, t.TextOf(f), config)
  }

  /** The resolution details: one for every attribute that some source contributed. */
  ghost function DetailsOf(t: SourceTable, config: NormalizationConfig): map<Field, Detail>
    requires t.Valid()
  {
    map f: Field | t.Contributed(f) :: DetailOf(t, f, config)
  }

  /** `per_attr_conf.get(attribute, 0.0)`. */
  function ConfidenceIn(details: map<Field, Detail>, f: Field): real {
    if f in details then details[f].confidence else 0.0
  }

  function ShareIn(details: map<Field, Detail>, f: Field): real {
    Share(f, ConfidenceIn(details, f))
  }

  function WeightedSum(details: map<Field, Detail>): real {
    ShareIn(details, DisplayName) + ShareIn(details, PrimaryEmail) + ShareIn(details, Department)
    + ShareIn(details, EmployeeType) + ShareIn(details, Groups)
  }

  function ValueIn(details: map<Field, Detail>, f: Field): Option<string> {
    if f in details && !details[f].ListMerge? then Some(details[f].value) else None
  }

  function GroupsIn(details: map<Field, Detail>): seq<string> {
    if Groups in details && details[Groups].ListMerge? then details[Groups].values else []
  }

  /** The record returned for a set of details. */
  function Assemble(details: map<Field, Detail>, protocol: string, enrichment: Enrichment): NormalizedAttributes {
    NormalizedAttributes(
      ValueIn(details, DisplayName), ValueIn(details, PrimaryEmail), ValueIn(details, Department),
      ValueIn(details, EmployeeType), GroupsIn(details), protocol, Clamp(WeightedSum(details)), details, enrichment)
  }

  ghost function Resolved(t: SourceTable, config: NormalizationConfig, protocol: string, enrichment: Enrichment)
    : NormalizedAttributes
    requires t.Valid()
  {
    Assemble(DetailsOf(t, config), protocol, enrichment)
  }

  /** The scalar half of `resolve`. */
  method ResolveScalars(t: SourceTable, config: NormalizationConfig) returns (details: map<Field, Detail>)
    requires t.Valid()
    ensures forall f :: f in details <==> f != Groups && t.Contributed(f)
    ensures forall f :: f in details ==> details[f] == DetailOf(t, f, config)
  {
    details := map[];
    var scalars := [DisplayName, PrimaryEmail, Department, EmployeeType];
    for i := 0 to |scalars|
      invariant forall f :: f in details <==> f in scalars[..i] && t.Contributed(f)
      invariant forall f :: f in details ==> f != Groups && details[f] == DetailOf(t, f, config)
    {
      var f := scalars[i];
      assert scalars[..i + 1] == scalars[..i] + [f];
      if t.Contributed(f) {
        var detail := if f == Department then ResolveDepartment(t.department, config)
                      else ResolveText(f, t.TextOf(f), config);
        details := details[f := detail];
      }
    }
    forall f: Field | f != Groups ensures f in scalars[..|scalars|] {
      assert scalars[0] == DisplayName && scalars[1] == PrimaryEmail && scalars[2] == Department
             && scalars[3] == EmployeeType;
    }
  }

  lemma DetailsAreAll(t: SourceTable, config: NormalizationConfig, details: map<Field, Detail>)
    requires t.Valid() && forall f :: f in details <==> t.Contributed(f)
    requires forall f :: f in details ==> details[f] == DetailOf(t, f, config)
    ensures details == DetailsOf(t, config)
  {
  }

  /** `resolve`: the scalars, then the groups, then the weighted sum. */
  method Resolve(t: SourceTable, config: NormalizationConfig, protocol: string, enrichment: Enrichment)
    returns (r: NormalizedAttributes)
    requires t.Valid()
    ensures r == Resolved(t, config, protocol, enrichment)
  {
    var details := ResolveScalars(t, config);
    if t.Contributed(Groups) {
      var detail := ResolveGroups(t.groups, config);
      details := details[Groups := detail];
    }
    DetailsAreAll(t, config, details);
    r := Assemble(details, protocol, enrichment);
  }
}
