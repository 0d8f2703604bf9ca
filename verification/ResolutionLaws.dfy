/** What holds of every resolution. */
module ResolutionLaws {
  import opened Wrappers
  import opened Models
  import opened Config
  import opened Dictionaries
  import opened Ordering
  import opened Resolution
  import opened CanonicalValues
  import opened Sets
  import Text

  // ---- confidences ----------------------------------------------------------------------------

  lemma TextConfidenceInRange(f: Field, d: Dict<string>, config: NormalizationConfig)
    requires d.Valid() && d.keys != [] && d.table.Keys <= PROTOCOLS
    requires config.WeightsInRange(f)
    ensures ResolveText(f, d, config).Valid()
  {
    assert d.keys[0] in d.table;
    SortListSorts(d.keys);
    assert forall s :: s in SortList(d.keys) ==> s in Elements(SortList(d.keys));
  }

  /** The penalty clamps, so a department detail is valid under any weights at all. */
  lemma DepartmentConfidenceInRange(d: Dict<Mapped>, config: NormalizationConfig)
    requires d.Valid() && d.keys != [] && d.table.Keys <= PROTOCOLS
    ensures ResolveDepartment(d, config).Valid()
  {
    assert d.keys[0] in d.table;
    SortListSorts(d.keys);
    assert forall s :: s in SortList(d.keys) ==> s in Elements(SortList(d.keys));
  }

  lemma FractionInRange(d: Dict<seq<string>>, merged: set<string>)
    ensures 0.0 <= Fraction(d, merged) <= 1.0
  {
    SubsetSize(Corroborated(d, merged), merged);
    if merged != {} {
      DivideInRange(|Corroborated(d, merged)|, |merged|);
    }
  }

  lemma DivideInRange(part: nat, whole: nat)
    requires part <= whole && whole > 0
    ensures 0.0 <= part as real / whole as real <= 1.0
  {
  }

  /** Corroborated are the merged groups that two different sources list. */
  lemma CorroboratedIff(d: Dict<seq<string>>, merged: set<string>, g: string)
    ensures g in Corroborated(d, merged) <==>
      g in merged && exists s, t :: s in d.table && t in d.table && s != t && g in d.table[s] && g in d.table[t]
  {
    var holders := Holders(d, g);
    if |holders| > 1 {
      var s :| s in holders;
      assert |holders - {s}| > 0;
      var t :| t in holders - {s};
    }
    if s, t :| s in d.table && t in d.table && s != t && g in d.table[s] && g in d.table[t] {
      SubsetSize({s, t}, holders);
    }
  }

  /** With more than one source, the confidence of the groups lies between 0.7 and 1. */
  lemma GroupsConfidenceInRange(d: Dict<seq<string>>, config: NormalizationConfig)
    requires d.Valid() && d.keys != []
    ensures |d.keys| > 1 ==> 0.7 <= GroupsDetail(d, config).confidence <= 1.0
    ensures d.table.Keys <= PROTOCOLS && config.WeightsInRange(Groups) ==> GroupsDetail(d, config).Valid()
  {
    assert d.keys[0] in d.table;
    FractionInRange(d, Merged(config.MergeStrategyFor(Groups), d, config.PriorityFor(Groups)));
    assert forall s :: s in SortedOf(d.table.Keys) ==> s in Elements(SortedOf(d.table.Keys));
  }

  /** The employee types on offer are literals. */
  ghost predicate LiteralEmployeeTypes(t: SourceTable) {
    forall s :: s in t.TextOf(EmployeeType).table ==> t.TextOf(EmployeeType).table[s] in EMPLOYEE_TYPES
  }

  ghost predicate GoodWeights(config: NormalizationConfig) {
    forall f: Field :: f != Department ==> config.WeightsInRange(f)
  }

  lemma DetailInRange(t: SourceTable, f: Field, config: NormalizationConfig)
    requires t.Valid() && t.KnownSources() && t.Contributed(f)
    requires f != Department ==> config.WeightsInRange(f)
    ensures DetailOf(t, f, config).Valid()
  {
    match f
    case Department => DepartmentConfidenceInRange(t.department, config);
    case Groups => GroupsConfidenceInRange(t.groups, config);
    case _ => TextConfidenceInRange(f, t.TextOf(f), config);
  }

  /** The total importance of the attributes that some source has. */
  ghost function ImportancePresent(t: SourceTable): real {
    (if t.Contributed(DisplayName) then Share(DisplayName, 1.0) else 0.0)
    + (if t.Contributed(PrimaryEmail) then Share(PrimaryEmail, 1.0) else 0.0)
    + (if t.Contributed(Department) then Share(Department, 1.0) else 0.0)
    + (if t.Contributed(EmployeeType) then Share(EmployeeType, 1.0) else 0.0)
    + (if t.Contributed(Groups) then Share(Groups, 1.0) else 0.0)
  }

  /** The overall confidence is exactly the sum of the confidences weighted by importance, for the clamp never acts;
      it is at most the importance of what is known. */
  lemma OverallConfidence(t: SourceTable, config: NormalizationConfig, protocol: string, enrichment: Enrichment)
    requires t.Valid() && t.KnownSources() && GoodWeights(config)
    ensures var r := Resolved(t, config, protocol, enrichment);
      r.confidence == 0.15 * ConfidenceIn(r.details, DisplayName) + 0.25 * ConfidenceIn(r.details, PrimaryEmail)
                      + 0.20 * ConfidenceIn(r.details, Department) + 0.25 * ConfidenceIn(r.details, EmployeeType)
                      + 0.15 * ConfidenceIn(r.details, Groups)
    ensures 0.0 <= Resolved(t, config, protocol, enrichment).confidence <= ImportancePresent(t) <= 1.0
  {
    forall f: Field
      ensures 0.0 <= ShareIn(DetailsOf(t, config), f) <= if t.Contributed(f) then Share(f, 1.0) else 0.0
    {
      if t.Contributed(f) { DetailInRange(t, f, config); }
    }
  }

  lemma ResolvedValueIsContributed(f: Field, d: Dict<string>, config: NormalizationConfig)
    requires d.Valid() && d.keys != []
    ensures exists s :: s in d.table && ResolveText(f, d, config).value == d.table[s]
  {
    assert d.keys[0] in d.table;
  }

  /** Under good weights every resolution passes the schema. */
  lemma ResolvedIsValid(t: SourceTable, config: NormalizationConfig, protocol: string, enrichment: Enrichment)
    requires t.Valid() && t.KnownSources() && LiteralEmployeeTypes(t)
    requires GoodWeights(config) && protocol in PROTOCOLS
    ensures Resolved(t, config, protocol, enrichment).Valid()
  {
    OverallConfidence(t, config, protocol, enrichment);
    forall f: Field | t.Contributed(f) ensures DetailOf(t, f, config).Valid() {
      DetailInRange(t, f, config);
    }
    if t.Contributed(EmployeeType) {
      ResolvedValueIsContributed(EmployeeType, t.TextOf(EmployeeType), config);
    }
  }

  // ---- groups ---------------------------------------------------------------------------------

  lemma {:induction false} FirstNonEmptyIsSomeSource(d: Dict<seq<string>>, order: seq<string>)
    ensures FirstNonEmpty(d, order) == {} ==> forall s :: s in order ==> GroupsOf(d, s) == {}
    ensures FirstNonEmpty(d, order) != {} ==> exists s :: s in order && FirstNonEmpty(d, order) == GroupsOf(d, s)
  {
    if order != [] {
      FirstNonEmptyIsSomeSource(d, order[1..]);
      assert forall s :: s in order <==> s == order[0] || s in order[1..];
    }
  }

  /** Number `i` is the first of `order` that gave any groups. */
  ghost predicate IsFirstWithGroups(d: Dict<seq<string>>, order: seq<string>, i: nat) {
    i < |order| && GroupsOf(d, order[i]) != {} && forall j :: 0 <= j < i ==> GroupsOf(d, order[j]) == {}
  }

  lemma {:induction false} FirstNonEmptyIsFirst(d: Dict<seq<string>>, order: seq<string>) returns (i: nat)
    requires exists s :: s in order && GroupsOf(d, s) != {}
    ensures IsFirstWithGroups(d, order, i) && FirstNonEmpty(d, order) == GroupsOf(d, order[i])
    decreases |order|
  {
    i := 0;
    if GroupsOf(d, order[0]) == {} {
      assert forall s :: s in order <==> s == order[0] || s in order[1..];
      i := FirstNonEmptyIsFirst(d, order[1..]);
      assert forall j :: 0 < j <= i ==> order[j] == order[1..][j - 1];
      i := i + 1;
    }
  }

  /** The priority strategy: the first listed source that gave any groups provides them. */
  lemma ListedGroupsWin(d: Dict<seq<string>>, priority: seq<string>) returns (i: nat)
    requires exists s :: s in priority && GroupsOf(d, s) != {}
    ensures IsFirstWithGroups(d, priority, i) && Merged(Prioritised, d, priority) == GroupsOf(d, priority[i])
  {
    i := FirstNonEmptyIsFirst(d, priority);
    FirstNonEmptyAppend(d, priority, SortedOf(d.table.Keys));
  }

  /** And if no listed source gave any, the first one in the order of the names does. */
  lemma UnlistedGroupsFallBack(d: Dict<seq<string>>, priority: seq<string>) returns (s: string)
    requires forall p :: p in priority ==> GroupsOf(d, p) == {}
    requires exists k :: k in d.table && d.table[k] != []
    ensures s in d.table && d.table[s] != [] && Merged(Prioritised, d, priority) == Elements(d.table[s])
    ensures forall k :: k in d.table && d.table[k] != [] ==> k == s || Less(s, k)
  {
    var keys := SortedOf(d.table.Keys);
    forall k | k in d.table && d.table[k] != [] ensures k in keys && GroupsOf(d, k) != {} {
      assert k in Elements(keys) && d.table[k][0] in GroupsOf(d, k);
    }
    FirstNonEmptyIsSomeSource(d, priority);
    FirstNonEmptyAppend(d, priority, keys);
    var i := FirstNonEmptyIsFirst(d, keys);
    s := keys[i];
    forall k | k in d.table && d.table[k] != [] ensures k == s || Less(s, k) {
      var j :| 0 <= j < |keys| && keys[j] == k;
    }
  }

  /** The strategies are nested: what all sources list, what the first one lists, what any lists. */
  lemma MergeStrategiesAreNested(d: Dict<seq<string>>, priority: seq<string>)
    requires d.Valid() && d.keys != []
    ensures Merged(Intersection, d, priority) <= Merged(Prioritised, d, priority) <= Merged(Union, d, priority)
  {
    var order := priority + SortedOf(d.table.Keys);
    FirstNonEmptyIsSomeSource(d, order);
    assert d.keys[0] in d.table;
    if FirstNonEmpty(d, order) == {} {
      assert d.keys[0] in Elements(SortedOf(d.table.Keys));
      assert GroupsOf(d, d.keys[0]) == {};
      assert IntersectionOf(d) <= GroupsOf(d, d.keys[0]);
    } else {
      var s :| s in order && FirstNonEmpty(d, order) == GroupsOf(d, s);
      assert s in d.table;
    }
  }

  /** The resolved groups are strictly ascending, their count is reported, and each is some source's; the sources
      and the strategy are named. */
  lemma GroupsAreAscending(d: Dict<seq<string>>, config: NormalizationConfig)
    requires d.Valid() && d.keys != []
    ensures var r := GroupsDetail(d, config);
      && Ascending(r.values) && r.total == |r.values| && Elements(r.values) <= UnionOf(d)
      && IsSorted(r.sources, d.table.Keys) && r.strategy == config.MergeStrategyFor(Groups)
  {
    var r := GroupsDetail(d, config);
    AscendingLength(r.values);
    MergeStrategiesAreNested(d, config.PriorityFor(Groups));
    assert d.keys[0] in d.table;
  }

  /** One source: its own groups are what any strategy would have merged. */
  lemma OneSourceNeedsNoStrategy(d: Dict<seq<string>>, strategy: Strategy, priority: seq<string>)
    requires d.Valid() && |d.keys| == 1
    ensures Merged(strategy, d, priority) == Elements(d.table[d.keys[0]])
  {
    var s := d.keys[0];
    assert d.table.Keys == {s};
    assert UnionOf(d) == GroupsOf(d, s);
    assert IntersectionOf(d) == GroupsOf(d, s);
    MergeStrategiesAreNested(d, priority);
  }

  /** Two contributions that differ only in the order of their sources and in the order and the
      repetitions of their lists. */
  ghost predicate SameGroups(a: Dict<seq<string>>, b: Dict<seq<string>>) {
    a.table.Keys == b.table.Keys && forall s :: s in a.table ==> GroupsOf(a, s) == GroupsOf(b, s)
  }

  lemma {:induction false} SameFirstNonEmpty(a: Dict<seq<string>>, b: Dict<seq<string>>, order: seq<string>)
    requires SameGroups(a, b)
    ensures FirstNonEmpty(a, order) == FirstNonEmpty(b, order)
  {
    if order != [] {
      assert GroupsOf(a, order[0]) == GroupsOf(b, order[0]);
      SameFirstNonEmpty(a, b, order[1..]);
    }
  }

  lemma SameListings(a: Dict<seq<string>>, b: Dict<seq<string>>)
    requires SameGroups(a, b)
    ensures forall s, g :: s in a.table ==> (g in a.table[s] <==> g in b.table[s])
  {
    forall s, g | s in a.table ensures g in a.table[s] <==> g in b.table[s] {
      assert GroupsOf(a, s) == GroupsOf(b, s);
      assert g in GroupsOf(a, s) <==> g in a.table[s];
      assert g in GroupsOf(b, s) <==> g in b.table[s];
    }
  }

  lemma SameMerged(a: Dict<seq<string>>, b: Dict<seq<string>>, strategy: Strategy, priority: seq<string>)
    requires SameGroups(a, b)
    ensures Merged(strategy, a, priority) == Merged(strategy, b, priority)
  {
    SameListings(a, b);
    match strategy
    case Union => assert UnionOf(a) == UnionOf(b);
    case Intersection =>
      assert UnionOf(a) == UnionOf(b);
      assert IntersectionOf(a) == IntersectionOf(b);
    case Prioritised => SameFirstNonEmpty(a, b, priority + SortedOf(a.table.Keys));
  }

  lemma SameFraction(a: Dict<seq<string>>, b: Dict<seq<string>>, merged: set<string>)
    requires SameGroups(a, b)
    ensures Fraction(a, merged) == Fraction(b, merged)
  {
    SameListings(a, b);
    forall g ensures Holders(a, g) == Holders(b, g) {
    }
    assert Corroborated(a, merged) == Corroborated(b, merged);
  }

  lemma SameKeyCount(a: Dict<seq<string>>, b: Dict<seq<string>>)
    requires a.Valid() && b.Valid() && a.keys != [] && SameGroups(a, b)
    ensures |a.keys| == |b.keys|
    ensures |a.keys| == 1 ==> a.keys == b.keys && Elements(a.table[a.keys[0]]) == Elements(b.table[b.keys[0]])
  {
    a.SizeIsKeyCount();
    b.SizeIsKeyCount();
    assert |a.table.Keys| == |b.table.Keys|;
    assert a.keys[0] in a.table && b.keys[0] in b.table;
    if |a.keys| == 1 {
      assert b.table.Keys == {b.keys[0]};
      assert a.keys[0] in b.table.Keys;
      assert GroupsOf(a, a.keys[0]) == GroupsOf(b, b.keys[0]);
    }
  }

  lemma SameMany(a: Dict<seq<string>>, b: Dict<seq<string>>, config: NormalizationConfig)
    requires SameGroups(a, b)
    ensures ManySources(a, config) == ManySources(b, config)
  {
    SameMerged(a, b, config.MergeStrategyFor(Groups), config.PriorityFor(Groups));
    SameFraction(a, b, Merged(config.MergeStrategyFor(Groups), a, config.PriorityFor(Groups)));
  }

  lemma SameOnly(a: Dict<seq<string>>, b: Dict<seq<string>>, config: NormalizationConfig)
    requires a.Valid() && b.Valid() && SameGroups(a, b) && |a.keys| == 1 && |b.keys| == 1
    ensures OnlySource(a, config) == OnlySource(b, config)
  {
    SameKeyCount(a, b);
  }

  /** The result does not depend on the order of the sources, nor on order or repetitions in a list. */
  lemma GroupsIgnoreOrder(a: Dict<seq<string>>, b: Dict<seq<string>>, config: NormalizationConfig)
    requires a.Valid() && b.Valid() && a.keys != [] && SameGroups(a, b)
    ensures b.keys != [] && GroupsDetail(a, config) == GroupsDetail(b, config)
  {
    SameKeyCount(a, b);
    if |a.keys| == 1 {
      SameOnly(a, b, config);
    } else {
      SameMany(a, b, config);
    }
  }

  /** Two sources with the given lists. */
  function Pair(x: string, xs: seq<string>, y: string, ys: seq<string>): (d: Dict<seq<string>>)
    requires x != y
    ensures d.Valid()
  {
    Dict([x, y], map[x := xs, y := ys])
  }

  lemma PairFacts(x: string, xs: seq<string>, y: string, ys: seq<string>)
    requires x != y
    ensures var d := Pair(x, xs, y, ys);
      && UnionOf(d) == Elements(xs) + Elements(ys)
      && IntersectionOf(d) == Elements(xs) * Elements(ys)
      && forall merged :: Corroborated(d, merged) == merged * Elements(xs) * Elements(ys)
  {
    var d := Pair(x, xs, y, ys);
    assert d.table[x] == xs && d.table[y] == ys;
    forall g ensures |Holders(d, g)| > 1 <==> g in xs && g in ys {
      assert Holders(d, g) == (if g in xs then {x} else {}) + (if g in ys then {y} else {});
    }
    forall merged ensures Corroborated(d, merged) == merged * Elements(xs) * Elements(ys) {
    }
  }

  /** `_corroborated_fraction` of the demo. */
  function CorroboratedFraction(confidence: real): real {
    (confidence - 0.7) / 0.3
  }

  lemma FractionRoundTrip(x: real)
    ensures CorroboratedFraction(0.7 + 0.3 * x) == x
  {
  }

  /** Union of two sources: the fraction is the shared part of the union. */
  lemma TwoSourceUnion(x: string, xs: seq<string>, y: string, ys: seq<string>, config: NormalizationConfig)
    requires x != y && xs + ys != [] && config.MergeStrategyFor(Groups) == Union
    ensures var both, all := Elements(xs) * Elements(ys), Elements(xs) + Elements(ys);
      && |all| > 0
      && GroupsDetail(Pair(x, xs, y, ys), config).confidence == 0.7 + 0.3 * (|both| as real / |all| as real)
  {
    PairFacts(x, xs, y, ys);
    assert (xs + ys)[0] in Elements(xs) + Elements(ys);
    assert (Elements(xs) + Elements(ys)) * Elements(xs) * Elements(ys) == Elements(xs) * Elements(ys);
  }

  /** Intersection of two sources: full confidence when they share a group, the floor when not. */
  lemma TwoSourceIntersection(x: string, xs: seq<string>, y: string, ys: seq<string>, config: NormalizationConfig)
    requires x != y && config.MergeStrategyFor(Groups) == Intersection
    ensures GroupsDetail(Pair(x, xs, y, ys), config).confidence
         == if Elements(xs) * Elements(ys) != {} then 1.0 else 0.7
  {
    MergedConfidence(Pair(x, xs, y, ys), config);
    PairIntersection(x, xs, y, ys);
  }

  lemma MergedConfidence(d: Dict<seq<string>>, config: NormalizationConfig)
    requires d.Valid() && |d.keys| > 1
    ensures GroupsDetail(d, config).confidence
         == 0.7 + 0.3 * Fraction(d, Merged(config.MergeStrategyFor(Groups), d, config.PriorityFor(Groups)))
  {
  }

  lemma PairIntersection(x: string, xs: seq<string>, y: string, ys: seq<string>)
    requires x != y
    ensures var d, both := Pair(x, xs, y, ys), Elements(xs) * Elements(ys);
      IntersectionOf(d) == both && Fraction(d, both) == if both != {} then 1.0 else 0.0
  {
    PairFacts(x, xs, y, ys);
    var both := Elements(xs) * Elements(ys);
    assert both * Elements(xs) * Elements(ys) == both;
    if both != {} {
      DivideBySelf(|both|);
    }
  }

  lemma DivideBySelf(n: nat)
    requires n > 0
    ensures n as real / n as real == 1.0
  {
  }

  /** From the reported confidence alone the demo reads off the corroborated fraction, exactly. */
  lemma DemoRecoversFraction(d: Dict<seq<string>>, config: NormalizationConfig)
    requires d.Valid() && |d.keys| > 1
    ensures CorroboratedFraction(GroupsDetail(d, config).confidence)
         == Fraction(d, Merged(config.MergeStrategyFor(Groups), d, config.PriorityFor(Groups)))
  {
    FractionRoundTrip(Fraction(d, Merged(config.MergeStrategyFor(Groups), d, config.PriorityFor(Groups))));
  }

  // ---- provenance -----------------------------------------------------------------------------

  /** Who said what, read from a scalar detail alone. */
  function Provenance(detail: Detail): map<string, string>
    requires !detail.ListMerge?
  {
    match detail
    case SingleSource(_, value, sources) => map s | s in sources :: value
    case Unanimous(_, value, sources) => map s | s in sources :: value
    case Priority(_, value, winner, conflicting, _) => conflicting[winner := value]
  }

  /** Sources that agree are named in order. */
  lemma SourcesAscend(t: SourceTable, f: Field, config: NormalizationConfig)
    requires t.Valid() && t.Contributed(f) && !DetailOf(t, f, config).Priority?
    ensures Ascending(DetailOf(t, f, config).sources)
  {
    match f
    case Department => SortListSorts(t.department.keys);
    case Groups =>
    case _ => SortListSorts(t.TextOf(f).keys);
  }

  lemma RebuildAgreed(d: Dict<string>, sources: seq<string>, v: string)
    requires AllSay(d, v) && forall s :: s in sources <==> s in d.table
    ensures (map s | s in sources :: v) == d.table
  {
  }

  lemma RebuildSplit(table: map<string, string>, winner: string)
    requires winner in table
    ensures (map s | s in table && s != winner :: table[s])[winner := table[winner]] == table
  {
  }

  lemma SortedKeys(d: Dict<string>)
    requires d.Valid()
    ensures forall s :: s in SortList(d.keys) <==> s in d.table
  {
    SortListSorts(d.keys);
    assert forall s :: s in SortList(d.keys) <==> s in Elements(SortList(d.keys));
    assert forall s :: s in d.keys <==> s in Elements(d.keys);
  }

  lemma OneKeyAgrees<V>(d: Dict<V>)
    requires d.Valid() && |d.keys| == 1
    ensures d.keys[0] in d.table && AllSay(d, d.table[d.keys[0]])
  {
    assert forall s :: s in d.table ==> s in d.keys;
  }

  /** No contribution is lost: the detail rebuilds the source-to-value map it came from. */
  lemma ScalarProvenance(f: Field, d: Dict<string>, config: NormalizationConfig)
    requires d.Valid() && d.keys != []
    ensures Provenance(ResolveText(f, d, config)) == d.table
  {
    assert d.keys[0] in d.table;
    var v := d.table[d.keys[0]];
    if |d.keys| == 1 {
      OneKeyAgrees(d);
      RebuildAgreed(d, d.keys, v);
    } else if AllEqual(d) {
      AllEqualMeansAgreement(d);
      SortedKeys(d);
      RebuildAgreed(d, SortList(d.keys), v);
    } else {
      RebuildSplit(d.table, Winner(f, d, config));
    }
  }

  lemma DepartmentProvenance(d: Dict<Mapped>, config: NormalizationConfig)
    requires d.Valid() && d.keys != []
    ensures Provenance(ResolveDepartment(d, config)) == Names(d).table
  {
    var names := Names(d);
    assert d.keys[0] in d.table;
    var v := names.table[d.keys[0]];
    if |d.keys| == 1 {
      OneKeyAgrees(names);
      RebuildAgreed(names, d.keys, v);
    } else if AllEqual(names) {
      AllEqualMeansAgreement(names);
      SortedKeys(names);
      RebuildAgreed(names, SortList(d.keys), v);
    } else {
      RebuildSplit(names.table, Winner(Department, names, config));
    }
  }

  /** The flags are those the service computes from the values. */
  ghost predicate ServiceFlags(d: Dict<Mapped>) {
    forall s :: s in d.table ==> d.table[s].wasMapped == WasDepartmentMapped(d.table[s].value)
  }

  /** For departments built by the service the flags are rebuilt as well. */
  lemma DepartmentFlagProvenance(d: Dict<Mapped>, config: NormalizationConfig)
    requires d.Valid() && d.keys != [] && ServiceFlags(d)
    ensures var said := Provenance(ResolveDepartment(d, config));
      d.table == map s | s in said :: Mapped(said[s], WasDepartmentMapped(said[s]))
  {
    DepartmentProvenance(d, config);
  }

  // ---- agreement and disagreement ---------------------------------------------------------------

  ghost predicate AllSay<V>(d: Dict<V>, v: V) {
    forall s :: s in d.table ==> d.table[s] == v
  }

  lemma AgreementIsUnanimous<V>(d: Dict<V>, v: V)
    requires d.Valid() && d.keys != [] && AllSay(d, v)
    ensures AllEqual(d)
  {
    AllEqualMeansAgreement(d);
  }

  /** What agreeing sources resolve to: their greatest weight. */
  lemma AgreedConfidence(f: Field, d: Dict<string>, v: string, config: NormalizationConfig)
    requires d.Valid() && d.keys != [] && AllSay(d, v)
    ensures ResolveText(f, d, config).confidence == MaxWeight(f, d.keys, config)
    ensures ResolveText(f, d, config).value == v
  {
    AgreementIsUnanimous(d, v);
    assert d.keys[0] in d.table;
  }

  lemma MoreKeysMoreWeight(f: Field, few: seq<string>, more: seq<string>, config: NormalizationConfig)
    requires few != [] && more != [] && forall k :: k in few ==> k in more
    ensures MaxWeight(f, few, config) <= MaxWeight(f, more, config)
  {
  }

  /** A further source that agrees never lowers the confidence. */
  lemma AgreementNeverLowers(f: Field, d: Dict<string>, v: string, newcomer: string, config: NormalizationConfig)
    requires d.Valid() && d.keys != [] && AllSay(d, v) && newcomer !in d.table
    ensures ResolveText(f, d.Put(newcomer, v), config).confidence >= ResolveText(f, d, config).confidence
    ensures ResolveText(f, d.Put(newcomer, v), config).value == ResolveText(f, d, config).value
  {
    AgreedConfidence(f, d, v, config);
    AgreedConfidence(f, d.Put(newcomer, v), v, config);
    MoreKeysMoreWeight(f, d.keys, d.Put(newcomer, v).keys, config);
  }

  lemma AgreedDepartmentConfidence(d: Dict<Mapped>, v: string, config: NormalizationConfig)
    requires d.Valid() && d.keys != [] && forall s :: s in d.table ==> d.table[s].value == v
    ensures ResolveDepartment(d, config).confidence
         == ApplyUnmappedPenalty(MaxWeight(Department, d.keys, config), AllMapped(d))
    ensures ResolveDepartment(d, config).value == v
  {
    AgreementIsUnanimous(Names(d), v);
    assert d.keys[0] in d.table;
    if |d.keys| == 1 {
      assert forall s :: s in d.table ==> s in d.keys;
    }
  }

  /** The same for departments, as long as the newcomer is not the first to report the value as
      unmapped. */
  lemma DepartmentAgreementNeverLowers(d: Dict<Mapped>, v: string, newcomer: string, flag: bool,
                                       config: NormalizationConfig)
    requires d.Valid() && d.keys != [] && newcomer !in d.table
    requires forall s :: s in d.table ==> d.table[s].value == v
    requires flag || !AllMapped(d)
    ensures ResolveDepartment(d.Put(newcomer, Mapped(v, flag)), config).confidence
         >= ResolveDepartment(d, config).confidence
  {
    NewcomerAgrees(d, v, newcomer, flag);
    NewcomerOnlyAdds(d, newcomer, Mapped(v, flag), config);
    AgreedScores(d, d.Put(newcomer, Mapped(v, flag)), v, config);
  }

  lemma NewcomerAgrees(d: Dict<Mapped>, v: string, newcomer: string, flag: bool)
    requires d.Valid() && d.keys != [] && forall s :: s in d.table ==> d.table[s].value == v
    ensures var more := d.Put(newcomer, Mapped(v, flag));
      more.Valid() && more.keys != [] && forall s :: s in more.table ==> more.table[s].value == v
  {
  }

  lemma AgreedScores(d: Dict<Mapped>, more: Dict<Mapped>, v: string, config: NormalizationConfig)
    requires d.Valid() && d.keys != [] && forall s :: s in d.table ==> d.table[s].value == v
    requires more.Valid() && more.keys != [] && forall s :: s in more.table ==> more.table[s].value == v
    requires ApplyUnmappedPenalty(MaxWeight(Department, d.keys, config), AllMapped(d))
          <= ApplyUnmappedPenalty(MaxWeight(Department, more.keys, config), AllMapped(more))
    ensures ResolveDepartment(d, config).confidence <= ResolveDepartment(more, config).confidence
  {
    AgreedDepartmentConfidence(d, v, config);
    AgreedDepartmentConfidence(more, v, config);
  }

  lemma NewcomerOnlyAdds(d: Dict<Mapped>, newcomer: string, said: Mapped, config: NormalizationConfig)
    requires d.keys != [] && newcomer !in d.table && (said.wasMapped || !AllMapped(d))
    ensures var more := d.Put(newcomer, said);
      ApplyUnmappedPenalty(MaxWeight(Department, d.keys, config), AllMapped(d))
      <= ApplyUnmappedPenalty(MaxWeight(Department, more.keys, config), AllMapped(more))
  {
    var more := d.Put(newcomer, said);
    MoreKeysMoreWeight(Department, d.keys, more.keys, config);
    NewcomerKeepsStatus(d, newcomer, said);
    PenaltyIsMonotone(MaxWeight(Department, d.keys, config), MaxWeight(Department, more.keys, config), AllMapped(d));
  }

  lemma NewcomerKeepsStatus(d: Dict<Mapped>, newcomer: string, said: Mapped)
    requires newcomer !in d.table && (said.wasMapped || !AllMapped(d))
    ensures AllMapped(d.Put(newcomer, said)) <==> AllMapped(d)
  {
    var more := d.Put(newcomer, said);
    assert forall s :: s in d.table ==> s in more.table && more.table[s] == d.table[s];
  }

  /** The service computes every flag from the value, so there the proviso always holds. */
  lemma ServiceAgreementNeverLowers(d: Dict<Mapped>, v: string, newcomer: string, config: NormalizationConfig)
    requires d.Valid() && d.keys != [] && newcomer !in d.table && ServiceFlags(d)
    requires forall s :: s in d.table ==> d.table[s].value == v
    ensures ResolveDepartment(d.Put(newcomer, Mapped(v, WasDepartmentMapped(v))), config).confidence
         >= ResolveDepartment(d, config).confidence
  {
    assert d.keys[0] in d.table;
    DepartmentAgreementNeverLowers(d, v, newcomer, WasDepartmentMapped(v), config);
  }

  /** The same sources, all saying `v`. */
  function Agreeing<V>(keys: seq<string>, v: V): (d: Dict<V>)
    ensures (forall i, j :: 0 <= i < j < |keys| ==> keys[i] != keys[j]) ==> d.Valid()
  {
    Dict(keys, map s | s in keys :: v)
  }

  lemma WinnerWeighsAtMostMax(f: Field, d: Dict<string>, config: NormalizationConfig)
    requires d.Valid() && d.keys != []
    requires forall s :: s in d.table ==> 0.0 <= config.WeightFor(f, s)
    ensures 0.0 <= config.WeightFor(f, Winner(f, d, config)) <= MaxWeight(f, d.keys, config)
  {
    assert Winner(f, d, config) in d.keys;
  }

  lemma FourFifths(weight: real, most: real)
    requires 0.0 <= weight <= most
    ensures weight * 0.8 <= most && (most > 0.0 ==> weight * 0.8 < most)
  {
  }

  lemma TextPriority(f: Field, d: Dict<string>, config: NormalizationConfig)
    requires d.Valid() && |d.keys| > 1 && !AllEqual(d)
    ensures ResolveText(f, d, config).confidence == config.WeightFor(f, Winner(f, d, config)) * 0.8
  {
  }

  lemma OneKeyWeight(f: Field, d: Dict<string>, config: NormalizationConfig)
    requires d.Valid() && d.keys != [] && (|d.keys| == 1 || AllEqual(d))
    ensures ResolveText(f, d, config).confidence == MaxWeight(f, d.keys, config)
  {
  }

  /** Disagreeing sources never score above the same sources agreeing on the resolved value, and below them
      as soon as any source has weight. */
  lemma DisagreementNeverScoresHigher(f: Field, d: Dict<string>, config: NormalizationConfig)
    requires d.Valid() && d.keys != []
    requires forall s :: s in d.table ==> 0.0 <= config.WeightFor(f, s)
    ensures var agreed := ResolveText(f, Agreeing(d.keys, ResolveText(f, d, config).value), config).confidence;
      && ResolveText(f, d, config).confidence <= agreed
      && ((|d.keys| > 1 && !AllEqual(d) && exists s :: s in d.table && config.WeightFor(f, s) > 0.0) ==>
            ResolveText(f, d, config).confidence < agreed)
  {
    AgreedConfidence(f, Agreeing(d.keys, ResolveText(f, d, config).value), ResolveText(f, d, config).value, config);
    ConfidenceAtMostMax(f, d, config);
    assert forall s :: s in d.table ==> s in d.keys;
  }

  lemma ConfidenceAtMostMax(f: Field, d: Dict<string>, config: NormalizationConfig)
    requires d.Valid() && d.keys != []
    requires forall s :: s in d.table ==> 0.0 <= config.WeightFor(f, s)
    ensures ResolveText(f, d, config).confidence <= MaxWeight(f, d.keys, config)
    ensures |d.keys| > 1 && !AllEqual(d) && MaxWeight(f, d.keys, config) > 0.0
      ==> ResolveText(f, d, config).confidence < MaxWeight(f, d.keys, config)
  {
    if |d.keys| > 1 && !AllEqual(d) {
      TextPriority(f, d, config);
      WinnerWeighsAtMostMax(f, d, config);
      FourFifths(config.WeightFor(f, Winner(f, d, config)), MaxWeight(f, d.keys, config));
    } else {
      OneKeyWeight(f, d, config);
    }
  }

  /** The same contributions, all flagged alike. */
  function WithFlag(d: Dict<Mapped>, flag: bool): (r: Dict<Mapped>)
    ensures d.Valid() ==> r.Valid()
    ensures Names(r) == Names(d)
  {
    Dict(d.keys, map s | s in d.table :: Mapped(d.table[s].value, flag))
  }

  /** What a department scores before the penalty. */
  function Unpenalised(d: Dict<Mapped>, config: NormalizationConfig): real
    requires d.Valid() && d.keys != []
  {
    if AllEqual(Names(d)) || |d.keys| == 1 then MaxWeight(Department, d.keys, config)
    else config.WeightFor(Department, Winner(Department, Names(d), config)) * 0.8
  }

  lemma FlaggedConfidence(d: Dict<Mapped>, flag: bool, config: NormalizationConfig)
    requires d.Valid() && d.keys != []
    ensures ResolveDepartment(WithFlag(d, flag), config).confidence
         == ApplyUnmappedPenalty(Unpenalised(d, config), flag)
  {
    var r := WithFlag(d, flag);
    assert d.keys[0] in r.table;
    assert AllMapped(r) == flag;
  }

  /** A mapped department costs nothing, and an unmapped one exactly 0.2, but never takes the confidence below 0. */
  lemma UnmappedPenaltyIsExact(d: Dict<Mapped>, config: NormalizationConfig)
    requires d.Valid() && d.keys != [] && d.table.Keys <= PROTOCOLS && config.WeightsInRange(Department)
    ensures ResolveDepartment(WithFlag(d, true), config).confidence == Unpenalised(d, config)
    ensures ResolveDepartment(WithFlag(d, false), config).confidence
         == if Unpenalised(d, config) < 0.2 then 0.0 else Unpenalised(d, config) - 0.2
  {
    FlaggedConfidence(d, false, config);
    FlaggedConfidence(d, true, config);
    UnpenalisedInRange(d, config);
    PenaltyOf(Unpenalised(d, config));
  }

  lemma PenaltyOf(x: real)
    requires 0.0 <= x <= 1.0
    ensures ApplyUnmappedPenalty(x, true) == x && ApplyUnmappedPenalty(x, false) == if x < 0.2 then 0.0 else x - 0.2
  {
  }

  lemma UnpenalisedInRange(d: Dict<Mapped>, config: NormalizationConfig)
    requires d.Valid() && d.keys != [] && d.table.Keys <= PROTOCOLS && config.WeightsInRange(Department)
    ensures 0.0 <= Unpenalised(d, config) <= 1.0
  {
    assert forall k :: k in d.keys ==> 0.0 <= config.WeightFor(Department, k) <= 1.0;
  }

  lemma PenaltyIsMonotone(a: real, b: real, wasMapped: bool)
    requires a <= b
    ensures ApplyUnmappedPenalty(a, wasMapped) <= ApplyUnmappedPenalty(b, wasMapped)
  {
  }

  lemma DepartmentPriority(d: Dict<Mapped>, config: NormalizationConfig)
    requires d.Valid() && |d.keys| > 1 && !AllEqual(Names(d))
    ensures var r, w := ResolveDepartment(d, config), Winner(Department, Names(d), config);
      && r.Priority? && r.winner == w && w in d.table
      && r.confidence == ApplyUnmappedPenalty(config.WeightFor(Department, w) * 0.8, d.table[w].wasMapped)
  {
  }

  lemma AgreeingDepartment(keys: seq<string>, said: Mapped, config: NormalizationConfig)
    requires keys != [] && forall i, j :: 0 <= i < j < |keys| ==> keys[i] != keys[j]
    ensures ResolveDepartment(Agreeing(keys, said), config).confidence
         == ApplyUnmappedPenalty(MaxWeight(Department, keys, config), said.wasMapped)
  {
    var d := Agreeing(keys, said);
    AgreedDepartmentConfidence(d, said.value, config);
    assert keys[0] in d.table;
  }

  /** The same for a disagreement about the department, with the winner's mapped status kept. */
  lemma DepartmentDisagreementNeverScoresHigher(d: Dict<Mapped>, config: NormalizationConfig)
    requires d.Valid() && |d.keys| > 1 && !AllEqual(Names(d))
    requires forall s :: s in d.table ==> 0.0 <= config.WeightFor(Department, s)
    ensures var r := ResolveDepartment(d, config); r.Priority? && r.winner in d.table
    ensures var r := ResolveDepartment(d, config);
      r.confidence <= ResolveDepartment(Agreeing(d.keys, d.table[r.winner]), config).confidence
  {
    DepartmentPriority(d, config);
    var w := Winner(Department, Names(d), config);
    AgreeingDepartment(d.keys, d.table[w], config);
    WinnerWeighsAtMostMax(Department, Names(d), config);
    FourFifths(config.WeightFor(Department, w), MaxWeight(Department, d.keys, config));
    PenaltyIsMonotone(config.WeightFor(Department, w) * 0.8, MaxWeight(Department, d.keys, config),
                      d.table[w].wasMapped);
  }

  /** Raw departments resolve unanimously exactly when they are spellings or aliases of one
      department; in that case the sources never fall back to priority. */
  lemma AliasesAreUnanimous(raw: Dict<string>, d: Dict<Mapped>, config: NormalizationConfig)
    requires raw.Valid() && d.Valid() && d.keys == raw.keys && |d.keys| > 1
    requires forall s :: s in raw.table ==> Text.Ascii(raw.table[s])
    requires forall s :: s in raw.table ==> s in d.table && d.table[s].value == CanonicalValues.Department(raw.table[s])
    ensures ResolveDepartment(d, config).Unanimous?
       <==> forall s :: s in raw.table ==> SameDepartment(raw.table[s], raw.table[raw.keys[0]])
  {
    var names := Names(d);
    AllEqualMeansAgreement(names);
    var first := raw.keys[0];
    assert first in raw.table;
    forall s | s in raw.table
      ensures names.table[s] == names.table[first] <==> SameDepartment(raw.table[s], raw.table[first])
    {
      DepartmentsAgreeIff(raw.table[s], raw.table[first]);
    }
    assert forall s :: s in names.table <==> s in raw.table;
  }
}
