/** What a resolved record tells of its sources: who gave what, whose value stands, and why. */
module Explanations {
  import opened Wrappers
  import opened Models
  import opened Config
  import opened Dictionaries
  import opened Ordering
  import opened Resolution
  import opened ResolutionLaws
  import opened Contributions

  /** Who gave what for a scalar, read from the record alone. */
  function Said(n: NormalizedAttributes, f: Field): map<string, string> {
    if f in n.details && !n.details[f].ListMerge? then Provenance(n.details[f]) else map[]
  }

  /** Who gave groups, read from the record alone. */
  function Listing(n: NormalizedAttributes): seq<string> {
    if Groups in n.details && n.details[Groups].ListMerge? then n.details[Groups].sources else []
  }

  function Of(said: map<string, string>, source: string): Option<string> {
    if source in said then Some(said[source]) else None
  }

  const NOTHING := Unified(None, None, None, None, [])

  /** The record tells that `source` gave just the attributes of `u`. */
  ghost predicate Credits(n: NormalizedAttributes, source: string, u: Unified) {
    && Of(Said(n, DisplayName), source) == u.displayName
    && Of(Said(n, PrimaryEmail), source) == u.primaryEmail
    && Of(Said(n, Department), source) == u.department
    && Of(Said(n, EmployeeType), source) == u.employeeType
    && (source in Listing(n) <==> u.groups != [])
  }

  lemma TextIsSaid(t: SourceTable, f: Field, config: NormalizationConfig, protocol: string, enrichment: Enrichment)
    requires t.Valid() && f in TEXT_FIELDS
    ensures Said(Resolved(t, config, protocol, enrichment), f) == t.TextOf(f).table
  {
    if t.Contributed(f) {
      ScalarProvenance(f, t.TextOf(f), config);
    }
  }

  lemma DepartmentIsSaid(t: SourceTable, config: NormalizationConfig, protocol: string, enrichment: Enrichment)
    requires t.Valid()
    ensures Said(Resolved(t, config, protocol, enrichment), Department) == Names(t.department).table
  {
    if t.Contributed(Department) {
      DepartmentProvenance(t.department, config);
    }
  }

  lemma GroupsAreListed(t: SourceTable, config: NormalizationConfig, protocol: string, enrichment: Enrichment)
    requires t.Valid()
    ensures forall s :: s in Listing(Resolved(t, config, protocol, enrichment)) <==> s in t.groups.table
  {
    var keys := t.groups.table.Keys;
    assert forall s :: s in SortedOf(keys) <==> s in Elements(SortedOf(keys));
  }

  /** No contribution is lost: the record tells of every source all that it gave, and nothing else. */
  lemma NothingIsLost(t: SourceTable, config: NormalizationConfig, protocol: string, enrichment: Enrichment,
                      source: string)
    requires t.Valid() && forall s :: s in t.groups.table ==> t.groups.table[s] != []
    ensures Credits(Resolved(t, config, protocol, enrichment), source, Given(t, source))
  {
    TextIsSaid(t, DisplayName, config, protocol, enrichment);
    TextIsSaid(t, PrimaryEmail, config, protocol, enrichment);
    TextIsSaid(t, EmployeeType, config, protocol, enrichment);
    DepartmentIsSaid(t, config, protocol, enrichment);
    GroupsAreListed(t, config, protocol, enrichment);
  }

  // ---- what a source gave ---------------------------------------------------------------------------

  /** What a source gave, attribute by attribute. */
  ghost function Given(t: SourceTable, source: string): Unified {
    Unified(Of(t.TextOf(DisplayName).table, source), Of(t.TextOf(PrimaryEmail).table, source),
            Of(Names(t.department).table, source), Of(t.TextOf(EmployeeType).table, source),
            if source in t.groups.table then t.groups.table[source] else [])
  }

  /** A contribution is what its source gave; of the others it changes nothing. */
  lemma RecordedIsGiven(before: SourceTable, after: SourceTable, source: string, u: Unified, s: string)
    requires AllRecorded(before, after, source, u) && Given(before, source) == NOTHING
    requires forall k :: k in before.groups.table ==> before.groups.table[k] != []
    ensures Given(after, s) == if s == source then u else Given(before, s)
    ensures forall k :: k in after.groups.table ==> after.groups.table[k] != []
  {
  }

  // ---- the fields of the record ---------------------------------------------------------------------

  /** Absent exactly when nobody gave anything, and otherwise what somebody gave. */
  ghost predicate IsSomeones(value: Option<string>, given: map<string, string>) {
    match value
    case None => given == map[]
    case Some(v) => exists s :: s in given && given[s] == v
  }

  lemma TextIsSomeones(t: SourceTable, f: Field, config: NormalizationConfig)
    requires t.Valid() && f in TEXT_FIELDS
    ensures IsSomeones(ValueIn(DetailsOf(t, config), f), t.TextOf(f).table)
  {
    if t.Contributed(f) {
      ResolvedValueIsContributed(f, t.TextOf(f), config);
    }
  }

  lemma DepartmentIsSomeones(t: SourceTable, config: NormalizationConfig)
    requires t.Valid()
    ensures IsSomeones(ValueIn(DetailsOf(t, config), Department), Names(t.department).table)
  {
    if t.Contributed(Department) {
      assert t.department.keys[0] in t.department.table;
    }
  }

  /** Every scalar of the record is absent exactly when no source gave that attribute, and otherwise what some
      source gave for that same attribute; the groups are those of the merge. */
  lemma FieldsAreSources(t: SourceTable, config: NormalizationConfig, protocol: string, enrichment: Enrichment)
    requires t.Valid()
    ensures var r := Resolved(t, config, protocol, enrichment);
      && IsSomeones(r.displayName, t.TextOf(DisplayName).table)
      && IsSomeones(r.primaryEmail, t.TextOf(PrimaryEmail).table)
      && IsSomeones(r.department, Names(t.department).table)
      && IsSomeones(r.employeeType, t.TextOf(EmployeeType).table)
      && Ascending(r.groups)
      && Elements(r.groups) == Merged(config.MergeStrategyFor(Groups), t.groups, config.PriorityFor(Groups))
      && r.sourceProtocol == protocol && r.enrichment == enrichment
  {
    TextIsSomeones(t, DisplayName, config);
    TextIsSomeones(t, PrimaryEmail, config);
    TextIsSomeones(t, EmployeeType, config);
    DepartmentIsSomeones(t, config);
    GroupsAreMerged(t.groups, config);
  }

  lemma GroupsAreMerged(d: Dict<seq<string>>, config: NormalizationConfig)
    requires d.Valid()
    ensures var groups := if d.keys == [] then [] else GroupsDetail(d, config).values;
      IsSorted(groups, Merged(config.MergeStrategyFor(Groups), d, config.PriorityFor(Groups)))
  {
    if d.keys == [] {
      assert d.table.Keys == {};
      NothingToMerge(d, config.PriorityFor(Groups));
    } else if |d.keys| == 1 {
      OneSourceNeedsNoStrategy(d, config.MergeStrategyFor(Groups), config.PriorityFor(Groups));
    }
  }

  lemma NothingToMerge(d: Dict<seq<string>>, priority: seq<string>)
    requires d.table.Keys == {}
    ensures forall strategy :: Merged(strategy, d, priority) == {}
  {
    FirstNonEmptyIsSomeSource(d, priority + SortedOf(d.table.Keys));
  }

  /** The same, read from the record alone: a field is the value of its detail, and what some source is said to
      have given for it. */
  ghost predicate IsSaid(n: NormalizedAttributes, f: Field, value: Option<string>) {
    && IsSomeones(value, Said(n, f))
    && (value.Some? <==> f in n.details)
    && (value.Some? ==> !n.details[f].ListMerge? && n.details[f].value == value.value)
  }

  ghost predicate FieldsAreSaid(n: NormalizedAttributes) {
    && IsSaid(n, DisplayName, n.displayName) && IsSaid(n, PrimaryEmail, n.primaryEmail)
    && IsSaid(n, Department, n.department) && IsSaid(n, EmployeeType, n.employeeType)
    && n.groups == if Groups in n.details && n.details[Groups].ListMerge? then n.details[Groups].values else []
  }

  lemma ResolvedIsSaid(t: SourceTable, config: NormalizationConfig, protocol: string, enrichment: Enrichment)
    requires t.Valid()
    ensures FieldsAreSaid(Resolved(t, config, protocol, enrichment))
  {
    FieldsAreSources(t, config, protocol, enrichment);
    TextIsSaid(t, DisplayName, config, protocol, enrichment);
    TextIsSaid(t, PrimaryEmail, config, protocol, enrichment);
    TextIsSaid(t, EmployeeType, config, protocol, enrichment);
    DepartmentIsSaid(t, config, protocol, enrichment);
  }

  // ---- why this value -------------------------------------------------------------------------------

  /** Where the sources disagreed: of those with a value the first that the priority list names wins, and if it
      names none the heaviest, of equals the one that came first. */
  ghost predicate IsDecided(f: Field, keys: seq<string>, config: NormalizationConfig, detail: Detail) {
    detail.Priority? ==>
      && detail.penaltyApplied
      && if exists p :: p in config.PriorityFor(f) && p in keys
         then WinsByList(config.PriorityFor(f), keys, detail.winner)
         else WinsByWeight(f, keys, config, detail.winner)
  }

  ghost predicate WinsByList(priority: seq<string>, keys: seq<string>, winner: string) {
    exists i: nat :: i < |priority| && priority[i] == winner && winner in keys
                     && forall j :: 0 <= j < i ==> priority[j] !in keys
  }

  ghost predicate WinsByWeight(f: Field, keys: seq<string>, config: NormalizationConfig, winner: string) {
    exists i: nat :: i < |keys| && keys[i] == winner
                     && (forall j :: 0 <= j < |keys| ==> config.WeightFor(f, keys[j]) <= config.WeightFor(f, winner))
                     && (forall j :: 0 <= j < i ==> config.WeightFor(f, keys[j]) < config.WeightFor(f, winner))
  }

  lemma WinnerWins(f: Field, d: Dict<string>, config: NormalizationConfig)
    requires d.Valid() && d.keys != []
    ensures if exists p :: p in config.PriorityFor(f) && p in d.keys
            then WinsByList(config.PriorityFor(f), d.keys, Winner(f, d, config))
            else WinsByWeight(f, d.keys, config, Winner(f, d, config))
  {
    if exists p :: p in config.PriorityFor(f) && p in d.keys {
      var i := ListedWinner(f, d, config);
    } else {
      var i := FallbackWinner(f, d, config);
    }
  }

  lemma TextIsDecided(f: Field, d: Dict<string>, config: NormalizationConfig)
    requires d.Valid() && d.keys != []
    ensures IsDecided(f, d.keys, config, ResolveText(f, d, config))
  {
    WinnerWins(f, d, config);
  }

  lemma DepartmentIsDecided(d: Dict<Mapped>, config: NormalizationConfig)
    requires d.Valid() && d.keys != []
    ensures IsDecided(Department, d.keys, config, ResolveDepartment(d, config))
  {
    WinnerWins(Department, Names(d), config);
  }

  // ---- the event's own source and the directory -----------------------------------------------------

  /** The sources that have something to say, the event's own first. */
  function InOrder(own: string, ownHas: bool, ldapHas: bool): seq<string> {
    (if ownHas then [own] else []) + if ldapHas then ["ldap"] else []
  }

  /** The group lists of an event of protocol `own` and of the directory. */
  function GroupLists(own: string, groups: seq<string>, added: seq<string>): (d: Dict<seq<string>>)
    ensures (own == "ldap" ==> added == []) ==> d.Valid()
  {
    var ofOwn: map<string, seq<string>> := if groups != [] then map[own := groups] else map[];
    Dict(InOrder(own, groups != [], added != []), ofOwn + if added != [] then map["ldap" := added] else map[])
  }

  /** The record shows the groups that these lists come to. */
  ghost predicate GroupsAre(n: NormalizedAttributes, d: Dict<seq<string>>, config: NormalizationConfig)
    requires d.Valid()
  {
    if d.keys == [] then Groups !in n.details && n.groups == []
    else Groups in n.details && n.details[Groups] == GroupsDetail(d, config) && n.groups == n.details[Groups].values
  }

  /** The record of an event of protocol `own` from which `primary` was extracted and to which the directory added
      `added`: it tells just that of the two, and of nobody else anything; its fields are what it tells; and where
      the two disagree it is the configuration that decides. */
  ghost predicate IsExplained(config: NormalizationConfig, own: string, primary: Unified, added: Unified,
                              n: NormalizedAttributes)
    requires own == "ldap" ==> added == NOTHING
  {
    && n.sourceProtocol == own
    && Credits(n, own, primary)
    && (own != "ldap" ==> Credits(n, "ldap", added))
    && (forall s :: s != own && s != "ldap" ==> Credits(n, s, NOTHING))
    && FieldsAreSaid(n)
    && GroupsAre(n, GroupLists(own, primary.groups, added.groups), config)
    && (forall f :: f in n.details ==> IsDecided(f, [own, "ldap"], config, n.details[f]))
  }

  lemma NobodyGave(s: string)
    ensures Given(EmptyTable(), s) == NOTHING
  {
  }

  lemma BothGive(mid: SourceTable, t: SourceTable, own: string, primary: Unified, added: Unified, s: string)
    requires own == "ldap" ==> added == NOTHING
    requires AllRecorded(EmptyTable(), mid, own, primary) && AllRecorded(mid, t, "ldap", added)
    ensures Given(t, s) == if s == own then primary else if s == "ldap" then added else NOTHING
  {
    NobodyGave(own);
    NobodyGave(s);
    RecordedIsGiven(EmptyTable(), mid, own, primary, s);
    if own == "ldap" {
      assert Given(t, s) == Given(mid, s);
    } else {
      NobodyGave("ldap");
      RecordedIsGiven(EmptyTable(), mid, own, primary, "ldap");
      RecordedIsGiven(mid, t, "ldap", added, s);
    }
  }

  lemma InOrderOf<V>(mid: Dict<V>, last: Dict<V>, own: string, x: Option<V>, y: Option<V>)
    requires own == "ldap" ==> y == None
    requires Recorded(Empty(), mid, own, x) && Recorded(mid, last, "ldap", y)
    ensures last.keys == InOrder(own, x.Some?, y.Some?)
  {
  }

  lemma GroupsByName(mid: Dict<seq<string>>, last: Dict<seq<string>>, own: string, xs: seq<string>, ys: seq<string>)
    requires own == "ldap" ==> ys == []
    requires mid.table == if xs != [] then map[own := xs] else map[]
    requires last.table == if ys != [] then mid.table["ldap" := ys] else mid.table
    ensures last.table == GroupLists(own, xs, ys).table
  {
  }

  lemma GroupsInOrder(mid: Dict<seq<string>>, last: Dict<seq<string>>, own: string, xs: seq<string>, ys: seq<string>)
    requires own == "ldap" ==> ys == []
    requires Recorded(Empty(), mid, own, if xs != [] then Some(xs) else None)
    requires Recorded(mid, last, "ldap", if ys != [] then Some(ys) else None)
    ensures last == GroupLists(own, xs, ys)
  {
    InOrderOf(mid, last, own, if xs != [] then Some(xs) else None, if ys != [] then Some(ys) else None);
    GroupsByName(mid, last, own, xs, ys);
  }

  lemma TextDecided(f: Field, d: Dict<string>, own: string, x: bool, y: bool, config: NormalizationConfig)
    requires d.Valid() && d.keys == InOrder(own, x, y) != []
    ensures IsDecided(f, [own, "ldap"], config, ResolveText(f, d, config))
  {
    if |d.keys| > 1 {
      assert d.keys == [own, "ldap"];
      TextIsDecided(f, d, config);
    }
  }

  lemma DepartmentDecided(d: Dict<Mapped>, own: string, x: bool, y: bool, config: NormalizationConfig)
    requires d.Valid() && d.keys == InOrder(own, x, y) != []
    ensures IsDecided(Department, [own, "ldap"], config, ResolveDepartment(d, config))
  {
    if |d.keys| > 1 {
      assert d.keys == [own, "ldap"];
      DepartmentIsDecided(d, config);
    }
  }

  lemma RecordedIsDecided(f: Field, mid: Dict<string>, last: Dict<string>, own: string, x: Option<string>,
                          y: Option<string>, config: NormalizationConfig)
    requires own == "ldap" ==> y == None
    requires Recorded(Empty(), mid, own, x) && Recorded(mid, last, "ldap", y)
    requires last.Valid() && last.keys != []
    ensures IsDecided(f, [own, "ldap"], config, ResolveText(f, last, config))
  {
    InOrderOf(mid, last, own, x, y);
    TextDecided(f, last, own, x.Some?, y.Some?, config);
  }

  lemma NoNamesYet()
    ensures Names(EmptyTable().department) == Empty()
  {
  }

  lemma RecordedNameIsDecided(mid: Dict<Mapped>, last: Dict<Mapped>, own: string, x: Option<string>, y: Option<string>,
                              config: NormalizationConfig)
    requires own == "ldap" ==> y == None
    requires Recorded(Empty(), Names(mid), own, x) && Recorded(Names(mid), Names(last), "ldap", y)
    requires last.Valid() && last.keys != []
    ensures IsDecided(Department, [own, "ldap"], config, ResolveDepartment(last, config))
  {
    InOrderOf(Names(mid), Names(last), own, x, y);
    DepartmentDecided(last, own, x.Some?, y.Some?, config);
  }

  lemma TextIsDecidedOf(mid: SourceTable, t: SourceTable, own: string, primary: Unified, added: Unified, f: Field,
                        config: NormalizationConfig)
    requires f in TEXT_FIELDS && (own == "ldap" ==> added == NOTHING)
    requires Recorded(Empty(), mid.TextOf(f), own, primary.Text(f))
    requires Recorded(mid.TextOf(f), t.TextOf(f), "ldap", added.Text(f))
    requires t.Valid() && t.Contributed(f)
    ensures IsDecided(f, [own, "ldap"], config, DetailOf(t, f, config))
  {
    RecordedIsDecided(f, mid.TextOf(f), t.TextOf(f), own, primary.Text(f), added.Text(f), config);
  }

  lemma BothDecided(mid: SourceTable, t: SourceTable, own: string, primary: Unified, added: Unified, f: Field,
                    config: NormalizationConfig)
    requires own == "ldap" ==> added == NOTHING
    requires AllRecorded(EmptyTable(), mid, own, primary) && AllRecorded(mid, t, "ldap", added)
    requires t.Valid() && t.Contributed(f)
    ensures IsDecided(f, [own, "ldap"], config, DetailOf(t, f, config))
  {
    match f
    case Groups =>
    case Department =>
      NoNamesYet();
      RecordedNameIsDecided(mid.department, t.department, own, primary.department, added.department, config);
    case _ => TextIsDecidedOf(mid, t, own, primary, added, f, config);
  }

  lemma BothCredited(mid: SourceTable, t: SourceTable, own: string, primary: Unified, added: Unified,
                     config: NormalizationConfig, enrichment: Enrichment, s: string)
    requires own == "ldap" ==> added == NOTHING
    requires AllRecorded(EmptyTable(), mid, own, primary) && AllRecorded(mid, t, "ldap", added)
    requires t.Valid() && forall k :: k in t.groups.table ==> t.groups.table[k] != []
    ensures Credits(Resolved(t, config, own, enrichment), s,
                    if s == own then primary else if s == "ldap" then added else NOTHING)
  {
    NothingIsLost(t, config, own, enrichment, s);
    BothGive(mid, t, own, primary, added, s);
  }

  lemma AllCredited(mid: SourceTable, t: SourceTable, own: string, primary: Unified, added: Unified,
                    config: NormalizationConfig, enrichment: Enrichment, n: NormalizedAttributes)
    requires own == "ldap" ==> added == NOTHING
    requires AllRecorded(EmptyTable(), mid, own, primary) && AllRecorded(mid, t, "ldap", added)
    requires t.Valid() && forall k :: k in t.groups.table ==> t.groups.table[k] != []
    requires n == Resolved(t, config, own, enrichment)
    ensures Credits(n, own, primary) && (own != "ldap" ==> Credits(n, "ldap", added))
    ensures forall s :: s != own && s != "ldap" ==> Credits(n, s, NOTHING)
  {
    BothCredited(mid, t, own, primary, added, config, enrichment, own);
    BothCredited(mid, t, own, primary, added, config, enrichment, "ldap");
    forall s | s != own && s != "ldap" ensures Credits(n, s, NOTHING) {
      BothCredited(mid, t, own, primary, added, config, enrichment, s);
    }
  }

  lemma GroupsAreShown(t: SourceTable, config: NormalizationConfig, protocol: string, enrichment: Enrichment)
    requires t.Valid()
    ensures GroupsAre(Resolved(t, config, protocol, enrichment), t.groups, config)
  {
  }

  lemma AllDecided(mid: SourceTable, t: SourceTable, own: string, primary: Unified, added: Unified,
                   config: NormalizationConfig, enrichment: Enrichment, n: NormalizedAttributes)
    requires own == "ldap" ==> added == NOTHING
    requires AllRecorded(EmptyTable(), mid, own, primary) && AllRecorded(mid, t, "ldap", added)
    requires t.Valid() && n == Resolved(t, config, own, enrichment)
    ensures forall f :: f in n.details ==> IsDecided(f, [own, "ldap"], config, n.details[f])
  {
    forall f | f in n.details ensures IsDecided(f, [own, "ldap"], config, n.details[f]) {
      BothDecided(mid, t, own, primary, added, f, config);
    }
  }

  lemma BothAreExplained(mid: SourceTable, t: SourceTable, own: string, primary: Unified, added: Unified,
                         config: NormalizationConfig, enrichment: Enrichment, n: NormalizedAttributes)
    requires own == "ldap" ==> added == NOTHING
    requires AllRecorded(EmptyTable(), mid, own, primary) && AllRecorded(mid, t, "ldap", added)
    requires t.Valid() && forall k :: k in t.groups.table ==> t.groups.table[k] != []
    requires n == Resolved(t, config, own, enrichment)
    ensures IsExplained(config, own, primary, added, n)
  {
    AllCredited(mid, t, own, primary, added, config, enrichment, n);
    AllDecided(mid, t, own, primary, added, config, enrichment, n);
    GroupsInOrder(mid.groups, t.groups, own, primary.groups, added.groups);
    GroupsAreShown(t, config, own, enrichment);
    ResolvedIsSaid(t, config, own, enrichment);
  }
}
