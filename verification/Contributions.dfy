/** The sources of each attribute, filled in place, and what the resolved record tells of them. */
module Contributions {
  import opened Wrappers
  import opened Models
  import opened Config
  import opened Dictionaries
  import opened Resolution
  import opened ResolutionLaws
  import CanonicalValues

  function EmptyTable(): (t: SourceTable)
    ensures t.Valid() && t.KnownSources()
  {
    SourceTable(map[], Empty(), Empty())
  }

  function PutText(t: SourceTable, f: Field, source: string, value: Option<string>): SourceTable {
    if value.Some? then t.(text := t.text[f := t.TextOf(f).Put(source, value.value)]) else t
  }

  function PutDepartment(t: SourceTable, source: string, value: Option<string>): SourceTable {
    if value.Some? then
      t.(department := t.department.Put(source, Mapped(value.value, CanonicalValues.WasDepartmentMapped(value.value))))
    else t
  }

  function PutGroups(t: SourceTable, source: string, value: seq<string>): SourceTable {
    if value != [] then t.(groups := t.groups.Put(source, value)) else t
  }

  /** The plain-string attributes among `fields`, one after the other. */
  function PutTexts(t: SourceTable, fields: seq<Field>, source: string, u: Unified): SourceTable
    requires forall f :: f in fields ==> f in TEXT_FIELDS
  {
    if fields == [] then t
    else
      var f := fields[|fields| - 1];
      PutText(PutTexts(t, fields[..|fields| - 1], source, u), f, source, u.Text(f))
  }

  /** The table after `source` has contributed its unified attributes. */
  function Contribute(t: SourceTable, source: string, u: Unified): SourceTable {
    var texts := PutTexts(t, [DisplayName, PrimaryEmail, EmployeeType], source, u);
    PutGroups(PutDepartment(texts, source, u.department), source, u.groups)
  }

  /** What every table built by the service satisfies. */
  ghost predicate ServiceTable(t: SourceTable) {
    && t.Valid() && t.KnownSources()
    && ServiceFlags(t.department)
    && LiteralEmployeeTypes(t)
    && (forall s :: s in t.groups.table ==> t.groups.table[s] != [])
  }

  lemma PutTextKeeps(t: SourceTable, f: Field, source: string, value: Option<string>)
    requires ServiceTable(t) && source in PROTOCOLS
    requires f == EmployeeType && value.Some? ==> value.value in CanonicalValues.EMPLOYEE_TYPES
    ensures ServiceTable(PutText(t, f, source, value))
  {
    var r := PutText(t, f, source, value);
    assert r.TextOf(f).Valid() && r.TextOf(f).table.Keys <= t.TextOf(f).table.Keys + {source};
    assert f != EmployeeType ==> r.TextOf(EmployeeType) == t.TextOf(EmployeeType);
    assert LiteralEmployeeTypes(r);
  }

  lemma {:induction false} PutTextsKeeps(t: SourceTable, fields: seq<Field>, source: string, u: Unified)
    requires ServiceTable(t) && source in PROTOCOLS && u.Valid()
    requires forall f :: f in fields ==> f in TEXT_FIELDS
    ensures ServiceTable(PutTexts(t, fields, source, u))
  {
    if fields != [] {
      var init, f := fields[..|fields| - 1], fields[|fields| - 1];
      PutTextsKeeps(t, init, source, u);
      PutTextKeeps(PutTexts(t, init, source, u), f, source, u.Text(f));
    }
  }

  lemma PutDepartmentKeeps(t: SourceTable, source: string, value: Option<string>)
    requires ServiceTable(t) && source in PROTOCOLS
    ensures ServiceTable(PutDepartment(t, source, value))
  {
    assert PutDepartment(t, source, value).TextOf(EmployeeType) == t.TextOf(EmployeeType);
  }

  lemma PutGroupsKeeps(t: SourceTable, source: string, value: seq<string>)
    requires ServiceTable(t) && source in PROTOCOLS
    ensures ServiceTable(PutGroups(t, source, value))
  {
    assert PutGroups(t, source, value).TextOf(EmployeeType) == t.TextOf(EmployeeType);
  }

  lemma ContributeKeepsServiceTable(t: SourceTable, source: string, u: Unified)
    requires ServiceTable(t) && source in PROTOCOLS && u.Valid()
    ensures ServiceTable(Contribute(t, source, u))
  {
    var texts := PutTexts(t, [DisplayName, PrimaryEmail, EmployeeType], source, u);
    PutTextsKeeps(t, [DisplayName, PrimaryEmail, EmployeeType], source, u);
    PutDepartmentKeeps(texts, source, u.department);
    PutGroupsKeeps(PutDepartment(texts, source, u.department), source, u.groups);
  }

  /** What a source contributes is recorded under its name, behind what is there; what others said stays. */
  ghost predicate Recorded<V>(before: Dict<V>, after: Dict<V>, source: string, value: Option<V>) {
    && after.table == (if value.Some? then before.table[source := value.value] else before.table)
    && after.keys == (if value.Some? && source !in before.table then before.keys + [source] else before.keys)
  }

  lemma PutTextRecords(t: SourceTable, f: Field, source: string, value: Option<string>)
    ensures var r := PutText(t, f, source, value);
      && Recorded(t.TextOf(f), r.TextOf(f), source, value)
      && (forall g :: g != f ==> r.TextOf(g) == t.TextOf(g))
      && r.department == t.department && r.groups == t.groups
  {
  }

  lemma {:induction false} PutTextsRecords(t: SourceTable, fields: seq<Field>, source: string, u: Unified)
    requires forall f :: f in fields ==> f in TEXT_FIELDS
    requires forall i, j :: 0 <= i < j < |fields| ==> fields[i] != fields[j]
    ensures var r := PutTexts(t, fields, source, u);
      && (forall f :: f in fields ==> Recorded(t.TextOf(f), r.TextOf(f), source, u.Text(f)))
      && (forall f :: f !in fields ==> r.TextOf(f) == t.TextOf(f))
      && r.department == t.department && r.groups == t.groups
  {
    if fields != [] {
      var init, last := fields[..|fields| - 1], fields[|fields| - 1];
      PutTextsRecords(t, init, source, u);
      PutTextRecords(PutTexts(t, init, source, u), last, source, u.Text(last));
      assert forall f :: f in fields <==> f in init || f == last;
    }
  }

  /** Exactly the present attributes of the source are recorded. */
  ghost predicate AllRecorded(before: SourceTable, after: SourceTable, source: string, u: Unified) {
    && Recorded(before.TextOf(DisplayName), after.TextOf(DisplayName), source, u.displayName)
    && Recorded(before.TextOf(PrimaryEmail), after.TextOf(PrimaryEmail), source, u.primaryEmail)
    && Recorded(before.TextOf(EmployeeType), after.TextOf(EmployeeType), source, u.employeeType)
    && Recorded(Names(before.department), Names(after.department), source, u.department)
    && Recorded(before.groups, after.groups, source, if u.groups != [] then Some(u.groups) else None)
  }

  lemma ContributeRecords(t: SourceTable, source: string, u: Unified)
    ensures AllRecorded(t, Contribute(t, source, u), source, u)
  {
    var fields := [DisplayName, PrimaryEmail, EmployeeType];
    PutTextsRecords(t, fields, source, u);
    DepartmentRecords(PutTexts(t, fields, source, u), source, u.department);
    assert fields[0] == DisplayName && fields[1] == PrimaryEmail && fields[2] == EmployeeType;
  }

  lemma DepartmentRecords(t: SourceTable, source: string, value: Option<string>)
    ensures Recorded(Names(t.department), Names(PutDepartment(t, source, value).department), source, value)
    ensures PutDepartment(t, source, value) == t.(department := PutDepartment(t, source, value).department)
  {
  }

  /** The nested dictionary that is filled in place. */
  class AttributeSources {
    var text: map<Field, Dict<string>>
    var department: Dict<Mapped>
    var groups: Dict<seq<string>>

    function Table(): SourceTable
      reads this
    {
      SourceTable(text, department, groups)
    }

    constructor ()
      ensures Table() == EmptyTable()
    {
      text, department, groups := map[], Empty(), Empty();
    }

    /** The body shared by `_build_attribute_sources` and `_merge_ldap_attrs`. */
    method Record(source: string, u: Unified)
      modifies this
      ensures Table() == Contribute(old(Table()), source, u)
    {
      var fields := [DisplayName, PrimaryEmail, EmployeeType];
      for i := 0 to |fields|
        invariant department == old(department) && groups == old(groups)
        invariant Table() == PutTexts(old(Table()), fields[..i], source, u)
      {
        assert fields[..i + 1][..i] == fields[..i];
        var f := fields[i];
        if u.Text(f).Some? {
          var known := if f in text then text[f] else Empty();
          text := text[f := known.Put(source, u.Text(f).value)];
        }
      }
      assert fields[..|fields|] == fields;
      if u.department.Some? {
        var wasMapped := CanonicalValues.WasDepartmentMapped(u.department.value);
        department := department.Put(source, Mapped(u.department.value, wasMapped));
      }
      if u.groups != [] {
        groups := groups.Put(source, u.groups);
      }
    }
  }
}
