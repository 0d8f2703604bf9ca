/** A directory server as far as enrichment depends on it: which entry a search finds and what of it is
    returned, and when two different queries come to the same search. */
module Directories {
  import opened Wrappers
  import opened Sequences
  import opened Models
  import opened Config
  import opened Adapters
  import CanonicalValues
  import Text

  /** What a call asks besides the looked-up value: the correlation field and, if restricted, the
      attributes. */
  datatype Query = Query(field: string, attributes: Option<seq<string>>) {
    /** Known names only: with any other no search is sent. */
    predicate Valid() {
      field in UNIFIED_TO_LDAP && (attributes.Some? ==> forall n :: n in attributes.value ==> n in UNIFIED_TO_LDAP)
    }

    /** The LDAP attribute the filter compares. */
    function Compared(): string
      requires Valid()
    {
      UNIFIED_TO_LDAP[field]
    }

    /** The attribute list that is sent; neither order nor repetition means anything to a directory. */
    function Requested(): set<string>
      requires Valid()
    {
      if attributes.None? then UNIFIED_TO_LDAP.Values else set n | n in attributes.value :: UNIFIED_TO_LDAP[n]
    }
  }

  /** What the schema of a directory settles: when a stored value of an attribute matches an asserted one,
      and which attributes are operational. */
  datatype Schema = Schema(matches: (string, string, string) -> bool, operational: set<string>)

  /** Section 4.5.1.8 of RFC 4511: an empty list asks for every attribute that is not operational. */
  predicate IsReturned(schema: Schema, requested: set<string>, attribute: string) {
    if requested == {} then attribute !in schema.operational else attribute in requested
  }

  function Project(schema: Schema, requested: set<string>, entry: LdapEntry): LdapEntry {
    map a | a in entry && IsReturned(schema, requested, a) :: entry[a]
  }

  predicate HasMatch(schema: Schema, entry: LdapEntry, attribute: string, value: string) {
    exists b :: b in Values(entry, attribute) && b.Some? && schema.matches(attribute, b.value, value)
  }

  function FirstMatch(schema: Schema, entries: seq<LdapEntry>, attribute: string, value: string): Option<LdapEntry> {
    if entries == [] then None
    else if HasMatch(schema, entries[0], attribute, value) then Some(entries[0])
    else FirstMatch(schema, entries[1..], attribute, value)
  }

  /** A directory that answers: its schema and entries, and how a DN among its values is read. */
  datatype Directory = Directory(schema: Schema, entries: seq<LdapEntry>, reader: DnReader) {
    /** What a search comes to: the first matching entry, as far as it is returned. */
    function Lookup(query: Query, value: string): (a: Option<Unified>)
      requires query.Valid()
      ensures a.Some? ==> a.value.Valid()
    {
      match FirstMatch(schema, entries, query.Compared(), value)
      case None => None
      case Some(entry) => Some(ReadEntry(Project(schema, query.Requested(), entry), reader))
    }
  }

  lemma {:induction false} FirstMatchIsFirst(schema: Schema, entries: seq<LdapEntry>, attribute: string,
                                             value: string) returns (i: nat)
    ensures FirstMatch(schema, entries, attribute, value) == if i < |entries| then Some(entries[i]) else None
    ensures i < |entries| ==> HasMatch(schema, entries[i], attribute, value)
    ensures forall j :: 0 <= j < i && j < |entries| ==> !HasMatch(schema, entries[j], attribute, value)
    decreases |entries|
  {
    i := 0;
    if entries != [] && !HasMatch(schema, entries[0], attribute, value) {
      i := FirstMatchIsFirst(schema, entries[1..], attribute, value);
      assert forall j :: 0 < j <= i + 1 && j < |entries| ==> entries[j] == entries[1..][j - 1];
      i := i + 1;
    }
  }

  /** What an entry contributes to the results of a search. */
  function Match(schema: Schema, query: Query, value: string): LdapEntry -> Option<LdapEntry>
    requires query.Valid()
  {
    var (attribute, requested) := (query.Compared(), query.Requested());
    (e: LdapEntry) => if HasMatch(schema, e, attribute, value) then Some(Project(schema, requested, e)) else None
  }

  /** A directory that replies with all matching entries, as far as they are returned, answers what it has to. */
  lemma RepliesAnswer(d: Directory, query: Query, value: string)
    requires query.Valid()
    ensures Answer(FilterMap(Match(d.schema, query, value), d.entries), d.reader) == d.Lookup(query, value)
  {
    var f := Match(d.schema, query, value);
    var from := SelectionExists(f, d.entries);
    var i := FirstMatchIsFirst(d.schema, d.entries, query.Compared(), value);
    if FirstMatch(d.schema, d.entries, query.Compared(), value).Some? {
      assert i in from && f(d.entries[i]).Some?;
      assert HasMatch(d.schema, d.entries[from[0]], query.Compared(), value);
      assert from[0] == i;
    } else {
      assert forall j :: 0 <= j < |d.entries| ==> f(d.entries[j]) == None;
    }
  }

  // ---- the same search -----------------------------------------------------------------------------

  /** Two queries that come to the same search. */
  predicate SameRequest(schema: Schema, q: Query, r: Query)
    requires q.Valid() && r.Valid()
  {
    && q.Compared() == r.Compared()
    && forall a :: a in UNIFIED_TO_LDAP.Values ==>
         (IsReturned(schema, q.Requested(), a) <==> IsReturned(schema, r.Requested(), a))
  }

  /** An entry is read at the five attributes only. */
  lemma ReadAtFive(a: LdapEntry, b: LdapEntry, reader: DnReader)
    requires forall attribute :: attribute in UNIFIED_TO_LDAP.Values ==> Values(a, attribute) == Values(b, attribute)
    ensures ReadEntry(a, reader) == ReadEntry(b, reader)
  {
    FiveAttributes();
    assert NormaliseLdapAttrs(a) == NormaliseLdapAttrs(b);
  }

  lemma FiveAttributes()
    ensures UNIFIED_TO_LDAP.Values == {"cn", "mail", "departmentNumber", "employeeType", "memberOf"}
  {
    var m := UNIFIED_TO_LDAP;
    assert m["display_name"] == "cn" && m["primary_email"] == "mail" && m["department"] == "departmentNumber"
           && m["employee_type"] == "employeeType" && m["groups"] == "memberOf";
  }

  lemma SameRequestSameAnswer(d: Directory, q: Query, r: Query, value: string)
    requires q.Valid() && r.Valid() && SameRequest(d.schema, q, r)
    ensures d.Lookup(q, value) == d.Lookup(r, value)
  {
    var found := FirstMatch(d.schema, d.entries, q.Compared(), value);
    if found.Some? {
      ReadAtFive(Project(d.schema, q.Requested(), found.value), Project(d.schema, r.Requested(), found.value),
                 d.reader);
    }
  }

  /** Naming all five attributes, in any order, restricts nothing. */
  lemma NamingAllIsNamingNone(schema: Schema, field: string, names: seq<string>)
    requires field in UNIFIED_TO_LDAP && forall n :: n in names <==> n in UNIFIED_TO_LDAP
    ensures SameRequest(schema, Query(field, None), Query(field, Some(names)))
  {
    assert Query(field, Some(names)).Requested() == UNIFIED_TO_LDAP.Values by {
      forall a | a in UNIFIED_TO_LDAP.Values ensures a in Query(field, Some(names)).Requested() {
        var n :| n in UNIFIED_TO_LDAP && UNIFIED_TO_LDAP[n] == a;
        assert n in names;
      }
    }
  }

  // ---- telling queries apart -----------------------------------------------------------------------

  /** Some stored value of the attribute matches `value`. */
  ghost predicate Matchable(schema: Schema, attribute: string, value: string) {
    exists stored :: schema.matches(attribute, stored, value)
  }

  /** Whatever is in a directory of this schema, both queries answer alike about `value`. */
  ghost predicate Interchangeable(schema: Schema, reader: DnReader, q: Query, r: Query, value: string)
    requires q.Valid() && r.Valid()
  {
    forall entries: seq<LdapEntry> ::
      Directory(schema, entries, reader).Lookup(q, value) == Directory(schema, entries, reader).Lookup(r, value)
  }

  lemma {:induction false} NothingMatches(schema: Schema, entries: seq<LdapEntry>, attribute: string, value: string)
    requires !Matchable(schema, attribute, value)
    ensures FirstMatch(schema, entries, attribute, value) == None
  {
    if entries != [] {
      NothingMatches(schema, entries[1..], attribute, value);
    }
  }

  /** An entry that only `attribute` can find. */
  lemma DifferentFilterTellsApart(schema: Schema, reader: DnReader, q: Query, r: Query, value: string)
    requires q.Valid() && r.Valid() && q.Compared() != r.Compared() && Matchable(schema, q.Compared(), value)
    ensures !Interchangeable(schema, reader, q, r, value)
  {
    var stored :| schema.matches(q.Compared(), stored, value);
    var entry: LdapEntry := map[q.Compared() := [Some(stored)]];
    assert Some(stored) in Values(entry, q.Compared());
    assert Values(entry, r.Compared()) == [];
    OneEntry(schema, entry, q.Compared(), value);
    OneEntry(schema, entry, r.Compared(), value);
    var d := Directory(schema, [entry], reader);
    assert d.Lookup(q, value) != d.Lookup(r, value);
  }

  lemma OneEntry(schema: Schema, entry: LdapEntry, attribute: string, value: string)
    ensures FirstMatch(schema, [entry], attribute, value)
         == if HasMatch(schema, entry, attribute, value) then Some(entry) else None
  {
    assert [entry][1..] == [];
  }

  /** An entry that shows every attribute that is returned. */
  function FullEntry(stored: string): LdapEntry {
    map a | a in UNIFIED_TO_LDAP.Values :: [Some("e"), Some(stored)]
  }

  /** Which unified attributes a dictionary has. */
  predicate Shows(u: Unified, attribute: string) {
    if attribute == "cn" then u.displayName.Some?
    else if attribute == "mail" then u.primaryEmail.Some?
    else if attribute == "departmentNumber" then u.department.Some?
    else if attribute == "employeeType" then u.employeeType.Some?
    else u.groups != []
  }

  lemma GroupsShow(values: seq<LdapBytes>, reader: DnReader)
    requires values != [] && values[0] == Some("e")
    ensures ReduceAll(CoerceStrList(Arr(DecodeList(values))), reader) != []
  {
    FirstIsPicked(DecodeOne, values);
    var raw := DecodeList(values);
    FirstIsPicked(CoerceStr, raw);
    var names := FilterMap(CoerceStr, raw);
    Text.StripTrims("e");
    FirstIsPicked(Reducer(reader), names);
  }

  lemma ScalarShows(raw: map<string, Raw>, attribute: string, reader: DnReader)
    requires attribute in {"cn", "mail", "departmentNumber", "employeeType"}
    requires Lookup(raw, attribute) == Other || Lookup(raw, attribute) == Str("e")
    ensures Shows(ExtractLdap(raw, reader), attribute) <==> Lookup(raw, attribute).Str?
  {
    CanonicalValues.KeyIs("e", "e");
  }

  lemma GroupsShowIn(raw: map<string, Raw>, attribute: string, reader: DnReader)
    requires attribute == "memberOf"
    ensures Shows(ExtractLdap(raw, reader), attribute)
       <==> ReduceAll(CoerceStrList(Lookup(raw, attribute)), reader) != []
  {
  }

  lemma Normalised(entry: LdapEntry, attribute: string)
    requires attribute in UNIFIED_TO_LDAP.Values
    ensures Lookup(NormaliseLdapAttrs(entry), attribute)
         == if attribute == "memberOf" then Arr(DecodeList(Values(entry, attribute)))
            else DecodeFirst(Values(entry, attribute))
  {
    FiveAttributes();
  }

  lemma EntryShows(entry: LdapEntry, attribute: string, reader: DnReader)
    requires attribute in UNIFIED_TO_LDAP.Values
    requires Values(entry, attribute) != [] ==> Values(entry, attribute)[0] == Some("e")
    ensures Shows(ReadEntry(entry, reader), attribute) <==> Values(entry, attribute) != []
  {
    FiveAttributes();
    Normalised(entry, attribute);
    var raw := NormaliseLdapAttrs(entry);
    if attribute == "memberOf" {
      GroupsShowIn(raw, attribute, reader);
      if Values(entry, attribute) != [] {
        GroupsShow(Values(entry, attribute), reader);
      }
    } else {
      ScalarShows(raw, attribute, reader);
    }
  }

  lemma FullEntryShows(schema: Schema, requested: set<string>, stored: string, reader: DnReader, attribute: string)
    requires attribute in UNIFIED_TO_LDAP.Values
    ensures Shows(ReadEntry(Project(schema, requested, FullEntry(stored)), reader), attribute)
       <==> IsReturned(schema, requested, attribute)
  {
    EntryShows(Project(schema, requested, FullEntry(stored)), attribute, reader);
  }

  lemma DifferentListTellsApart(schema: Schema, reader: DnReader, q: Query, r: Query, value: string, attribute: string)
    requires q.Valid() && r.Valid() && q.Compared() == r.Compared() && Matchable(schema, q.Compared(), value)
    requires attribute in UNIFIED_TO_LDAP.Values
    requires IsReturned(schema, q.Requested(), attribute) != IsReturned(schema, r.Requested(), attribute)
    ensures !Interchangeable(schema, reader, q, r, value)
  {
    var stored :| schema.matches(q.Compared(), stored, value);
    var entry := FullEntry(stored);
    assert Values(entry, q.Compared())[1] == Some(stored);
    OneEntry(schema, entry, q.Compared(), value);
    FullEntryShows(schema, q.Requested(), stored, reader, attribute);
    FullEntryShows(schema, r.Requested(), stored, reader, attribute);
    var d := Directory(schema, [entry], reader);
    assert d.Lookup(q, value) != d.Lookup(r, value);
  }

  lemma InterchangeableIff(schema: Schema, reader: DnReader, q: Query, r: Query, value: string)
    requires q.Valid() && r.Valid()
    ensures Interchangeable(schema, reader, q, r, value)
       <==> || SameRequest(schema, q, r)
            || (!Matchable(schema, q.Compared(), value) && !Matchable(schema, r.Compared(), value))
  {
    if SameRequest(schema, q, r) {
      forall entries: seq<LdapEntry>
        ensures Directory(schema, entries, reader).Lookup(q, value)
             == Directory(schema, entries, reader).Lookup(r, value)
      {
        SameRequestSameAnswer(Directory(schema, entries, reader), q, r, value);
      }
    } else if !Matchable(schema, q.Compared(), value) && !Matchable(schema, r.Compared(), value) {
      forall entries: seq<LdapEntry>
        ensures Directory(schema, entries, reader).Lookup(q, value)
             == Directory(schema, entries, reader).Lookup(r, value)
      {
        NothingMatches(schema, entries, q.Compared(), value);
        NothingMatches(schema, entries, r.Compared(), value);
      }
    } else if q.Compared() == r.Compared() {
      var a :| && a in UNIFIED_TO_LDAP.Values
               && IsReturned(schema, q.Requested(), a) != IsReturned(schema, r.Requested(), a);
      DifferentListTellsApart(schema, reader, q, r, value, a);
    } else if Matchable(schema, q.Compared(), value) {
      DifferentFilterTellsApart(schema, reader, q, r, value);
    } else {
      DifferentFilterTellsApart(schema, reader, r, q, value);
    }
  }

  // ---- an example -----------------------------------------------------------------------------------

  lemma FoundInFull(d: Directory, query: Query, value: string)
    requires query.Valid() && d.entries == [FullEntry(value)] && d.schema.matches(query.Compared(), value, value)
    ensures d.Lookup(query, value) == Some(ReadEntry(Project(d.schema, query.Requested(), FullEntry(value)), d.reader))
  {
    assert Values(FullEntry(value), query.Compared())[1] == Some(value);
    OneEntry(d.schema, FullEntry(value), query.Compared(), value);
  }

  lemma OneNameRequested(field: string, name: string)
    requires name in UNIFIED_TO_LDAP
    ensures Query(field, Some([name])).Valid() ==> Query(field, Some([name])).Requested() == {UNIFIED_TO_LDAP[name]}
  {
    assert name in [name];
  }

  lemma DepartmentIfReturned(d: Directory, query: Query, value: string)
    requires query.Valid() && d.entries == [FullEntry(value)] && d.schema.matches(query.Compared(), value, value)
    ensures d.Lookup(query, value).Some?
    ensures d.Lookup(query, value).value.department.Some?
       <==> IsReturned(d.schema, query.Requested(), UNIFIED_TO_LDAP["department"])
  {
    FoundInFull(d, query, value);
    FullEntryShows(d.schema, query.Requested(), value, d.reader, UNIFIED_TO_LDAP["department"]);
  }

  /** A schema without operational attributes, under which equal values match. */
  function PlainSchema(): Schema {
    Schema((attribute, stored, asserted) => stored == asserted, {})
  }

  lemma ListOfOne(q: Query, name: string)
    requires q.Valid() && q.attributes == Some([name]) && name != "department"
    ensures !IsReturned(PlainSchema(), q.Requested(), UNIFIED_TO_LDAP["department"])
  {
    OneNameRequested(q.field, name);
  }

  /** A list of one other name hides the department that the full list shows. */
  lemma RestrictedListHides(reader: DnReader, q: Query, r: Query, name: string) returns (d: Directory)
    requires q.Valid() && q.attributes == Some([name]) && name != "department"
    requires r.Valid() && r.attributes == None
    ensures d.Lookup(q, "e").Some? && d.Lookup(q, "e").value.department == None
    ensures d.Lookup(r, "e").Some? && d.Lookup(r, "e").value.department.Some?
  {
    d := Directory(PlainSchema(), [FullEntry("e")], reader);
    ListOfOne(q, name);
    DepartmentIfReturned(d, q, "e");
    DepartmentIfReturned(d, r, "e");
  }
}
