/** Extraction: from a protocol's raw attributes to the unified dictionary. */
module Adapters {
  import opened Wrappers
  import opened Models
  import opened Sequences
  import Text
  import CanonicalValues

  /** The part of DN parsing that is library code: the cn value of a full DN, if it has one. */
  type DnReader = string -> Option<string>

  /** `raw_attributes.get(key)`. */
  function Lookup(raw: map<string, Raw>, key: string): Raw {
    if key in raw then raw[key] else Other
  }

  function CoerceStr(value: Raw): Option<string> {
    if value.Str? then Some(value.text) else None
  }

  /** `coerce_str_list`: only a list is iterated, and only its strings are kept. */
  function CoerceStrList(value: Raw): (r: seq<string>)
    ensures !value.Arr? ==> r == []
  {
    if value.Arr? then FilterMap(CoerceStr, value.items) else []
  }

  function DepartmentValue(value: Raw): Option<string> {
    if value.Str? then Some(CanonicalValues.Department(value.text)) else None
  }

  function EmployeeTypeValue(value: Raw): (r: Option<string>)
    ensures r.Some? ==> r.value in CanonicalValues.EMPLOYEE_TYPES
  {
    if value.Str? then CanonicalValues.NormalizeEmployeeType(value.text) else None
  }

  /** `_reduce_dn_to_group_name`: blank is dropped, a bare name is kept, a DN gives its cn. */
  function ReduceDn(dn: string, reader: DnReader): Option<string> {
    var stripped := Text.Strip(dn);
    if stripped == "" then None
    else if '=' !in stripped then Some(stripped)
    else reader(stripped)
  }

  function Reducer(reader: DnReader): string -> Option<string> {
    dn => ReduceDn(dn, reader)
  }

  function ReduceAll(dns: seq<string>, reader: DnReader): seq<string> {
    FilterMap(Reducer(reader), dns)
  }

  /** `reduce_member_of`: the names of the values that reduce to one, each once and in its place. */
  method ReduceMemberOf(value: Raw, reader: DnReader) returns (names: seq<string>, ghost from: seq<nat>)
    ensures Selected(Reducer(reader), CoerceStrList(value), names, from)
    ensures names == ReduceAll(CoerceStrList(value), reader)
  {
    names, from := [], [];
    var dns := CoerceStrList(value);
    for i := 0 to |dns|
      invariant Selected(Reducer(reader), dns[..i], names, from)
    {
      SelectedNext(Reducer(reader), dns[..i], names, from, dns[i]);
      assert dns[..i + 1] == dns[..i] + [dns[i]];
      var name := ReduceDn(dns[i], reader);
      if name.Some? {
        names, from := names + [name.value], from + [i];
      }
    }
    assert dns[..|dns|] == dns;
    SelectionIsUnique(Reducer(reader), dns, names, from);
  }

  /** The raw keys each protocol uses for the five unified attributes. */
  datatype RuleTable = RuleTable(
    displayName: string, primaryEmail: string, department: string, employeeType: string, groups: string)
  {
    function Key(f: Field): string {
      match f
      case DisplayName => displayName
      case PrimaryEmail => primaryEmail
      case Department => department
      case EmployeeType => employeeType
      case Groups => groups
    }
  }

  const OIDC_FIELD_RULES := RuleTable("name", "email", "department", "employee_type", "groups")
  const SAML_FIELD_RULES := RuleTable("displayName", "email", "dept", "employeeType", "groups")
  const LDAP_FIELD_RULES := RuleTable("cn", "mail", "departmentNumber", "employeeType", "memberOf")

  function RulesOf(protocol: string): RuleTable {
    if protocol == "oidc" then OIDC_FIELD_RULES
    else if protocol == "saml" then SAML_FIELD_RULES
    else LDAP_FIELD_RULES
  }

  function ApplyFieldRules(raw: map<string, Raw>, rules: RuleTable, groups: seq<string>): (u: Unified)
    ensures u.Valid()
  {
    Unified(
      CoerceStr(Lookup(raw, rules.displayName)),
      CoerceStr(Lookup(raw, rules.primaryEmail)),
      DepartmentValue(Lookup(raw, rules.department)),
      EmployeeTypeValue(Lookup(raw, rules.employeeType)),
      groups)
  }

  function ExtractLdap(raw: map<string, Raw>, reader: DnReader): (u: Unified)
    ensures u.Valid()
  {
    ApplyFieldRules(raw, LDAP_FIELD_RULES,
                    ReduceAll(CoerceStrList(Lookup(raw, LDAP_FIELD_RULES.groups)), reader))
  }

  /** The adapter the service selects for `protocol`, applied; anything that is not OIDC or SAML is
      read as LDAP. */
  function Extract(protocol: string, raw: map<string, Raw>, reader: DnReader): (u: Unified)
    ensures u.Valid()
  {
    if protocol == "oidc" then
      ApplyFieldRules(raw, OIDC_FIELD_RULES, CoerceStrList(Lookup(raw, OIDC_FIELD_RULES.groups)))
    else if protocol == "saml" then
      ApplyFieldRules(raw, SAML_FIELD_RULES, CoerceStrList(Lookup(raw, SAML_FIELD_RULES.groups)))
    else ExtractLdap(raw, reader)
  }

  /** A directory attribute value: its UTF-8 decoding, or None when the bytes do not decode. */
  type LdapBytes = Option<string>

  /** An entry as the directory returns it: every attribute is a list of byte strings. */
  type LdapEntry = map<string, seq<LdapBytes>>

  function Values(entry: LdapEntry, attribute: string): seq<LdapBytes> {
    if attribute in entry then entry[attribute] else []
  }

  /** `_decode_first`. */
  function DecodeFirst(values: seq<LdapBytes>): Raw {
    if values != [] && values[0].Some? then Str(values[0].value) else Other
  }

  function DecodeOne(value: LdapBytes): Option<Raw> {
    if value.Some? then Some(Str(value.value)) else None
  }

  function DecodeList(values: seq<LdapBytes>): seq<Raw> {
    FilterMap(DecodeOne, values)
  }

  /** `_decode_list`: values that do not decode are passed over, the others keep their place. */
  method DecodeAll(values: seq<LdapBytes>) returns (decoded: seq<Raw>, ghost from: seq<nat>)
    ensures Selected(DecodeOne, values, decoded, from)
    ensures decoded == DecodeList(values)
  {
    decoded, from := [], [];
    for i := 0 to |values|
      invariant Selected(DecodeOne, values[..i], decoded, from)
    {
      SelectedNext(DecodeOne, values[..i], decoded, from, values[i]);
      assert values[..i + 1] == values[..i] + [values[i]];
      if values[i].Some? {
        decoded, from := decoded + [Str(values[i].value)], from + [i];
      }
    }
    assert values[..|values|] == values;
    SelectionIsUnique(DecodeOne, values, decoded, from);
  }

  /** `_normalise_ldap_attrs`. */
  function NormaliseLdapAttrs(entry: LdapEntry): map<string, Raw> {
    map[
      "cn" := DecodeFirst(Values(entry, "cn")),
      "mail" := DecodeFirst(Values(entry, "mail")),
      "departmentNumber" := DecodeFirst(Values(entry, "departmentNumber")),
      "employeeType" := DecodeFirst(Values(entry, "employeeType")),
      "memberOf" := Arr(DecodeList(Values(entry, "memberOf")))
    ]
  }

  /** What a directory entry means to the service. */
  function ReadEntry(entry: LdapEntry, reader: DnReader): (u: Unified)
    ensures u.Valid()
  {
    ExtractLdap(NormaliseLdapAttrs(entry), reader)
  }

  /** What a directory search means to the service: the first entry found, or no match. */
  function Answer(results: seq<LdapEntry>, reader: DnReader): (a: Option<Unified>)
    ensures a.Some? ==> a.value.Valid()
  {
    if results == [] then None else Some(ReadEntry(results[0], reader))
  }

  /** The same, computed as `enrich` does it. */
  method ReadResults(results: seq<LdapEntry>, reader: DnReader) returns (a: Option<Unified>)
    ensures a == Answer(results, reader)
  {
    if results == [] {
      return None;
    }
    var entry := results[0];
    var memberOf, _ := DecodeAll(Values(entry, "memberOf"));
    var raw := NormaliseLdapAttrs(entry);
    assert Lookup(raw, LDAP_FIELD_RULES.groups) == Arr(memberOf);
    var groups, _ := ReduceMemberOf(Arr(memberOf), reader);
    a := Some(ApplyFieldRules(raw, LDAP_FIELD_RULES, groups));
  }

  // ---- laws -----------------------------------------------------------------------------------------

  /** The raw keys of the three protocols. */
  lemma KeysOfProtocols(f: Field)
    ensures RulesOf("oidc").Key(f) == match f
      case DisplayName => "name" case PrimaryEmail => "email" case Department => "department"
      case EmployeeType => "employee_type" case Groups => "groups"
    ensures RulesOf("saml").Key(f) == match f
      case DisplayName => "displayName" case PrimaryEmail => "email" case Department => "dept"
      case EmployeeType => "employeeType" case Groups => "groups"
    ensures RulesOf("ldap").Key(f) == match f
      case DisplayName => "cn" case PrimaryEmail => "mail" case Department => "departmentNumber"
      case EmployeeType => "employeeType" case Groups => "memberOf"
  {
  }

  /** A DN-valued item, whatever white space is around it: blank gives nothing, a bare name itself, and a DN what
      the reader finds in it. */
  lemma NameIsReduced(before: string, name: string, after: string, reader: DnReader)
    requires Text.Trimmed(name) && forall c :: c in before + after ==> Text.IsSpace(c)
    ensures ReduceDn(before + name + after, reader)
         == if name == "" then None else if '=' in name then reader(name) else Some(name)
  {
    Text.StripPadding(before, name, after);
  }

  /** The first value of an attribute, if it decodes. */
  function FirstValue(entry: LdapEntry, attribute: string): Option<string> {
    if Values(entry, attribute) != [] then Values(entry, attribute)[0] else None
  }

  function DecodedText(value: LdapBytes): Option<string> {
    value
  }

  /** The group name in one byte string of `memberOf`. */
  function NameIn(reader: DnReader): LdapBytes -> Option<string> {
    (value: LdapBytes) => if value.Some? then ReduceDn(value.value, reader) else None
  }

  lemma NamesInMembers(values: seq<LdapBytes>, reader: DnReader)
    ensures ReduceAll(CoerceStrList(Arr(DecodeList(values))), reader) == FilterMap(NameIn(reader), values)
  {
    FilterMapTwice(DecodeOne, CoerceStr, DecodedText, values);
    FilterMapTwice(DecodedText, Reducer(reader), NameIn(reader), values);
  }

  lemma MembersAreRead(entry: LdapEntry, reader: DnReader)
    ensures ReadEntry(entry, reader).groups == FilterMap(NameIn(reader), Values(entry, "memberOf"))
  {
    NamesInMembers(Values(entry, "memberOf"), reader);
    assert Lookup(NormaliseLdapAttrs(entry), "memberOf") == Arr(DecodeList(Values(entry, "memberOf")));
  }

  /** Of a directory entry the scalars are read from the first value of their attributes, the employee type only if
      it is a known alias, and the groups from all values that decode. */
  lemma EntryIsRead(entry: LdapEntry, reader: DnReader) returns (from: seq<nat>)
    ensures var u := ReadEntry(entry, reader);
      && u.displayName == FirstValue(entry, "cn")
      && u.primaryEmail == FirstValue(entry, "mail")
      && (u.department.Some? <==> FirstValue(entry, "departmentNumber").Some?)
      && (u.department.Some? ==>
            u.department.value == CanonicalValues.Department(FirstValue(entry, "departmentNumber").value))
      && (u.employeeType.Some? ==>
            && FirstValue(entry, "employeeType").Some?
            && u.employeeType == CanonicalValues.NormalizeEmployeeType(FirstValue(entry, "employeeType").value))
      && Selected(NameIn(reader), Values(entry, "memberOf"), u.groups, from)
  {
    from := SelectionExists(NameIn(reader), Values(entry, "memberOf"));
    MembersAreRead(entry, reader);
  }

  /** Every unified attribute is read from its own key of the protocol and from nothing else. */
  lemma ReadFromOwnKey(protocol: string, f: Field, a: map<string, Raw>, b: map<string, Raw>, reader: DnReader)
    requires Lookup(a, RulesOf(protocol).Key(f)) == Lookup(b, RulesOf(protocol).Key(f))
    ensures var u, v := Extract(protocol, a, reader), Extract(protocol, b, reader);
      match f
      case Department => u.department == v.department
      case Groups => u.groups == v.groups
      case _ => u.Text(f) == v.Text(f)
  {
  }

  /** Extraction keeps what is of the right type and drops the rest: a name or address exactly when the key
      holds a string, and then unchanged; a department exactly then; an employee type exactly when the string is
      a known alias. */
  lemma ExtractKeeps(protocol: string, raw: map<string, Raw>, reader: DnReader, text: string)
    ensures var u, rules := Extract(protocol, raw, reader), RulesOf(protocol);
      && (u.displayName == Some(text) <==> Lookup(raw, rules.displayName) == Str(text))
      && (u.primaryEmail == Some(text) <==> Lookup(raw, rules.primaryEmail) == Str(text))
      && (u.department.Some? <==> Lookup(raw, rules.department).Str?)
      && (u.employeeType.Some? <==>
            && Lookup(raw, rules.employeeType).Str?
            && CanonicalValues.Key(Lookup(raw, rules.employeeType).text) in CanonicalValues.EMPLOYEE_TYPE_CANONICAL)
  {
  }

  /** An extracted department is canonical and the department of the raw text; an extracted employee type is a
      literal, and stands for itself. */
  lemma ExtractedIsCanonical(protocol: string, raw: map<string, Raw>, reader: DnReader)
    ensures var u, text := Extract(protocol, raw, reader), Lookup(raw, RulesOf(protocol).department);
      u.department.Some? && Text.Ascii(text.text) ==>
        && CanonicalValues.Department(u.department.value) == u.department.value
        && CanonicalValues.SameDepartment(u.department.value, text.text)
    ensures var u, text := Extract(protocol, raw, reader), Lookup(raw, RulesOf(protocol).employeeType);
      u.employeeType.Some? ==>
        && u.employeeType == CanonicalValues.NormalizeEmployeeType(text.text)
        && CanonicalValues.NormalizeEmployeeType(u.employeeType.value) == u.employeeType
  {
    var text, u := Lookup(raw, RulesOf(protocol).department), Extract(protocol, raw, reader);
    if text.Str? && Text.Ascii(text.text) {
      CanonicalValues.DepartmentIsKept(text.text);
    }
    if u.employeeType.Some? {
      CanonicalValues.LiteralsAreFixed(u.employeeType.value);
    }
  }

  /** What one item of a raw group list gives: a string itself, or from the directory the name in it. */
  function GroupOf(protocol: string, reader: DnReader): Raw -> Option<string> {
    (item: Raw) =>
      if !item.Str? then None
      else if RulesOf(protocol) == LDAP_FIELD_RULES then ReduceDn(item.text, reader)
      else Some(item.text)
  }

  /** Of a raw list of groups every item that gives a name gives it to the extracted groups, once and in its
      place, and nothing else is there; of anything but a list there are no groups. */
  lemma GroupsKeepPlace(protocol: string, raw: map<string, Raw>, reader: DnReader) returns (from: seq<nat>)
    ensures var value, groups := Lookup(raw, RulesOf(protocol).groups), Extract(protocol, raw, reader).groups;
      if value.Arr? then Selected(GroupOf(protocol, reader), value.items, groups, from) else groups == []
  {
    from := [];
    var value := Lookup(raw, RulesOf(protocol).groups);
    if value.Arr? {
      from := SelectionExists(GroupOf(protocol, reader), value.items);
      if RulesOf(protocol) == LDAP_FIELD_RULES {
        FilterMapTwice(CoerceStr, Reducer(reader), GroupOf(protocol, reader), value.items);
      } else {
        SameSelection(CoerceStr, GroupOf(protocol, reader), value.items);
      }
    }
  }
}
