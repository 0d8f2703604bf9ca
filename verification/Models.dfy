/** The data exchanged between the stages, with the bounds the schema puts on it. */
module Models {
  import opened Wrappers
  import opened CanonicalValues

  const PROTOCOLS: set<string> := {"oidc", "saml", "ldap"}

  /** The five unified attributes. */
  datatype Field = DisplayName | PrimaryEmail | Department | EmployeeType | Groups

  /** The scalar attributes whose contributions are plain strings. */
  const TEXT_FIELDS: set<Field> := {DisplayName, PrimaryEmail, EmployeeType}

  /** A JSON value of the untrusted attribute bag, as far as the adapters look into it.
      `Other` stands for a number, a boolean, an object, null, and an absent key. */
  datatype Raw = Str(text: string) | Arr(items: seq<Raw>) | Other

  /** The unified dictionary an adapter extracts. */
  datatype Unified = Unified(
    displayName: Option<string>,
    primaryEmail: Option<string>,
    department: Option<string>,
    employeeType: Option<string>,
    groups: seq<string>)
  {
    function Text(f: Field): Option<string>
      requires f in TEXT_FIELDS
    {
      match f
      case DisplayName => displayName
      case PrimaryEmail => primaryEmail
      case EmployeeType => employeeType
    }

    /** What extraction promises: an employee type is one of the three literals. */
    predicate Valid() {
      employeeType.Some? ==> employeeType.value in EMPLOYEE_TYPES
    }
  }

  datatype Strategy = Union | Intersection | Prioritised

  /** The four resolution-detail variants. */
  datatype Detail =
    | SingleSource(confidence: real, value: string, sources: seq<string>)
    | Unanimous(confidence: real, value: string, sources: seq<string>)
    | Priority(confidence: real, value: string, winner: string, conflicting: map<string, string>,
               penaltyApplied: bool)
    | ListMerge(confidence: real, values: seq<string>, strategy: Strategy, total: nat,
                sources: seq<string>)
  {
    predicate Valid() {
      && 0.0 <= confidence <= 1.0
      && match this
         case Priority(_, _, winner, conflicting, _) =>
           winner in PROTOCOLS && conflicting.Keys <= PROTOCOLS
         case _ => forall s :: s in sources ==> s in PROTOCOLS
    }
  }

  datatype SkipReason =
    | LdapDisabled | LdapEvent | NoLdapMatch | LdapTimeout | LdapConnectionError | LdapSearchError
    | InvalidCorrelationKey

  datatype Enrichment = Applied(cacheHit: bool) | Skipped(reason: SkipReason)

  datatype NormalizedAttributes = NormalizedAttributes(
    displayName: Option<string>,
    primaryEmail: Option<string>,
    department: Option<string>,
    employeeType: Option<string>,
    groups: seq<string>,
    sourceProtocol: string,
    confidence: real,
    details: map<Field, Detail>,
    enrichment: Enrichment)
  {
    /** What the schema accepts; constructing anything else raises a validation error. */
    predicate Valid() {
      && (employeeType.Some? ==> employeeType.value in EMPLOYEE_TYPES)
      && sourceProtocol in PROTOCOLS
      && 0.0 <= confidence <= 1.0
      && (forall f :: f in details ==> details[f].Valid())
    }
  }

  /** What ingestion knows of a login event; `created_at` and the stages' own columns are left out. */
  datatype LoginEvent = LoginEvent(
    userId: string,
    protocol: string,
    clientIp: string,
    userAgent: Option<string>,
    timestamp: int,
    source: string,
    isSynthetic: bool,
    isHistorical: bool,
    rawAttributes: map<string, Raw>)
}
