/** LDAP enrichment behind its three-state cache: a miss, a negative sentinel, or a positive hit. */
module LdapEnrichment {
  import opened Wrappers
  import opened Models
  import opened Config
  import opened Adapters
  import opened Directories

  const CACHE_PREFIX := "ldap_enrichment:"
  const NEGATIVE_SENTINEL := "\"null\""
  const BARE_NULL := "null"

  datatype Outcome =
    | Match | NoMatch | HitPositive | HitNegative
    | Timeout | ConnectionError | SearchError | UnexpectedError | UnmappableField

  /** The outcomes that tell what the directory holds. */
  const ANSWERED: set<Outcome> := {Match, NoMatch, HitPositive, HitNegative}

  datatype Reply = Reply(attrs: Option<Unified>, outcome: Outcome) {
    /** Attributes come with a match or a positive hit and with nothing else. */
    predicate Valid() {
      && (outcome == Match ==> attrs.Some?)
      && (attrs.Some? ==> (outcome == Match || outcome == HitPositive) && attrs.value.Valid())
    }
  }

  datatype EnrichError = CacheUnavailable | UnknownAttribute

  /** The JSON codec, known by its round trip only. */
  datatype Codec = Codec(encode: Unified -> string, decode: string -> Option<Unified>) {
    ghost predicate Valid() {
      forall u: Unified ::
        decode(encode(u)) == Some(u) && encode(u) != NEGATIVE_SENTINEL && encode(u) != BARE_NULL
    }

    /** What is stored for an answer. */
    function Store(answer: Option<Unified>): string {
      if answer.None? then NEGATIVE_SENTINEL else encode(answer.value)
    }
  }

  // ---- searching ----------------------------------------------------------------------------------

  datatype LdapError = ClientTimeout | TimeLimitExceeded | ServerDown | OtherLdapError | NotAnLdapError

  datatype SearchReply = Answered(results: seq<LdapEntry>) | Failed(error: LdapError)

  /** `_classify_ldap_error`. */
  function ClassifyLdapError(e: LdapError): Outcome {
    match e
    case ClientTimeout => Timeout
    case TimeLimitExceeded => Timeout
    case ServerDown => ConnectionError
    case OtherLdapError => SearchError
    case NotAnLdapError => UnexpectedError
  }

  // ---- the cache ------------------------------------------------------------------------------

  datatype CacheEntry = CacheEntry(text: string, expires: nat)

  /** A completed search. */
  datatype Search = Search(query: Query, value: string, answer: Option<Unified>, at: nat)

  /** Where an entry comes from: the search it stores, and when and for how long it was written. */
  datatype Origin = Origin(search: nat, written: nat, ttl: Seconds)

  datatype CacheRead = Miss | Corrupt | Hit(answer: Option<Unified>)

  /** Redis as `enrich` sees it, with the history that explains it: the completed searches, and the
      origin of every entry that `enrich` wrote.  An entry without an origin is foreign. */
  datatype Cache = Cache(
    redis: map<string, CacheEntry>,
    now: nat,
    searches: seq<Search>,
    origin: map<string, Origin>)
  {
    ghost predicate Valid(codec: Codec) {
      && origin.Keys <= redis.Keys
      && (forall i :: 0 <= i < |searches| ==>
            searches[i].at <= now && (searches[i].answer.Some? ==> searches[i].answer.value.Valid()))
      && (forall k :: k in origin ==>
            var o := origin[k];
            && o.search < |searches|
            && k == CACHE_PREFIX + searches[o.search].value
            && redis[k] == CacheEntry(codec.Store(searches[o.search].answer), o.written + o.ttl)
            && searches[o.search].at <= o.written <= now)
    }

    /** The keys under which something else than `enrich` has written. */
    function Foreign(): set<string> {
      redis.Keys - origin.Keys
    }

    predicate Ours(value: string) {
      CACHE_PREFIX + value !in Foreign()
    }

    /** No entry was written by anything but `enrich`. */
    predicate OnlyOurs() {
      Foreign() == {}
    }

    /** GET and, on a hit, the decoding of the stored text. */
    function Read(codec: Codec, value: string): CacheRead {
      var key := CACHE_PREFIX + value;
      if key !in redis || redis[key].expires <= now then Miss
      else if redis[key].text == NEGATIVE_SENTINEL || redis[key].text == BARE_NULL then Hit(None)
      else if codec.decode(redis[key].text).Some? then Hit(codec.decode(redis[key].text))
      else Corrupt
    }

    /** A search completes. */
    function Completed(query: Query, value: string, answer: Option<Unified>): Cache {
      this.(searches := searches + [Search(query, value, answer, now)])
    }

    /** SETEX of the answer of search number `search`. */
    function Write(codec: Codec, search: nat, ttl: Seconds): Cache
      requires search < |searches|
    {
      var key := CACHE_PREFIX + searches[search].value;
      this.(redis := redis[key := CacheEntry(codec.Store(searches[search].answer), now + ttl)],
            origin := origin[key := Origin(search, now, ttl)])
    }

    function Delete(value: string): Cache {
      this.(redis := redis - {CACHE_PREFIX + value}, origin := origin - {CACHE_PREFIX + value})
    }
  }

  /** What happens to the cache, and at the hands of which call of `enrich`. */
  datatype Op =
    | Complete(caller: nat, query: Query, value: string, answer: Option<Unified>)
    | Store(caller: nat, search: nat, ttl: Seconds)
    | Drop(caller: nat, value: string)
    | Elapse(seconds: nat)

  predicate By(op: Op, call: nat) {
    !op.Elapse? && op.caller == call
  }

  predicate Enabled(c: Cache, op: Op) {
    match op
    case Complete(_, _, _, answer) => answer.Some? ==> answer.value.Valid()
    case Store(_, search, _) => search < |c.searches|
    case _ => true
  }

  function Apply(c: Cache, codec: Codec, op: Op): Cache
    requires Enabled(c, op)
  {
    match op
    case Complete(_, query, value, answer) => c.Completed(query, value, answer)
    case Store(_, search, ttl) => c.Write(codec, search, ttl)
    case Drop(_, value) => c.Delete(value)
    case Elapse(seconds) => c.(now := c.now + seconds)
  }

  predicate Possible(c: Cache, codec: Codec, ops: seq<Op>)
    decreases |ops|
  {
    ops == [] || (Enabled(c, ops[0]) && Possible(Apply(c, codec, ops[0]), codec, ops[1..]))
  }

  function After(c: Cache, codec: Codec, ops: seq<Op>): Cache
    requires Possible(c, codec, ops)
    decreases |ops|
  {
    if ops == [] then c else After(Apply(c, codec, ops[0]), codec, ops[1..])
  }

  lemma {:induction false} AfterAppend(c: Cache, codec: Codec, ops: seq<Op>, last: Op)
    requires Possible(c, codec, ops) && Enabled(After(c, codec, ops), last)
    ensures Possible(c, codec, ops + [last])
    ensures After(c, codec, ops + [last]) == Apply(After(c, codec, ops), codec, last)
    decreases |ops|
  {
    if ops == [] {
      assert ops + [last] == [last];
      assert Possible(Apply(c, codec, last), codec, []);
    } else {
      assert (ops + [last])[1..] == ops[1..] + [last];
      AfterAppend(Apply(c, codec, ops[0]), codec, ops[1..], last);
    }
  }

  /** What nothing undoes: searches are only added, time only advances, and nothing becomes foreign. */
  predicate History(before: Cache, after: Cache) {
    && before.searches <= after.searches
    && before.now <= after.now
    && after.Foreign() <= before.Foreign()
  }

  lemma WriteKeepsValid(c: Cache, codec: Codec, search: nat, ttl: Seconds)
    requires c.Valid(codec) && search < |c.searches|
    ensures c.Write(codec, search, ttl).Valid(codec)
  {
    var w := c.Write(codec, search, ttl);
    var key := CACHE_PREFIX + c.searches[search].value;
    forall k | k in w.origin && k != key
      ensures k in c.origin && w.origin[k] == c.origin[k] && w.redis[k] == c.redis[k]
    {
    }
  }

  lemma OpKeepsValid(c: Cache, codec: Codec, op: Op)
    requires c.Valid(codec) && Enabled(c, op)
    ensures Apply(c, codec, op).Valid(codec) && History(c, Apply(c, codec, op))
  {
    match op
    case Complete(_, _, _, _) =>
    case Store(_, search, ttl) => WriteKeepsValid(c, codec, search, ttl);
    case Drop(_, value) =>
    case Elapse(_) =>
  }

  lemma PrefixIsInjective(a: string, b: string)
    requires CACHE_PREFIX + a == CACHE_PREFIX + b
    ensures a == b
  {
    assert a == (CACHE_PREFIX + a)[|CACHE_PREFIX|..];
    assert b == (CACHE_PREFIX + b)[|CACHE_PREFIX|..];
  }

  /** A hit on an entry of ours: the answer of a completed search for this very value, not expired.
      A positive answer is never taken for the sentinel, and an own entry is never corrupt. */
  ghost predicate FreshAnswer(c: Cache, value: string, answer: Option<Unified>) {
    var key := CACHE_PREFIX + value;
    && key in c.origin && c.origin[key].search < |c.searches|
    && var s, o := c.searches[c.origin[key].search], c.origin[key];
       && s.value == value && s.answer == answer
       && s.at <= o.written <= c.now < o.written + o.ttl
  }

  lemma HitIsFresh(c: Cache, codec: Codec, value: string)
    requires codec.Valid() && c.Valid(codec) && c.Ours(value)
    ensures !c.Read(codec, value).Corrupt?
    ensures c.Read(codec, value).Hit? ==>
      && FreshAnswer(c, value, c.Read(codec, value).answer)
      && (c.Read(codec, value).answer.Some? ==> c.Read(codec, value).answer.value.Valid())
  {
    var key := CACHE_PREFIX + value;
    if key in c.redis && c.now < c.redis[key].expires {
      var s := c.searches[c.origin[key].search];
      PrefixIsInjective(s.value, value);
      if s.answer.Some? {
        var u := s.answer.value;
        assert codec.decode(codec.encode(u)) == Some(u);
      }
    }
  }

  /** And conversely: a fresh answer is a hit. */
  lemma FreshIsHit(c: Cache, codec: Codec, value: string, answer: Option<Unified>)
    requires codec.Valid() && c.Valid(codec) && FreshAnswer(c, value, answer)
    ensures c.Read(codec, value) == Hit(answer)
  {
    if answer.Some? {
      assert codec.decode(codec.encode(answer.value)) == answer;
    }
  }

  /** What is dropped is a miss. */
  lemma DroppedIsMiss(c: Cache, codec: Codec, value: string)
    ensures c.Delete(value).Read(codec, value) == Miss
  {
  }

  /** Nothing but a store or a drop for this value, or time, changes what is read for it. */
  lemma OtherKeysUntouched(c: Cache, codec: Codec, op: Op, value: string)
    requires Enabled(c, op) && !op.Elapse?
    requires op.Store? ==> c.searches[op.search].value != value
    requires op.Drop? ==> op.value != value
    ensures Apply(c, codec, op).Read(codec, value) == c.Read(codec, value)
  {
    match op
    case Store(_, search, _) => if CACHE_PREFIX + c.searches[search].value == CACHE_PREFIX + value {
      PrefixIsInjective(c.searches[search].value, value);
    }
    case Drop(_, other) => if CACHE_PREFIX + other == CACHE_PREFIX + value {
      PrefixIsInjective(other, value);
    }
    case Complete(_, _, _, _) =>
  }

  // ---- the time to live -----------------------------------------------------------------------------

  lemma {:induction false} LastOp(c: Cache, codec: Codec, ops: seq<Op>)
    requires Possible(c, codec, ops) && ops != []
    ensures var init, last := ops[..|ops| - 1], ops[|ops| - 1];
      && Possible(c, codec, init) && Enabled(After(c, codec, init), last)
      && After(c, codec, ops) == Apply(After(c, codec, init), codec, last)
    decreases |ops|
  {
    if |ops| == 1 {
      assert ops[..0] == [] && ops[1..] == [];
      assert Possible(c, codec, []);
    } else {
      LastOp(Apply(c, codec, ops[0]), codec, ops[1..]);
      assert ops[..|ops| - 1][1..] == ops[1..][..|ops| - 2];
    }
  }

  /** Operation number `k` is the store that an entry of this origin comes from. */
  ghost predicate StoredAt(start: Cache, codec: Codec, ops: seq<Op>, k: nat, o: Origin) {
    && k < |ops| && ops[k].Store? && ops[k].search == o.search && ops[k].ttl == o.ttl
    && Possible(start, codec, ops[..k]) && After(start, codec, ops[..k]).now == o.written
  }

  lemma {:induction false} OriginIsStored(start: Cache, codec: Codec, ops: seq<Op>, key: string) returns (k: nat)
    requires Possible(start, codec, ops) && start.origin == map[] && key in After(start, codec, ops).origin
    ensures StoredAt(start, codec, ops, k, After(start, codec, ops).origin[key])
    decreases |ops|
  {
    var n := |ops| - 1;
    LastOp(start, codec, ops);
    var before, last := After(start, codec, ops[..n]), ops[n];
    if last.Store? && key == CACHE_PREFIX + before.searches[last.search].value {
      k := n;
    } else {
      k := OriginIsStored(start, codec, ops[..n], key);
      assert ops[..n][..k] == ops[..k];
    }
  }

  /** All calls use one time to live. */
  predicate StoresUse(ops: seq<Op>, ttl: Seconds) {
    forall k :: 0 <= k < |ops| && ops[k].Store? ==> ops[k].ttl == ttl
  }

  /** The answer was stored, for `ttl` seconds and less than `ttl` seconds ago, after a completed search for this
      very value that had it. */
  ghost predicate StoredWithin(start: Cache, codec: Codec, ops: seq<Op>, value: string, answer: Option<Unified>,
                               ttl: Seconds)
  {
    && Possible(start, codec, ops)
    && exists k: nat ::
         && k < |ops| && ops[k].Store? && ops[k].ttl == ttl && Possible(start, codec, ops[..k])
         && var now, c, i := After(start, codec, ops).now, After(start, codec, ops[..k]), ops[k].search;
            && i < |After(start, codec, ops).searches| && c.now <= now < c.now + ttl
            && var s := After(start, codec, ops).searches[i];
               s.value == value && s.answer == answer && s.at <= c.now
  }

  lemma FreshIsStoredWithin(start: Cache, codec: Codec, ops: seq<Op>, value: string, answer: Option<Unified>,
                            ttl: Seconds)
    requires Possible(start, codec, ops) && start.origin == map[] && StoresUse(ops, ttl)
    requires FreshAnswer(After(start, codec, ops), value, answer)
    ensures StoredWithin(start, codec, ops, value, answer, ttl)
  {
    var k := OriginIsStored(start, codec, ops, CACHE_PREFIX + value);
    assert ops[k].ttl == ttl;
  }

  /** Over any run whose calls all use one time to live, a hit is the answer of a search that was stored less
      than that long ago. */
  lemma HitIsRecent(start: Cache, codec: Codec, ops: seq<Op>, value: string, ttl: Seconds)
    requires codec.Valid() && start.Valid(codec) && start.origin == map[] && Possible(start, codec, ops)
    requires StoresUse(ops, ttl) && start.Ours(value)
    ensures var read := After(start, codec, ops).Read(codec, value);
      read.Hit? ==> StoredWithin(start, codec, ops, value, read.answer, ttl)
  {
    RunKeepsValid(start, codec, ops);
    HitIsFresh(After(start, codec, ops), codec, value);
    var read := After(start, codec, ops).Read(codec, value);
    if read.Hit? {
      FreshIsStoredWithin(start, codec, ops, value, read.answer, ttl);
    }
  }

  // ---- the cache and the directory ------------------------------------------------------------------

  /** Every completed search was as good as `query` and answered what the directory answers. */
  ghost predicate Explained(c: Cache, d: Directory, query: Query)
    requires query.Valid()
  {
    forall i :: 0 <= i < |c.searches| ==>
      var s := c.searches[i];
      s.query.Valid() && SameRequest(d.schema, s.query, query) && s.answer == d.Lookup(s.query, s.value)
  }

  /** The directory did not change over these operations, and nothing but `query` was asked of it. */
  ghost predicate Unchanging(ops: seq<Op>, d: Directory, query: Query)
    requires query.Valid()
  {
    forall k :: 0 <= k < |ops| && ops[k].Complete? ==>
      && ops[k].query.Valid() && SameRequest(d.schema, ops[k].query, query)
      && ops[k].answer == d.Lookup(ops[k].query, ops[k].value)
  }

  lemma {:induction false} RunStaysExplained(c: Cache, codec: Codec, ops: seq<Op>, d: Directory, query: Query)
    requires query.Valid() && Possible(c, codec, ops) && Explained(c, d, query) && Unchanging(ops, d, query)
    ensures Explained(After(c, codec, ops), d, query)
    decreases |ops|
  {
    if ops != [] {
      OpStaysExplained(c, codec, ops[0], d, query);
      RunStaysExplained(Apply(c, codec, ops[0]), codec, ops[1..], d, query);
    }
  }

  lemma OpStaysExplained(c: Cache, codec: Codec, op: Op, d: Directory, query: Query)
    requires query.Valid() && Enabled(c, op) && Explained(c, d, query) && Unchanging([op], d, query)
    ensures Explained(Apply(c, codec, op), d, query)
  {
    assert [op][0] == op;
    match op
    case Complete(_, q, value, answer) =>
      assert Apply(c, codec, op).searches == c.searches + [Search(q, value, answer, c.now)];
    case _ => assert Apply(c, codec, op).searches == c.searches;
  }

  lemma {:induction false} RunKeepsValid(c: Cache, codec: Codec, ops: seq<Op>)
    requires c.Valid(codec) && Possible(c, codec, ops)
    ensures After(c, codec, ops).Valid(codec) && History(c, After(c, codec, ops))
    decreases |ops|
  {
    if ops != [] {
      OpKeepsValid(c, codec, ops[0]);
      RunKeepsValid(Apply(c, codec, ops[0]), codec, ops[1..]);
    }
  }

  lemma FreshAnswerAgrees(c: Cache, d: Directory, query: Query, value: string, answer: Option<Unified>)
    requires query.Valid() && Explained(c, d, query) && FreshAnswer(c, value, answer)
    ensures answer == d.Lookup(query, value)
  {
    var s := c.searches[c.origin[CACHE_PREFIX + value].search];
    SameRequestSameAnswer(d, s.query, query, value);
  }

  /** After any operations of any calls over an unchanging directory, the cache answers as the directory
      does, or not at all. */
  lemma CachedAnswersAgree(c: Cache, codec: Codec, ops: seq<Op>, d: Directory, query: Query, value: string)
    requires codec.Valid() && c.Valid(codec) && Possible(c, codec, ops) && c.Ours(value)
    requires query.Valid() && Explained(c, d, query) && Unchanging(ops, d, query)
    ensures var read := After(c, codec, ops).Read(codec, value);
      read == Miss || read == Hit(d.Lookup(query, value))
  {
    var r := After(c, codec, ops);
    RunKeepsValid(c, codec, ops);
    RunStaysExplained(c, codec, ops, d, query);
    HitIsFresh(r, codec, value);
    if r.Read(codec, value).Hit? {
      FreshAnswerAgrees(r, d, query, value, r.Read(codec, value).answer);
    }
  }

  // ---- what the key leaves out ----------------------------------------------------------------------

  /** The state after one search under `query`, written to an empty cache. */
  function AfterOneSearch(codec: Codec, d: Directory, query: Query, value: string, ttl: Seconds): Cache
    requires query.Valid()
  {
    Cache(map[], 0, [], map[]).Completed(query, value, d.Lookup(query, value)).Write(codec, 0, ttl)
  }

  lemma OneSearchIsRead(codec: Codec, d: Directory, query: Query, value: string, ttl: Seconds)
    requires codec.Valid() && query.Valid()
    ensures AfterOneSearch(codec, d, query, value, ttl).Read(codec, value) == Hit(d.Lookup(query, value))
  {
    var answer := d.Lookup(query, value);
    if answer.Some? {
      assert codec.decode(codec.encode(answer.value)) == Some(answer.value);
    }
  }

  /** The key leaves the query out: an entry written under one query answers another rightly, whatever is
      in the directory, exactly when both come to the same search, or none can find anything. */
  lemma SharedKeyNeedsOneRequest(codec: Codec, schema: Schema, reader: DnReader, written: Query, asked: Query,
                                 value: string, ttl: Seconds)
    requires codec.Valid() && written.Valid() && asked.Valid()
    ensures (forall entries: seq<LdapEntry> ::
               var d := Directory(schema, entries, reader);
               AfterOneSearch(codec, d, written, value, ttl).Read(codec, value) == Hit(d.Lookup(asked, value)))
       <==> || SameRequest(schema, written, asked)
            || (!Matchable(schema, written.Compared(), value) && !Matchable(schema, asked.Compared(), value))
  {
    forall entries: seq<LdapEntry>
      ensures var d := Directory(schema, entries, reader);
        AfterOneSearch(codec, d, written, value, ttl).Read(codec, value) == Hit(d.Lookup(written, value))
    {
      OneSearchIsRead(codec, Directory(schema, entries, reader), written, value, ttl);
    }
    InterchangeableIff(schema, reader, written, asked, value);
  }

  /** A pair that fails: an answer stored for a search restricted to one name, read by a search for
      everything, lacks the department that the directory holds. */
  lemma RestrictedAnswerIsServed(codec: Codec, reader: DnReader, field: string, name: string, ttl: Seconds)
    returns (d: Directory, written: Query, asked: Query)
    requires codec.Valid() && field in UNIFIED_TO_LDAP && name in UNIFIED_TO_LDAP && name != "department"
    ensures written == Query(field, Some([name])) && asked == Query(field, None)
    ensures written.Valid() && asked.Valid()
    ensures var cached := AfterOneSearch(codec, d, written, "e", ttl).Read(codec, "e");
      && cached.Hit? && cached.answer.Some? && cached.answer.value.department == None
      && d.Lookup(asked, "e").Some? && d.Lookup(asked, "e").value.department.Some?
  {
    written, asked := Query(field, Some([name])), Query(field, None);
    d := RestrictedListHides(reader, written, asked, name);
    OneSearchIsRead(codec, d, written, "e", ttl);
  }

  // ---- enrich ---------------------------------------------------------------------------------

  datatype WriteFault = Written | ReplyLost | Refused

  /** What goes wrong around Redis during one call. */
  datatype Faults = Faults(readFails: bool, deleteFails: bool, write: WriteFault)

  /** The reply to a hit. */
  function HitReply(answer: Option<Unified>): Reply {
    Reply(answer, if answer.None? then HitNegative else HitPositive)
  }

  /** The reply to a search that has come back. */
  function LiveAnswer(answer: Option<Unified>): Reply {
    Reply(answer, if answer.None? then NoMatch else Match)
  }

  /** What a search has to come to: an unknown attribute raises, a failed search is classified, and a
      completed one is reported if its answer could be stored. */
  function SearchOutcome(query: Query, directory: SearchReply, write: WriteFault, reader: DnReader)
    : Result<Reply, EnrichError>
  {
    if query.attributes.Some? && Unrecognised(query.attributes.value) != [] then Raised(UnknownAttribute)
    else
      match directory
      case Failed(error) => Ok(Reply(None, ClassifyLdapError(error)))
      case Answered(results) =>
        if write == Written then Ok(LiveAnswer(Answer(results, reader))) else Raised(CacheUnavailable)
  }

  /** What `enrich` has to come to, given what the cache held when it was read. */
  function EnrichOutcome(query: Query, read: CacheRead, directory: SearchReply, faults: Faults, reader: DnReader)
    : Result<Reply, EnrichError>
  {
    if faults.readFails then Raised(CacheUnavailable)
    else if read.Hit? then Ok(HitReply(read.answer))
    else SearchOutcome(query, directory, faults.write, reader)
  }

  /** After operation number `k`, `call` read the cache and met `read`; since number `from` it had done
      nothing. */
  ghost predicate ReadAt(start: Cache, codec: Codec, ops: seq<Op>, from: nat, k: nat, call: nat, value: string,
                         read: CacheRead)
  {
    && from <= k <= |ops| && Possible(start, codec, ops[..k])
    && (forall j :: from <= j < k ==> !By(ops[j], call))
    && After(start, codec, ops[..k]).Read(codec, value) == read
  }

  lemma ReadAtStays(start: Cache, codec: Codec, ops: seq<Op>, longer: seq<Op>, from: nat, k: nat, call: nat,
                    value: string, read: CacheRead)
    requires ops <= longer && ReadAt(start, codec, ops, from, k, call, value, read)
    ensures ReadAt(start, codec, longer, from, k, call, value, read)
  {
    assert longer[..k] == ops[..k];
  }

  /** What `call` itself did, in order. */
  function Own(ops: seq<Op>, call: nat): seq<Op> {
    if ops == [] then []
    else
      var init, last := Own(ops[..|ops| - 1], call), ops[|ops| - 1];
      if By(last, call) then init + [last] else init
  }

  /** Since `before`, `call` has done nothing. */
  ghost predicate OnlyOthers(before: seq<Op>, after: seq<Op>, call: nat) {
    before <= after && forall k :: |before| <= k < |after| ==> !By(after[k], call)
  }

  lemma {:induction false} OthersAddNothing(before: seq<Op>, after: seq<Op>, call: nat)
    requires OnlyOthers(before, after, call)
    ensures Own(after, call) == Own(before, call)
    decreases |after|
  {
    if |after| == |before| {
      assert after == before;
    } else {
      OthersAddNothing(before, after[..|after| - 1], call);
    }
  }

  lemma OwnNext(ops: seq<Op>, last: Op, call: nat)
    requires By(last, call)
    ensures Own(ops + [last], call) == Own(ops, call) + [last]
  {
    assert (ops + [last])[..|ops|] == ops;
  }

  /** What a call has to do to the cache before it searches: drop what does not decode. */
  function LookupOps(call: nat, value: string, read: CacheRead, faults: Faults): seq<Op> {
    if !faults.readFails && read.Corrupt? && !faults.deleteFails then [Drop(call, value)] else []
  }

  /** What a completed search has to do to it: search number `mine` is stored for the given time to live. */
  function StoreOps(call: nat, query: Query, value: string, ttl: Seconds, answer: Option<Unified>, write: WriteFault,
                    mine: nat): seq<Op>
  {
    [Complete(call, query, value, answer)] + if write == Refused then [] else [Store(call, mine, ttl)]
  }

  /** And a search that fails, or is not sent, does nothing. */
  function SearchOps(call: nat, query: Query, value: string, ttl: Seconds, directory: SearchReply, write: WriteFault,
                     reader: DnReader, mine: nat): seq<Op>
  {
    if (query.attributes.Some? && Unrecognised(query.attributes.value) != []) || directory.Failed? then []
    else StoreOps(call, query, value, ttl, Answer(directory.results, reader), write, mine)
  }

  function EnrichOps(call: nat, query: Query, value: string, ttl: Seconds, read: CacheRead, directory: SearchReply,
                     faults: Faults, reader: DnReader, mine: nat): seq<Op>
  {
    LookupOps(call, value, read, faults)
    + if faults.readFails || read.Hit? then []
      else SearchOps(call, query, value, ttl, directory, faults.write, reader, mine)
  }

  /** All that has happened to a cache, and what it is now. */
  datatype Past = Past(start: Cache, codec: Codec, ops: seq<Op>, cache: Cache) {
    ghost predicate Valid() {
      && codec.Valid() && start.Valid(codec) && start.origin == map[] && start.searches == []
      && Possible(start, codec, ops) && cache == After(start, codec, ops)
    }
  }

  /** Search number `k` was this one, and this was its answer. */
  predicate IsSearch(c: Cache, k: nat, query: Query, value: string, answer: Option<Unified>) {
    && k < |c.searches| && c.searches[k].query == query && c.searches[k].value == value
    && c.searches[k].answer == answer
  }

  /** `call` has done to the cache, since `before`, what `enrich` has to do and no more. */
  ghost predicate Did(before: seq<Op>, past: Past, call: nat, query: Query, value: string, ttl: Seconds,
                      read: CacheRead, directory: SearchReply, faults: Faults, reader: DnReader)
  {
    exists mine: nat ::
      && Own(past.ops, call)
         == Own(before, call) + EnrichOps(call, query, value, ttl, read, directory, faults, reader, mine)
      && (EnrichOps(call, query, value, ttl, read, directory, faults, reader, mine)
            != LookupOps(call, value, read, faults)
          ==> IsSearch(past.cache, mine, query, value, Answer(directory.results, reader)))
  }

  /** An answer that tells what the directory holds is recent, and over an unchanging directory that was asked one
      thing only it is the directory's. */
  ghost predicate Reliable(past: Past, query: Query, value: string, ttl: Seconds, attrs: Option<Unified>)
  {
    && FreshAnswer(past.cache, value, attrs)
    && (StoresUse(past.ops, ttl) ==> StoredWithin(past.start, past.codec, past.ops, value, attrs, ttl))
    && (query.Valid() ==> forall d: Directory :: Unchanging(past.ops, d, query) ==> attrs == d.Lookup(query, value))
  }

  lemma DidNotSearch(before: seq<Op>, past: Past, call: nat, query: Query, value: string, ttl: Seconds,
                     read: CacheRead, directory: SearchReply, faults: Faults, reader: DnReader)
    requires Own(past.ops, call) == Own(before, call) + LookupOps(call, value, read, faults)
    requires faults.readFails || read.Hit?
    ensures Did(before, past, call, query, value, ttl, read, directory, faults, reader)
  {
    assert EnrichOps(call, query, value, ttl, read, directory, faults, reader, 0)
        == LookupOps(call, value, read, faults);
  }

  lemma DidSearch(before: seq<Op>, between: seq<Op>, past: Past, call: nat, query: Query, value: string, ttl: Seconds,
                  read: CacheRead, directory: SearchReply, faults: Faults, reader: DnReader, mine: nat)
    requires !faults.readFails && !read.Hit?
    requires Own(between, call) == Own(before, call) + LookupOps(call, value, read, faults)
    requires Own(past.ops, call)
          == Own(between, call) + SearchOps(call, query, value, ttl, directory, faults.write, reader, mine)
    requires Own(past.ops, call) != Own(between, call) ==>
      IsSearch(past.cache, mine, query, value, Answer(directory.results, reader))
    ensures Did(before, past, call, query, value, ttl, read, directory, faults, reader)
  {
    assert Own(past.ops, call)
        == Own(before, call) + EnrichOps(call, query, value, ttl, read, directory, faults, reader, mine);
  }

  lemma FreshIsReliable(past: Past, query: Query, value: string, ttl: Seconds, attrs: Option<Unified>)
    requires past.Valid() && FreshAnswer(past.cache, value, attrs)
    ensures Reliable(past, query, value, ttl, attrs)
  {
    if StoresUse(past.ops, ttl) {
      FreshIsStoredWithin(past.start, past.codec, past.ops, value, attrs, ttl);
    }
    forall d: Directory | query.Valid() && Unchanging(past.ops, d, query) ensures attrs == d.Lookup(query, value) {
      RunStaysExplained(past.start, past.codec, past.ops, d, query);
      FreshAnswerAgrees(past.cache, d, query, value, attrs);
    }
  }

  class LdapAdapter {
    const codec: Codec
    const reader: DnReader
    var cache: Cache
    ghost const found: map<string, CacheEntry>   // what was in Redis before anything was enriched
    ghost var ops: seq<Op>                       // everything that has happened to the cache since

    ghost predicate Valid()
      reads this
    {
      && cache.Valid(codec)
      && SoFar().Valid()
    }

    ghost function Start(): Cache {
      Cache(found, 0, [], map[])
    }

    ghost function SoFar(): Past
      reads this
    {
      Past(Start(), codec, ops, cache)
    }

    constructor (codec: Codec, reader: DnReader, found: map<string, CacheEntry>)
      requires codec.Valid()
      ensures Valid() && this.codec == codec && this.reader == reader && ops == []
      ensures cache.searches == [] && (found == map[] ==> cache.OnlyOurs())
    {
      this.codec, this.reader, this.found := codec, reader, found;
      cache := Cache(found, 0, [], map[]);
      ops := [];
    }

    method Do(op: Op)
      requires Valid() && Enabled(cache, op)
      modifies this`cache, this`ops
      ensures Valid() && cache == Apply(old(cache), codec, op) && ops == old(ops) + [op]
      ensures History(old(cache), cache)
    {
      OpKeepsValid(cache, codec, op);
      AfterAppend(Start(), codec, ops, op);
      ops := ops + [op];
      cache := Apply(cache, codec, op);
    }

    /** An operation of `call` itself. */
    method DoOwn(op: Op, call: nat)
      requires Valid() && Enabled(cache, op) && By(op, call)
      modifies this`cache, this`ops
      ensures Valid() && cache == Apply(old(cache), codec, op) && old(ops) <= ops
      ensures Own(ops, call) == Own(old(ops), call) + [op]
      ensures History(old(cache), cache)
    {
      OwnNext(ops, op, call);
      Do(op);
    }

    /** An await of `call`: other calls do what they do, and time passes. */
    method Await(call: nat)
      requires Valid()
      modifies this`cache, this`ops
      ensures Valid() && History(old(cache), cache) && OnlyOthers(old(ops), ops, call)
      ensures Own(ops, call) == Own(old(ops), call)
    {
      var count :| count >= 0;
      for k := 0 to count
        invariant Valid() && History(old(cache), cache) && OnlyOthers(old(ops), ops, call)
      {
        var op: Op := *;
        if !By(op, call) && Enabled(cache, op) {
          Do(op);
        }
      }
      OthersAddNothing(old(ops), ops, call);
    }

    /** The answer of the directory itself: a completed search is reported as it is and is what the
        cache now stores, a failed one reports its class and no attributes. */
    ghost predicate LiveReply(r: Reply, value: string, directory: SearchReply)
      reads this
    {
      match directory
      case Answered(results) =>
        r == LiveAnswer(Answer(results, reader)) && FreshAnswer(cache, value, r.attrs)
      case Failed(error) => r == Reply(None, ClassifyLdapError(error))
    }

    /** The unexpired answer of an earlier completed search for the same value. */
    ghost predicate CachedReply(r: Reply, value: string)
      reads this
    {
      && r.outcome == (if r.attrs.Some? then HitPositive else HitNegative)
      && FreshAnswer(cache, value, r.attrs)
    }

    /** GET, once others have had their turn. */
    method ReadCache(call: nat, value: string) returns (read: CacheRead)
      requires Valid()
      modifies this`cache, this`ops
      ensures Valid() && History(old(cache), cache) && old(ops) <= ops && Own(ops, call) == Own(old(ops), call)
      ensures read == cache.Read(codec, value)
      ensures ReadAt(Start(), codec, ops, |old(ops)|, |ops|, call, value, read)
    {
      Await(call);
      read := cache.Read(codec, value);
      assert ops[..|ops|] == ops;
    }

    /** A foreign entry that does not decode is dropped, best effort. */
    method DropCorrupt(call: nat, value: string, fails: bool)
      requires Valid()
      modifies this`cache, this`ops
      ensures Valid() && History(old(cache), cache) && old(ops) <= ops
      ensures Own(ops, call) == Own(old(ops), call) + if fails then [] else [Drop(call, value)]
    {
      Await(call);
      if !fails {
        DoOwn(Drop(call, value), call);
      }
    }

    /** The first half of `enrich`: what the cache holds at the moment of the read is the answer; otherwise
        there is none. */
    method Lookup(call: nat, value: string, faults: Faults)
      returns (r: Result<Option<Reply>, EnrichError>, ghost read: CacheRead, ghost k: nat)
      requires Valid()
      modifies this`cache, this`ops
      ensures Valid() && History(old(cache), cache) && old(ops) <= ops
      ensures Own(ops, call) == Own(old(ops), call) + LookupOps(call, value, read, faults)
      ensures ReadAt(Start(), codec, ops, |old(ops)|, k, call, value, read)
      ensures r.Raised? <==> faults.readFails
      ensures r.Raised? ==> r.error == CacheUnavailable
      ensures r.Ok? ==> r.value == if read.Hit? then Some(HitReply(read.answer)) else None
      ensures old(cache).Ours(value) ==>
        && !read.Corrupt?
        && (r.Ok? && r.value.Some? ==> CachedReply(r.value.value, value) && r.value.value.Valid())
    {
      var met := ReadCache(call, value);
      read, k := met, |ops|;
      if cache.Ours(value) {
        HitIsFresh(cache, codec, value);
      }
      if faults.readFails {
        return Raised(CacheUnavailable), read, k;
      }
      if met.Hit? {
        return Ok(Some(HitReply(met.answer))), read, k;
      }
      if met.Corrupt? {
        ghost var before := ops;
        DropCorrupt(call, value, faults.deleteFails);
        ReadAtStays(Start(), codec, before, ops, |old(ops)|, k, call, value, read);
      }
      r := Ok(None);
    }

    /** `_cache_write` of the answer of a completed search. */
    method CacheWrite(call: nat, search: nat, ttl: Seconds, fault: WriteFault) returns (ok: bool)
      requires Valid() && search < |cache.searches|
      modifies this`cache, this`ops
      ensures Valid() && History(old(cache), cache) && cache.searches == old(cache).searches && old(ops) <= ops
      ensures ok <==> fault == Written
      ensures ok ==> FreshAnswer(cache, cache.searches[search].value, cache.searches[search].answer)
      ensures Own(ops, call) == Own(old(ops), call) + if fault == Refused then [] else [Store(call, search, ttl)]
    {
      if fault != Refused {
        DoOwn(Store(call, search, ttl), call);
      }
      ok := fault == Written;
    }

    /** A search has come back: its answer is what the cache is to hold. */
    method StoreAnswer(call: nat, query: Query, value: string, answer: Option<Unified>, ttl: Seconds, fault: WriteFault)
      returns (ok: bool, ghost mine: nat)
      requires Valid() && (answer.Some? ==> answer.value.Valid())
      modifies this`cache, this`ops
      ensures Valid() && History(old(cache), cache) && old(ops) <= ops
      ensures ok <==> fault == Written
      ensures ok ==> FreshAnswer(cache, value, answer)
      ensures IsSearch(cache, mine, query, value, answer)
      ensures Own(ops, call) == Own(old(ops), call) + StoreOps(call, query, value, ttl, answer, fault, mine)
    {
      DoOwn(Complete(call, query, value, answer), call);
      var number := |cache.searches| - 1;
      mine := number;
      Await(call);
      ok := CacheWrite(call, number, ttl, fault);
      assert Own(ops, call) == Own(old(ops), call) + StoreOps(call, query, value, ttl, answer, fault, mine);
    }

    /** The second half of `enrich`: search, then store what was found or that nothing was. */
    method Search(call: nat, query: Query, value: string, ttl: Seconds, directory: SearchReply, faults: Faults)
      returns (r: Result<Reply, EnrichError>, ghost mine: nat)
      requires Valid()
      modifies this`cache, this`ops
      ensures Valid() && History(old(cache), cache) && old(ops) <= ops
      ensures Own(ops, call)
           == Own(old(ops), call) + SearchOps(call, query, value, ttl, directory, faults.write, reader, mine)
      ensures Own(ops, call) != Own(old(ops), call) ==>
        IsSearch(cache, mine, query, value, Answer(directory.results, reader))
      ensures r == SearchOutcome(query, directory, faults.write, reader)
      ensures r.Ok? ==> LiveReply(r.value, value, directory) && r.value.Valid()
      ensures r.Ok? && r.value.outcome in ANSWERED ==> FreshAnswer(cache, value, r.value.attrs)
    {
      mine := 0;
      if query.attributes.Some? && Unrecognised(query.attributes.value) != [] {
        return Raised(UnknownAttribute), mine;
      }
      Await(call);
      if directory.Failed? {
        return Ok(Reply(None, ClassifyLdapError(directory.error))), mine;
      }
      var answer := ReadResults(directory.results, reader);
      var written;
      written, mine := StoreAnswer(call, query, value, answer, ttl, faults.write);
      if !written {
        return Raised(CacheUnavailable), mine;
      }
      r := Ok(LiveAnswer(answer));
    }

    /** `enrich` for a field that the directory has: the cache, then the directory. */
    method LookupOrSearch(call: nat, query: Query, value: string, ttl: Seconds, directory: SearchReply, faults: Faults)
      returns (r: Result<Reply, EnrichError>, ghost read: CacheRead, ghost k: nat)
      requires Valid()
      modifies this`cache, this`ops
      ensures Valid() && History(old(cache), cache)
      ensures ReadAt(Start(), codec, ops, |old(ops)|, k, call, value, read)
      ensures r == EnrichOutcome(query, read, directory, faults, reader)
      ensures r.Ok? && !read.Hit? ==> LiveReply(r.value, value, directory)
      ensures Did(old(ops), SoFar(), call, query, value, ttl, read, directory, faults, reader)
      ensures old(cache).Ours(value) && r.Ok? ==>
        r.value.Valid() && (r.value.outcome in ANSWERED ==> FreshAnswer(cache, value, r.value.attrs))
    {
      var cached;
      cached, read, k := Lookup(call, value, faults);
      if cached.Raised? || cached.value.Some? {
        r := if cached.Raised? then Raised(cached.error) else Ok(cached.value.value);
        DidNotSearch(old(ops), SoFar(), call, query, value, ttl, read, directory, faults, reader);
      } else {
        ghost var before, mine := ops, 0;
        r, mine := Search(call, query, value, ttl, directory, faults);
        ReadAtStays(Start(), codec, before, ops, |old(ops)|, k, call, value, read);
        DidSearch(old(ops), before, SoFar(), call, query, value, ttl, read, directory, faults, reader, mine);
      }
    }

    /** `enrich`.  `directory` is what the directory would reply if it is asked. */
    method Enrich(call: nat, field: string, value: string, ttl: Seconds, attributes: Option<seq<string>>,
                  directory: SearchReply, faults: Faults)
      returns (r: Result<Reply, EnrichError>, ghost read: CacheRead, ghost k: nat)
      requires Valid()
      modifies this`cache, this`ops
      ensures Valid() && History(old(cache), cache)
      ensures field !in UNIFIED_TO_LDAP ==> r == Ok(Reply(None, UnmappableField)) && ops == old(ops)
      // a hit at the moment of the read is the answer, and without one the directory's reply decides
      ensures field in UNIFIED_TO_LDAP ==>
        && ReadAt(Start(), codec, ops, |old(ops)|, k, call, value, read)
        && r == EnrichOutcome(Query(field, attributes), read, directory, faults, reader)
        && (r.Ok? && !read.Hit? ==> LiveReply(r.value, value, directory))
        && Did(old(ops), SoFar(), call, Query(field, attributes), value, ttl, read, directory, faults, reader)
      ensures old(cache).Ours(value) && r.Ok? ==> r.value.Valid()
      ensures old(cache).Ours(value) && field in UNIFIED_TO_LDAP && r.Ok? && r.value.outcome in ANSWERED ==>
        Reliable(SoFar(), Query(field, attributes), value, ttl, r.value.attrs)
    {
      if field !in UNIFIED_TO_LDAP {
        return Ok(Reply(None, UnmappableField)), Miss, |ops|;
      }
      r, read, k := LookupOrSearch(call, Query(field, attributes), value, ttl, directory, faults);
      if r.Ok? && FreshAnswer(cache, value, r.value.attrs) {
        FreshIsReliable(SoFar(), Query(field, attributes), value, ttl, r.value.attrs);
      }
    }
  }
}
