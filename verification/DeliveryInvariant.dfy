/** What every step of the delivery protocol keeps. */
module DeliveryInvariant {
  import opened Wrappers
  import opened Models
  import opened Delivery

  // ---- the parts ------------------------------------------------------------------------------

  /** Positions, and which entries can be pending or acked. */
  ghost predicate StreamOk(s: State) {
    && s.trimmed <= |s.log| && s.delivered <= |s.log|
    && (s.trimmed == 0 || s.trimmed + STREAM_MAXLEN <= |s.log|)
    && s.pending !! s.acked
    && (forall o :: o in s.pending || o in s.acked ==> o < s.delivered)
    && (forall o: nat :: o < s.delivered ==> o in s.pending || o in s.acked || o < s.trimmed)
  }

  /** Every login event on the stream has its committed row, and no id is on it twice. */
  ghost predicate RowsOk(s: State) {
    && (forall o: nat :: o < |s.log| ==> s.log[o].id in s.rows && s.rows[s.log[o].id].record == s.log[o])
    && (forall o: nat, p: nat :: o < p < |s.log| ==> s.log[o].id != s.log[p].id)
  }

  /** Record `j` of call `i` is committed and still to be published. */
  ghost predicate Owed(s: State, i: Process, j: nat) {
    i in s.ingesters && s.ingesters[i].Publishing? && s.ingesters[i].next <= j < |s.ingesters[i].records|
  }

  function OwedId(s: State, i: Process, j: nat): EventId
    requires i in s.ingesters && j < |s.ingesters[i].records|
  {
    s.ingesters[i].records[j].id
  }

  ghost predicate IngestersOk(s: State) {
    && (forall i: Process, j: nat :: Owed(s, i, j) ==>
          && OwedId(s, i, j) in s.rows
          && s.rows[OwedId(s, i, j)] == Row(s.ingesters[i].records[j], None))
    && (forall i: Process, j: nat, o: nat :: Owed(s, i, j) && o < |s.log| ==> OwedId(s, i, j) != s.log[o].id)
    && (forall i: Process, j: nat, k: Process, l: nat :: Owed(s, i, j) && Owed(s, k, l) && (i != k || j != l) ==>
          OwedId(s, i, j) != OwedId(s, k, l))
  }

  /** Entry `o` is number `j` of the batch of consumer `c`. */
  ghost predicate Held(s: State, c: Process, j: nat) {
    c in s.consumers && s.consumers[c].Working? && j < |s.consumers[c].batch|
  }

  function HeldEntry(s: State, c: Process, j: nat): Entry
    requires c in s.consumers && s.consumers[c].Working? && j < |s.consumers[c].batch|
  {
    s.consumers[c].batch[j]
  }

  ghost predicate ConsumersOk(s: State) {
    && (forall c :: c in s.consumers && s.consumers[c].Working? ==> s.consumers[c].batch != [])
    && (forall c: Process, j: nat :: Held(s, c, j) ==>
          HeldEntry(s, c, j) in s.pending && HeldEntry(s, c, j) !in s.abandoned)
    && (forall c: Process, j: nat, d: Process, k: nat :: Held(s, c, j) && Held(s, d, k) && (c != d || j != k) ==>
          HeldEntry(s, c, j) != HeldEntry(s, d, k))
  }

  /** A pending entry is being worked on or was abandoned. */
  ghost predicate PendingOk(s: State) {
    && s.abandoned <= s.pending
    && (forall o :: o in s.pending && o !in s.abandoned ==>
          exists c: Process, j: nat :: Held(s, c, j) && HeldEntry(s, c, j) == o)
  }

  /** The committed value of the row of an entry. */
  function Value(s: State, o: Entry): Option<NormalizedAttributes>
    requires o < |s.log|
  {
    if s.log[o].id in s.rows then s.rows[s.log[o].id].normalized else None
  }

  /** No write and no message yet. */
  ghost predicate Untouched(s: State, o: Entry)
    requires o < |s.log|
  {
    Value(s, o) == None && o !in s.sent
  }

  ghost predicate MessagesOk(s: State) {
    && (forall o :: o in s.sent ==>
          && o < |s.log| && (o in s.pending || o in s.acked)
          && s.sent[o] < |s.out|
          && s.out[s.sent[o]].record == s.log[o]
          && Value(s, o) == Some(s.out[s.sent[o]].normalized))
    && (forall k: nat :: k < |s.out| ==> s.out[k].entry in s.sent && s.sent[s.out[k].entry] == k)
    && (forall o :: o in s.acked ==> o in s.sent)
    && (forall o: nat :: o < |s.log| && o !in s.pending && o !in s.acked ==> Untouched(s, o))
  }

  /** What the stage of the entry at hand says about its row and its message. */
  ghost predicate StageOk(s: State, o: Entry, stage: Stage)
    requires o < |s.log|
  {
    match stage
    case Received => Untouched(s, o)
    case Normalized(_) => Untouched(s, o)
    case Written(n) => Value(s, o) == Some(n) && o !in s.sent
    case Published(n) => Value(s, o) == Some(n) && o in s.sent
  }

  ghost predicate StagesOk(s: State) {
    forall c: Process, j: nat :: Held(s, c, j) ==>
      && HeldEntry(s, c, j) < |s.log|
      && StageOk(s, HeldEntry(s, c, j), if j == 0 then s.consumers[c].stage else Received)
  }

  ghost predicate Inv(s: State) {
    && StreamOk(s) && RowsOk(s) && IngestersOk(s)
    && ConsumersOk(s) && PendingOk(s) && MessagesOk(s) && StagesOk(s)
  }

  lemma InitialHolds()
    ensures Inv(INITIAL)
  {
  }

  // ---- ingestion ------------------------------------------------------------------------------

  lemma {:induction false} InsertedRows(rows: map<EventId, Row>, records: seq<Record>)
    requires Insertable(rows, records)
    ensures forall id :: id in InsertRows(rows, records) <==>
      id in rows || exists j :: 0 <= j < |records| && records[j].id == id
    ensures forall id :: id in rows ==> InsertRows(rows, records)[id] == rows[id]
    ensures forall j :: 0 <= j < |records| ==> InsertRows(rows, records)[records[j].id] == Row(records[j], None)
  {
    if records != [] {
      InsertedRows(rows, records[..|records| - 1]);
    }
  }

  /** What an ingestion step leaves to the consumers: their own state, and the rows of the log. */
  ghost predicate ConsumersUndisturbed(s: State, r: State) {
    && r.consumers == s.consumers && r.pending == s.pending && r.acked == s.acked
    && r.out == s.out && r.sent == s.sent && r.abandoned == s.abandoned && r.delivered == s.delivered
    && s.log <= r.log
    && (forall o: nat :: o < |s.log| ==> Value(r, o) == Value(s, o))
    && (forall o: nat :: |s.log| <= o < |r.log| ==> Value(r, o) == None)
  }

  /** The same entries are held, at the same places. */
  ghost predicate SameHeld(s: State, r: State) {
    && (forall c: Process, j: nat :: Held(r, c, j) <==> Held(s, c, j))
    && (forall c: Process, j: nat :: Held(s, c, j) ==> HeldEntry(r, c, j) == HeldEntry(s, c, j))
    && (forall c :: c in r.consumers && r.consumers[c].Working? ==> r.consumers[c].batch != [])
  }

  lemma SameHeldKeeps(s: State, r: State)
    requires ConsumersOk(s) && PendingOk(s) && SameHeld(s, r)
    requires r.pending == s.pending && r.abandoned == s.abandoned
    ensures ConsumersOk(r) && PendingOk(r)
  {
    StillHeld(s, r);
  }

  /** What was held is held or abandoned, and what is pending was pending. */
  lemma StillHeld(s: State, r: State)
    requires PendingOk(s) && r.abandoned <= r.pending <= s.pending && s.abandoned * r.pending <= r.abandoned
    requires forall c: Process, j: nat :: Held(s, c, j) ==>
      var o := HeldEntry(s, c, j);
      o !in r.pending || o in r.abandoned || exists d: Process, k: nat :: Held(r, d, k) && HeldEntry(r, d, k) == o
    ensures PendingOk(r)
  {
    forall o | o in r.pending && o !in r.abandoned
      ensures exists c: Process, j: nat :: Held(r, c, j) && HeldEntry(r, c, j) == o
    {
      var c: Process, j: nat :| Held(s, c, j) && HeldEntry(s, c, j) == o;
    }
  }

  lemma LongerLogKeepsMessages(s: State, r: State)
    requires StreamOk(s) && MessagesOk(s) && ConsumersUndisturbed(s, r)
    ensures MessagesOk(r)
  {
    assert forall o :: o in r.sent ==> o < |s.log| && r.log[o] == s.log[o];
  }

  lemma LongerLogKeepsStages(s: State, r: State)
    requires StagesOk(s) && ConsumersUndisturbed(s, r)
    ensures StagesOk(r)
  {
    forall c: Process, j: nat | Held(r, c, j)
      ensures HeldEntry(r, c, j) < |r.log|
      ensures StageOk(r, HeldEntry(r, c, j), if j == 0 then r.consumers[c].stage else Received)
    {
      assert Held(s, c, j);
    }
  }

  lemma ConsumersUndisturbedKeeps(s: State, r: State)
    requires Inv(s) && ConsumersUndisturbed(s, r)
    ensures ConsumersOk(r) && PendingOk(r) && MessagesOk(r) && StagesOk(r)
  {
    assert SameHeld(s, r);
    SameHeldKeeps(s, r);
    LongerLogKeepsMessages(s, r);
    LongerLogKeepsStages(s, r);
  }

  lemma IngestKeepsInv(s: State, i: Process, records: seq<Record>)
    requires Inv(s) && Enabled(s, Ingest(i, records))
    ensures Inv(Apply(s, Ingest(i, records)))
  {
    var r := Apply(s, Ingest(i, records));
    assert forall k: Process, j: nat :: Owed(r, k, j) ==> Owed(s, k, j) && OwedId(r, k, j) == OwedId(s, k, j);
    ConsumersUndisturbedKeeps(s, r);
  }

  lemma StopIngesterKeepsInv(s: State, i: Process)
    requires Inv(s) && Enabled(s, StopIngester(i))
    ensures Inv(Apply(s, StopIngester(i)))
  {
    var r := Apply(s, StopIngester(i));
    assert forall k: Process, j: nat :: Owed(r, k, j) ==> Owed(s, k, j) && OwedId(r, k, j) == OwedId(s, k, j);
    ConsumersUndisturbedKeeps(s, r);
  }

  lemma PersistKeepsIngesters(s: State, i: Process, effect: Effect)
    requires RowsOk(s) && IngestersOk(s) && Enabled(s, Persist(i, effect))
    ensures IngestersOk(Apply(s, Persist(i, effect)))
  {
    var r := Apply(s, Persist(i, effect));
    if effect != NotDone {
      InsertedRows(s.rows, s.ingesters[i].records);
    }
    forall k: Process, j: nat | Owed(r, k, j)
      ensures k != i ==> Owed(s, k, j) && OwedId(r, k, j) == OwedId(s, k, j)
      ensures k == i ==> OwedId(r, k, j) !in s.rows
    {
    }
  }

  lemma PersistKeepsInv(s: State, i: Process, effect: Effect)
    requires Inv(s) && Enabled(s, Persist(i, effect))
    ensures Inv(Apply(s, Persist(i, effect)))
  {
    PersistKeepsIngesters(s, i, effect);
    PersistDisturbsNobody(s, i, effect);
    ConsumersUndisturbedKeeps(s, Apply(s, Persist(i, effect)));
  }

  lemma PersistDisturbsNobody(s: State, i: Process, effect: Effect)
    requires StreamOk(s) && RowsOk(s) && Enabled(s, Persist(i, effect))
    ensures var r := Apply(s, Persist(i, effect)); StreamOk(r) && RowsOk(r) && ConsumersUndisturbed(s, r)
  {
    var r := Apply(s, Persist(i, effect));
    if effect != NotDone {
      InsertedRows(s.rows, s.ingesters[i].records);
    }
    assert forall o: nat :: o < |s.log| ==> s.log[o].id in r.rows && r.rows[s.log[o].id] == s.rows[s.log[o].id];
  }

  lemma PublishLoginKeepsIngesters(s: State, i: Process, effect: Effect, trimTo: nat)
    requires RowsOk(s) && IngestersOk(s) && Enabled(s, PublishLogin(i, effect, trimTo))
    ensures IngestersOk(Apply(s, PublishLogin(i, effect, trimTo)))
  {
    var r := Apply(s, PublishLogin(i, effect, trimTo));
    forall k: Process, j: nat | Owed(r, k, j)
      ensures Owed(s, k, j) && OwedId(r, k, j) == OwedId(s, k, j)
      ensures k != i || j != s.ingesters[i].next
    {
    }
    assert Owed(s, i, s.ingesters[i].next);
  }

  lemma PublishLoginKeepsRows(s: State, i: Process, effect: Effect, trimTo: nat)
    requires RowsOk(s) && IngestersOk(s) && Enabled(s, PublishLogin(i, effect, trimTo))
    ensures RowsOk(Apply(s, PublishLogin(i, effect, trimTo)))
  {
    var me := s.ingesters[i];
    assert Owed(s, i, me.next);
    assert OwedId(s, i, me.next) == me.records[me.next].id;
  }

  lemma PublishLoginDisturbsNobody(s: State, i: Process, effect: Effect, trimTo: nat)
    requires StreamOk(s) && RowsOk(s) && IngestersOk(s) && Enabled(s, PublishLogin(i, effect, trimTo))
    ensures ConsumersUndisturbed(s, Apply(s, PublishLogin(i, effect, trimTo)))
  {
    var me := s.ingesters[i];
    assert Owed(s, i, me.next);
    assert OwedId(s, i, me.next) == me.records[me.next].id;
  }

  lemma PublishLoginKeepsInv(s: State, i: Process, effect: Effect, trimTo: nat)
    requires Inv(s) && Enabled(s, PublishLogin(i, effect, trimTo))
    ensures Inv(Apply(s, PublishLogin(i, effect, trimTo)))
  {
    var r := Apply(s, PublishLogin(i, effect, trimTo));
    PublishLoginKeepsIngesters(s, i, effect, trimTo);
    PublishLoginKeepsRows(s, i, effect, trimTo);
    PublishLoginDisturbsNobody(s, i, effect, trimTo);
    ConsumersUndisturbedKeeps(s, r);
  }

  // ---- consumption ----------------------------------------------------------------------------

  /** What a consumer step leaves to the ingesters: everything but the normalized values of rows that
      are already on the stream. */
  ghost predicate IngestersUndisturbed(s: State, r: State) {
    && r.ingesters == s.ingesters && r.log == s.log && r.trimmed == s.trimmed
    && r.rows.Keys == s.rows.Keys
    && (forall id :: id in s.rows ==> r.rows[id].record == s.rows[id].record)
    && (forall id :: id in s.rows && r.rows[id] != s.rows[id] ==> exists o: nat :: o < |s.log| && s.log[o].id == id)
  }

  lemma IngestersUndisturbedKeeps(s: State, r: State)
    requires Inv(s) && IngestersUndisturbed(s, r)
    ensures RowsOk(r) && IngestersOk(r)
  {
    forall i: Process, j: nat | Owed(r, i, j)
      ensures Owed(s, i, j) && r.rows[OwedId(s, i, j)] == s.rows[OwedId(s, i, j)]
    {
      assert Owed(s, i, j);
    }
  }

  /** Nothing is known to have happened to an entry other than `o`. */
  ghost predicate OnlyTouches(s: State, r: State, o: Entry) {
    && r.log == s.log
    && (forall p: nat :: p < |s.log| && p != o ==> Value(r, p) == Value(s, p) && (p in r.sent <==> p in s.sent))
  }

  /** The entry that consumer `c` has at hand. */
  function AtHand(s: State, c: Process): Entry
    requires AtStage(s, c)
  {
    s.consumers[c].batch[0]
  }

  lemma OthersAreHeldElsewhere(s: State, c: Process, d: Process, j: nat)
    requires ConsumersOk(s) && AtStage(s, c) && Held(s, d, j) && (d != c || j != 0)
    ensures HeldEntry(s, d, j) != AtHand(s, c)
  {
    assert Held(s, c, 0) && HeldEntry(s, c, 0) == AtHand(s, c);
  }

  // -- the consumer stays at its entry

  lemma NewStageKeepsStages(s: State, r: State, c: Process, stage: Stage)
    requires ConsumersOk(s) && StagesOk(s) && AtStage(s, c) && OnlyTouches(s, r, AtHand(s, c))
    requires r.consumers == ToStage(s, c, stage).consumers
    requires StageOk(r, AtHand(s, c), stage)
    ensures StagesOk(r)
  {
    forall d: Process, j: nat | Held(r, d, j)
      ensures HeldEntry(r, d, j) < |r.log|
      ensures StageOk(r, HeldEntry(r, d, j), if j == 0 then r.consumers[d].stage else Received)
    {
      assert Held(s, d, j) && HeldEntry(s, d, j) == HeldEntry(r, d, j);
      if d != c || j != 0 {
        OthersAreHeldElsewhere(s, c, d, j);
      }
    }
  }

  lemma NewStageSameHeld(s: State, r: State, c: Process, stage: Stage)
    requires ConsumersOk(s) && AtStage(s, c) && r.consumers == ToStage(s, c, stage).consumers
    ensures SameHeld(s, r)
  {
  }

  // -- the consumer goes on to the next entry

  /** Its batch is one shorter; the other batches are the same. */
  lemma AdvanceHeld(s: State, r: State, c: Process)
    requires AtStage(s, c) && r.consumers == s.consumers[c := NextEntry(s.consumers[c])]
    ensures forall d: Process, j: nat :: Held(r, d, j) ==>
      var k := if d == c then j + 1 else j; Held(s, d, k) && HeldEntry(r, d, j) == HeldEntry(s, d, k)
    ensures forall d: Process, j: nat :: Held(s, d, j) && (d != c || j != 0) ==>
      var k := if d == c then j - 1 else j; Held(r, d, k) && HeldEntry(r, d, k) == HeldEntry(s, d, j)
    ensures forall j: nat :: Held(r, c, j) ==> r.consumers[c].stage == Received
  {
  }

  lemma AdvanceKeepsConsumers(s: State, r: State, c: Process)
    requires ConsumersOk(s) && AtStage(s, c) && r.consumers == s.consumers[c := NextEntry(s.consumers[c])]
    requires forall o :: o in s.pending && o != AtHand(s, c) ==> o in r.pending
    requires r.abandoned <= s.abandoned + {AtHand(s, c)}
    ensures ConsumersOk(r)
  {
    AdvanceHeld(s, r, c);
    forall d: Process, j: nat | Held(r, d, j)
      ensures HeldEntry(r, d, j) in r.pending && HeldEntry(r, d, j) !in r.abandoned
    {
      OthersAreHeldElsewhere(s, c, d, if d == c then j + 1 else j);
    }
  }

  lemma AdvanceKeepsPending(s: State, r: State, c: Process)
    requires ConsumersOk(s) && PendingOk(s) && AtStage(s, c)
    requires r.consumers == s.consumers[c := NextEntry(s.consumers[c])]
    requires var o := AtHand(s, c);
      || (r.pending == s.pending && r.abandoned == s.abandoned + {o})
      || (r.pending == s.pending - {o} && r.abandoned == s.abandoned)
    ensures PendingOk(r)
  {
    AdvanceHeld(s, r, c);
    assert Held(s, c, 0) && HeldEntry(s, c, 0) == AtHand(s, c);
    forall d: Process, j: nat | Held(s, d, j)
      ensures var o := HeldEntry(s, d, j);
        o !in r.pending || o in r.abandoned || exists e: Process, k: nat :: Held(r, e, k) && HeldEntry(r, e, k) == o
    {
      if d != c || j != 0 {
        var k: nat := if d == c then j - 1 else j;
        assert Held(r, d, k) && HeldEntry(r, d, k) == HeldEntry(s, d, j);
      }
    }
    StillHeld(s, r);
  }

  lemma AdvanceKeepsStages(s: State, r: State, c: Process)
    requires ConsumersOk(s) && StagesOk(s) && AtStage(s, c) && OnlyTouches(s, r, AtHand(s, c))
    requires r.consumers == s.consumers[c := NextEntry(s.consumers[c])]
    ensures StagesOk(r)
  {
    AdvanceHeld(s, r, c);
    forall d: Process, j: nat | Held(r, d, j)
      ensures HeldEntry(r, d, j) < |r.log|
      ensures StageOk(r, HeldEntry(r, d, j), if j == 0 then r.consumers[d].stage else Received)
    {
      var k := if d == c then j + 1 else j;
      assert Held(s, d, k) && HeldEntry(s, d, k) == HeldEntry(r, d, j);
      OthersAreHeldElsewhere(s, c, d, k);
    }
  }

  lemma GiveUpKeeps(s: State, m: State, c: Process)
    requires ConsumersOk(s) && PendingOk(s) && StagesOk(s) && AtStage(s, c) && OnlyTouches(s, m, AtHand(s, c))
    requires m.consumers == s.consumers && m.pending == s.pending && m.abandoned == s.abandoned
    ensures var r := GiveUp(m, c); ConsumersOk(r) && PendingOk(r) && StagesOk(r)
  {
    var r := GiveUp(m, c);
    AdvanceKeepsConsumers(s, r, c);
    AdvanceKeepsPending(s, r, c);
    assert OnlyTouches(s, r, AtHand(s, c)) by {
      assert forall p: nat :: p < |s.log| ==> Value(r, p) == Value(m, p);
    }
    AdvanceKeepsStages(s, r, c);
  }

  // -- rows and messages

  lemma SameMessages(s: State, r: State)
    requires MessagesOk(s) && r.rows == s.rows && r.log == s.log && r.out == s.out && r.sent == s.sent
    requires r.acked == s.acked && s.pending <= r.pending
    ensures MessagesOk(r)
  {
    assert forall o: nat :: o < |s.log| ==> Value(r, o) == Value(s, o);
  }

  /** The entry at hand is pending, so it was delivered and is on the log. */
  lemma AtHandIsPending(s: State, c: Process)
    requires ConsumersOk(s) && StagesOk(s) && AtStage(s, c)
    ensures AtHand(s, c) in s.pending && AtHand(s, c) !in s.abandoned && AtHand(s, c) < |s.log|
    ensures StageOk(s, AtHand(s, c), s.consumers[c].stage)
  {
    assert Held(s, c, 0) && HeldEntry(s, c, 0) == AtHand(s, c);
  }

  /** The state after the UPDATE that stores `n` for entry `o`. */
  function WithValue(s: State, o: Entry, n: NormalizedAttributes): State
    requires o < |s.log|
  {
    s.(rows := UpdateRow(s.rows, s.log[o].id, n))
  }

  lemma UpdateTouchesOneEntry(s: State, o: Entry, n: NormalizedAttributes)
    requires RowsOk(s) && o < |s.log|
    ensures Value(WithValue(s, o, n), o) == Some(n)
    ensures OnlyTouches(s, WithValue(s, o, n), o)
    ensures IngestersUndisturbed(s, WithValue(s, o, n))
  {
    var r := WithValue(s, o, n);
    assert s.log[o].id in s.rows;
    forall p: nat | p < |s.log| && p != o ensures Value(r, p) == Value(s, p) {
      assert s.log[p].id != s.log[o].id;
    }
  }

  lemma UpdateKeepsMessages(s: State, o: Entry, n: NormalizedAttributes)
    requires RowsOk(s) && MessagesOk(s) && o < |s.log| && o !in s.sent && o in s.pending
    ensures MessagesOk(WithValue(s, o, n))
  {
    UpdateTouchesOneEntry(s, o, n);
  }

  /** The state after the XADD that publishes `n` for entry `o`. */
  function WithMessage(s: State, o: Entry, n: NormalizedAttributes): State
    requires o < |s.log|
  {
    s.(out := s.out + [Message(o, s.log[o], n)], sent := s.sent[o := |s.out|])
  }

  lemma PublishKeepsMessages(s: State, o: Entry, n: NormalizedAttributes)
    requires MessagesOk(s) && o < |s.log| && o !in s.sent && o in s.pending && Value(s, o) == Some(n)
    ensures MessagesOk(WithMessage(s, o, n))
    ensures OnlyTouches(s, WithMessage(s, o, n), o)
  {
    var r := WithMessage(s, o, n);
    assert forall p: nat :: p < |s.log| ==> Value(r, p) == Value(s, p);
  }

  // -- the steps

  lemma StartConsumerKeepsInv(s: State, c: Process)
    requires Inv(s) && Enabled(s, StartConsumer(c))
    ensures Inv(Apply(s, StartConsumer(c)))
  {
    var r := Apply(s, StartConsumer(c));
    IngestersUndisturbedKeeps(s, r);
    assert SameHeld(s, r);
    SameHeldKeeps(s, r);
    SameMessages(s, r);
    SameStages(s, r);
  }

  lemma SameStages(s: State, r: State)
    requires StagesOk(s) && r.rows == s.rows && r.log == s.log && r.sent == s.sent && SameHeld(s, r)
    requires forall c: Process, j: nat :: Held(s, c, j) ==> r.consumers[c].stage == s.consumers[c].stage
    ensures StagesOk(r)
  {
    forall d: Process, j: nat | Held(r, d, j)
      ensures HeldEntry(r, d, j) < |r.log|
      ensures StageOk(r, HeldEntry(r, d, j), if j == 0 then r.consumers[d].stage else Received)
    {
      assert Held(s, d, j) && HeldEntry(s, d, j) == HeldEntry(r, d, j);
    }
  }

  lemma NormalizeKeepsInv(s: State, c: Process, result: Option<NormalizedAttributes>)
    requires Inv(s) && Enabled(s, Normalize(c, result))
    ensures Inv(Apply(s, Normalize(c, result)))
  {
    var r := Apply(s, Normalize(c, result));
    AtHandIsPending(s, c);
    IngestersUndisturbedKeeps(s, r);
    SameMessages(s, r);
    if result.None? {
      GiveUpKeeps(s, s, c);
    } else {
      NewStageSameHeld(s, r, c, Normalized(result.value));
      SameHeldKeeps(s, r);
      NewStageKeepsStages(s, r, c, Normalized(result.value));
    }
  }

  /** A consumer step that did its effect `m` on the entry at hand, and then went on to `stage`. */
  lemma ProceedKeepsInv(s: State, m: State, c: Process, stage: Stage)
    requires Inv(s) && AtStage(s, c) && IngestersUndisturbed(s, m) && OnlyTouches(s, m, AtHand(s, c))
    requires m.consumers == s.consumers && m.pending == s.pending && m.acked == s.acked
    requires m.abandoned == s.abandoned && m.delivered == s.delivered
    requires MessagesOk(m) && StageOk(m, AtHand(s, c), stage)
    ensures Inv(ToStage(m, c, stage))
  {
    var r := ToStage(m, c, stage);
    IngestersUndisturbedKeeps(s, m);
    NewStageSameHeld(s, r, c, stage);
    SameHeldKeeps(s, r);
    SameMessages(m, r);
    NewStageKeepsStages(s, r, c, stage);
    IngestersUndisturbedKeeps(s, r);
  }

  /** The same, but the call raised and the entry was given up. */
  lemma GiveUpKeepsInv(s: State, m: State, c: Process)
    requires Inv(s) && AtStage(s, c) && IngestersUndisturbed(s, m) && OnlyTouches(s, m, AtHand(s, c))
    requires m.consumers == s.consumers && m.pending == s.pending && m.acked == s.acked
    requires m.abandoned == s.abandoned && m.delivered == s.delivered
    requires MessagesOk(m)
    ensures Inv(GiveUp(m, c))
  {
    var r := GiveUp(m, c);
    SameMessages(m, r);
    GiveUpKeeps(s, m, c);
    IngestersUndisturbedKeeps(s, r);
  }

  lemma WriteKeepsInv(s: State, c: Process, effect: Effect)
    requires Inv(s) && Enabled(s, Write(c, effect))
    ensures Inv(Apply(s, Write(c, effect)))
  {
    AtHandIsPending(s, c);
    var o, n := AtHand(s, c), s.consumers[c].stage.n;
    UpdateTouchesOneEntry(s, o, n);
    UpdateKeepsMessages(s, o, n);
    match effect
    case Done => ProceedKeepsInv(s, WithValue(s, o, n), c, Written(n));
    case ReplyLost => GiveUpKeepsInv(s, WithValue(s, o, n), c);
    case NotDone => GiveUpKeepsInv(s, s, c);
  }

  lemma PublishNormalizedKeepsInv(s: State, c: Process, effect: Effect)
    requires Inv(s) && Enabled(s, PublishNormalized(c, effect))
    ensures Inv(Apply(s, PublishNormalized(c, effect)))
  {
    AtHandIsPending(s, c);
    var o, n := AtHand(s, c), s.consumers[c].stage.n;
    PublishKeepsMessages(s, o, n);
    match effect
    case Done => ProceedKeepsInv(s, WithMessage(s, o, n), c, Published(n));
    case ReplyLost => GiveUpKeepsInv(s, WithMessage(s, o, n), c);
    case NotDone => GiveUpKeepsInv(s, s, c);
  }

  lemma AckKeepsInv(s: State, c: Process, effect: Effect)
    requires Inv(s) && Enabled(s, Ack(c, effect))
    ensures Inv(Apply(s, Ack(c, effect)))
  {
    AtHandIsPending(s, c);
    if effect == NotDone {
      GiveUpKeepsInv(s, s, c);
    } else {
      var o, r := AtHand(s, c), Apply(s, Ack(c, effect));
      AckKeepsHolding(s, c, effect);
      AckKeepsStream(s, r, o);
      AckKeepsMessages(s, r, o);
      IngestersUndisturbedKeeps(s, r);
    }
  }

  lemma AckKeepsHolding(s: State, c: Process, effect: Effect)
    requires ConsumersOk(s) && PendingOk(s) && StagesOk(s) && Enabled(s, Ack(c, effect)) && effect != NotDone
    ensures var r := Apply(s, Ack(c, effect)); ConsumersOk(r) && PendingOk(r) && StagesOk(r)
  {
    var r := Apply(s, Ack(c, effect));
    AdvanceKeepsConsumers(s, r, c);
    AdvanceKeepsPending(s, r, c);
    AdvanceKeepsStages(s, r, c);
  }

  lemma AckKeepsStream(s: State, r: State, o: Entry)
    requires StreamOk(s) && o in s.pending && r.log == s.log && r.trimmed == s.trimmed && r.delivered == s.delivered
    requires r.pending == s.pending - {o} && r.acked == s.acked + {o}
    ensures StreamOk(r)
  {
  }

  lemma AckKeepsMessages(s: State, r: State, o: Entry)
    requires MessagesOk(s) && r.rows == s.rows && r.log == s.log && r.out == s.out && r.sent == s.sent
    requires o in s.sent && r.pending == s.pending - {o} && r.acked == s.acked + {o}
    ensures MessagesOk(r)
  {
    assert forall p: nat :: p < |s.log| ==> Value(r, p) == Value(s, p);
  }

  lemma StopConsumerKeepsInv(s: State, c: Process)
    requires Inv(s) && Enabled(s, StopConsumer(c))
    ensures Inv(Apply(s, StopConsumer(c)))
  {
    var r := Apply(s, StopConsumer(c));
    IngestersUndisturbedKeeps(s, r);
    SameMessages(s, r);
    StopKeepsConsumers(s, c);
    StopKeepsPending(s, c);
    forall d: Process, j: nat | Held(r, d, j)
      ensures HeldEntry(r, d, j) < |r.log|
      ensures StageOk(r, HeldEntry(r, d, j), if j == 0 then r.consumers[d].stage else Received)
    {
      assert Held(s, d, j) && HeldEntry(s, d, j) == HeldEntry(r, d, j);
    }
  }

  lemma StopKeepsConsumers(s: State, c: Process)
    requires ConsumersOk(s) && Enabled(s, StopConsumer(c))
    ensures ConsumersOk(Apply(s, StopConsumer(c)))
  {
    var r := Apply(s, StopConsumer(c));
    forall d: Process, j: nat | Held(r, d, j)
      ensures d != c && Held(s, d, j) && HeldEntry(s, d, j) == HeldEntry(r, d, j)
      ensures HeldEntry(r, d, j) !in r.abandoned
    {
      assert Held(s, d, j) && HeldEntry(s, d, j) == HeldEntry(r, d, j);
      if s.consumers[c].Working? {
        forall k: nat | k < |s.consumers[c].batch| ensures s.consumers[c].batch[k] != HeldEntry(r, d, j) {
          assert Held(s, c, k) && HeldEntry(s, c, k) == s.consumers[c].batch[k];
        }
      }
    }
  }

  lemma StopKeepsPending(s: State, c: Process)
    requires ConsumersOk(s) && PendingOk(s) && Enabled(s, StopConsumer(c))
    ensures PendingOk(Apply(s, StopConsumer(c)))
  {
    var r := Apply(s, StopConsumer(c));
    assert r.abandoned <= r.pending by {
      if s.consumers[c].Working? {
        forall o | o in s.consumers[c].batch ensures o in s.pending {
          var k: nat :| k < |s.consumers[c].batch| && s.consumers[c].batch[k] == o;
          assert Held(s, c, k) && HeldEntry(s, c, k) == o;
        }
      }
    }
    forall d: Process, j: nat | Held(s, d, j)
      ensures var o := HeldEntry(s, d, j);
        o in r.abandoned || exists e: Process, k: nat :: Held(r, e, k) && HeldEntry(r, e, k) == o
    {
      if d != c {
        assert Held(r, d, j) && HeldEntry(r, d, j) == HeldEntry(s, d, j);
      }
    }
    StillHeld(s, r);
  }

  // -- reading

  /** A read delivers entries that were never delivered or dropped. */
  lemma BatchIsNew(s: State)
    requires StreamOk(s) && MessagesOk(s) && PendingOk(s) && NextUndelivered(s) < |s.log|
    ensures Batch(s) != []
    ensures forall o :: o in Batch(s) <==> NextUndelivered(s) <= o < NextUndelivered(s) + |Batch(s)|
    ensures forall o :: o in Batch(s) ==>
      o < |s.log| && o !in s.pending && o !in s.acked && o !in s.abandoned && Untouched(s, o)
  {
    forall o | NextUndelivered(s) <= o < NextUndelivered(s) + |Batch(s)| ensures o in Batch(s) {
      assert Batch(s)[o - NextUndelivered(s)] == o;
    }
  }

  lemma ReadKeepsInv(s: State, c: Process, effect: Effect)
    requires Inv(s) && Enabled(s, Read(c, effect))
    ensures Inv(Apply(s, Read(c, effect)))
  {
    var r := Apply(s, Read(c, effect));
    if effect != NotDone {
      BatchIsNew(s);
      IngestersUndisturbedKeeps(s, r);
      SameMessages(s, r);
      ReadKeepsConsumers(s, c, effect);
      ReadKeepsPending(s, c, effect);
      ReadKeepsStages(s, c, effect);
      assert StreamOk(r);
    }
  }

  lemma ReadKeepsConsumers(s: State, c: Process, effect: Effect)
    requires Inv(s) && Enabled(s, Read(c, effect)) && effect != NotDone
    ensures ConsumersOk(Apply(s, Read(c, effect)))
  {
    var r := Apply(s, Read(c, effect));
    BatchIsNew(s);
    forall d: Process, j: nat | Held(r, d, j)
      ensures HeldEntry(r, d, j) in r.pending && HeldEntry(r, d, j) !in r.abandoned
      ensures d == c <==> HeldEntry(r, d, j) in Batch(s)
      ensures d != c ==> Held(s, d, j) && HeldEntry(s, d, j) == HeldEntry(r, d, j)
    {
      assert d != c ==> Held(s, d, j) && HeldEntry(s, d, j) == HeldEntry(r, d, j);
    }
  }

  lemma ReadKeepsPending(s: State, c: Process, effect: Effect)
    requires Inv(s) && Enabled(s, Read(c, effect)) && effect != NotDone
    ensures PendingOk(Apply(s, Read(c, effect)))
  {
    var r := Apply(s, Read(c, effect));
    forall o | o in r.pending && o !in r.abandoned
      ensures exists d: Process, j: nat :: Held(r, d, j) && HeldEntry(r, d, j) == o
    {
      if o in s.pending {
        var d: Process, j: nat :| Held(s, d, j) && HeldEntry(s, d, j) == o;
        assert Held(r, d, j) && HeldEntry(r, d, j) == o;
      } else {
        var j: nat :| j < |Batch(s)| && Batch(s)[j] == o;
        assert Held(r, c, j) && HeldEntry(r, c, j) == o;
      }
    }
  }

  lemma ReadKeepsStages(s: State, c: Process, effect: Effect)
    requires Inv(s) && Enabled(s, Read(c, effect)) && effect != NotDone
    ensures StagesOk(Apply(s, Read(c, effect)))
  {
    var r := Apply(s, Read(c, effect));
    BatchIsNew(s);
    forall d: Process, j: nat | Held(r, d, j)
      ensures HeldEntry(r, d, j) < |r.log|
      ensures StageOk(r, HeldEntry(r, d, j), if j == 0 then r.consumers[d].stage else Received)
    {
      if d != c {
        assert Held(s, d, j) && HeldEntry(s, d, j) == HeldEntry(r, d, j);
      } else {
        assert HeldEntry(r, d, j) in Batch(s);
      }
    }
  }

  // ---- every step, every run ------------------------------------------------------------------

  lemma StepKeepsInv(s: State, step: Step)
    requires Inv(s) && Enabled(s, step)
    ensures Inv(Apply(s, step))
  {
    match step
    case Ingest(i, records) => IngestKeepsInv(s, i, records);
    case Persist(i, effect) => PersistKeepsInv(s, i, effect);
    case PublishLogin(i, effect, trimTo) => PublishLoginKeepsInv(s, i, effect, trimTo);
    case StopIngester(i) => StopIngesterKeepsInv(s, i);
    case StartConsumer(c) => StartConsumerKeepsInv(s, c);
    case Read(c, effect) => ReadKeepsInv(s, c, effect);
    case Normalize(c, result) => NormalizeKeepsInv(s, c, result);
    case Write(c, effect) => WriteKeepsInv(s, c, effect);
    case PublishNormalized(c, effect) => PublishNormalizedKeepsInv(s, c, effect);
    case Ack(c, effect) => AckKeepsInv(s, c, effect);
    case StopConsumer(c) => StopConsumerKeepsInv(s, c);
  }

  lemma {:induction false} RunKeepsInv(s: State, steps: seq<Step>)
    requires Inv(s) && Possible(s, steps)
    ensures Inv(After(s, steps))
    decreases |steps|
  {
    if steps != [] {
      StepKeepsInv(s, steps[0]);
      RunKeepsInv(Apply(s, steps[0]), steps[1..]);
    }
  }

  /** Every reachable state satisfies the invariant. */
  lemma ReachableHolds(s: State)
    requires Reachable(s)
    ensures Inv(s)
  {
    var steps :| Possible(INITIAL, steps) && After(INITIAL, steps) == s;
    InitialHolds();
    RunKeepsInv(INITIAL, steps);
  }
}
