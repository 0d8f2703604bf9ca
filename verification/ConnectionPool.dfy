/** The bounded pool of LDAP connections: a queue of slots shared by concurrent searches.

    A slot holds a live connection or nothing.  Every await of `_pool_search` ends one atomic step, so
    a step is what one task does between two awaits, and a run is any interleaving of such steps.
 */
module ConnectionPool {
  import opened Sets
  import opened Wrappers

  type Task = nat
  type Connection = nat

  /** Where a task stands inside `_pool_search`. */
  datatype Stage =
    | Waiting
    | Creating
    | Searching(conn: Connection)
    | Unbinding(conn: Connection)

  datatype Pool = Pool(
    size: nat,
    queue: seq<Option<Connection>>,
    tasks: map<Task, Stage>,
    created: nat,               // connections are numbered in the order of their creation
    failed: set<Connection>,    // connections on which a search failed
    leaked: nat)                // slots whose holder was cancelled

  datatype Step =
    | Arrive(t: Task)
    | Get(t: Task)
    | CreateSucceeds(t: Task)
    | CreateFails(t: Task)
    | SearchSucceeds(t: Task)
    | SearchFails(t: Task)
    | Unbind(t: Task)           // whether or not unbinding raises: the error is suppressed
    | Cancel(t: Task)

  predicate Enabled(s: Pool, step: Step) {
    match step
    case Arrive(t) => t !in s.tasks
    case Get(t) => t in s.tasks && s.tasks[t].Waiting? && s.queue != []
    case CreateSucceeds(t) => t in s.tasks && s.tasks[t].Creating?
    case CreateFails(t) => t in s.tasks && s.tasks[t].Creating?
    case SearchSucceeds(t) => t in s.tasks && s.tasks[t].Searching?
    case SearchFails(t) => t in s.tasks && s.tasks[t].Searching?
    case Unbind(t) => t in s.tasks && s.tasks[t].Unbinding?
    case Cancel(t) => t in s.tasks
  }

  /** `put_nowait`: raises when the queue is full, and then nothing is put. */
  predicate Full(s: Pool) {
    |s.queue| >= s.size
  }

  function Put(s: Pool, slot: Option<Connection>): Pool {
    if Full(s) then s else s.(queue := s.queue + [slot])
  }

  function Apply(s: Pool, step: Step): Pool
    requires Enabled(s, step)
  {
    match step
    case Arrive(t) => s.(tasks := s.tasks[t := Waiting])
    case Get(t) =>
      var stage := match s.queue[0] case None => Creating case Some(c) => Searching(c);
      s.(queue := s.queue[1..], tasks := s.tasks[t := stage])
    case CreateSucceeds(t) => s.(tasks := s.tasks[t := Searching(s.created)], created := s.created + 1)
    case CreateFails(t) => Put(s, None).(tasks := s.tasks - {t})
    case SearchSucceeds(t) =>
      var c := s.tasks[t].conn;
      // a full queue would raise inside the try and send the task down the error path
      if Full(s) then s.(tasks := s.tasks[t := Unbinding(c)])
      else Put(s, Some(c)).(tasks := s.tasks - {t})
    case SearchFails(t) =>
      var c := s.tasks[t].conn;
      s.(tasks := s.tasks[t := Unbinding(c)], failed := s.failed + {c})
    case Unbind(t) => Put(s, None).(tasks := s.tasks - {t})
    case Cancel(t) =>
      // the error handler does not catch cancellation, so a held slot is never given back
      s.(tasks := s.tasks - {t}, leaked := s.leaked + if s.tasks[t].Waiting? then 0 else 1)
  }

  function Fresh(size: nat): Pool {
    Pool(size, seq(size, _ => None), map[], 0, {}, 0)
  }

  // ---- the invariant --------------------------------------------------------------------------

  /** The tasks that hold a slot. */
  function Holders(s: Pool): set<Task> {
    set t | t in s.tasks && !s.tasks[t].Waiting?
  }

  function ConnOf(s: Pool, t: Task): Option<Connection> {
    if t !in s.tasks then None
    else match s.tasks[t]
         case Searching(c) => Some(c)
         case Unbinding(c) => Some(c)
         case _ => None
  }

  /** Every slot is in the queue, held, or lost to a cancelled holder. */
  predicate SlotsConserved(s: Pool) {
    |s.queue| + |Holders(s)| + s.leaked == s.size
  }

  /** No connection is in two places. */
  ghost predicate Exclusive(s: Pool) {
    && (forall i, j :: 0 <= i < j < |s.queue| && s.queue[i].Some? ==> s.queue[i] != s.queue[j])
    && (forall t, u :: ConnOf(s, t).Some? && t != u ==> ConnOf(s, t) != ConnOf(s, u))
    && (forall i, t :: 0 <= i < |s.queue| && s.queue[i].Some? ==> s.queue[i] != ConnOf(s, t))
  }

  ghost predicate Numbered(s: Pool) {
    && (forall i :: 0 <= i < |s.queue| && s.queue[i].Some? ==> s.queue[i].value < s.created)
    && (forall t :: ConnOf(s, t).Some? ==> ConnOf(s, t).value < s.created)
    && (forall c :: c in s.failed ==> c < s.created)
  }

  /** A connection on which a search failed is neither offered nor searched on again. */
  ghost predicate FailedAreOut(s: Pool) {
    && (forall i :: 0 <= i < |s.queue| && s.queue[i].Some? ==> s.queue[i].value !in s.failed)
    && (forall t :: t in s.tasks && s.tasks[t].Searching? ==> s.tasks[t].conn !in s.failed)
  }

  ghost predicate Inv(s: Pool) {
    SlotsConserved(s) && Exclusive(s) && Numbered(s) && FailedAreOut(s)
  }

  lemma FreshHolds(size: nat)
    ensures Inv(Fresh(size))
  {
    assert Holders(Fresh(size)) == {};
  }

  /** A task that holds a slot always finds room to give it back. */
  lemma PutNeverFull(s: Pool, t: Task)
    requires SlotsConserved(s) && t in Holders(s)
    ensures !Full(s)
  {
    assert |Holders(s)| > 0;
  }

  lemma HoldersAfterMove(s: Pool, r: Pool, t: Task, stage: Stage)
    requires r.tasks == s.tasks[t := stage]
    ensures Holders(r) == if stage.Waiting? then Holders(s) - {t} else Holders(s) + {t}
  {
  }

  lemma HoldersAfterLeaving(s: Pool, r: Pool, t: Task)
    requires r.tasks == s.tasks - {t}
    ensures Holders(r) == Holders(s) - {t}
  {
  }

  lemma StepConservesSlots(s: Pool, step: Step)
    requires SlotsConserved(s) && Enabled(s, step)
    ensures SlotsConserved(Apply(s, step))
  {
    var r, t := Apply(s, step), step.t;
    if t in Holders(s) {
      PutNeverFull(s, t);
    }
    if t in r.tasks {
      HoldersAfterMove(s, r, t, r.tasks[t]);
    } else {
      HoldersAfterLeaving(s, r, t);
    }
  }

  /** Where the connections are after a step: only those of the queue and of the stepping task move. */
  lemma StepMovesOneTask(s: Pool, step: Step)
    requires Enabled(s, step)
    ensures forall u :: u != step.t ==> ConnOf(Apply(s, step), u) == ConnOf(s, u)
    ensures match step
            case Get(_) => ConnOf(Apply(s, step), step.t) == s.queue[0]
            case CreateSucceeds(_) => ConnOf(Apply(s, step), step.t) == Some(s.created)
            case SearchFails(_) => ConnOf(Apply(s, step), step.t) == ConnOf(s, step.t)
            case SearchSucceeds(_) =>
              && ConnOf(s, step.t).Some?
              && (ConnOf(Apply(s, step), step.t) == if Full(s) then ConnOf(s, step.t) else None)
            case _ => ConnOf(Apply(s, step), step.t) == None
  {
  }

  lemma QueueStaysExclusive(s: Pool, slot: Option<Connection>, t: Task, r: Pool)
    requires Exclusive(s) && Numbered(s)
    requires r.queue == s.queue + [slot] || r.queue == s.queue
    requires slot.Some? ==> slot == ConnOf(s, t)
    requires ConnOf(r, t) == None || (ConnOf(r, t) == ConnOf(s, t) && r.queue == s.queue)
    requires forall u :: u != t ==> ConnOf(r, u) == ConnOf(s, u)
    requires r.created == s.created && forall c :: c in r.failed ==> c < s.created
    ensures Exclusive(r) && Numbered(r)
  {
    forall u, v | ConnOf(r, u).Some? && u != v ensures ConnOf(r, u) != ConnOf(r, v) {
      assert ConnOf(s, u).Some?;
    }
  }

  lemma StepKeepsExclusive(s: Pool, step: Step)
    requires Inv(s) && Enabled(s, step)
    ensures Exclusive(Apply(s, step)) && Numbered(Apply(s, step))
  {
    var r := Apply(s, step);
    StepMovesOneTask(s, step);
    match step
    case Get(t) => assert forall i :: 0 <= i < |r.queue| ==> r.queue[i] == s.queue[i + 1];
    case CreateSucceeds(t) =>
    case SearchSucceeds(t) => QueueStaysExclusive(s, Some(s.tasks[t].conn), t, r);
    case SearchFails(t) =>
      assert ConnOf(s, t) == Some(s.tasks[t].conn);
      QueueStaysExclusive(s, None, t, r);
    case Arrive(t) => QueueStaysExclusive(s, None, t, r);
    case CreateFails(t) => QueueStaysExclusive(s, None, t, r);
    case Unbind(t) => QueueStaysExclusive(s, None, t, r);
    case Cancel(t) => QueueStaysExclusive(s, None, t, r);
  }

  lemma StepKeepsFailedOut(s: Pool, step: Step)
    requires Inv(s) && Enabled(s, step)
    ensures FailedAreOut(Apply(s, step))
  {
    var r := Apply(s, step);
    match step
    case SearchFails(t) =>
      assert ConnOf(s, t) == Some(s.tasks[t].conn);
      forall u | u in r.tasks && r.tasks[u].Searching? ensures r.tasks[u].conn !in r.failed {
        assert ConnOf(s, u) == Some(s.tasks[u].conn);
      }
    case _ =>
  }

  lemma StepKeepsInv(s: Pool, step: Step)
    requires Inv(s) && Enabled(s, step)
    ensures Inv(Apply(s, step))
  {
    StepConservesSlots(s, step);
    StepKeepsExclusive(s, step);
    StepKeepsFailedOut(s, step);
  }

  // ---- runs -----------------------------------------------------------------------------------

  predicate Possible(s: Pool, steps: seq<Step>)
    decreases |steps|
  {
    steps == [] || (Enabled(s, steps[0]) && Possible(Apply(s, steps[0]), steps[1..]))
  }

  /** The state after a sequence of steps. */
  function After(s: Pool, steps: seq<Step>): Pool
    requires Possible(s, steps)
    decreases |steps|
  {
    if steps == [] then s else After(Apply(s, steps[0]), steps[1..])
  }

  function CancelledHolders(s: Pool, steps: seq<Step>): nat
    requires Possible(s, steps)
    decreases |steps|
  {
    if steps == [] then 0
    else (if steps[0].Cancel? && steps[0].t in Holders(s) then 1 else 0)
         + CancelledHolders(Apply(s, steps[0]), steps[1..])
  }

  lemma {:induction false} RunKeepsInv(s: Pool, steps: seq<Step>)
    requires Inv(s) && Possible(s, steps)
    ensures Inv(After(s, steps))
    ensures After(s, steps).size == s.size
    ensures After(s, steps).leaked == s.leaked + CancelledHolders(s, steps)
    ensures s.failed <= After(s, steps).failed
    decreases |steps|
  {
    if steps != [] {
      StepKeepsInv(s, steps[0]);
      RunKeepsInv(Apply(s, steps[0]), steps[1..]);
    }
  }

  /** In every run from a fresh pool: queued and held slots add up to the pool size less one for every
      holder that was cancelled, no connection is in two places, and a connection whose search failed
      never comes back. */
  lemma PoolIsSafe(size: nat, steps: seq<Step>)
    requires Possible(Fresh(size), steps)
    ensures var s := After(Fresh(size), steps);
      && |s.queue| + |Holders(s)| == size - CancelledHolders(Fresh(size), steps)
      && Exclusive(s) && FailedAreOut(s)
      && (forall t :: t in Holders(s) ==> !Full(s))
  {
    FreshHolds(size);
    RunKeepsInv(Fresh(size), steps);
    var s := After(Fresh(size), steps);
    forall t | t in Holders(s) ensures !Full(s) {
      PutNeverFull(s, t);
    }
  }

  /** The connection a cancelled holder takes with it. */
  function LostBy(s: Pool, step: Step): set<Connection>
    requires Enabled(s, step)
  {
    if step.Cancel? && ConnOf(s, step.t).Some? then {ConnOf(s, step.t).value} else {}
  }

  function LostIn(s: Pool, steps: seq<Step>): set<Connection>
    requires Possible(s, steps)
    decreases |steps|
  {
    if steps == [] then {} else LostBy(s, steps[0]) + LostIn(Apply(s, steps[0]), steps[1..])
  }

  /** Where a connection is: in the queue, with a search, or given up after a failed search. */
  ghost predicate Known(s: Pool, c: Connection) {
    Some(c) in s.queue || (exists t :: ConnOf(s, t) == Some(c)) || c in s.failed
  }

  /** No connection is forgotten but those in `lost`; one that is being unbound has failed. */
  ghost predicate NoneForgotten(s: Pool, lost: set<Connection>) {
    && (forall c: Connection :: c < s.created ==> Known(s, c) || c in lost)
    && (forall t :: t in s.tasks && s.tasks[t].Unbinding? ==> s.tasks[t].conn in s.failed)
  }

  /** Where a connection can go in one step. */
  lemma KnownStaysKnown(s: Pool, step: Step, c: Connection)
    requires SlotsConserved(s) && Enabled(s, step) && Known(s, c) && c !in LostBy(s, step)
    requires forall t :: t in s.tasks && s.tasks[t].Unbinding? ==> s.tasks[t].conn in s.failed
    ensures Known(Apply(s, step), c)
  {
    var r, t := Apply(s, step), step.t;
    if t in Holders(s) {
      PutNeverFull(s, t);
    }
    if Some(c) in s.queue {
      var i :| 0 <= i < |s.queue| && s.queue[i] == Some(c);
      if step.Get? {
        if i == 0 {
          assert ConnOf(r, t) == Some(c);
        } else {
          assert r.queue[i - 1] == Some(c);
        }
      } else {
        assert r.queue[i] == Some(c);
      }
    } else if c !in s.failed {
      var u :| ConnOf(s, u) == Some(c);
      if u != t {
        assert ConnOf(r, u) == Some(c);
      } else if step.SearchSucceeds? {
        assert r.queue[|s.queue|] == Some(c);
      }
    }
  }

  lemma StepForgetsNone(s: Pool, step: Step, lost: set<Connection>)
    requires SlotsConserved(s) && Enabled(s, step) && NoneForgotten(s, lost)
    ensures NoneForgotten(Apply(s, step), lost + LostBy(s, step))
  {
    var r := Apply(s, step);
    forall c: Connection | c < r.created ensures Known(r, c) || c in lost + LostBy(s, step) {
      if c < s.created {
        if Known(s, c) && c !in LostBy(s, step) {
          KnownStaysKnown(s, step, c);
        }
      } else {
        assert ConnOf(r, step.t) == Some(c);
      }
    }
    if step.t in Holders(s) {
      PutNeverFull(s, step.t);
    }
  }

  lemma {:induction false} RunForgetsNone(s: Pool, steps: seq<Step>, lost: set<Connection>)
    requires Inv(s) && Possible(s, steps) && NoneForgotten(s, lost)
    ensures NoneForgotten(After(s, steps), lost + LostIn(s, steps))
    decreases |steps|
  {
    if steps == [] {
      assert lost + {} == lost;
    } else {
      StepForgetsNone(s, steps[0], lost);
      StepKeepsInv(s, steps[0]);
      RunForgetsNone(Apply(s, steps[0]), steps[1..], lost + LostBy(s, steps[0]));
      assert lost + LostBy(s, steps[0]) + LostIn(Apply(s, steps[0]), steps[1..]) == lost + LostIn(s, steps);
    }
  }

  /** Connections are reused, not dropped: in every run each one ever created is queued, with a search, given
      up after a failed search, or lost with a cancelled holder. */
  lemma NoConnectionIsForgotten(size: nat, steps: seq<Step>, c: Connection)
    requires Possible(Fresh(size), steps) && c < After(Fresh(size), steps).created
    ensures var s := After(Fresh(size), steps);
      Some(c) in s.queue || (exists t :: ConnOf(s, t) == Some(c)) || c in s.failed || c in LostIn(Fresh(size), steps)
  {
    FreshHolds(size);
    RunForgetsNone(Fresh(size), steps, {});
  }

  /** The connections that are queued or held. */
  ghost function Open(s: Pool): set<Connection> {
    (set i | 0 <= i < |s.queue| && s.queue[i].Some? :: s.queue[i].value)
    + (set t | t in s.tasks && ConnOf(s, t).Some? :: ConnOf(s, t).value)
  }

  /** In no run are there more of them than slots: what the directory is configured to accept. */
  lemma OpenIsBounded(size: nat, steps: seq<Step>)
    requires Possible(Fresh(size), steps)
    ensures |Open(After(Fresh(size), steps))| <= size
  {
    FreshHolds(size);
    RunKeepsInv(Fresh(size), steps);
    OpenFitsSlots(After(Fresh(size), steps));
  }

  lemma OpenFitsSlots(s: Pool)
    requires SlotsConserved(s)
    ensures |Open(s)| <= s.size
  {
    QueuedConnections(s.queue);
    HeldConnections(s, Holders(s));
    var held := set t | t in Holders(s) && ConnOf(s, t).Some? :: ConnOf(s, t).value;
    var queued := set i | 0 <= i < |s.queue| && s.queue[i].Some? :: s.queue[i].value;
    assert Open(s) == queued + held;
  }

  /** The sessions open at the directory, those of failed searches and of cancelled holders aside. */
  function Sessions(s: Pool, lost: set<Connection>): set<Connection> {
    set c | 0 <= c < s.created && c !in s.failed && c !in lost
  }

  /** So they never outnumber the slots. */
  lemma SessionsAreBounded(size: nat, steps: seq<Step>)
    requires Possible(Fresh(size), steps)
    ensures |Sessions(After(Fresh(size), steps), LostIn(Fresh(size), steps))| <= size
  {
    var s := After(Fresh(size), steps);
    var sessions := Sessions(s, LostIn(Fresh(size), steps));
    forall c | c in sessions ensures c in Open(s) {
      NoConnectionIsForgotten(size, steps, c);
      if Some(c) in s.queue {
        var i :| 0 <= i < |s.queue| && s.queue[i] == Some(c);
        assert s.queue[i].value == c;
      } else {
        var t :| ConnOf(s, t) == Some(c);
        assert t in s.tasks && ConnOf(s, t).value == c;
      }
    }
    OpenIsBounded(size, steps);
    SubsetSize(sessions, Open(s));
  }

  lemma {:induction false} QueuedConnections(queue: seq<Option<Connection>>)
    ensures |set i | 0 <= i < |queue| && queue[i].Some? :: queue[i].value| <= |queue|
  {
    var all := set i | 0 <= i < |queue| && queue[i].Some? :: queue[i].value;
    if queue == [] {
      assert all == {};
    } else {
      var init, last := queue[..|queue| - 1], queue[|queue| - 1];
      QueuedConnections(init);
      var some := set i | 0 <= i < |init| && init[i].Some? :: init[i].value;
      assert all == some + if last.Some? then {last.value} else {};
    }
  }

  lemma {:induction false} HeldConnections(s: Pool, tasks: set<Task>)
    ensures |set t | t in tasks && ConnOf(s, t).Some? :: ConnOf(s, t).value| <= |tasks|
  {
    var all := set t | t in tasks && ConnOf(s, t).Some? :: ConnOf(s, t).value;
    if tasks == {} {
      assert all == {};
    } else {
      var u :| u in tasks;
      var fewer := set t | t in tasks - {u} && ConnOf(s, t).Some? :: ConnOf(s, t).value;
      HeldConnections(s, tasks - {u});
      assert all == fewer + if ConnOf(s, u).Some? then {ConnOf(s, u).value} else {};
    }
  }

  lemma {:induction false} AfterAppend(s: Pool, steps: seq<Step>, more: seq<Step>)
    requires Possible(s, steps) && Possible(After(s, steps), more)
    ensures Possible(s, steps + more) && After(s, steps + more) == After(After(s, steps), more)
    decreases |steps|
  {
    if steps == [] {
      assert steps + more == more;
    } else {
      assert (steps + more)[1..] == steps[1..] + more;
      AfterAppend(Apply(s, steps[0]), steps[1..], more);
    }
  }

  // ---- progress -------------------------------------------------------------------------------

  /** Some continuation lets the waiting task `t` take a slot. */
  ghost predicate CanBeServed(s: Pool, t: Task) {
    exists steps: seq<Step> :: Possible(s, steps) && steps != [] && steps[|steps| - 1] == Get(t)
                               && t in s.tasks && s.tasks[t].Waiting?
  }

  /** A waiting task can be served exactly as long as some slot has not leaked. */
  lemma ServedUnlessAllLeaked(s: Pool, t: Task)
    requires Inv(s) && t in s.tasks && s.tasks[t].Waiting?
    ensures CanBeServed(s, t) <==> s.leaked < s.size
  {
    if s.leaked < s.size {
      if s.queue != [] {
        assert Possible(s, [Get(t)]);
        assert CanBeServed(s, t);
      } else {
        assert Holders(s) != {};
        var u :| u in Holders(s);
        var back := GiveBack(s, u);
        ServedAfter(s, back, t);
      }
    } else if CanBeServed(s, t) {
      var steps :| Possible(s, steps) && steps != [] && steps[|steps| - 1] == Get(t);
      NothingLeft(s, steps, t);
    }
  }

  /** A holder can always give its slot back. */
  lemma GiveBack(s: Pool, u: Task) returns (steps: seq<Step>)
    requires Inv(s) && u in Holders(s)
    ensures Possible(s, steps) && After(s, steps).queue != []
    ensures forall v :: v != u && v in s.tasks ==> v in After(s, steps).tasks && After(s, steps).tasks[v] == s.tasks[v]
  {
    PutNeverFull(s, u);
    match s.tasks[u]
    case Creating =>
      steps := [CreateFails(u)];
      assert After(s, steps) == Apply(s, steps[0]);
    case Searching(_) =>
      steps := [SearchSucceeds(u)];
      assert After(s, steps) == Apply(s, steps[0]);
    case Unbinding(_) =>
      steps := [Unbind(u)];
      assert After(s, steps) == Apply(s, steps[0]);
  }

  lemma ServedAfter(s: Pool, steps: seq<Step>, t: Task)
    requires Possible(s, steps) && After(s, steps).queue != []
    requires t in After(s, steps).tasks && After(s, steps).tasks[t].Waiting?
    requires t in s.tasks && s.tasks[t].Waiting?
    ensures CanBeServed(s, t)
  {
    assert Possible(Apply(After(s, steps), Get(t)), []);
    AfterAppend(s, steps, [Get(t)]);
    assert (steps + [Get(t)])[|steps + [Get(t)]| - 1] == Get(t);
  }

  /** Once all slots have leaked, no task is ever served again. */
  lemma {:induction false} NothingLeft(s: Pool, steps: seq<Step>, t: Task)
    requires Inv(s) && s.leaked == s.size && Possible(s, steps)
    ensures steps != [] ==> steps[|steps| - 1] != Get(t)
    decreases |steps|
  {
    assert s.queue == [];
    if steps != [] {
      assert Holders(s) == {};
      StepKeepsInv(s, steps[0]);
      NothingLeft(Apply(s, steps[0]), steps[1..], t);
    }
  }

  /** A run that shows it: one search takes the only slot and is cancelled; nobody holds the slot, it is not
      queued, and no later search is ever served. */
  lemma CancelledHolderKeepsSlot()
    ensures var run := [Arrive(0), Get(0), Cancel(0)];
      && Possible(Fresh(1), run)
      && After(Fresh(1), run).queue == [] && Holders(After(Fresh(1), run)) == {}
      && forall steps: seq<Step>, t: Task ::
           steps != [] && Possible(After(Fresh(1), run), steps) ==> steps[|steps| - 1] != Get(t)
  {
    var run := [Arrive(0), Get(0), Cancel(0)];
    var s1 := Apply(Fresh(1), run[0]);
    assert run[1..] == [Get(0), Cancel(0)] && run[1..][1..] == [Cancel(0)] && [Cancel(0)][1..] == [];
    var s2 := Apply(s1, Get(0));
    var s3 := Apply(s2, Cancel(0));
    assert Possible(s3, []) && Possible(s2, [Cancel(0)]) && Possible(s1, [Get(0), Cancel(0)]);
    assert After(s2, [Cancel(0)]) == s3 && After(s1, [Get(0), Cancel(0)]) == s3;
    FreshHolds(1);
    RunKeepsInv(Fresh(1), run);
    forall steps: seq<Step>, t: Task | steps != [] && Possible(s3, steps) ensures steps[|steps| - 1] != Get(t) {
      NothingLeft(s3, steps, t);
    }
  }

  // ---- the code -------------------------------------------------------------------------------

  /** The steps of a run that task `t` took itself, in order. */
  function Own(steps: seq<Step>, t: Task): seq<Step> {
    if steps == [] then []
    else
      var init, last := Own(steps[..|steps| - 1], t), steps[|steps| - 1];
      if last.t == t then init + [last] else init
  }

  ghost predicate OnlyOthers(before: seq<Step>, after: seq<Step>, t: Task) {
    before <= after && forall i :: |before| <= i < |after| ==> after[i].t != t
  }

  lemma {:induction false} OthersAddNothing(before: seq<Step>, after: seq<Step>, t: Task)
    requires OnlyOthers(before, after, t)
    ensures Own(after, t) == Own(before, t)
    decreases |after|
  {
    if |after| == |before| {
      assert after == before;
    } else {
      OthersAddNothing(before, after[..|after| - 1], t);
    }
  }

  lemma OwnNext(steps: seq<Step>, last: Step)
    ensures Own(steps + [last], last.t) == Own(steps, last.t) + [last]
  {
    assert (steps + [last])[..|steps|] == steps;
  }

  /** What a task that holds a slot has to do with it.  A connection that was searched on goes back to the queue
      if the search came back; one on which it failed is unbound and never put back. */
  function SlotSteps(t: Task, creating: bool, createFails: bool, searchFails: bool): seq<Step> {
    if creating && createFails then [CreateFails(t)]
    else (if creating then [CreateSucceeds(t)] else [])
         + if searchFails then [SearchFails(t), Unbind(t)] else [SearchSucceeds(t)]
  }

  datatype Found<R> = Found(results: R) | SearchRaised | Blocked

  class SharedPool {
    var state: Pool
    ghost const size: nat
    ghost var trace: seq<Step>   // everything that has happened to this pool

    /** The pool is where its run from a fresh pool has led. */
    ghost predicate Valid()
      reads this
    {
      Possible(Fresh(size), trace) && state == After(Fresh(size), trace)
    }

    lemma ValidImpliesInv()
      requires Valid()
      ensures Inv(state)
    {
      FreshHolds(size);
      RunKeepsInv(Fresh(size), trace);
    }

    /** `_get_pool` on first use: one empty slot after another. */
    constructor (desired: nat)
      ensures Valid() && size == desired && trace == [] && state == Fresh(desired)
    {
      var slots := [];
      for i := 0 to desired
        invariant slots == Fresh(i).queue
      {
        slots := slots + [None];
      }
      state := Pool(desired, slots, map[], 0, {}, 0);
      size, trace := desired, [];
    }

    /** One atomic step of the calling task. */
    method Do(step: Step)
      requires Valid() && Enabled(state, step)
      modifies this
      ensures Valid() && state == Apply(old(state), step) && trace == old(trace) + [step]
    {
      assert Possible(Apply(state, step), []);
      AfterAppend(Fresh(size), trace, [step]);
      trace := trace + [step];
      state := Apply(state, step);
    }

    /** The same, as far as the steps of that task go. */
    method DoOwn(step: Step)
      requires Valid() && Enabled(state, step)
      modifies this
      ensures Valid() && state == Apply(old(state), step)
      ensures Own(trace, step.t) == Own(old(trace), step.t) + [step]
    {
      OwnNext(trace, step);
      Do(step);
    }

    /** An await of task `t`: any number of steps of other tasks, cancellations included. */
    method Await(t: Task)
      requires Valid()
      modifies this
      ensures Valid() && Own(trace, t) == Own(old(trace), t) && old(state).failed <= state.failed
      ensures t in state.tasks <==> t in old(state).tasks
      ensures t in state.tasks ==> state.tasks[t] == old(state).tasks[t]
    {
      var count :| count >= 0;
      for i := 0 to count
        invariant Valid() && OnlyOthers(old(trace), trace, t) && old(state).failed <= state.failed
        invariant t in state.tasks <==> t in old(state).tasks
        invariant t in state.tasks ==> state.tasks[t] == old(state).tasks[t]
      {
        var step: Step := *;
        if step.t != t && Enabled(state, step) {
          Do(step);
        }
      }
      OthersAddNothing(old(trace), trace, t);
    }

    /** The connection that was put back last, if there is one in the last slot of the queue. */
    function LastInQueue(): Option<Connection>
      reads this
    {
      if state.queue == [] then None else state.queue[|state.queue| - 1]
    }

    /** The `try` of `_pool_search`, once a slot is held.  `conn` is the connection searched on. */
    method UseSlot<R>(t: Task, createFails: bool, reply: Option<R>)
      returns (results: Option<R>, ghost conn: Connection)
      requires Valid() && t in state.tasks && (state.tasks[t].Creating? || state.tasks[t].Searching?)
      modifies this
      ensures Valid() && t !in state.tasks
      ensures Own(trace, t)
           == Own(old(trace), t) + SlotSteps(t, old(state).tasks[t].Creating?, createFails, reply.None?)
      ensures results == if createFails && old(state).tasks[t].Creating? then None else reply
      ensures old(state).tasks[t].Searching? ==> conn == old(state).tasks[t].conn
      ensures results.Some? ==> LastInQueue() == Some(conn)
      ensures results.None? && !(createFails && old(state).tasks[t].Creating?) ==> conn in state.failed
    {
      conn := if state.tasks[t].Searching? then state.tasks[t].conn else state.created;
      if state.tasks[t].Creating? {
        Await(t);
        if createFails {
          DoOwn(CreateFails(t));
          return None, conn;
        }
        DoOwn(CreateSucceeds(t));
        conn := state.tasks[t].conn;
      }
      SearchOn(t, reply.Some?);
      results := reply;
    }

    /** The search on the connection at hand, and what is done with the connection then. */
    method SearchOn(t: Task, succeeds: bool)
      requires Valid() && t in state.tasks && state.tasks[t].Searching?
      modifies this
      ensures Valid() && t !in state.tasks
      ensures succeeds ==> LastInQueue() == Some(old(state).tasks[t].conn)
      ensures !succeeds ==> old(state).tasks[t].conn in state.failed
      ensures Own(trace, t) == Own(old(trace), t) + SlotSteps(t, false, false, !succeeds)
    {
      Await(t);
      if succeeds {
        ValidImpliesInv();
        PutNeverFull(state, t);
        DoOwn(SearchSucceeds(t));
      } else {
        DoOwn(SearchFails(t));
        Await(t);
        DoOwn(Unbind(t));
      }
    }

    /** `_pool_search`.  `createFails` and `reply` say what the directory does. */
    method PoolSearch<R>(t: Task, createFails: bool, reply: Option<R>)
      returns (r: Found<R>, ghost creating: bool, ghost conn: Connection)
      requires Valid() && t !in state.tasks
      modifies this
      ensures Valid() && (r.Blocked? <==> t in state.tasks)
      ensures r.Blocked? ==> state.tasks[t] == Waiting && state.queue == []
      ensures r == ResultOf(r.Blocked?, creating && createFails, reply)
      ensures Own(trace, t) == Own(old(trace), t) + [Arrive(t)]
                               + if r.Blocked? then [] else [Get(t)] + SlotSteps(t, creating, createFails, reply.None?)
      // the connection searched on is back in the queue, or has failed
      ensures r.Found? ==> LastInQueue() == Some(conn)
      ensures r.SearchRaised? && !(creating && createFails) ==> conn in state.failed
    {
      DoOwn(Arrive(t));
      r, creating, conn := TakeSlot(t, createFails, reply);
    }

    /** What a search that got a slot gives. */
    static function ResultOf<R>(blocked: bool, createFailed: bool, reply: Option<R>): Found<R> {
      if blocked then Blocked
      else if createFailed || reply.None? then SearchRaised
      else Found(reply.value)
    }

    /** A search in the line for a slot waits while others do any number of steps.  If by then there is still
        no slot it is still in the line, and can be followed further by waiting again; whether a slot can
        come is what `ServedUnlessAllLeaked` tells. */
    method TakeSlot<R>(t: Task, createFails: bool, reply: Option<R>)
      returns (r: Found<R>, ghost creating: bool, ghost conn: Connection)
      requires Valid() && t in state.tasks && state.tasks[t].Waiting?
      modifies this
      ensures Valid() && (r.Blocked? <==> t in state.tasks)
      ensures r.Blocked? ==> state.tasks[t] == Waiting && state.queue == []
      ensures r == ResultOf(r.Blocked?, creating && createFails, reply)
      ensures Own(trace, t) == Own(old(trace), t)
                               + if r.Blocked? then [] else [Get(t)] + SlotSteps(t, creating, createFails, reply.None?)
      ensures r.Found? ==> LastInQueue() == Some(conn)
      ensures r.SearchRaised? && !(creating && createFails) ==> conn in state.failed
    {
      creating, conn := false, 0;
      Await(t);
      if state.queue == [] {
        return Blocked, creating, conn;
      }
      creating := state.queue[0].None?;
      DoOwn(Get(t));
      var results;
      results, conn := UseSlot(t, createFails, reply);
      r := if results.Some? then Found(results.value) else SearchRaised;
    }
  }
}
