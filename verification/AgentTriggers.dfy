/**
 Synchronising a workflow's trigger rows with the trigger paths of its definition.
 Paths are globally unique; a sync never takes over another workflow's path.
 */
module AgentTriggers {
  import opened Common

  datatype State = Active | Archived

  datatype Trigger = Trigger(workflowId: int, organizationId: int, state: State)

  /** trigger_path is unique, so the table is a map from paths. */
  type Table = map<string, Trigger>

  datatype SyncError = PathConflict(conflicts: set<string>) | UniqueViolation

  function Paths(paths: seq<string>): set<string> {
    set p | p in paths
  }

  function OwnedBy(t: Table, w: int): set<string> {
    set p | p in t && t[p].workflowId == w
  }

  function ActivePaths(t: Table, w: int): set<string> {
    set p | p in t && t[p].workflowId == w && t[p].state == Active
  }

  /** The listed paths that a workflow other than `w` owns, archived rows included. */
  function Foreign(t: Table, paths: set<string>, w: Option<int>): set<string> {
    set p | p in paths && p in t && (w.Some? ==> t[p].workflowId != w.value)
  }

  // ---------- A sync: what it reads, and what it then writes ----------

  datatype Plan = Plan(
    workflowId: int, organizationId: int, archive: set<string>, reactivate: set<string>, add: set<string>)

  function MakePlan(t: Table, w: int, organizationId: int, paths: seq<string>): Result<Plan, SyncError> {
    var existing, given := OwnedBy(t, w), Paths(paths);
    var add := given - existing;
    if Foreign(t, add, Some(w)) != {} then Err(PathConflict(Foreign(t, add, Some(w))))
    else Ok(Plan(w, organizationId, existing - given, given * existing, add))
  }

  function SetStates(t: Table, plan: Plan): Table {
    map p | p in t ::
      if t[p].workflowId != plan.workflowId then t[p]
      else if p in plan.archive then t[p].(state := Archived)
      else if p in plan.reactivate then t[p].(state := Active)
      else t[p]
  }

  function Added(plan: Plan): Table {
    map p | p in plan.add :: Trigger(plan.workflowId, plan.organizationId, Active)
  }

  /** Any path taken since the plan was made makes an insert fail, and the whole
      transaction is rolled back. */
  function Write(t: Table, plan: Plan): Result<Table, SyncError> {
    if plan.add !! t.Keys then Ok(SetStates(t, plan) + Added(plan)) else Err(UniqueViolation)
  }

  method UpdateStates(rows: Table, ghost plan: Plan, w: int, archive: set<string>, reactivate: set<string>)
    returns (updated: Table)
    requires plan.workflowId == w && plan.archive == archive && plan.reactivate == reactivate && archive !! reactivate
    ensures updated == SetStates(rows, plan)
  {
    updated := rows;
    if archive != {} {
      updated := map p | p in updated ::
        if updated[p].workflowId == w && p in archive then updated[p].(state := Archived) else updated[p];
    }
    if reactivate != {} {
      updated := map p | p in updated ::
        if updated[p].workflowId == w && p in reactivate && updated[p].state == Archived
        then updated[p].(state := Active) else updated[p];
    }
  }

  method InsertTriggers(rows: Table, ghost plan: Plan, w: int, organizationId: int, add: set<string>)
    returns (r: Result<Table, SyncError>)
    requires plan.add == add && plan.workflowId == w && plan.organizationId == organizationId
    ensures r == if add !! rows.Keys then Ok(rows + Added(plan)) else Err(UniqueViolation)
  {
    var inserted: Table := map[];
    var rest := add;
    while rest != {}
      invariant rest <= add && inserted == map p | p in add - rest :: Trigger(w, organizationId, Active)
      invariant add - rest !! rows.Keys
      decreases rest
    {
      var p :| p in rest;
      if p in rows {
        assert p in rows.Keys;
        return Err(UniqueViolation);
      }
      inserted := inserted[p := Trigger(w, organizationId, Active)];
      rest := rest - {p};
    }
    assert add - rest == add;
    return Ok(rows + inserted);
  }

  class AgentTriggerClient {
    var rows: Table

    method CheckTriggerPathConflicts(paths: seq<string>, excludeWorkflowId: Option<int>)
      returns (conflicts: set<string>)
      ensures forall p :: p in conflicts <==>
        p in paths && p in rows && (excludeWorkflowId.Some? ==> rows[p].workflowId != excludeWorkflowId.value)
    {
      if paths == [] {
        return {};
      }
      conflicts := set p | p in paths && p in rows;
      if excludeWorkflowId.Some? {
        conflicts := set p | p in conflicts && rows[p].workflowId != excludeWorkflowId.value;
      }
    }

    /** `meanwhile` are the rows other transactions commit between this one's reads
        and its writes; they never take a path from its owner. */
    method SyncTriggersForWorkflow(w: int, organizationId: int, paths: seq<string>, meanwhile: Table)
      returns (r: Result<(), SyncError>)
      requires forall p :: p in rows && p in meanwhile ==> meanwhile[p].workflowId == rows[p].workflowId
      modifies this
      ensures var t := old(rows) + meanwhile;
        match MakePlan(old(rows), w, organizationId, paths)
        case Err(e) => r == Err(e) && rows == t
        case Ok(plan) =>
          match Write(t, plan)
          case Err(e) => r == Err(e) && rows == t
          case Ok(after) => r.Ok? && rows == after
    {
      var existing := set p | p in rows && rows[p].workflowId == w;
      var given := set p | p in paths;
      var add := given - existing;
      var conflicts: set<string> := {};
      if add != {} {
        conflicts := set p | p in add && p in rows && rows[p].workflowId != w;
      }
      assert conflicts == Foreign(rows, add, Some(w));
      var archive, reactivate := existing - given, given * existing;
      rows := rows + meanwhile;
      if conflicts != {} {
        return Err(PathConflict(conflicts));
      }
      ghost var plan := Plan(w, organizationId, archive, reactivate, add);
      var before := rows;
      rows := UpdateStates(rows, plan, w, archive, reactivate);
      var inserted := InsertTriggers(rows, plan, w, organizationId, add);
      if inserted.Err? {
        rows := before;
        return Err(UniqueViolation);
      }
      rows := inserted.value;
      return Ok(());
    }
  }

  // ---------- One sync, undisturbed ----------

  function Sync(t: Table, w: int, organizationId: int, paths: seq<string>): Result<Table, SyncError> {
    match MakePlan(t, w, organizationId, paths)
    case Err(e) => Err(e)
    case Ok(plan) => Write(t, plan)
  }

  /** A sync fails exactly when another workflow owns a listed path, which is when
      the earlier availability check reports a conflict. */
  lemma SyncFailsExactlyOnForeignPath(t: Table, w: int, organizationId: int, paths: seq<string>)
    ensures Sync(t, w, organizationId, paths).Err? <==> exists p :: p in paths && p in t && t[p].workflowId != w
    ensures Sync(t, w, organizationId, paths).Err? <==> Foreign(t, Paths(paths), Some(w)) != {}
    ensures Sync(t, w, organizationId, paths).Err? ==>
      Sync(t, w, organizationId, paths).error == PathConflict(Foreign(t, Paths(paths), Some(w)))
    ensures Sync(t, w, organizationId, paths).Err? ==>
      forall p :: p in Sync(t, w, organizationId, paths).error.conflicts <==>
        p in paths && p in t && t[p].workflowId != w
  {
    var add := Paths(paths) - OwnedBy(t, w);
    assert Foreign(t, add, Some(w)) == Foreign(t, Paths(paths), Some(w));
    if p :| p in paths && p in t && t[p].workflowId != w {
      assert p in Foreign(t, Paths(paths), Some(w));
    } else {
      assert Foreign(t, Paths(paths), Some(w)) == {};
    }
  }

  /** Otherwise the workflow's active paths become the given ones, its other paths
      stay as archived rows, and no other workflow's row changes. */
  lemma SyncSetsActivePaths(t: Table, w: int, organizationId: int, paths: seq<string>)
    requires Sync(t, w, organizationId, paths).Ok?
    ensures var after := Sync(t, w, organizationId, paths).value;
      && ActivePaths(after, w) == Paths(paths)
      && OwnedBy(after, w) == OwnedBy(t, w) + Paths(paths)
      && (forall p :: p in t && t[p].workflowId != w ==> p in after && after[p] == t[p])
      && (forall p :: p in after && after[p].workflowId != w ==> p in t)
    // row by row
    ensures var after := Sync(t, w, organizationId, paths).value;
      && (forall p :: p in after <==> p in t || p in paths)
      && (forall p :: p in paths && p !in t ==> after[p] == Trigger(w, organizationId, Active))
      && (forall p :: p in t && t[p].workflowId == w ==>
            after[p] == t[p].(state := if p in paths then Active else Archived))
  {
    var plan := MakePlan(t, w, organizationId, paths).value;
    assert plan.archive + plan.reactivate == OwnedBy(t, w);
  }

  /** Repeating a sync changes nothing. */
  lemma SyncIsIdempotent(t: Table, w: int, organizationId: int, paths: seq<string>)
    requires Sync(t, w, organizationId, paths).Ok?
    ensures var after := Sync(t, w, organizationId, paths).value;
      Sync(after, w, organizationId, paths) == Ok(after)
  {
    var after := Sync(t, w, organizationId, paths).value;
    SyncSetsActivePaths(t, w, organizationId, paths);
    SyncFailsExactlyOnForeignPath(after, w, organizationId, paths);
    var plan := MakePlan(after, w, organizationId, paths).value;
    assert plan.add == {};
    forall p | p in after && p in plan.archive ensures after[p].state == Archived {
      assert p !in ActivePaths(after, w);
    }
    forall p | p in after && p in plan.reactivate ensures after[p].state == Active {
      assert p in ActivePaths(after, w);
    }
    assert SetStates(after, plan) == after && Added(plan) == map[] && after + map[] == after;
  }

  // ---------- Concurrent syncs ----------

  /** A sync in flight holds the plan it made from an earlier reading. */
  datatype System = System(rows: Table, plans: map<nat, Plan>, given: map<nat, set<string>>)

  datatype Event =
    | Begin(id: nat, workflowId: int, organizationId: int, paths: seq<string>)
    | Finish(id: nat)

  predicate Enabled(s: System, e: Event) {
    match e
    case Begin(id, _, _, _) => id !in s.given
    case Finish(id) => id in s.plans
  }

  function Next(s: System, e: Event): System
    requires Enabled(s, e)
  {
    match e
    case Begin(id, w, organizationId, paths) =>
      var plan := MakePlan(s.rows, w, organizationId, paths);
      s.(given := s.given[id := Paths(paths)], plans := if plan.Ok? then s.plans[id := plan.value] else s.plans)
    case Finish(id) =>
      var written := Write(s.rows, s.plans[id]);
      s.(rows := if written.Ok? then written.value else s.rows, plans := s.plans - {id})
  }

  ghost function Run(s: System, es: seq<Event>): Option<System>
    decreases |es|
  {
    if es == [] then Some(s)
    else match Run(s, Front(es))
      case None => None
      case Some(before) => if Enabled(before, Last(es)) then Some(Next(before, Last(es))) else None
  }

  /** However syncs of any workflows interleave, a path once owned stays with its
      owner, and its row is never deleted. */
  lemma {:induction false} OwnershipNeverMoves(s: System, es: seq<Event>, p: string)
    requires Run(s, es).Some? && p in s.rows
    ensures p in Run(s, es).value.rows && Run(s, es).value.rows[p].workflowId == s.rows[p].workflowId
    decreases |es|
  {
    if es != [] {
      OwnershipNeverMoves(s, Front(es), p);
    }
  }

  /** A sync changes rows of its own workflow only, whatever it planned. */
  lemma FinishTouchesOwnRowsOnly(s: System, id: nat, p: string)
    requires Enabled(s, Finish(id))
    ensures var after := Next(s, Finish(id)).rows;
      (p in s.rows || p in after) && !(p in s.rows && p in after && s.rows[p] == after[p]) ==>
        p in after && after[p].workflowId == s.plans[id].workflowId
        && (p in s.rows ==> s.rows[p].workflowId == s.plans[id].workflowId)
  {
  }

  /** How a plan made from an earlier table relates to that table. */
  ghost predicate PlannedFrom(t: Table, plan: Plan, given: set<string>) {
    && plan.archive == OwnedBy(t, plan.workflowId) - given
    && plan.reactivate == OwnedBy(t, plan.workflowId) * given
    && plan.add == given - OwnedBy(t, plan.workflowId)
  }

  /** A sync whose writes go through makes the active paths the given ones exactly
      when no other sync of the same workflow has meanwhile added an active path. */
  lemma RacingSyncIsExactExactlyWhenNothingWasAdded(t: Table, now: Table, plan: Plan, given: set<string>)
    requires PlannedFrom(t, plan, given) && Write(now, plan).Ok?
    requires forall p :: p in t ==> p in now && now[p].workflowId == t[p].workflowId
    ensures ActivePaths(Write(now, plan).value, plan.workflowId) == given
            <==> ActivePaths(now, plan.workflowId) <= OwnedBy(t, plan.workflowId)
    ensures forall p :: p in ActivePaths(Write(now, plan).value, plan.workflowId) <==>
      p in given || (p in ActivePaths(now, plan.workflowId) && p !in OwnedBy(t, plan.workflowId))
  {
    var w, after := plan.workflowId, Write(now, plan).value;
    forall p ensures p in ActivePaths(after, w) <==> p in given || p in ActivePaths(now, w) - OwnedBy(t, w) {
      if p in OwnedBy(t, w) {
        assert p in plan.archive || p in plan.reactivate;
      }
    }
    if p :| p in ActivePaths(now, w) && p !in OwnedBy(t, w) {
      assert p in ActivePaths(after, w);
      assert p !in plan.add;
    }
  }

  lemma BeginPlansFromTheTable(s: System, id: nat, w: int, organizationId: int, paths: seq<string>)
    requires Enabled(s, Begin(id, w, organizationId, paths))
    requires id in Next(s, Begin(id, w, organizationId, paths)).plans && id !in s.plans
    ensures PlannedFrom(s.rows, Next(s, Begin(id, w, organizationId, paths)).plans[id], Paths(paths))
  {
  }

  ghost predicate NoOtherFinish(s: System, es: seq<Event>, w: int)
    requires Run(s, es).Some?
    decreases |es|
  {
    es == [] || (NoOtherFinish(s, Front(es), w)
      && (Last(es).Finish? ==> Run(s, Front(es)).value.plans[Last(es).id].workflowId != w))
  }

  lemma {:induction false} OthersLeaveWorkflowAlone(s: System, es: seq<Event>, w: int, id: nat)
    requires Run(s, es).Some? && NoOtherFinish(s, es, w)
    requires id in s.plans && s.plans[id].workflowId == w && id in s.given
    ensures var after := Run(s, es).value;
      && ActivePaths(after.rows, w) == ActivePaths(s.rows, w)
      && id in after.plans && after.plans[id] == s.plans[id] && id in after.given
    decreases |es|
  {
    if es != [] {
      OthersLeaveWorkflowAlone(s, Front(es), w, id);
    }
  }

  /** Between the start of a sync and its end only other workflows finish theirs:
      either one of them has taken a path it was going to add, and it fails without
      a trace, or its active paths are exactly the given ones. */
  lemma UndisturbedSyncIsExact(s: System, id: nat, w: int, organizationId: int, paths: seq<string>, es: seq<Event>)
    requires Enabled(s, Begin(id, w, organizationId, paths)) && id !in s.plans
    requires id in Next(s, Begin(id, w, organizationId, paths)).plans
    requires Run(Next(s, Begin(id, w, organizationId, paths)), es).Some?
    requires NoOtherFinish(Next(s, Begin(id, w, organizationId, paths)), es, w)
    ensures var now := Run(Next(s, Begin(id, w, organizationId, paths)), es).value;
      Enabled(now, Finish(id))
      && if exists p :: p in paths && p !in OwnedBy(s.rows, w) && p in now.rows
         then Next(now, Finish(id)).rows == now.rows
         else ActivePaths(Next(now, Finish(id)).rows, w) == Paths(paths)
  {
    var begun := Next(s, Begin(id, w, organizationId, paths));
    var now := Run(begun, es).value;
    BeginPlansFromTheTable(s, id, w, organizationId, paths);
    OthersLeaveWorkflowAlone(begun, es, w, id);
    var plan := now.plans[id];
    if p :| p in paths && p !in OwnedBy(s.rows, w) && p in now.rows {
      assert p in plan.add && p in now.rows.Keys;
    } else {
      assert plan.add !! now.rows.Keys;
      forall p | p in s.rows ensures p in now.rows && now.rows[p].workflowId == s.rows[p].workflowId {
        OwnershipNeverMoves(begun, es, p);
      }
      RacingSyncIsExactExactlyWhenNothingWasAdded(s.rows, now.rows, plan, Paths(paths));
    }
  }

  /** Two syncs of one workflow that start from the same table both go through and
      leave the paths of both active. */
  lemma RacingSyncsOfOneWorkflowMerge(w: int, organizationId: int) returns (s: System, es: seq<Event>)
    ensures s.plans == map[] && Run(s, es).Some? && Run(s, es).value.plans == map[]
    ensures |es| == 4 && es[0] == Begin(0, w, organizationId, ["a"]) && es[1] == Begin(1, w, organizationId, ["b"])
    ensures ActivePaths(Run(s, es).value.rows, w) == {"a", "b"}
  {
    var e0, e1 := Begin(0, w, organizationId, ["a"]), Begin(1, w, organizationId, ["b"]);
    s := System(map[], map[], map[]);
    es := [e0, e1, Finish(0), Finish(1)];
    var planA := Plan(w, organizationId, {}, {}, {"a"});
    var planB := Plan(w, organizationId, {}, {}, {"b"});
    var rowA := Trigger(w, organizationId, Active);
    BothBegin(s, w, organizationId, planA, planB);
    var s2 := Run(s, [e0] + [e1]).value;
    FirstFinishes(planA, planB, s2.given, rowA);
    SecondFinishes(planB, s2.given, rowA);
    ExtendRun(s, [e0] + [e1], Finish(0));
    ExtendRun(s, [e0] + [e1] + [Finish(0)], Finish(1));
    assert es == [e0] + [e1] + [Finish(0)] + [Finish(1)];
  }

  lemma FirstFinishes(planA: Plan, planB: Plan, given: map<nat, set<string>>, row: Trigger)
    requires planA.archive == {} && planA.reactivate == {} && planA.add == {"a"}
    requires row == Trigger(planA.workflowId, planA.organizationId, Active)
    ensures Next(System(map[], map[0 := planA, 1 := planB], given), Finish(0))
            == System(map["a" := row], map[1 := planB], given)
  {
    FirstWrites(planA, row);
    assert map[0 := planA, 1 := planB] - {0} == map[1 := planB];
  }

  lemma SecondFinishes(planB: Plan, given: map<nat, set<string>>, row: Trigger)
    requires planB.archive == {} && planB.reactivate == {} && planB.add == {"b"}
    requires row == Trigger(planB.workflowId, planB.organizationId, Active)
    ensures Enabled(System(map["a" := row], map[1 := planB], given), Finish(1))
    ensures var after := Next(System(map["a" := row], map[1 := planB], given), Finish(1));
      after == System(map["a" := row, "b" := row], map[], given)
      && ActivePaths(after.rows, planB.workflowId) == {"a", "b"}
  {
    assert "a" != "b";
    SecondWrites(planB, row);
    assert map[1 := planB] - {1} == map[];
  }

  lemma BothBegin(s: System, w: int, organizationId: int, planA: Plan, planB: Plan)
    requires s == System(map[], map[], map[])
    requires planA == Plan(w, organizationId, {}, {}, {"a"}) && planB == Plan(w, organizationId, {}, {}, {"b"})
    ensures var es := [Begin(0, w, organizationId, ["a"])] + [Begin(1, w, organizationId, ["b"])];
      Run(s, es).Some? && Run(s, es).value.rows == map[] && Run(s, es).value.plans == map[0 := planA, 1 := planB]
  {
    var e0, e1 := Begin(0, w, organizationId, ["a"]), Begin(1, w, organizationId, ["b"]);
    FirstPlan(w, organizationId, "a");
    FirstPlan(w, organizationId, "b");
    ExtendRun(s, [], e0);
    assert [] + [e0] == [e0];
    ExtendRun(s, [e0], e1);
  }

  lemma ExtendRun(s: System, es: seq<Event>, e: Event)
    requires Run(s, es).Some? && Enabled(Run(s, es).value, e)
    ensures Run(s, es + [e]) == Some(Next(Run(s, es).value, e))
  {
    assert Front(es + [e]) == es;
  }

  lemma FirstPlan(w: int, organizationId: int, path: string)
    ensures MakePlan(map[], w, organizationId, [path]) == Ok(Plan(w, organizationId, {}, {}, {path}))
  {
    assert Paths([path]) == {path} && OwnedBy(map[], w) == {} && Foreign(map[], {path}, Some(w)) == {};
    var existing, given := OwnedBy(map[], w), Paths([path]);
    assert given - existing == {path} && existing - given == {} && given * existing == {};
  }

  lemma FirstWrites(plan: Plan, row: Trigger)
    requires plan.archive == {} && plan.reactivate == {} && plan.add == {"a"}
    requires row == Trigger(plan.workflowId, plan.organizationId, Active)
    ensures Write(map[], plan) == Ok(map["a" := row])
  {
    assert SetStates(map[], plan) + Added(plan) == map["a" := row];
  }

  lemma SecondWrites(plan: Plan, row: Trigger)
    requires plan.archive == {} && plan.reactivate == {} && plan.add == {"b"}
    requires row == Trigger(plan.workflowId, plan.organizationId, Active)
    ensures Write(map["a" := row], plan) == Ok(map["a" := row, "b" := row])
  {
    assert SetStates(map["a" := row], plan) + Added(plan) == map["a" := row, "b" := row];
  }
}
