/**
 Saving a draft and reverting, with their reads and their commit as separate steps.
 No lock is taken, so operations on one workflow may overlap: this module says
 exactly when that makes two drafts, repeats a version number, or rewrites a
 published version.
 */
module WorkflowRaces {
  import opened Common
  import opened WorkflowVersions

  // ---------- What an operation reads, and what it then commits ----------

  /** A decision taken from a reading: a new draft with the number drawn, or a patch of
      the draft that was found, whose content was `seen`. */
  datatype Plan =
    | NewDraft(wid: nat, content: Content, version: int)
    | PatchDraft(wid: nat, id: nat, patch: Patch, seen: Content)

  ghost predicate PlannedFrom(db: Db, op: Operation, plan: Plan) {
    match op
    case Save(wid, patch) =>
      plan.wid == wid && wid in db.workflows
      && if HasDraft(db, wid) then
           plan.PatchDraft? && plan.patch == patch && HasStatus(db, wid, plan.id, Draft)
           && plan.seen == db.definitions[plan.id].content
         else
           plan.NewDraft? && IsNextVersion(db, wid, plan.version)
           && exists base :: IsBase(db, wid, base) && plan.content == Patched(base, patch)
    case Revert(wid, source) =>
      plan.wid == wid && wid in db.workflows && plan.NewDraft? && !HasDraft(db, wid)
      && Of(db, wid, source) && IsNextVersion(db, wid, plan.version)
      && plan.content == db.definitions[source].content
    case _ => false
  }

  /** The session writes an attribute only where the new value differs from the one it loaded. */
  function Flushed(current: Content, patch: Patch, seen: Content): Content {
    Content(if patch.definition.Some? && patch.definition.value != seen.definition
            then patch.definition.value else current.definition,
            if patch.configurations.Some? && patch.configurations.value != seen.configurations
            then patch.configurations.value else current.configurations,
            if patch.variables.Some? && patch.variables.value != seen.variables
            then patch.variables.value else current.variables)
  }

  function DraftOf(plan: Plan): Definition
    requires plan.NewDraft?
  {
    Definition(plan.wid, plan.content, Draft, plan.version, false, None)
  }

  /** No workflow loses its released version; its legacy columns may change. */
  ghost predicate SamePointers(db: Db, db': Db) {
    db'.workflows.Keys == db.workflows.Keys
    && forall w :: w in db.workflows ==>
         db'.workflows[w].releasedDefinitionId == db.workflows[w].releasedDefinitionId
  }

  /** The commit: the table has no constraint that could refuse it. A patch of a draft
      that is gone is an error and leaves the definitions as they are. */
  ghost predicate Committed(db: Db, plan: Plan, db': Db) {
    plan.wid in db.workflows && SamePointers(db, db')
    && match plan
       case NewDraft(_, _, _) => exists id :: Inserted(db, id, DraftOf(plan), db')
       case PatchDraft(_, id, patch, seen) =>
         db'.definitions == if id in db.definitions
                            then db.definitions[id :=
                              db.definitions[id].(content := Flushed(db.definitions[id].content, patch, seen))]
                            else db.definitions
  }

  /** With nothing in between, the two halves are the serial operation. */
  lemma SaveAtOnceIsSerial(db: Db, wid: nat, patch: Patch, plan: Plan, db': Db, id: nat)
    requires PlannedFrom(db, Save(wid, patch), plan) && Committed(db, plan, db')
    requires if plan.NewDraft? then Inserted(db, id, DraftOf(plan), db') else id == plan.id
    requires db'.workflows == db.workflows[wid := db.workflows[wid].(legacy := db'.definitions[id].content)]
    ensures Step(db, Save(wid, patch), db')
  {
    if plan.NewDraft? {
      var base :| IsBase(db, wid, base) && plan.content == Patched(base, patch);
      assert Inserted(db, id, Definition(wid, Patched(base, patch), Draft, plan.version, false, None), db');
    }
    assert SaveStep(db, wid, patch, id, db');
  }

  /** So is a revert. */
  lemma RevertAtOnceIsSerial(db: Db, wid: nat, source: nat, plan: Plan, db': Db)
    requires PlannedFrom(db, Revert(wid, source), plan) && Committed(db, plan, db') && db'.workflows == db.workflows
    ensures Step(db, Revert(wid, source), db')
  {
    var id :| Inserted(db, id, DraftOf(plan), db');
    assert Inserted(db, id, Definition(wid, db.definitions[source].content, Draft, plan.version, false, None), db');
  }

  /** A patch writes the fields it gives with another value than the one read, over
      whatever is there by then, and keeps the other fields and the rest of the row. */
  lemma PatchWritesWhatDiffers(db: Db, plan: Plan, db': Db)
    requires plan.PatchDraft? && Committed(db, plan, db') && plan.id in db.definitions
    ensures db'.definitions.Keys == db.definitions.Keys
    ensures forall d :: d in db.definitions && d != plan.id ==> db'.definitions[d] == db.definitions[d]
    ensures var was, now := db.definitions[plan.id], db'.definitions[plan.id];
      var patch, seen := plan.patch, plan.seen;
      && now == was.(content := now.content)
      && now.content.definition
         == (if patch.definition in {None, Some(seen.definition)} then was.content.definition
             else patch.definition.value)
      && now.content.configurations
         == (if patch.configurations in {None, Some(seen.configurations)} then was.content.configurations
             else patch.configurations.value)
      && now.content.variables
         == (if patch.variables in {None, Some(seen.variables)} then was.content.variables else patch.variables.value)
  {
  }

  // ---------- One commit ----------

  /** `ids` hold the versions 1 to v - 1, and none of them is a draft. */
  ghost predicate FrozenList(db: Db, wid: nat, v: int, ids: seq<nat>) {
    |ids| == v - 1 && |ids| >= 1
    && forall i :: 0 <= i < |ids| ==>
         Of(db, wid, ids[i]) && Frozen(db, ids[i]) && db.definitions[ids[i]].version == i + 1
  }

  lemma ReadingFindsFrozenVersions(db: Db, op: Operation, plan: Plan, order: seq<nat>)
    requires plan.NewDraft? && PlannedFrom(db, op, plan) && Coherent(db, plan.wid, order)
    ensures FrozenList(db, plan.wid, plan.version, order)
  {
    NextVersionIsCount(db, plan.wid, order, plan.version);
    assert Of(db, plan.wid, db.workflows[plan.wid].releasedDefinitionId.value);
    forall i | 0 <= i < |order| ensures Frozen(db, order[i]) {
      assert Of(db, plan.wid, order[i]) && !HasStatus(db, plan.wid, order[i], Draft);
    }
  }

  predicate VersionTaken(db: Db, wid: nat, v: int) {
    exists id :: id in db.definitions && Of(db, wid, id) && db.definitions[id].version == v
  }

  /** Versions the reading found are still there, so at the commit the number drawn is
      either still the next one or already taken. */
  lemma NumberIsNextOrTaken(db: Db, wid: nat, v: int, ids: seq<nat>, order: seq<nat>)
    requires wid in db.workflows && Coherent(db, wid, order) && FrozenList(db, wid, v, ids)
    ensures IsNextVersion(db, wid, v) <==> |order| == v - 1
    ensures VersionTaken(db, wid, v) <==> |order| >= v
    ensures |order| >= v - 1
  {
    assert Of(db, wid, ids[v - 2]) && order[db.definitions[ids[v - 2]].version - 1] == ids[v - 2];
    if IsNextVersion(db, wid, v) {
      NextVersionIsCount(db, wid, order, v);
    }
    if |order| >= v {
      assert Of(db, wid, order[v - 1]);
    }
  }

  /** A draft at the commit was inserted since the reading, and holds a number from v on. */
  lemma DraftMeansTaken(db: Db, wid: nat, v: int, ids: seq<nat>, order: seq<nat>)
    requires wid in db.workflows && Coherent(db, wid, order) && FrozenList(db, wid, v, ids)
    requires HasDraft(db, wid)
    ensures VersionTaken(db, wid, v)
  {
    NumberIsNextOrTaken(db, wid, v, ids, order);
    var d :| HasStatus(db, wid, d, Draft);
    assert Of(db, wid, d) && Of(db, wid, ids[v - 2]);
    assert order[|order| - 1] == d && order[v - 2] == ids[v - 2];
  }

  ghost predicate TwoDrafts(db: Db, wid: nat) {
    exists i: nat, j: nat :: i != j && HasStatus(db, wid, i, Draft) && HasStatus(db, wid, j, Draft)
  }

  ghost predicate RepeatsVersion(db: Db, wid: nat) {
    exists i: nat, j: nat :: i != j && SameNumber(db, wid, i, j)
  }

  predicate SameNumber(db: Db, wid: nat, i: nat, j: nat) {
    Of(db, wid, i) && Of(db, wid, j) && db.definitions[i].version == db.definitions[j].version
  }

  /** What a late insertion leaves behind: two drafts exactly when some draft was there,
      a repeated version number exactly when its number had been taken, and the former
      only together with the latter. */
  lemma InsertionRepeatsExactlyWhenTaken(db: Db, plan: Plan, db': Db, ids: seq<nat>, order: seq<nat>)
    requires plan.NewDraft? && Committed(db, plan, db') && Coherent(db, plan.wid, order)
    requires FrozenList(db, plan.wid, plan.version, ids)
    ensures TwoDrafts(db', plan.wid) <==> HasDraft(db, plan.wid)
    ensures RepeatsVersion(db', plan.wid) <==> VersionTaken(db, plan.wid, plan.version)
    ensures TwoDrafts(db', plan.wid) ==> RepeatsVersion(db', plan.wid)
  {
    var wid := plan.wid;
    var added :| Inserted(db, added, DraftOf(plan), db');
    DraftsAfterInsertion(db, plan, db', added, order);
    NumbersAfterInsertion(db, plan, db', added, order);
    if HasDraft(db, wid) {
      DraftMeansTaken(db, wid, plan.version, ids, order);
    }
  }

  lemma DraftsAfterInsertion(db: Db, plan: Plan, db': Db, added: nat, order: seq<nat>)
    requires plan.NewDraft? && plan.wid in db.workflows && Coherent(db, plan.wid, order)
    requires Inserted(db, added, DraftOf(plan), db')
    ensures TwoDrafts(db', plan.wid) <==> HasDraft(db, plan.wid)
  {
    var wid := plan.wid;
    forall d ensures HasStatus(db', wid, d, Draft) <==> HasStatus(db, wid, d, Draft) || d == added {}
    if d :| HasStatus(db, wid, d, Draft) {
      assert HasStatus(db', wid, d, Draft) && HasStatus(db', wid, added, Draft) && d != added;
    }
    if i: nat, j: nat :| i != j && HasStatus(db', wid, i, Draft) && HasStatus(db', wid, j, Draft) {
      assert HasStatus(db, wid, if i == added then j else i, Draft);
    }
  }

  lemma NumbersDiffer(db: Db, wid: nat, order: seq<nat>, i: nat, j: nat)
    requires wid in db.workflows && Coherent(db, wid, order) && Of(db, wid, i) && Of(db, wid, j)
    ensures db.definitions[i].version == db.definitions[j].version ==> i == j
  {
    assert order[db.definitions[i].version - 1] == i && order[db.definitions[j].version - 1] == j;
  }

  lemma NumbersAfterInsertion(db: Db, plan: Plan, db': Db, added: nat, order: seq<nat>)
    requires plan.NewDraft? && plan.wid in db.workflows && Coherent(db, plan.wid, order)
    requires Inserted(db, added, DraftOf(plan), db')
    ensures RepeatsVersion(db', plan.wid) <==> VersionTaken(db, plan.wid, plan.version)
  {
    var wid := plan.wid;
    forall d ensures Of(db', wid, d) <==> Of(db, wid, d) || d == added {}
    if d :| d in db.definitions && Of(db, wid, d) && db.definitions[d].version == plan.version {
      assert d != added && SameNumber(db', wid, d, added);
    }
    if i: nat, j: nat :| i != j && SameNumber(db', wid, i, j) {
      var other := if i == added then j else i;
      assert Of(db, wid, other);
      if i != added && j != added {
        NumbersDiffer(db, wid, order, i, j);
      }
      assert db.definitions[other].version == plan.version;
    }
  }

  /** The version invariant of a workflow. */
  ghost predicate IsCoherent(db: Db, wid: nat) {
    wid in db.workflows && exists order :: Coherent(db, wid, order)
  }

  lemma CoherentHasNoRepetition(db: Db, wid: nat)
    requires IsCoherent(db, wid)
    ensures !RepeatsVersion(db, wid)
  {
    var order :| Coherent(db, wid, order);
    forall i: nat, j: nat | SameNumber(db, wid, i, j) ensures i == j {
      NumbersDiffer(db, wid, order, i, j);
    }
  }

  /** A late insertion keeps the whole version invariant exactly when the number it
      drew is still free at its commit. */
  lemma InsertionIsCoherentExactlyWhenFree(db: Db, plan: Plan, db': Db, ids: seq<nat>, order: seq<nat>)
    requires plan.NewDraft? && Committed(db, plan, db') && Coherent(db, plan.wid, order)
    requires FrozenList(db, plan.wid, plan.version, ids)
    ensures IsCoherent(db', plan.wid) <==> !VersionTaken(db, plan.wid, plan.version)
  {
    var wid := plan.wid;
    NumberIsNextOrTaken(db, wid, plan.version, ids, order);
    if VersionTaken(db, wid, plan.version) {
      InsertionRepeatsExactlyWhenTaken(db, plan, db', ids, order);
      if IsCoherent(db', wid) {
        CoherentHasNoRepetition(db', wid);
      }
    } else {
      if HasDraft(db, wid) {
        DraftMeansTaken(db, wid, plan.version, ids, order);
      }
      var added :| Inserted(db, added, DraftOf(plan), db');
      NewDraftIsCoherent(db, db', wid, order, added, plan.content, plan.version);
    }
  }

  /** A late patch never disturbs numbers, statuses or pointers. */
  lemma PatchStaysCoherent(db: Db, plan: Plan, db': Db, wid: nat)
    requires plan.PatchDraft? && Committed(db, plan, db') && IsCoherent(db, wid)
    ensures IsCoherent(db', wid)
  {
    var order :| Coherent(db, wid, order);
    assert SameShape(db, db');
    SameShapeIsCoherent(db, db', wid, order);
  }

  lemma OtherInsertionStaysCoherent(db: Db, plan: Plan, db': Db, wid: nat)
    requires plan.NewDraft? && plan.wid != wid && Committed(db, plan, db') && IsCoherent(db, wid)
    ensures IsCoherent(db', wid)
  {
    var order :| Coherent(db, wid, order);
    forall d ensures Of(db', wid, d) <==> Of(db, wid, d) {}
    UntouchedWorkflowStaysCoherent(db, db', wid, order);
  }

  // ---------- Overlapping operations ----------

  datatype System = System(db: Db, plans: map<nat, Plan>)

  datatype Event =
    | Serial(op: Operation, after: Db)
    | Read(t: nat, op: Operation, plan: Plan)
    | Commit(t: nat, after: Db)

  ghost predicate Enabled(s: System, e: Event) {
    match e
    case Serial(op, after) => Step(s.db, op, after)
    case Read(t, op, plan) => t !in s.plans && PlannedFrom(s.db, op, plan)
    case Commit(t, after) => t in s.plans && Committed(s.db, s.plans[t], after)
  }

  ghost function Next(s: System, e: Event): System
    requires Enabled(s, e)
  {
    match e
    case Serial(_, after) => s.(db := after)
    case Read(t, _, plan) => s.(plans := s.plans[t := plan])
    case Commit(t, after) => System(after, s.plans - {t})
  }

  ghost function Run(s: System, es: seq<Event>): Option<System>
    decreases |es|
  {
    if es == [] then Some(s)
    else match Run(s, Front(es))
      case None => None
      case Some(before) => if Enabled(before, Last(es)) then Some(Next(before, Last(es))) else None
  }

  /** An insertion whose number another operation has taken since it was drawn. */
  ghost predicate StaleInsertion(s: System, e: Event, wid: nat)
    requires Enabled(s, e)
  {
    e.Commit? && s.plans[e.t].NewDraft? && s.plans[e.t].wid == wid && VersionTaken(s.db, wid, s.plans[e.t].version)
  }

  /** Every open insertion of the workflow still has the versions it found below it. */
  ghost predicate PlansOk(s: System, wid: nat) {
    forall t :: t in s.plans && s.plans[t].NewDraft? && s.plans[t].wid == wid ==>
      exists ids :: FrozenList(s.db, wid, s.plans[t].version, ids)
  }

  lemma StepKeepsFrozenVersions(s: System, e: Event, id: nat)
    requires Enabled(s, e) && Frozen(s.db, id)
    ensures Frozen(Next(s, e).db, id)
    ensures Next(s, e).db.definitions[id].version == s.db.definitions[id].version
    ensures Next(s, e).db.definitions[id].workflowId == s.db.definitions[id].workflowId
  {
    if e.Serial? {
      StepKeepsFrozen(s.db, e.op, e.after, id);
    }
  }

  lemma FrozenListSurvives(s: System, e: Event, wid: nat, v: int, ids: seq<nat>)
    requires Enabled(s, e) && FrozenList(s.db, wid, v, ids)
    ensures FrozenList(Next(s, e).db, wid, v, ids)
  {
    forall i | 0 <= i < |ids|
      ensures Of(Next(s, e).db, wid, ids[i]) && Frozen(Next(s, e).db, ids[i])
      ensures Next(s, e).db.definitions[ids[i]].version == i + 1
    {
      StepKeepsFrozenVersions(s, e, ids[i]);
    }
  }

  lemma StepKeepsPlans(s: System, e: Event, wid: nat)
    requires Enabled(s, e) && PlansOk(s, wid) && IsCoherent(s.db, wid)
    ensures PlansOk(Next(s, e), wid)
  {
    var s' := Next(s, e);
    forall t | t in s'.plans && s'.plans[t].NewDraft? && s'.plans[t].wid == wid
      ensures exists ids :: FrozenList(s'.db, wid, s'.plans[t].version, ids)
    {
      if t in s.plans {
        var ids :| FrozenList(s.db, wid, s.plans[t].version, ids);
        FrozenListSurvives(s, e, wid, s.plans[t].version, ids);
      } else {
        var order :| Coherent(s.db, wid, order);
        ReadingFindsFrozenVersions(s.db, e.op, e.plan, order);
      }
    }
  }

  lemma SerialStaysCoherent(db: Db, op: Operation, db': Db, wid: nat)
    requires Step(db, op, db') && IsCoherent(db, wid)
    ensures IsCoherent(db', wid)
  {
    var order :| Coherent(db, wid, order);
    var order' := StepKeepsInvariant(db, op, db', wid, order);
    assert wid in db'.workflows;
  }

  /** From a coherent workflow, one event breaks the invariant exactly when it is a
      stale insertion. */
  lemma StepIsCoherentExactlyUnlessStale(s: System, e: Event, wid: nat)
    requires Enabled(s, e) && PlansOk(s, wid) && IsCoherent(s.db, wid)
    ensures IsCoherent(Next(s, e).db, wid) <==> !StaleInsertion(s, e, wid)
  {
    match e
    case Serial(op, after) => SerialStaysCoherent(s.db, op, after, wid);
    case Read(_, _, _) =>
    case Commit(t, after) =>
      var plan := s.plans[t];
      if plan.PatchDraft? {
        PatchStaysCoherent(s.db, plan, after, wid);
      } else if plan.wid != wid {
        OtherInsertionStaysCoherent(s.db, plan, after, wid);
      } else {
        var order :| Coherent(s.db, wid, order);
        var ids :| FrozenList(s.db, wid, plan.version, ids);
        InsertionIsCoherentExactlyWhenFree(s.db, plan, after, ids, order);
      }
  }

  ghost predicate AlwaysCoherent(s: System, es: seq<Event>, wid: nat)
    requires Run(s, es).Some?
    decreases |es|
  {
    IsCoherent(Run(s, es).value.db, wid) && (es == [] || AlwaysCoherent(s, Front(es), wid))
  }

  ghost predicate NoStaleInsertion(s: System, es: seq<Event>, wid: nat)
    requires Run(s, es).Some?
    decreases |es|
  {
    es == [] || (NoStaleInsertion(s, Front(es), wid) && !StaleInsertion(Run(s, Front(es)).value, Last(es), wid))
  }

  lemma {:induction false} CoherentRunKeepsPlans(s: System, es: seq<Event>, wid: nat)
    requires s.plans == map[] && Run(s, es).Some? && AlwaysCoherent(s, es, wid)
    ensures PlansOk(Run(s, es).value, wid)
    decreases |es|
  {
    if es != [] {
      CoherentRunKeepsPlans(s, Front(es), wid);
      EndIsCoherent(s, Front(es), wid);
      StepKeepsPlans(Run(s, Front(es)).value, Last(es), wid);
    }
  }

  lemma EndIsCoherent(s: System, es: seq<Event>, wid: nat)
    requires Run(s, es).Some? && AlwaysCoherent(s, es, wid)
    ensures IsCoherent(Run(s, es).value.db, wid)
  {
  }

  /** However operations overlap, a workflow keeps its version invariant throughout
      exactly when no insertion commits a number taken since it was drawn. */
  lemma {:induction false} RunIsCoherentExactlyWithoutStaleInsertions(s: System, es: seq<Event>, wid: nat)
    requires s.plans == map[] && IsCoherent(s.db, wid) && Run(s, es).Some?
    ensures AlwaysCoherent(s, es, wid) <==> NoStaleInsertion(s, es, wid)
    decreases |es|
  {
    if es != [] {
      RunIsCoherentExactlyWithoutStaleInsertions(s, Front(es), wid);
      if AlwaysCoherent(s, Front(es), wid) {
        EndIsCoherent(s, Front(es), wid);
        CoherentRunKeepsPlans(s, Front(es), wid);
        StepIsCoherentExactlyUnlessStale(Run(s, Front(es)).value, Last(es), wid);
      }
    }
  }

  /** The content of a published or archived version changes at a step exactly when
      the step commits a patch planned for it while it was a draft, of something the
      version does not already say. */
  lemma PublishedContentChangesExactlyOnLatePatch(s: System, e: Event, id: nat)
    requires Enabled(s, e) && Frozen(s.db, id)
    ensures id in Next(s, e).db.definitions
    ensures var current := s.db.definitions[id].content;
      Next(s, e).db.definitions[id].content != current <==>
        e.Commit? && s.plans[e.t].PatchDraft? && s.plans[e.t].id == id
        && Flushed(current, s.plans[e.t].patch, s.plans[e.t].seen) != current
  {
    if e.Serial? {
      StepKeepsFrozen(s.db, e.op, e.after, id);
    }
  }

  // ---------- It happens ----------

  lemma Then(s: System, es: seq<Event>, e: Event, next: System) returns (es': seq<Event>)
    requires Run(s, es).Some? && Enabled(Run(s, es).value, e) && Next(Run(s, es).value, e) == next
    ensures es' == es + [e] && Run(s, es') == Some(next)
  {
    es' := es + [e];
    assert Front(es') == es && Last(es') == e;
  }

  const LIVE := Content("live", "{}", "{}")
  const START := Db(map[0 := Definition(0, LIVE, Published, 1, true, Some(0))], map[0 := Workflow(Some(0), LIVE)])
  const NOTHING := Patch(None, None, None)
  const SECOND := Definition(0, LIVE, Draft, 2, false, None)

  lemma StartIsCoherent()
    ensures Coherent(START, 0, [0]) && !HasDraft(START, 0)
  {
  }

  lemma FirstSaveDrawsTwo()
    ensures PlannedFrom(START, Save(0, NOTHING), NewDraft(0, LIVE, 2))
  {
    StartIsCoherent();
    assert HasStatus(START, 0, 0, Published) && Patched(LIVE, NOTHING) == LIVE;
    assert IsBase(START, 0, LIVE);
    assert Of(START, 0, 0);
  }

  /** Two saves of a workflow without a draft read before either commits: both succeed
      and leave two drafts with the same number. */
  lemma RacingSavesMakeTwoDrafts() returns (s: System, es: seq<Event>)
    ensures s.plans == map[] && IsCoherent(s.db, 0) && Run(s, es).Some?
    ensures TwoDrafts(Run(s, es).value.db, 0) && RepeatsVersion(Run(s, es).value.db, 0)
  {
    StartIsCoherent();
    FirstSaveDrawsTwo();
    s := System(START, map[]);
    var plan := NewDraft(0, LIVE, 2);
    es := Then(s, [], Read(0, Save(0, NOTHING), plan), System(START, map[0 := plan]));
    es := Then(s, es, Read(1, Save(0, NOTHING), plan), System(START, map[0 := plan, 1 := plan]));
    var one := START.(definitions := START.definitions[1 := SECOND]);
    var two := one.(definitions := one.definitions[2 := SECOND]);
    assert Inserted(START, 1, DraftOf(plan), one) && Inserted(one, 2, DraftOf(plan), two);
    es := Then(s, es, Commit(0, one), System(one, map[0 := plan, 1 := plan] - {0}));
    es := Then(s, es, Commit(1, two), System(two, map[0 := plan, 1 := plan] - {0} - {1}));
    assert HasStatus(two, 0, 1, Draft) && HasStatus(two, 0, 2, Draft);
    assert SameNumber(two, 0, 1, 2);
  }

  const EDIT := Patch(Some("late"), None, None)
  const DRAFTED := START.(definitions := START.definitions[1 := SECOND])
  const PUBLISHED := Db(map[0 := START.definitions[0].(status := Archived, isCurrent := false),
                            1 := SECOND.(status := Published, isCurrent := true, publishedAt := Some(5))],
                        map[0 := Workflow(Some(1), LIVE)])

  lemma DraftIsPublished()
    ensures Step(DRAFTED, Publish(0, 5), PUBLISHED)
  {
    assert HasStatus(DRAFTED, 0, 1, Draft);
    assert PublishStep(DRAFTED, 0, 5, 1, PUBLISHED);
  }

  /** A save reads the draft, the draft is published, and then the save commits: the
      content of a published version changes. */
  lemma LatePatchRewritesPublished() returns (s: System, es: seq<Event>, e: Event)
    ensures s.plans == map[] && Run(s, es).Some? && Enabled(Run(s, es).value, e)
    ensures HasStatus(Run(s, es).value.db, 0, 1, Published)
    ensures Next(Run(s, es).value, e).db.definitions.Keys == Run(s, es).value.db.definitions.Keys
    ensures Next(Run(s, es).value, e).db.definitions[1].content != Run(s, es).value.db.definitions[1].content
  {
    s := System(DRAFTED, map[]);
    var plan := PatchDraft(0, 1, EDIT, LIVE);
    assert HasStatus(DRAFTED, 0, 1, Draft);
    es := Then(s, [], Read(0, Save(0, EDIT), plan), System(DRAFTED, map[0 := plan]));
    DraftIsPublished();
    es := Then(s, es, Serial(Publish(0, 5), PUBLISHED), System(PUBLISHED, map[0 := plan]));
    var late := PUBLISHED.definitions[1].(content := Flushed(LIVE, EDIT, LIVE));
    e := Commit(0, PUBLISHED.(definitions := PUBLISHED.definitions[1 := late]));
  }
}
