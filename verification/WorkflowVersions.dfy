/**
 The workflow version lifecycle: create, save draft, publish, discard, revert.

 Each operation is one serial transaction. `Step` says what an operation may do
 to the two tables; the methods of `WorkflowClient` are proved to be such steps,
 and the properties are proved of every sequence of steps.
 */
module WorkflowVersions {
  import opened Common

  type Json = string
  const EMPTY_OBJECT: Json := "{}"

  datatype Content = Content(definition: Json, configurations: Json, variables: Json)

  datatype Status = Draft | Published | Archived

  datatype Definition = Definition(workflowId: nat, content: Content, status: Status,
                                   version: int, isCurrent: bool, publishedAt: Option<int>)

  datatype Workflow = Workflow(releasedDefinitionId: Option<nat>, legacy: Content)

  datatype Db = Db(definitions: map<nat, Definition>, workflows: map<nat, Workflow>)

  /** The fields a save specifies; the others keep their value. */
  datatype Patch = Patch(definition: Option<Json>, configurations: Option<Json>, variables: Option<Json>)

  function Patched(c: Content, p: Patch): Content {
    Content(if p.definition.Some? then p.definition.value else c.definition,
            if p.configurations.Some? then p.configurations.value else c.configurations,
            if p.variables.Some? then p.variables.value else c.variables)
  }

  datatype VersionError = NoDraft | DraftExists | VersionNotFound | NoSuchWorkflow

  predicate Of(db: Db, wid: nat, id: nat) {
    id in db.definitions && db.definitions[id].workflowId == wid
  }

  predicate HasStatus(db: Db, wid: nat, id: nat, status: Status) {
    Of(db, wid, id) && db.definitions[id].status == status
  }

  ghost predicate HasDraft(db: Db, wid: nat) {
    exists id :: HasStatus(db, wid, id, Draft)
  }

  /** One more than the largest version number of the workflow, or 1. */
  ghost predicate IsNextVersion(db: Db, wid: nat, v: int) {
    && (forall id :: Of(db, wid, id) ==> db.definitions[id].version < v)
    && if exists id :: Of(db, wid, id)
       then exists id :: Of(db, wid, id) && db.definitions[id].version == v - 1
       else v == 1
  }

  // ---------- What each operation may do ----------

  datatype Operation =
    | Create(content: Content, now: int)
    | Save(wid: nat, patch: Patch)
    | Publish(wid: nat, now: int)
    | Discard(wid: nat)
    | Revert(wid: nat, source: nat)

  ghost predicate Inserted(db: Db, id: nat, d: Definition, db': Db) {
    id !in db.definitions && db'.definitions == db.definitions[id := d]
  }

  ghost predicate SaveStep(db: Db, wid: nat, patch: Patch, id: nat, db': Db) {
    && wid in db.workflows
    && id in db'.definitions
    && (if HasDraft(db, wid)
        then HasStatus(db, wid, id, Draft)
          && db'.definitions == db.definitions[id :=
               db.definitions[id].(content := Patched(db.definitions[id].content, patch))]
        else exists base, v ::
          IsNextVersion(db, wid, v) && IsBase(db, wid, base)
          && Inserted(db, id, Definition(wid, Patched(base, patch), Draft, v, false, None), db'))
    && db'.workflows == db.workflows[wid := db.workflows[wid].(legacy := db'.definitions[id].content)]
  }

  /** The published content, or empty objects when nothing is published. */
  ghost predicate IsBase(db: Db, wid: nat, base: Content) {
    (exists id :: HasStatus(db, wid, id, Published) && base == db.definitions[id].content)
    || (base == Content(EMPTY_OBJECT, EMPTY_OBJECT, EMPTY_OBJECT)
        && forall id :: !HasStatus(db, wid, id, Published))
  }

  ghost predicate PublishStep(db: Db, wid: nat, now: int, id: nat, db': Db) {
    && wid in db.workflows && HasStatus(db, wid, id, Draft)
    && db'.definitions.Keys == db.definitions.Keys
    && db'.definitions[id] == db.definitions[id].(status := Published, isCurrent := true, publishedAt := Some(now))
    && (forall d :: d in db.definitions && d != id ==>
          db'.definitions[d] == if HasStatus(db, wid, d, Published)
                                then db.definitions[d].(status := Archived, isCurrent := false)
                                else db.definitions[d])
    && db'.workflows == db.workflows[wid := Workflow(Some(id), db.definitions[id].content)]
  }

  ghost predicate Step(db: Db, op: Operation, db': Db) {
    match op
    case Create(content, now) =>
      exists wid, id :: wid !in db.workflows && (forall d :: !Of(db, wid, d))
        && Inserted(db, id, Definition(wid, content, Published, 1, true, Some(now)), db')
        && db'.workflows == db.workflows[wid := Workflow(Some(id), content)]
    case Save(wid, patch) =>
      (wid !in db.workflows && db' == db) || exists id :: SaveStep(db, wid, patch, id, db')
    case Publish(wid, now) =>
      (!HasDraft(db, wid) && db' == db) || exists id :: PublishStep(db, wid, now, id, db')
    case Discard(wid) =>
      (!HasDraft(db, wid) && db' == db)
      || exists id :: HasStatus(db, wid, id, Draft) && db' == db.(definitions := db.definitions - {id})
    case Revert(wid, source) =>
      if HasDraft(db, wid) || !Of(db, wid, source) then db' == db
      else
        exists id, v :: IsNextVersion(db, wid, v)
          && Inserted(db, id, Definition(wid, db.definitions[source].content, Draft, v, false, None), db')
          && db'.workflows == db.workflows
  }

  lemma SaveTouchesOneRow(db: Db, wid: nat, patch: Patch, id: nat, db': Db)
    requires SaveStep(db, wid, patch, id, db')
    ensures HasStatus(db', wid, id, Draft)
    ensures forall d :: d in db.definitions && d != id ==>
      d in db'.definitions && db'.definitions[d] == db.definitions[d]
    ensures db'.workflows == db.workflows[wid := db.workflows[wid].(legacy := db'.definitions[id].content)]
  {
  }

  /** A draft already there keeps its fields that the patch leaves out. */
  lemma SaveIsFieldByField(db: Db, wid: nat, patch: Patch, id: nat, db': Db)
    requires SaveStep(db, wid, patch, id, db') && id in db.definitions
    ensures var was, saved := db.definitions[id], db'.definitions[id];
      && was.workflowId == wid && was.status == Draft && saved == was.(content := saved.content)
      && saved.content.definition
         == (if patch.definition.Some? then patch.definition.value else was.content.definition)
      && saved.content.configurations
         == (if patch.configurations.Some? then patch.configurations.value else was.content.configurations)
      && saved.content.variables
         == (if patch.variables.Some? then patch.variables.value else was.content.variables)
  {
  }

  method PatchContent(c: Content, patch: Patch) returns (patched: Content)
    ensures patched == Patched(c, patch)
  {
    patched := c;
    if patch.definition.Some? {
      patched := patched.(definition := patch.definition.value);
    }
    if patch.configurations.Some? {
      patched := patched.(configurations := patch.configurations.value);
    }
    if patch.variables.Some? {
      patched := patched.(variables := patch.variables.value);
    }
  }

  class WorkflowClient {
    var definitions: map<nat, Definition>
    var workflows: map<nat, Workflow>
    var nextDefinitionId: nat
    var nextWorkflowId: nat

    function Tables(): Db
      reads this
    {
      Db(definitions, workflows)
    }

    /** Ids are serial, and the foreign key ties definitions to workflows. */
    ghost predicate Valid()
      reads this
    {
      && (forall id :: id in definitions ==> id < nextDefinitionId && definitions[id].workflowId in workflows)
      && (forall wid :: wid in workflows ==> wid < nextWorkflowId)
    }

    method NextVersionNumber(wid: nat) returns (next: int)
      ensures IsNextVersion(Tables(), wid, next)
    {
      var currentMax: Option<int> := None;
      var rest := set id | id in definitions && definitions[id].workflowId == wid;
      while rest != {}
        invariant forall id :: id in rest ==> Of(Tables(), wid, id)
        invariant forall id :: Of(Tables(), wid, id) && id !in rest ==>
          currentMax.Some? && definitions[id].version <= currentMax.value
        invariant currentMax.Some? ==> exists id :: Of(Tables(), wid, id) && definitions[id].version == currentMax.value
        decreases rest
      {
        var id :| id in rest;
        if currentMax.None? || definitions[id].version > currentMax.value {
          currentMax := Some(definitions[id].version);
        }
        rest := rest - {id};
      }
      next := (if currentMax.Some? then currentMax.value else 0) + 1;
    }

    method FindByStatus(wid: nat, status: Status) returns (found: Option<nat>)
      ensures found.Some? ==> HasStatus(Tables(), wid, found.value, status)
      ensures found.None? ==> forall id :: !HasStatus(Tables(), wid, id, status)
    {
      if id :| id in definitions && definitions[id].workflowId == wid && definitions[id].status == status {
        found := Some(id);
      } else {
        found := None;
        assert forall id :: HasStatus(Tables(), wid, id, status) ==> id in definitions;
      }
    }

    method CreateWorkflow(content: Content, now: int) returns (wid: nat)
      requires Valid()
      modifies this
      ensures Valid() && Step(old(Tables()), Create(content, now), Tables())
      ensures wid !in old(workflows) && wid in workflows && workflows[wid].legacy == content
      ensures workflows[wid].releasedDefinitionId.Some?
      ensures var id := workflows[wid].releasedDefinitionId.value;
        id !in old(definitions)
        && definitions == old(definitions)[id := Definition(wid, content, Published, 1, true, Some(now))]
    {
      wid := nextWorkflowId;
      var id := nextDefinitionId;
      nextWorkflowId, nextDefinitionId := wid + 1, id + 1;
      workflows := workflows[wid := Workflow(None, content)];
      definitions := definitions[id := Definition(wid, content, Published, 1, true, Some(now))];
      workflows := workflows[wid := workflows[wid].(releasedDefinitionId := Some(id))];
      assert Inserted(old(Tables()), id, definitions[id], Tables());
    }

    method SaveWorkflowDraft(wid: nat, patch: Patch) returns (r: Result<nat, VersionError>)
      requires Valid()
      modifies this
      ensures Valid() && Step(old(Tables()), Save(wid, patch), Tables())
      ensures r.Err? <==> wid !in old(workflows)
      ensures r.Err? ==> r.error == NoSuchWorkflow && Tables() == old(Tables())
      ensures r.Ok? ==> SaveStep(old(Tables()), wid, patch, r.value, Tables())
      ensures r.Ok? ==>
        && HasStatus(Tables(), wid, r.value, Draft)
        && (forall id :: id in old(definitions) && id != r.value ==>
              id in definitions && definitions[id] == old(definitions)[id])
        && workflows == old(workflows)[wid := old(workflows)[wid].(legacy := definitions[r.value].content)]
      // a draft already there keeps the fields the patch leaves out
      ensures r.Ok? && r.value in old(definitions) ==>
        var was, saved := old(definitions)[r.value], definitions[r.value];
        && was.workflowId == wid && was.status == Draft && saved == was.(content := saved.content)
        && saved.content.definition
           == (if patch.definition.Some? then patch.definition.value else was.content.definition)
        && saved.content.configurations
           == (if patch.configurations.Some? then patch.configurations.value else was.content.configurations)
        && saved.content.variables
           == (if patch.variables.Some? then patch.variables.value else was.content.variables)
    {
      var found := FindByStatus(wid, Draft);
      var id;
      if found.Some? {
        id := found.value;
        var c := PatchContent(definitions[id].content, patch);
        definitions := definitions[id := definitions[id].(content := c)];
      } else {
        var published := FindByStatus(wid, Published);
        var base := Content(EMPTY_OBJECT, EMPTY_OBJECT, EMPTY_OBJECT);
        if published.Some? {
          base := definitions[published.value].content;
        }
        assert IsBase(Tables(), wid, base);
        var next := NextVersionNumber(wid);
        if wid !in workflows {
          return Err(NoSuchWorkflow);
        }
        id := nextDefinitionId;
        nextDefinitionId := id + 1;
        definitions := definitions[id := Definition(wid, Patched(base, patch), Draft, next, false, None)];
        assert Inserted(old(Tables()), id, Definition(wid, Patched(base, patch), Draft, next, false, None), Tables());
      }
      workflows := workflows[wid := workflows[wid].(legacy := definitions[id].content)];
      assert SaveStep(old(Tables()), wid, patch, id, Tables());
      SaveTouchesOneRow(old(Tables()), wid, patch, id, Tables());
      if found.Some? {
        SaveIsFieldByField(old(Tables()), wid, patch, id, Tables());
      }
      return Ok(id);
    }

    method PublishWorkflowDraft(wid: nat, now: int) returns (r: Result<nat, VersionError>)
      requires Valid()
      modifies this
      ensures Valid() && Step(old(Tables()), Publish(wid, now), Tables())
      ensures r.Err? <==> !HasDraft(old(Tables()), wid)
      ensures r.Err? ==> r.error == NoDraft && Tables() == old(Tables())
      ensures r.Ok? ==> PublishStep(old(Tables()), wid, now, r.value, Tables())
      ensures r.Ok? ==>
        && r.value in old(definitions) && r.value in definitions
        && definitions[r.value].content == old(definitions)[r.value].content
        && definitions[r.value].status == Published && definitions[r.value].isCurrent
        && definitions[r.value].publishedAt == Some(now)
        && workflows == old(workflows)[wid := Workflow(Some(r.value), definitions[r.value].content)]
    {
      var found := FindByStatus(wid, Draft);
      if found.None? {
        return Err(NoDraft);
      }
      var id := found.value;
      definitions := map d | d in definitions ::
        if definitions[d].workflowId == wid && definitions[d].status == Published
        then definitions[d].(status := Archived, isCurrent := false) else definitions[d];
      definitions := definitions[id :=
        definitions[id].(status := Published, publishedAt := Some(now), isCurrent := true)];
      workflows := workflows[wid := Workflow(Some(id), definitions[id].content)];
      assert PublishStep(old(Tables()), wid, now, id, Tables());
      return Ok(id);
    }

    method DiscardWorkflowDraft(wid: nat) returns (r: Result<nat, VersionError>)
      requires Valid()
      modifies this
      ensures Valid() && Step(old(Tables()), Discard(wid), Tables())
      ensures r.Err? <==> !HasDraft(old(Tables()), wid)
      ensures r.Err? ==> r.error == NoDraft && Tables() == old(Tables())
      ensures r.Ok? ==>
        && HasStatus(old(Tables()), wid, r.value, Draft)
        && definitions == old(definitions) - {r.value} && workflows == old(workflows)
    {
      var found := FindByStatus(wid, Draft);
      if found.None? {
        return Err(NoDraft);
      }
      definitions := map d | d in definitions && d != found.value :: definitions[d];
      assert Tables() == old(Tables()).(definitions := old(definitions) - {found.value});
      return Ok(found.value);
    }

    method RevertToVersion(wid: nat, source: nat) returns (r: Result<nat, VersionError>)
      requires Valid()
      modifies this
      ensures Valid() && Step(old(Tables()), Revert(wid, source), Tables())
      ensures r == Err(DraftExists) <==> HasDraft(old(Tables()), wid)
      ensures r == Err(VersionNotFound) <==> !HasDraft(old(Tables()), wid) && !Of(old(Tables()), wid, source)
      ensures r.Err? ==> Tables() == old(Tables()) && (r.error == DraftExists || r.error == VersionNotFound)
      ensures r.Ok? ==>
        && source in old(definitions) && r.value !in old(definitions) && r.value in definitions
        && definitions == old(definitions)[r.value := definitions[r.value]] && workflows == old(workflows)
        && definitions[r.value].workflowId == wid && definitions[r.value].status == Draft
        && definitions[r.value].content == old(definitions)[source].content
        && !definitions[r.value].isCurrent && definitions[r.value].publishedAt == None
    {
      var found := FindByStatus(wid, Draft);
      if found.Some? {
        return Err(DraftExists);
      }
      if source !in definitions || definitions[source].workflowId != wid {
        return Err(VersionNotFound);
      }
      var next := NextVersionNumber(wid);
      var id := nextDefinitionId;
      nextDefinitionId := id + 1;
      definitions := definitions[id := Definition(wid, definitions[source].content, Draft, next, false, None)];
      assert Inserted(old(Tables()), id, definitions[id], Tables());
      return Ok(id);
    }
  }

  // ---------- The invariant of every reachable state ----------

  /** `order` lists the workflow's definitions by version number: 1, 2, ..., n. */
  ghost predicate Numbered(db: Db, wid: nat, order: seq<nat>) {
    && (forall i :: 0 <= i < |order| ==> Of(db, wid, order[i]) && db.definitions[order[i]].version == i + 1)
    && (forall id :: Of(db, wid, id) ==>
          1 <= db.definitions[id].version <= |order| && order[db.definitions[id].version - 1] == id)
  }

  /** Exactly one published version, named by the released pointer and the only
      one marked current; at most one draft, holding the highest number. */
  ghost predicate Coherent(db: Db, wid: nat, order: seq<nat>)
    requires wid in db.workflows
  {
    && Numbered(db, wid, order)
    && db.workflows[wid].releasedDefinitionId.Some?
    && (forall id: nat :: HasStatus(db, wid, id, Published) ==> db.workflows[wid].releasedDefinitionId == Some(id))
    && (forall id :: Of(db, wid, id) ==>
          (db.definitions[id].isCurrent <==> db.workflows[wid].releasedDefinitionId == Some(id)))
    && HasStatus(db, wid, db.workflows[wid].releasedDefinitionId.value, Published)
    && (forall id :: HasStatus(db, wid, id, Draft) ==> db.definitions[id].version == |order|)
  }

  /** The invariant, as it concerns workflow `wid`. */
  ghost predicate Inv(db: Db, wid: nat, order: seq<nat>) {
    if wid in db.workflows then Coherent(db, wid, order) else forall id :: !Of(db, wid, id)
  }

  lemma NextVersionIsCount(db: Db, wid: nat, order: seq<nat>, v: int)
    requires wid in db.workflows && Coherent(db, wid, order) && IsNextVersion(db, wid, v)
    ensures v == |order| + 1
  {
    assert Of(db, wid, db.workflows[wid].releasedDefinitionId.value);
    assert Of(db, wid, order[|order| - 1]);
  }

  lemma UntouchedWorkflowStaysCoherent(db: Db, db': Db, wid: nat, order: seq<nat>)
    requires wid in db.workflows && Coherent(db, wid, order)
    requires wid in db'.workflows
      && db'.workflows[wid].releasedDefinitionId == db.workflows[wid].releasedDefinitionId
    requires forall id :: Of(db, wid, id) <==> Of(db', wid, id)
    requires forall id :: Of(db, wid, id) ==>
      id in db'.definitions && db'.definitions[id] == db.definitions[id]
    ensures Coherent(db', wid, order)
  {
    forall id ensures HasStatus(db', wid, id, Published) <==> HasStatus(db, wid, id, Published) {
      assert Of(db, wid, id) <==> Of(db', wid, id);
    }
    forall id | HasStatus(db', wid, id, Draft) ensures HasStatus(db, wid, id, Draft) {
      assert Of(db, wid, id) <==> Of(db', wid, id);
    }
  }

  /** Adding a draft to a workflow that has none. */
  lemma NewDraftIsCoherent(db: Db, db': Db, wid: nat, order: seq<nat>, id: nat, c: Content, v: int)
    requires wid in db.workflows && Coherent(db, wid, order) && !HasDraft(db, wid)
    requires IsNextVersion(db, wid, v) && Inserted(db, id, Definition(wid, c, Draft, v, false, None), db')
    requires wid in db'.workflows
      && db'.workflows[wid].releasedDefinitionId == db.workflows[wid].releasedDefinitionId
    ensures Coherent(db', wid, order + [id])
  {
    NextVersionIsCount(db, wid, order, v);
    forall d ensures HasStatus(db', wid, d, Draft) ==> d == id {
      assert HasStatus(db', wid, d, Draft) && d != id ==> HasStatus(db, wid, d, Draft);
    }
    forall d ensures HasStatus(db', wid, d, Published) <==> HasStatus(db, wid, d, Published) {}
    assert Of(db, wid, db.workflows[wid].releasedDefinitionId.value);
  }

  lemma PublishIsCoherent(db: Db, db': Db, wid: nat, order: seq<nat>, now: int, id: nat)
    requires wid in db.workflows && Coherent(db, wid, order) && PublishStep(db, wid, now, id, db')
    ensures Coherent(db', wid, order)
  {
    forall d ensures Of(db', wid, d) <==> Of(db, wid, d) {}
    forall d ensures !HasStatus(db', wid, d, Draft) {
      if Of(db, wid, d) && d != id {
        assert order[|order| - 1] == id;
      }
    }
  }

  lemma DiscardIsCoherent(db: Db, db': Db, wid: nat, order: seq<nat>, id: nat)
    requires wid in db.workflows && Coherent(db, wid, order) && HasStatus(db, wid, id, Draft)
    requires db' == db.(definitions := db.definitions - {id})
    ensures order != [] && Coherent(db', wid, Front(order))
  {
    assert order[|order| - 1] == id;
    forall d ensures Of(db', wid, d) <==> Of(db, wid, d) && d != id {}
    forall i | 0 <= i < |order| - 1 ensures order[i] != id {
      assert db.definitions[order[i]].version == i + 1;
    }
    forall d | HasStatus(db', wid, d, Draft) ensures false {
      assert HasStatus(db, wid, d, Draft);
    }
    forall d | HasStatus(db', wid, d, Published) ensures HasStatus(db, wid, d, Published) {}
  }

  /** The definitions agree in everything but content. */
  ghost predicate SameShape(db: Db, db': Db) {
    db'.definitions.Keys == db.definitions.Keys
    && forall id :: id in db.definitions ==>
         db'.definitions[id].workflowId == db.definitions[id].workflowId
         && db'.definitions[id].status == db.definitions[id].status
         && db'.definitions[id].version == db.definitions[id].version
         && db'.definitions[id].isCurrent == db.definitions[id].isCurrent
  }

  lemma SameShapeIsCoherent(db: Db, db': Db, wid: nat, order: seq<nat>)
    requires wid in db.workflows && Coherent(db, wid, order) && SameShape(db, db')
    requires wid in db'.workflows
      && db'.workflows[wid].releasedDefinitionId == db.workflows[wid].releasedDefinitionId
    ensures Coherent(db', wid, order)
  {
    forall d, status ensures HasStatus(db', wid, d, status) <==> HasStatus(db, wid, d, status) {}
    forall d ensures Of(db', wid, d) <==> Of(db, wid, d) {}
  }

  lemma SavedDraftIsCoherent(db: Db, db': Db, wid: nat, order: seq<nat>, patch: Patch, id: nat)
    requires wid in db.workflows && Coherent(db, wid, order) && HasDraft(db, wid)
    requires SaveStep(db, wid, patch, id, db')
    ensures Coherent(db', wid, order)
  {
    assert SameShape(db, db');
    SameShapeIsCoherent(db, db', wid, order);
  }

  /** The workflow whose rows an operation may change, given its result. */
  ghost predicate Spares(op: Operation, wid: nat) {
    match op
    case Create(_, _) => false
    case Save(w, _) => w != wid
    case Publish(w, _) => w != wid
    case Discard(w) => w != wid
    case Revert(w, _) => w != wid
  }

  lemma SparedRowStays(db: Db, op: Operation, db': Db, wid: nat, id: nat)
    requires Step(db, op, db') && Spares(op, wid)
    ensures Of(db, wid, id) <==> Of(db', wid, id)
    ensures Of(db, wid, id) ==> db'.definitions[id] == db.definitions[id]
  {
  }

  lemma SparedWorkflowStays(db: Db, op: Operation, db': Db, wid: nat)
    requires Step(db, op, db') && Spares(op, wid)
    ensures wid in db.workflows <==> wid in db'.workflows
    ensures wid in db.workflows ==> db'.workflows[wid] == db.workflows[wid]
  {
  }

  lemma OtherWorkflowsAreUntouched(db: Db, op: Operation, db': Db, wid: nat, order: seq<nat>)
    requires Inv(db, wid, order) && Step(db, op, db') && Spares(op, wid)
    ensures Inv(db', wid, order)
  {
    SparedWorkflowStays(db, op, db', wid);
    forall id
      ensures Of(db, wid, id) <==> Of(db', wid, id)
      ensures Of(db, wid, id) ==> db'.definitions[id] == db.definitions[id]
    {
      SparedRowStays(db, op, db', wid, id);
    }
    if wid in db.workflows {
      UntouchedWorkflowStaysCoherent(db, db', wid, order);
    }
  }

  lemma CreateKeepsInvariant(db: Db, content: Content, now: int, db': Db, wid: nat, order: seq<nat>)
    returns (order': seq<nat>)
    requires Inv(db, wid, order) && Step(db, Create(content, now), db')
    ensures Inv(db', wid, order')
  {
    var w, id :| w !in db.workflows && (forall d :: !Of(db, w, d))
      && Inserted(db, id, Definition(w, content, Published, 1, true, Some(now)), db')
      && db'.workflows == db.workflows[w := Workflow(Some(id), content)];
    if w == wid {
      order' := [id];
      forall d | Of(db', wid, d) ensures d == id {
        assert !Of(db, wid, d);
      }
    } else {
      order' := order;
      assert forall d :: Of(db, wid, d) <==> Of(db', wid, d);
      if wid in db.workflows {
        UntouchedWorkflowStaysCoherent(db, db', wid, order);
      }
    }
  }

  /** Every operation keeps the invariant of every workflow. */
  lemma StepKeepsInvariant(db: Db, op: Operation, db': Db, wid: nat, order: seq<nat>)
    returns (order': seq<nat>)
    requires Inv(db, wid, order) && Step(db, op, db')
    ensures Inv(db', wid, order')
  {
    order' := order;
    if op.Create? {
      order' := CreateKeepsInvariant(db, op.content, op.now, db', wid, order);
    } else if Spares(op, wid) {
      OtherWorkflowsAreUntouched(db, op, db', wid, order);
    } else if db' != db {
      match op
      case Save(_, patch) =>
        var id :| SaveStep(db, wid, patch, id, db');
        if HasDraft(db, wid) {
          SavedDraftIsCoherent(db, db', wid, order, patch, id);
        } else {
          var base, v :| IsNextVersion(db, wid, v) && IsBase(db, wid, base)
            && Inserted(db, id, Definition(wid, Patched(base, patch), Draft, v, false, None), db');
          NewDraftIsCoherent(db, db', wid, order, id, Patched(base, patch), v);
          order' := order + [id];
        }
      case Publish(_, now) =>
        var id :| PublishStep(db, wid, now, id, db');
        PublishIsCoherent(db, db', wid, order, now, id);
      case Discard(_) =>
        var id :| HasStatus(db, wid, id, Draft) && db' == db.(definitions := db.definitions - {id});
        DiscardIsCoherent(db, db', wid, order, id);
        order' := Front(order);
      case Revert(_, source) =>
        var id, v :| IsNextVersion(db, wid, v)
          && Inserted(db, id, Definition(wid, db.definitions[source].content, Draft, v, false, None), db')
          && db'.workflows == db.workflows;
        NewDraftIsCoherent(db, db', wid, order, id, db.definitions[source].content, v);
        order' := order + [id];
    }
  }

  // ---------- Runs ----------

  /** `dbs` is the sequence of states that the operations `ops` pass through. */
  ghost predicate IsRun(dbs: seq<Db>, ops: seq<Operation>) {
    && |dbs| == |ops| + 1
    && forall i :: 0 <= i < |ops| ==> Step(dbs[i], ops[i], dbs[i + 1])
  }

  /** From an empty database, every workflow is coherent in every state of every run. */
  lemma {:induction false} RunsAreCoherent(dbs: seq<Db>, ops: seq<Operation>, i: nat, wid: nat)
    returns (order: seq<nat>)
    requires IsRun(dbs, ops) && dbs[0] == Db(map[], map[]) && i < |dbs|
    ensures Inv(dbs[i], wid, order)
  {
    if i == 0 {
      order := [];
    } else {
      order := RunsAreCoherent(dbs, ops, i - 1, wid);
      order := StepKeepsInvariant(dbs[i - 1], ops[i - 1], dbs[i], wid, order);
    }
  }

  /** What that means: versions 1..n are each held by exactly one definition, one
      definition is live, and only the highest-numbered one can be a draft. */
  lemma RunsKeepOnePublishedVersion(dbs: seq<Db>, ops: seq<Operation>, i: nat, wid: nat)
    returns (order: seq<nat>, live: nat)
    requires IsRun(dbs, ops) && dbs[0] == Db(map[], map[]) && i < |dbs| && wid in dbs[i].workflows
    ensures forall n :: 0 <= n < |order| ==>
      Of(dbs[i], wid, order[n]) && dbs[i].definitions[order[n]].version == n + 1
    ensures forall id :: Of(dbs[i], wid, id) ==>
      1 <= dbs[i].definitions[id].version <= |order| && order[dbs[i].definitions[id].version - 1] == id
    ensures dbs[i].workflows[wid].releasedDefinitionId == Some(live)
    ensures forall id :: HasStatus(dbs[i], wid, id, Published) <==> id == live
    ensures forall id :: Of(dbs[i], wid, id) ==> (dbs[i].definitions[id].isCurrent <==> id == live)
    ensures forall id :: HasStatus(dbs[i], wid, id, Draft) ==> order != [] && id == Last(order)
  {
    order := RunsAreCoherent(dbs, ops, i, wid);
    live := dbs[i].workflows[wid].releasedDefinitionId.value;
  }

  ghost predicate Frozen(db: Db, id: nat) {
    id in db.definitions && db.definitions[id].status != Draft
  }

  lemma StepKeepsFrozen(db: Db, op: Operation, db': Db, id: nat)
    requires Step(db, op, db') && Frozen(db, id)
    ensures Frozen(db', id)
    ensures db'.definitions[id].content == db.definitions[id].content
    ensures db'.definitions[id].workflowId == db.definitions[id].workflowId
    ensures db'.definitions[id].version == db.definitions[id].version
  {
  }

  /** A version that was ever published keeps its content and number for good. */
  lemma {:induction false} PublishedContentIsImmutable(dbs: seq<Db>, ops: seq<Operation>, i: nat, j: nat, id: nat)
    requires IsRun(dbs, ops) && i <= j < |dbs| && Frozen(dbs[i], id)
    ensures Frozen(dbs[j], id)
    ensures dbs[j].definitions[id].content == dbs[i].definitions[id].content
    ensures dbs[j].definitions[id].version == dbs[i].definitions[id].version
    ensures dbs[j].definitions[id].workflowId == dbs[i].definitions[id].workflowId
  {
    if i < j {
      PublishedContentIsImmutable(dbs, ops, i, j - 1, id);
      StepKeepsFrozen(dbs[j - 1], ops[j - 1], dbs[j], id);
    }
  }

  /** Reverting to a version and publishing makes the live content equal to that
      version's, and loses no earlier version. */
  lemma RevertThenPublishRestores(db: Db, mid: Db, db': Db, wid: nat, source: nat, now: int)
    requires Of(db, wid, source) && wid in db.workflows && !HasDraft(db, wid)
    requires Step(db, Revert(wid, source), mid) && Step(mid, Publish(wid, now), db')
    ensures wid in db'.workflows && db'.workflows[wid].releasedDefinitionId.Some?
    ensures var live := db'.workflows[wid].releasedDefinitionId.value;
      && live !in db.definitions && HasStatus(db', wid, live, Published)
      && db'.definitions[live].content == db.definitions[source].content
      && db'.workflows[wid].legacy == db.definitions[source].content
    ensures db.definitions.Keys <= db'.definitions.Keys
    ensures forall id :: id in db.definitions ==>
      db'.definitions[id].content == db.definitions[id].content
      && db'.definitions[id].version == db.definitions[id].version
  {
    var id, v :| IsNextVersion(db, wid, v)
      && Inserted(db, id, Definition(wid, db.definitions[source].content, Draft, v, false, None), mid)
      && mid.workflows == db.workflows;
    assert HasStatus(mid, wid, id, Draft);
    var published :| PublishStep(mid, wid, now, published, db');
    assert published == id by {
      if published != id {
        assert HasStatus(db, wid, published, Draft);
      }
    }
  }

  // ---------- What a save leaves in each field ----------

  predicate IsLive(db: Db, wid: nat)
    requires wid in db.workflows
  {
    db.workflows[wid].releasedDefinitionId.Some?
    && Of(db, wid, db.workflows[wid].releasedDefinitionId.value)
  }

  /** The version a workflow runs. */
  function Live(db: Db, wid: nat): Content
    requires wid in db.workflows && IsLive(db, wid)
  {
    db.definitions[db.workflows[wid].releasedDefinitionId.value].content
  }

  /** The first save after a publication starts from the live version: each field of the
      new draft is the one given, or else the live one. */
  lemma FirstSaveStartsFromLive(db: Db, wid: nat, patch: Patch, db': Db, order: seq<nat>) returns (id: nat)
    requires wid in db.workflows && Coherent(db, wid, order) && !HasDraft(db, wid)
    requires Step(db, Save(wid, patch), db')
    ensures id !in db.definitions && id in db'.definitions
    ensures db'.definitions == db.definitions[id := db'.definitions[id]]
    ensures var live, saved := Live(db, wid), db'.definitions[id];
      && saved.workflowId == wid && saved.status == Draft && saved.version == |order| + 1 && !saved.isCurrent
      && saved.content.definition == (if patch.definition.Some? then patch.definition.value else live.definition)
      && saved.content.configurations
         == (if patch.configurations.Some? then patch.configurations.value else live.configurations)
      && saved.content.variables == (if patch.variables.Some? then patch.variables.value else live.variables)
      && db'.workflows == db.workflows[wid := db.workflows[wid].(legacy := saved.content)]
  {
    id :| SaveStep(db, wid, patch, id, db');
    var base, v :| IsNextVersion(db, wid, v) && IsBase(db, wid, base)
      && Inserted(db, id, Definition(wid, Patched(base, patch), Draft, v, false, None), db');
    NextVersionIsCount(db, wid, order, v);
  }

  /** A further save changes the given fields of the draft and nothing else. */
  lemma LaterSaveKeepsOtherFields(db: Db, wid: nat, patch: Patch, db': Db, order: seq<nat>, id: nat)
    requires wid in db.workflows && Coherent(db, wid, order) && HasStatus(db, wid, id, Draft)
    requires Step(db, Save(wid, patch), db')
    ensures id in db'.definitions && db'.definitions == db.definitions[id := db'.definitions[id]]
    ensures var was, saved := db.definitions[id], db'.definitions[id];
      && saved == was.(content := saved.content)
      && saved.content.definition
         == (if patch.definition.Some? then patch.definition.value else was.content.definition)
      && saved.content.configurations
         == (if patch.configurations.Some? then patch.configurations.value else was.content.configurations)
      && saved.content.variables == (if patch.variables.Some? then patch.variables.value else was.content.variables)
      && db'.workflows == db.workflows[wid := db.workflows[wid].(legacy := saved.content)]
  {
    var saved :| SaveStep(db, wid, patch, saved, db');
    assert order[|order| - 1] == id && order[|order| - 1] == saved;
  }

  /** The last value given for a field, or what it was before. */
  function LastGiven(start: Json, given: seq<Option<Json>>): Json
    decreases |given|
  {
    if given == [] then start
    else if Last(given).Some? then Last(given).value else LastGiven(start, Front(given))
  }

  function DefinitionsOf(patches: seq<Patch>): seq<Option<Json>> {
    seq(|patches|, i requires 0 <= i < |patches| => patches[i].definition)
  }

  function ConfigurationsOf(patches: seq<Patch>): seq<Option<Json>> {
    seq(|patches|, i requires 0 <= i < |patches| => patches[i].configurations)
  }

  function VariablesOf(patches: seq<Patch>): seq<Option<Json>> {
    seq(|patches|, i requires 0 <= i < |patches| => patches[i].variables)
  }

  /** `c` has the last value given for each field, or else the value in `start`. */
  ghost predicate IsLastSaved(c: Content, start: Content, patches: seq<Patch>) {
    && c.definition == LastGiven(start.definition, DefinitionsOf(patches))
    && c.configurations == LastGiven(start.configurations, ConfigurationsOf(patches))
    && c.variables == LastGiven(start.variables, VariablesOf(patches))
  }

  lemma OneMoreSave(patches: seq<Patch>)
    requires patches != []
    ensures Front(DefinitionsOf(patches)) == DefinitionsOf(Front(patches)) && DefinitionsOf(patches) != []
    ensures Front(ConfigurationsOf(patches)) == ConfigurationsOf(Front(patches)) && ConfigurationsOf(patches) != []
    ensures Front(VariablesOf(patches)) == VariablesOf(Front(patches)) && VariablesOf(patches) != []
  {
  }

  /** The patches of the workflow's saves among the operations. */
  function PatchesOf(ops: seq<Operation>, wid: nat): seq<Patch>
    decreases |ops|
  {
    if ops == [] then []
    else PatchesOf(Front(ops), wid) + SavedBy(Last(ops), wid)
  }

  /** The workflow itself is only saved; others may do anything. */
  predicate OnlySaved(ops: seq<Operation>, wid: nat) {
    forall op :: op in ops ==> op.Create? || op.wid != wid || op.Save?
  }

  /** The live version is as it was, and the draft, there once anything was saved, has
      the fields saved since. */
  ghost predicate Accumulated(start: Db, db: Db, wid: nat, patches: seq<Patch>) {
    && wid in start.workflows && wid in db.workflows && IsLive(start, wid) && IsLive(db, wid)
    && db.workflows[wid].releasedDefinitionId == start.workflows[wid].releasedDefinitionId
    && Live(db, wid) == Live(start, wid)
    && (patches == [] ==> !HasDraft(db, wid))
    && (patches != [] ==>
          exists id :: HasStatus(db, wid, id, Draft)
                       && IsLastSaved(db.definitions[id].content, Live(start, wid), patches))
  }

  lemma OneMoreIsLastSaved(was: Content, saved: Content, start: Content, patches: seq<Patch>, patch: Patch)
    requires IsLastSaved(was, start, patches)
    requires saved.definition == (if patch.definition.Some? then patch.definition.value else was.definition)
    requires saved.configurations
             == (if patch.configurations.Some? then patch.configurations.value else was.configurations)
    requires saved.variables == (if patch.variables.Some? then patch.variables.value else was.variables)
    ensures IsLastSaved(saved, start, patches + [patch])
  {
    var more := patches + [patch];
    assert Front(more) == patches && Last(more) == patch;
    OneMoreSave(more);
  }

  lemma FirstSaveAccumulates(start: Db, db: Db, wid: nat, patch: Patch, db': Db, order: seq<nat>)
    requires Accumulated(start, db, wid, []) && Coherent(db, wid, order) && Step(db, Save(wid, patch), db')
    ensures Accumulated(start, db', wid, [] + [patch])
  {
    var id := FirstSaveStartsFromLive(db, wid, patch, db', order);
    OneMoreIsLastSaved(Live(db, wid), db'.definitions[id].content, Live(start, wid), [], patch);
    assert HasStatus(db', wid, id, Draft);
  }

  lemma LaterSaveAccumulates(start: Db, db: Db, wid: nat, patches: seq<Patch>, patch: Patch, db': Db, order: seq<nat>)
    requires Accumulated(start, db, wid, patches) && Coherent(db, wid, order) && Step(db, Save(wid, patch), db')
    requires patches != []
    ensures Accumulated(start, db', wid, patches + [patch])
  {
    var id :| HasStatus(db, wid, id, Draft) && IsLastSaved(db.definitions[id].content, Live(start, wid), patches);
    LaterSaveKeepsOtherFields(db, wid, patch, db', order, id);
    OneMoreIsLastSaved(db.definitions[id].content, db'.definitions[id].content, Live(start, wid), patches, patch);
    assert HasStatus(db', wid, id, Draft);
  }

  lemma OthersKeepAccumulated(start: Db, db: Db, wid: nat, patches: seq<Patch>, op: Operation, db': Db)
    requires Accumulated(start, db, wid, patches) && Step(db, op, db') && (op.Create? || Spares(op, wid))
    ensures Accumulated(start, db', wid, patches)
  {
    forall id
      ensures Of(db, wid, id) <==> Of(db', wid, id)
      ensures Of(db, wid, id) ==> db'.definitions[id] == db.definitions[id]
    {
      if !op.Create? {
        SparedRowStays(db, op, db', wid, id);
      }
    }
    if !op.Create? {
      SparedWorkflowStays(db, op, db', wid);
    }
    if patches != [] {
      var id :| HasStatus(db, wid, id, Draft)
        && IsLastSaved(db.definitions[id].content, Live(start, wid), patches);
      assert HasStatus(db', wid, id, Draft);
    } else {
      forall id ensures !HasStatus(db', wid, id, Draft) {
        assert !HasStatus(db, wid, id, Draft);
      }
    }
  }

  /** The patch an operation saves to the workflow, if it does. */
  function SavedBy(op: Operation, wid: nat): seq<Patch> {
    if op.Save? && op.wid == wid then [op.patch] else []
  }

  lemma StepAccumulates(start: Db, db: Db, wid: nat, patches: seq<Patch>, op: Operation, db': Db, order: seq<nat>)
    returns (order': seq<nat>)
    requires Accumulated(start, db, wid, patches) && Coherent(db, wid, order) && Step(db, op, db')
    requires op.Create? || op.wid != wid || op.Save?
    ensures Accumulated(start, db', wid, patches + SavedBy(op, wid)) && Coherent(db', wid, order')
  {
    if op.Save? && op.wid == wid {
      if patches == [] {
        FirstSaveAccumulates(start, db, wid, op.patch, db', order);
      } else {
        LaterSaveAccumulates(start, db, wid, patches, op.patch, db', order);
      }
    } else {
      OthersKeepAccumulated(start, db, wid, patches, op, db');
      assert patches + SavedBy(op, wid) == patches;
    }
    order' := StepKeepsInvariant(db, op, db', wid, order);
  }

  lemma RunFront(dbs: seq<Db>, ops: seq<Operation>, wid: nat)
    requires IsRun(dbs, ops) && OnlySaved(ops, wid) && ops != []
    ensures IsRun(Front(dbs), Front(ops)) && OnlySaved(Front(ops), wid) && Front(dbs)[0] == dbs[0]
    ensures Step(Last(Front(dbs)), Last(ops), Last(dbs))
    ensures Last(ops).Create? || Last(ops).wid != wid || Last(ops).Save?
  {
  }

  /** Any operations that only save the workflow: its draft has the last value given for
      each field, or else the live one, and the live version stays as it was. */
  lemma {:induction false} SavesAccumulate(dbs: seq<Db>, ops: seq<Operation>, wid: nat, order: seq<nat>)
    returns (order': seq<nat>)
    requires IsRun(dbs, ops) && OnlySaved(ops, wid)
    requires wid in dbs[0].workflows && Coherent(dbs[0], wid, order) && !HasDraft(dbs[0], wid)
    ensures Accumulated(dbs[0], Last(dbs), wid, PatchesOf(ops, wid)) && Coherent(Last(dbs), wid, order')
    decreases |ops|
  {
    if ops == [] {
      order' := order;
    } else {
      RunFront(dbs, ops, wid);
      order' := SavesAccumulate(Front(dbs), Front(ops), wid, order);
      order' := StepAccumulates(dbs[0], Last(Front(dbs)), wid, PatchesOf(Front(ops), wid), Last(ops), Last(dbs),
                                order');
    }
  }

  lemma PublishingAccumulated(start: Db, db: Db, wid: nat, patches: seq<Patch>, order: seq<nat>, now: int, db': Db)
    requires Accumulated(start, db, wid, patches) && patches != [] && Coherent(db, wid, order)
    requires Step(db, Publish(wid, now), db')
    ensures wid in db'.workflows && IsLive(db', wid)
    ensures db'.definitions[db'.workflows[wid].releasedDefinitionId.value].publishedAt == Some(now)
    ensures IsLastSaved(Live(db', wid), Live(start, wid), patches) && db'.workflows[wid].legacy == Live(db', wid)
  {
    var id :| HasStatus(db, wid, id, Draft) && IsLastSaved(db.definitions[id].content, Live(start, wid), patches);
    var published :| PublishStep(db, wid, now, published, db');
    assert order[|order| - 1] == id && order[|order| - 1] == published;
  }

  /** Publishing makes each live field the last one saved since the previous
      publication, and leaves the live fields that no save gave. */
  lemma PublishedContentIsLastSaved(dbs: seq<Db>, ops: seq<Operation>, wid: nat, order: seq<nat>, now: int, db': Db)
    requires IsRun(dbs, ops) && OnlySaved(ops, wid) && PatchesOf(ops, wid) != []
    requires wid in dbs[0].workflows && Coherent(dbs[0], wid, order) && !HasDraft(dbs[0], wid)
    requires Step(Last(dbs), Publish(wid, now), db')
    ensures wid in db'.workflows && IsLive(db', wid)
    ensures db'.definitions[db'.workflows[wid].releasedDefinitionId.value].publishedAt == Some(now)
    ensures IsLastSaved(Live(db', wid), Live(dbs[0], wid), PatchesOf(ops, wid))
    ensures db'.workflows[wid].legacy == Live(db', wid)
  {
    var order' := SavesAccumulate(dbs, ops, wid, order);
    PublishingAccumulated(dbs[0], Last(dbs), wid, PatchesOf(ops, wid), order', now, db');
  }

  /** So an empty save and a publication leave the live content as it was. */
  lemma EmptySaveThenPublishKeepsLive(db: Db, mid: Db, db': Db, wid: nat, order: seq<nat>, now: int)
    requires wid in db.workflows && Coherent(db, wid, order) && !HasDraft(db, wid)
    requires Step(db, Save(wid, Patch(None, None, None)), mid) && Step(mid, Publish(wid, now), db')
    ensures wid in db'.workflows && IsLive(db', wid)
    ensures Live(db', wid) == Live(db, wid) && db'.workflows[wid].legacy == Live(db, wid)
  {
    var none := Patch(None, None, None);
    FirstSaveAccumulates(db, db, wid, none, mid, order);
    assert [] + [none] == [none];
    var order' := StepKeepsInvariant(db, Save(wid, none), mid, wid, order);
    PublishingAccumulated(db, mid, wid, [none], order', now, db');
    NothingGiven(Live(db', wid), Live(db, wid));
  }

  lemma NothingGiven(c: Content, start: Content)
    requires IsLastSaved(c, start, [Patch(None, None, None)])
    ensures c == start
  {
    var none := Patch(None, None, None);
    assert DefinitionsOf([none]) == [None] && ConfigurationsOf([none]) == [None] && VariablesOf([none]) == [None];
  }
}
