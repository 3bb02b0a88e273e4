/**
 Text-chat sessions and the workflow runs that own them: revision-checked session
 writes, completion of session and run in one transaction, and run updates that
 merge contexts and logs key by key. Row locks make each transaction one step.
 */
module TextSession {
  import opened Common

  /** A JSON object; only its top-level keys matter here. */
  type Fields = map<string, string>

  datatype RunState = Initialized | Running | Completed

  datatype Backend = S3 | Minio

  datatype WorkflowRun = WorkflowRun(
    initialContext: Fields, gatheredContext: Fields, logs: Fields, annotations: Fields, extra: Fields,
    usageInfo: Fields, costInfo: Fields, recordingUrl: Option<string>, transcriptUrl: Option<string>,
    storageBackend: Backend, state: RunState, isCompleted: bool)

  datatype Session = Session(sessionData: Fields, checkpoint: Fields, revision: nat)

  datatype Db = Db(runs: map<nat, WorkflowRun>, sessions: map<nat, Session>)

  datatype Failure = RunNotFound | SessionNotFound | RevisionConflict(expected: int, actual: int) | DuplicateSession

  /** The arguments of a run update. */
  datatype Patch = Patch(
    initialContext: Option<Fields>, gatheredContext: Option<Fields>, logs: Option<Fields>,
    annotations: Option<Fields>, extra: Option<Fields>, usageInfo: Option<Fields>, costInfo: Option<Fields>,
    recordingUrl: Option<string>, transcriptUrl: Option<string>, storageBackend: Option<Backend>,
    state: Option<RunState>, isCompleted: bool)

  /** The arguments of a completion. */
  datatype Completion = Completion(
    sessionData: Fields, checkpoint: Option<Fields>, usageInfo: Fields, initialContext: Option<Fields>,
    gatheredContext: Fields, logs: Fields, state: RunState)

  // ---------- Transactions as functions ----------

  function OrEmpty(fields: Option<Fields>): Fields {
    if fields.Some? then fields.value else map[]
  }

  predicate Filled(fields: Option<Fields>) {
    fields.Some? && fields.value != map[]
  }

  predicate Given(text: Option<string>) {
    text.Some? && text.value != ""
  }

  function Patched(run: WorkflowRun, p: Patch): WorkflowRun {
    WorkflowRun(
      run.initialContext + OrEmpty(p.initialContext),
      run.gatheredContext + OrEmpty(p.gatheredContext),
      run.logs + OrEmpty(p.logs),
      run.annotations + OrEmpty(p.annotations),
      run.extra + OrEmpty(p.extra),
      if Filled(p.usageInfo) then p.usageInfo.value else run.usageInfo,
      if Filled(p.costInfo) then p.costInfo.value else run.costInfo,
      if Given(p.recordingUrl) then p.recordingUrl else run.recordingUrl,
      if Given(p.transcriptUrl) then p.transcriptUrl else run.transcriptUrl,
      if p.storageBackend.Some? then p.storageBackend.value else run.storageBackend,
      if p.state.Some? then p.state.value else run.state,
      run.isCompleted || p.isCompleted)
  }

  function Finished(run: WorkflowRun, c: Completion): WorkflowRun {
    run.(initialContext := run.initialContext + OrEmpty(c.initialContext),
         gatheredContext := run.gatheredContext + c.gatheredContext,
         logs := run.logs + c.logs, usageInfo := c.usageInfo, state := c.state, isCompleted := true)
  }

  function Written(session: Session, data: Option<Fields>, checkpoint: Option<Fields>): Session {
    Session(if data.Some? then data.value else session.sessionData,
            if checkpoint.Some? then checkpoint.value else session.checkpoint,
            session.revision + 1)
  }

  function GuardFailure(db: Db, id: nat, expected: Option<int>): Option<Failure> {
    if id !in db.sessions then Some(SessionNotFound)
    else if expected.Some? && db.sessions[id].revision != expected.value
    then Some(RevisionConflict(expected.value, db.sessions[id].revision))
    else None
  }

  datatype Call =
    | Ensure(id: nat, data: Option<Fields>, checkpoint: Option<Fields>)
    | UpdateSession(id: nat, data: Option<Fields>, checkpoint: Option<Fields>, expected: Option<int>)
    | CompleteSession(id: nat, completion: Completion, expected: Option<int>)
    | UpdateRun(id: nat, patch: Patch)

  function Apply(db: Db, call: Call): Result<Db, Failure> {
    match call
    case Ensure(id, data, checkpoint) =>
      if id in db.sessions then Ok(db)
      else if id !in db.runs then Err(RunNotFound)
      else Ok(db.(sessions := db.sessions[id := Session(OrEmpty(data), OrEmpty(checkpoint), 0)]))
    case UpdateSession(id, data, checkpoint, expected) =>
      var failure := GuardFailure(db, id, expected);
      if failure.Some? then Err(failure.value)
      else Ok(db.(sessions := db.sessions[id := Written(db.sessions[id], data, checkpoint)]))
    case CompleteSession(id, c, expected) =>
      var failure := GuardFailure(db, id, expected);
      if failure.Some? then Err(failure.value)
      else if id !in db.runs then Err(RunNotFound)
      else
        Ok(Db(db.runs[id := Finished(db.runs[id], c)],
              db.sessions[id := Written(db.sessions[id], Some(c.sessionData), c.checkpoint)]))
    case UpdateRun(id, patch) =>
      if id !in db.runs then Err(RunNotFound)
      else Ok(db.(runs := db.runs[id := Patched(db.runs[id], patch)]))
  }

  function After(db: Db, call: Call): Db {
    if Apply(db, call).Ok? then Apply(db, call).value else db
  }

  /** What a completion makes of a run, field by field. */
  predicate FinishedBy(run: WorkflowRun, c: Completion, finished: WorkflowRun) {
    && finished.isCompleted && finished.state == c.state && finished.usageInfo == c.usageInfo
    && finished.gatheredContext == run.gatheredContext + c.gatheredContext && finished.logs == run.logs + c.logs
    && finished.initialContext
       == (if c.initialContext.Some? then run.initialContext + c.initialContext.value else run.initialContext)
    && finished.annotations == run.annotations && finished.extra == run.extra && finished.costInfo == run.costInfo
    && finished.recordingUrl == run.recordingUrl && finished.transcriptUrl == run.transcriptUrl
    && finished.storageBackend == run.storageBackend
  }

  method FinishRun(run: WorkflowRun, c: Completion) returns (finished: WorkflowRun)
    ensures finished == Finished(run, c) && FinishedBy(run, c, finished)
  {
    finished := run.(usageInfo := c.usageInfo);
    if Filled(c.initialContext) {
      finished := finished.(initialContext := run.initialContext + c.initialContext.value);
    }
    finished := finished.(gatheredContext := run.gatheredContext + c.gatheredContext);
    finished := finished.(logs := run.logs + c.logs);
    finished := finished.(state := c.state, isCompleted := true);
  }

  method Replace(fields: Fields, given: Option<Fields>) returns (replaced: Fields)
    ensures replaced == if Filled(given) then given.value else fields
  {
    replaced := fields;
    if Filled(given) {
      replaced := given.value;
    }
  }

  /** A patch is merged key by key, so independent writers keep each other's keys. */
  method Merge(fields: Fields, patch: Option<Fields>) returns (merged: Fields)
    ensures merged == fields + OrEmpty(patch)
  {
    merged := fields;
    if Filled(patch) {
      merged := fields + patch.value;
    }
  }

  method PatchRow(run: WorkflowRun, p: Patch) returns (patched: WorkflowRun)
    ensures patched == Patched(run, p)
  {
    var recordingUrl, transcriptUrl, storageBackend := run.recordingUrl, run.transcriptUrl, run.storageBackend;
    var state := run.state;
    if Given(p.recordingUrl) {
      recordingUrl := p.recordingUrl;
    }
    if Given(p.transcriptUrl) {
      transcriptUrl := p.transcriptUrl;
    }
    if p.storageBackend.Some? {
      storageBackend := p.storageBackend.value;
    }
    var usageInfo := Replace(run.usageInfo, p.usageInfo);
    var costInfo := Replace(run.costInfo, p.costInfo);
    var initialContext := Merge(run.initialContext, p.initialContext);
    var gatheredContext := Merge(run.gatheredContext, p.gatheredContext);
    var logs := Merge(run.logs, p.logs);
    var annotations := Merge(run.annotations, p.annotations);
    var extra := Merge(run.extra, p.extra);
    var isCompleted := run.isCompleted;
    if p.isCompleted {
      isCompleted := p.isCompleted;
    }
    if p.state.Some? {
      state := p.state.value;
    }
    patched := WorkflowRun(initialContext, gatheredContext, logs, annotations, extra, usageInfo, costInfo,
                       recordingUrl, transcriptUrl, storageBackend, state, isCompleted);
  }

  class DBClient {
    var runs: map<nat, WorkflowRun>
    var sessions: map<nat, Session>

    function State(): Db
      reads this
    {
      Db(runs, sessions)
    }

    /** `racing` is the row another transaction inserts after this one's SELECT,
        which locks a row only when it finds one. */
    method EnsureWorkflowRunTextSession(id: nat, data: Option<Fields>, checkpoint: Option<Fields>,
                                        racing: Option<Session>)
      returns (r: Result<Session, Failure>)
      requires racing.Some? ==> id in runs && id !in sessions
      modifies this
      ensures var found := old(State());
        if racing.Some? then
          r == Err(DuplicateSession) && State() == found.(sessions := found.sessions[id := racing.value])
        else match Apply(found, Ensure(id, data, checkpoint))
          case Ok(after) => State() == after && id in sessions && r == Ok(sessions[id])
          case Err(e) => State() == found && r == Err(e)
      ensures runs == old(runs)
      ensures racing.None? ==> (r == Err(RunNotFound) <==> id !in old(sessions) && id !in runs)
      ensures racing.None? && id in old(sessions) ==> r == Ok(old(sessions)[id]) && sessions == old(sessions)
      ensures racing.None? && id !in old(sessions) && id in runs ==>
        && r.Ok? && sessions == old(sessions)[id := r.value] && r.value.revision == 0
        && r.value.sessionData == (if data.Some? then data.value else map[])
        && r.value.checkpoint == (if checkpoint.Some? then checkpoint.value else map[])
    {
      if id in sessions {
        return Ok(sessions[id]);
      }
      if id !in runs {
        return Err(RunNotFound);
      }
      var textSession := Session(OrEmpty(data), OrEmpty(checkpoint), 0);
      if racing.Some? {
        sessions := sessions[id := racing.value];
        return Err(DuplicateSession);
      }
      sessions := sessions[id := textSession];
      return Ok(textSession);
    }

    method UpdateWorkflowRunTextSession(id: nat, data: Option<Fields>, checkpoint: Option<Fields>,
                                        expected: Option<int>)
      returns (r: Result<Session, Failure>)
      modifies this
      ensures match Apply(old(State()), UpdateSession(id, data, checkpoint, expected))
        case Ok(after) => State() == after && id in sessions && r == Ok(sessions[id])
        case Err(e) => State() == old(State()) && r == Err(e)
      ensures runs == old(runs)
      ensures r == Err(SessionNotFound) <==> id !in old(sessions)
      ensures r.Ok? <==> id in old(sessions) && (expected.Some? ==> expected.value == old(sessions)[id].revision)
      ensures r.Err? && id in old(sessions) ==> r.error == RevisionConflict(expected.value, old(sessions)[id].revision)
      ensures r.Ok? ==>
        && sessions == old(sessions)[id := r.value] && r.value.revision == old(sessions)[id].revision + 1
        && r.value.sessionData == (if data.Some? then data.value else old(sessions)[id].sessionData)
        && r.value.checkpoint == (if checkpoint.Some? then checkpoint.value else old(sessions)[id].checkpoint)
    {
      if id !in sessions {
        return Err(SessionNotFound);
      }
      var textSession := sessions[id];
      if expected.Some? && textSession.revision != expected.value {
        return Err(RevisionConflict(expected.value, textSession.revision));
      }
      if data.Some? {
        textSession := textSession.(sessionData := data.value);
      }
      if checkpoint.Some? {
        textSession := textSession.(checkpoint := checkpoint.value);
      }
      textSession := textSession.(revision := textSession.revision + 1);
      sessions := sessions[id := textSession];
      return Ok(textSession);
    }

    method CompleteWorkflowRunTextSession(id: nat, c: Completion, expected: Option<int>)
      returns (r: Result<Session, Failure>)
      modifies this
      ensures match Apply(old(State()), CompleteSession(id, c, expected))
        case Ok(after) => State() == after && id in sessions && r == Ok(sessions[id])
        case Err(e) => State() == old(State()) && r == Err(e)
      // a completion changes the session and its run together or neither
      ensures sessions == old(sessions) <==> r.Err?
      ensures r.Err? ==> runs == old(runs)
      ensures r == Err(SessionNotFound) <==> id !in old(sessions)
      ensures r.Ok? <==>
        && id in old(sessions) && id in old(runs)
        && (expected.Some? ==> expected.value == old(sessions)[id].revision)
      ensures r.Ok? ==>
        && sessions == old(sessions)[id := r.value] && r.value.revision == old(sessions)[id].revision + 1
        && r.value.sessionData == c.sessionData
        && r.value.checkpoint == (if c.checkpoint.Some? then c.checkpoint.value else old(sessions)[id].checkpoint)
      ensures r.Ok? ==> id in runs && runs == old(runs)[id := runs[id]] && FinishedBy(old(runs)[id], c, runs[id])
    {
      if id !in sessions {
        return Err(SessionNotFound);
      }
      var textSession := sessions[id];
      if expected.Some? && textSession.revision != expected.value {
        return Err(RevisionConflict(expected.value, textSession.revision));
      }
      if id !in runs {
        return Err(RunNotFound);
      }
      var run := runs[id];
      textSession := textSession.(sessionData := c.sessionData);
      if c.checkpoint.Some? {
        textSession := textSession.(checkpoint := c.checkpoint.value);
      }
      textSession := textSession.(revision := textSession.revision + 1);
      run := FinishRun(run, c);
      sessions := sessions[id := textSession];
      runs := runs[id := run];
      return Ok(textSession);
    }

    method UpdateWorkflowRun(id: nat, p: Patch) returns (r: Result<WorkflowRun, Failure>)
      modifies this
      ensures match Apply(old(State()), UpdateRun(id, p))
        case Ok(after) => State() == after && id in runs && r == Ok(runs[id])
        case Err(e) => State() == old(State()) && r == Err(e)
      ensures sessions == old(sessions) && (r == Err(RunNotFound) <==> id !in old(runs))
      ensures r.Ok? ==> runs == old(runs)[id := r.value]
    {
      if id !in runs {
        return Err(RunNotFound);
      }
      var run := runs[id];
      run := PatchRow(run, p);
      runs := runs[id := run];
      return Ok(run);
    }
  }

  // ---------- Any sequence of transactions ----------

  function Final(db: Db, calls: seq<Call>): Db
    decreases |calls|
  {
    if calls == [] then db else After(Final(db, Front(calls)), Last(calls))
  }

  /** The call commits a write to the session of run `id`. */
  predicate CommitsTo(db: Db, call: Call, id: nat) {
    (call.UpdateSession? || call.CompleteSession?) && call.id == id && Apply(db, call).Ok?
  }

  function Commits(db: Db, calls: seq<Call>, id: nat): nat
    decreases |calls|
  {
    if calls == [] then 0
    else Commits(db, Front(calls), id) + if CommitsTo(Final(db, Front(calls)), Last(calls), id) then 1 else 0
  }

  function Revision(db: Db, id: nat): nat {
    if id in db.sessions then db.sessions[id].revision else 0
  }

  /** A session's revision grows by one for each committed write and by nothing else;
      a session no write reached is unchanged. */
  lemma {:induction false} RevisionCountsCommits(db: Db, calls: seq<Call>, id: nat)
    ensures Revision(Final(db, calls), id) == Revision(db, id) + Commits(db, calls, id)
    ensures id in db.sessions ==> id in Final(db, calls).sessions
    ensures id in db.sessions && Commits(db, calls, id) == 0 ==> Final(db, calls).sessions[id] == db.sessions[id]
    decreases |calls|
  {
    if calls != [] {
      RevisionCountsCommits(db, Front(calls), id);
    }
  }

  lemma {:induction false} FinalOfPrefix(db: Db, calls: seq<Call>, k: nat)
    requires k <= |calls|
    ensures Final(db, calls) == Final(Final(db, calls[..k]), calls[k..])
    ensures forall id: nat ::
      Commits(db, calls, id) == Commits(db, calls[..k], id) + Commits(Final(db, calls[..k]), calls[k..], id)
    decreases |calls|
  {
    if k == |calls| {
      assert calls[..k] == calls && calls[k..] == [];
    } else {
      FinalOfPrefix(db, Front(calls), k);
      assert Front(calls)[..k] == calls[..k] && Front(calls)[k..] == Front(calls[k..]);
      assert Last(calls[k..]) == Last(calls);
    }
  }

  ghost predicate GuardedCommit(db: Db, calls: seq<Call>, k: nat, id: nat, revision: int) {
    k < |calls| && CommitsTo(Final(db, calls[..k]), calls[k], id) && calls[k].expected == Some(revision)
  }

  /** Of all writers that expect the same revision, at most one commits. */
  lemma {:induction false} OneWriterPerRevision(db: Db, calls: seq<Call>, i: nat, j: nat, id: nat, revision: int)
    requires GuardedCommit(db, calls, i, id, revision) && GuardedCommit(db, calls, j, id, revision)
    ensures i == j
  {
    if i < j {
      LaterGuardSeesLaterRevision(db, calls, i, j, id, revision);
    } else if j < i {
      LaterGuardSeesLaterRevision(db, calls, j, i, id, revision);
    }
  }

  lemma {:induction false} LaterGuardSeesLaterRevision(db: Db, calls: seq<Call>, i: nat, j: nat, id: nat, revision: int)
    requires i < j < |calls| && GuardedCommit(db, calls, i, id, revision)
    ensures !GuardedCommit(db, calls, j, id, revision)
  {
    var before := Final(db, calls[..i]);
    var after := Final(db, calls[..i + 1]);
    assert Front(calls[..i + 1]) == calls[..i];
    assert Revision(before, id) == revision && Revision(after, id) == revision + 1;
    FinalOfPrefix(db, calls[..j], i + 1);
    assert calls[..j][..i + 1] == calls[..i + 1];
    RevisionCountsCommits(after, calls[..j][i + 1..], id);
  }

  /** Every session belongs to a run. */
  ghost predicate SessionsHaveRuns(db: Db) {
    db.sessions.Keys <= db.runs.Keys
  }

  lemma {:induction false} SessionsKeepRuns(db: Db, calls: seq<Call>)
    requires SessionsHaveRuns(db)
    ensures SessionsHaveRuns(Final(db, calls)) && Final(db, calls).runs.Keys == db.runs.Keys
    decreases |calls|
  {
    if calls != [] {
      SessionsKeepRuns(db, Front(calls));
    }
  }

  /** A writer that guards with the revision it read commits exactly when nobody
      else committed in between, and then over the very session it read; otherwise
      it learns the revision it lost to. */
  lemma GuardedWriterNeverLosesAnUpdate(db: Db, between: seq<Call>, call: Call)
    requires SessionsHaveRuns(db) && (call.UpdateSession? || call.CompleteSession?) && call.id in db.sessions
    requires call.expected == Some(db.sessions[call.id].revision)
    ensures Apply(Final(db, between), call).Ok? <==> Commits(db, between, call.id) == 0
    ensures Apply(Final(db, between), call).Ok? ==> Final(db, between).sessions[call.id] == db.sessions[call.id]
    ensures Apply(Final(db, between), call).Err? ==>
      Apply(Final(db, between), call).error
      == RevisionConflict(call.expected.value, call.expected.value + Commits(db, between, call.id))
  {
    RevisionCountsCommits(db, between, call.id);
    SessionsKeepRuns(db, between);
  }

  // ---------- Run updates as assignments to slots ----------

  datatype Slot =
    | InitialKey(key: string) | GatheredKey(key: string) | LogKey(key: string)
    | AnnotationKey(key: string) | ExtraKey(key: string)
    | UsageInfo | CostInfo | RecordingUrl | TranscriptUrl | StorageBackend | StateSlot

  datatype SlotValue =
    | Text(text: string) | Whole(fields: Fields) | BackendValue(backend: Backend) | StateValue(state: RunState)

  function At(fields: Fields, key: string): Option<SlotValue> {
    if key in fields then Some(Text(fields[key])) else None
  }

  function TextValue(text: Option<string>): Option<SlotValue> {
    if text.Some? then Some(Text(text.value)) else None
  }

  function Read(run: WorkflowRun, slot: Slot): Option<SlotValue> {
    match slot
    case InitialKey(key) => At(run.initialContext, key)
    case GatheredKey(key) => At(run.gatheredContext, key)
    case LogKey(key) => At(run.logs, key)
    case AnnotationKey(key) => At(run.annotations, key)
    case ExtraKey(key) => At(run.extra, key)
    case UsageInfo => Some(Whole(run.usageInfo))
    case CostInfo => Some(Whole(run.costInfo))
    case RecordingUrl => TextValue(run.recordingUrl)
    case TranscriptUrl => TextValue(run.transcriptUrl)
    case StorageBackend => Some(BackendValue(run.storageBackend))
    case StateSlot => Some(StateValue(run.state))
  }

  /** What a patch assigns to a slot, if anything. */
  function Assigned(p: Patch, slot: Slot): Option<SlotValue> {
    match slot
    case InitialKey(key) => AtGiven(p.initialContext, key)
    case GatheredKey(key) => AtGiven(p.gatheredContext, key)
    case LogKey(key) => AtGiven(p.logs, key)
    case AnnotationKey(key) => AtGiven(p.annotations, key)
    case ExtraKey(key) => AtGiven(p.extra, key)
    case UsageInfo => if NotEmpty(p.usageInfo) then Some(Whole(p.usageInfo.value)) else None
    case CostInfo => if NotEmpty(p.costInfo) then Some(Whole(p.costInfo.value)) else None
    case RecordingUrl => if p.recordingUrl in {None, Some("")} then None else Some(Text(p.recordingUrl.value))
    case TranscriptUrl => if p.transcriptUrl in {None, Some("")} then None else Some(Text(p.transcriptUrl.value))
    case StorageBackend => if p.storageBackend.Some? then Some(BackendValue(p.storageBackend.value)) else None
    case StateSlot => if p.state.Some? then Some(StateValue(p.state.value)) else None
  }

  predicate NotEmpty(given: Option<Fields>) {
    given.Some? && given.value != map[]
  }

  /** The text a given object has at `key`, if it has one. */
  function AtGiven(given: Option<Fields>, key: string): Option<SlotValue> {
    if given.Some? && key in given.value then Some(Text(given.value[key])) else None
  }

  lemma PatchAssignsSlots(run: WorkflowRun, p: Patch, slot: Slot)
    ensures Read(Patched(run, p), slot)
            == if Assigned(p, slot).Some? then Assigned(p, slot) else Read(run, slot)
  {
  }

  lemma SameFields(a: Fields, b: Fields)
    requires forall key :: At(a, key) == At(b, key)
    ensures a == b
  {
    forall key ensures key in a <==> key in b && (key in a ==> a[key] == b[key]) {
      assert At(a, key) == At(b, key);
    }
    forall key | key in a ensures key in b && a[key] == b[key] {
      assert At(a, key) == At(b, key);
    }
  }

  /** The slots and the completion flag are all there is to a run. */
  lemma SlotsDetermineRun(a: WorkflowRun, b: WorkflowRun)
    requires a.isCompleted == b.isCompleted && forall slot :: Read(a, slot) == Read(b, slot)
    ensures a == b
  {
    forall key
      ensures At(a.initialContext, key) == At(b.initialContext, key)
      ensures At(a.gatheredContext, key) == At(b.gatheredContext, key)
      ensures At(a.logs, key) == At(b.logs, key)
      ensures At(a.annotations, key) == At(b.annotations, key)
      ensures At(a.extra, key) == At(b.extra, key)
    {
      assert Read(a, InitialKey(key)) == Read(b, InitialKey(key));
      assert Read(a, GatheredKey(key)) == Read(b, GatheredKey(key));
      assert Read(a, LogKey(key)) == Read(b, LogKey(key));
      assert Read(a, AnnotationKey(key)) == Read(b, AnnotationKey(key));
      assert Read(a, ExtraKey(key)) == Read(b, ExtraKey(key));
    }
    SameFields(a.initialContext, b.initialContext);
    SameFields(a.gatheredContext, b.gatheredContext);
    SameFields(a.logs, b.logs);
    SameFields(a.annotations, b.annotations);
    SameFields(a.extra, b.extra);
    assert Read(a, UsageInfo) == Read(b, UsageInfo) && Read(a, CostInfo) == Read(b, CostInfo);
    assert Read(a, RecordingUrl) == Read(b, RecordingUrl) && Read(a, TranscriptUrl) == Read(b, TranscriptUrl);
    assert Read(a, StorageBackend) == Read(b, StorageBackend) && Read(a, StateSlot) == Read(b, StateSlot);
  }

  function PatchedAll(run: WorkflowRun, patches: seq<Patch>): WorkflowRun
    decreases |patches|
  {
    if patches == [] then run else Patched(PatchedAll(run, Front(patches)), Last(patches))
  }

  /** The patches assign the same value wherever two of them touch one slot; patches
      without a slot in common agree trivially. */
  ghost predicate Agree(patches: seq<Patch>) {
    forall p, q, slot :: p in patches && q in patches && Assigned(p, slot).Some? && Assigned(q, slot).Some? ==>
      Assigned(p, slot) == Assigned(q, slot)
  }

  lemma {:induction false} AgreeingPatchesAssign(run: WorkflowRun, patches: seq<Patch>, slot: Slot)
    requires Agree(patches)
    ensures forall p :: p in patches && Assigned(p, slot).Some? ==>
      Read(PatchedAll(run, patches), slot) == Assigned(p, slot)
    ensures (forall p :: p in patches ==> Assigned(p, slot).None?) ==>
      Read(PatchedAll(run, patches), slot) == Read(run, slot)
    decreases |patches|
  {
    if patches != [] {
      AgreeingPatchesAssign(run, Front(patches), slot);
      PatchAssignsSlots(PatchedAll(run, Front(patches)), Last(patches), slot);
      assert forall p :: p in patches <==> p in Front(patches) || p == Last(patches);
    }
  }

  lemma {:induction false} CompletedByAnyPatch(run: WorkflowRun, patches: seq<Patch>)
    ensures PatchedAll(run, patches).isCompleted <==> run.isCompleted || exists p :: p in patches && p.isCompleted
    decreases |patches|
  {
    if patches != [] {
      CompletedByAnyPatch(run, Front(patches));
      assert forall p :: p in patches <==> p in Front(patches) || p == Last(patches);
    }
  }

  /** Patches that agree, key-disjoint ones among them, may be applied in any order. */
  lemma PatchOrderDoesNotMatter(run: WorkflowRun, patches: seq<Patch>, reordered: seq<Patch>)
    requires Agree(patches) && forall p :: p in patches <==> p in reordered
    ensures PatchedAll(run, patches) == PatchedAll(run, reordered)
  {
    forall slot ensures Read(PatchedAll(run, patches), slot) == Read(PatchedAll(run, reordered), slot) {
      AgreeingPatchesAssign(run, patches, slot);
      AgreeingPatchesAssign(run, reordered, slot);
      if p :| p in patches && Assigned(p, slot).Some? {
        assert p in reordered;
      }
    }
    CompletedByAnyPatch(run, patches);
    CompletedByAnyPatch(run, reordered);
    SlotsDetermineRun(PatchedAll(run, patches), PatchedAll(run, reordered));
  }

  lemma TwoPatches(run: WorkflowRun, p: Patch, q: Patch)
    ensures PatchedAll(run, [p, q]) == Patched(Patched(run, p), q)
  {
    assert Front([p, q]) == [p] && Front([p]) == [];
    assert PatchedAll(run, [p]) == Patched(run, p);
  }

  /** For two patches agreement is also necessary. */
  lemma TwoPatchesCommuteExactlyWhenTheyAgree(run: WorkflowRun, p: Patch, q: Patch)
    ensures Patched(Patched(run, p), q) == Patched(Patched(run, q), p) <==> Agree([p, q])
  {
    if Agree([p, q]) {
      PatchOrderDoesNotMatter(run, [p, q], [q, p]);
      TwoPatches(run, p, q);
      TwoPatches(run, q, p);
    } else {
      var a, b, slot :| a in [p, q] && b in [p, q] && Assigned(a, slot).Some? && Assigned(b, slot).Some?
        && Assigned(a, slot) != Assigned(b, slot);
      DisagreementShows(run, p, q, slot);
    }
  }

  lemma DisagreementShows(run: WorkflowRun, p: Patch, q: Patch, slot: Slot)
    requires Assigned(p, slot).Some? && Assigned(q, slot).Some? && Assigned(p, slot) != Assigned(q, slot)
    ensures Patched(Patched(run, p), q) != Patched(Patched(run, q), p)
  {
    PatchAssignsSlots(Patched(run, p), q, slot);
    PatchAssignsSlots(Patched(run, q), p, slot);
  }

  // ---------- What no transaction takes back ----------

  /** `later` has every key of `run`, and is completed if `run` was. */
  predicate Grows(run: WorkflowRun, later: WorkflowRun) {
    && run.initialContext.Keys <= later.initialContext.Keys
    && run.gatheredContext.Keys <= later.gatheredContext.Keys
    && run.logs.Keys <= later.logs.Keys
    && run.annotations.Keys <= later.annotations.Keys
    && run.extra.Keys <= later.extra.Keys
    && (run.isCompleted ==> later.isCompleted)
  }

  /** Over any transactions no context, log, annotation or extra key disappears and
      a completed run stays completed. */
  lemma {:induction false} RunsOnlyGrow(db: Db, calls: seq<Call>, id: nat)
    requires id in db.runs
    ensures id in Final(db, calls).runs && Grows(db.runs[id], Final(db, calls).runs[id])
    decreases |calls|
  {
    if calls != [] {
      RunsOnlyGrow(db, Front(calls), id);
    }
  }

  /** What a transaction assigns to a slot of run `id`, if anything. */
  function AssignedBy(db: Db, call: Call, id: nat, slot: Slot): Option<SlotValue> {
    if call.id != id || Apply(db, call).Err? then None
    else match call
      case UpdateRun(_, patch) => Assigned(patch, slot)
      case CompleteSession(_, c, _) =>
        (match slot
         case InitialKey(key) => AtGiven(c.initialContext, key)
         case GatheredKey(key) => At(c.gatheredContext, key)
         case LogKey(key) => At(c.logs, key)
         case UsageInfo => Some(Whole(c.usageInfo))
         case StateSlot => Some(StateValue(c.state))
         case _ => None)
      case _ => None
  }

  /** The last assignment to a slot in a sequence of transactions. */
  function LastAssigned(db: Db, calls: seq<Call>, id: nat, slot: Slot): Option<SlotValue>
    decreases |calls|
  {
    if calls == [] then None
    else
      var last := AssignedBy(Final(db, Front(calls)), Last(calls), id, slot);
      if last.Some? then last else LastAssigned(db, Front(calls), id, slot)
  }

  /** Every key and column of a run holds what the last committed transaction that
      named it wrote, or its first value if none did. */
  lemma {:induction false} LastWriterWinsPerSlot(db: Db, calls: seq<Call>, id: nat, slot: Slot)
    requires id in db.runs
    ensures id in Final(db, calls).runs
    ensures Read(Final(db, calls).runs[id], slot)
            == if LastAssigned(db, calls, id, slot).Some? then LastAssigned(db, calls, id, slot)
               else Read(db.runs[id], slot)
    decreases |calls|
  {
    if calls != [] {
      LastWriterWinsPerSlot(db, Front(calls), id, slot);
      CallAssignsSlots(Final(db, Front(calls)), Last(calls), id, slot);
    }
  }

  lemma CallAssignsSlots(db: Db, call: Call, id: nat, slot: Slot)
    requires id in db.runs
    ensures id in After(db, call).runs
    ensures Read(After(db, call).runs[id], slot)
            == if AssignedBy(db, call, id, slot).Some? then AssignedBy(db, call, id, slot) else Read(db.runs[id], slot)
  {
    if call.id == id && call.UpdateRun? {
      PatchAssignsSlots(db.runs[id], call.patch, slot);
    }
  }

  /** The call commits and completes run `id`. */
  predicate Completes(db: Db, call: Call, id: nat) {
    call.id == id && Apply(db, call).Ok? && (call.CompleteSession? || (call.UpdateRun? && call.patch.isCompleted))
  }

  predicate AnyCompletes(db: Db, calls: seq<Call>, id: nat)
    decreases |calls|
  {
    calls != []
    && (AnyCompletes(db, Front(calls), id) || Completes(Final(db, Front(calls)), Last(calls), id))
  }

  /** A run is completed exactly if it was, or some committed transaction completed it. */
  lemma {:induction false} CompletedExactlyByTransactions(db: Db, calls: seq<Call>, id: nat)
    requires id in db.runs
    ensures id in Final(db, calls).runs
    ensures Final(db, calls).runs[id].isCompleted <==> db.runs[id].isCompleted || AnyCompletes(db, calls, id)
    decreases |calls|
  {
    if calls != [] {
      CompletedExactlyByTransactions(db, Front(calls), id);
    }
  }

  // ---------- What sessions hold ----------

  datatype Part = Data | Checkpoint

  function ReadPart(session: Session, part: Part): Fields {
    match part
    case Data => session.sessionData
    case Checkpoint => session.checkpoint
  }

  /** What a committed call gives for a part of session `id`: a creation gives both,
      a completion the data, and either may give the checkpoint or leave it. */
  function GivenPart(db: Db, call: Call, id: nat, part: Part): Option<Fields> {
    if call.id != id || Apply(db, call).Err? then None
    else match call
      case Ensure(_, data, checkpoint) =>
        if id in db.sessions then None
        else
          (match part
           case Data => if data.Some? then data else Some(map[])
           case Checkpoint => if checkpoint.Some? then checkpoint else Some(map[]))
      case UpdateSession(_, data, checkpoint, _) => (match part case Data => data case Checkpoint => checkpoint)
      case CompleteSession(_, c, _) => (match part case Data => Some(c.sessionData) case Checkpoint => c.checkpoint)
      case UpdateRun(_, _) => None
  }

  function LastGiven(db: Db, calls: seq<Call>, id: nat, part: Part): Option<Fields>
    decreases |calls|
  {
    if calls == [] then None
    else
      var last := GivenPart(Final(db, Front(calls)), Last(calls), id, part);
      if last.Some? then last else LastGiven(db, Front(calls), id, part)
  }

  /** Over any transactions the data and the checkpoint of a session are each the last
      ones that a committed transaction gave, or else what they were at the start. */
  lemma {:induction false} LastWriterWinsInSession(db: Db, calls: seq<Call>, id: nat, part: Part)
    ensures id in Final(db, calls).sessions <==> id in db.sessions || LastGiven(db, calls, id, part).Some?
    ensures id in Final(db, calls).sessions && LastGiven(db, calls, id, part).None? ==> id in db.sessions
    ensures id in Final(db, calls).sessions ==>
      ReadPart(Final(db, calls).sessions[id], part)
      == if LastGiven(db, calls, id, part).Some? then LastGiven(db, calls, id, part).value
         else ReadPart(db.sessions[id], part)
    decreases |calls|
  {
    if calls != [] {
      LastWriterWinsInSession(db, Front(calls), id, part);
    }
  }
}
