/**
 Optimistic concurrency on organization configurations: read a snapshot, derive
 a new document from it, save it guarded by the snapshot's existence and
 `updated_at`. A first insert has no row to lock, so losing that race only shows
 as the unique constraint at commit.
 */
module ConfigurationUpsert {
  import opened Common

  datatype Key = Key(organizationId: int, name: string)

  datatype Document<V> = Document(value: V, updatedAt: int, lastValidatedAt: Option<int>)

  datatype UpsertError = RemovedOrReplaced | CreatedConcurrently | ChangedConcurrently | UniqueViolation

  /** The three guard checks, in the order they are made on the selected row. */
  function GuardError<V>(row: Option<Document<V>>, expectedUpdatedAt: Option<int>,
                         expectedExists: Option<bool>): Option<UpsertError>
  {
    if expectedExists == Some(true) && row.None? then Some(RemovedOrReplaced)
    else if expectedExists == Some(false) && row.Some? then Some(CreatedConcurrently)
    else if expectedUpdatedAt.Some? && (row.None? || row.value.updatedAt != expectedUpdatedAt.value)
    then Some(ChangedConcurrently)
    else None
  }

  class OrganizationConfigurationClient<V> {
    var rows: map<Key, Document<V>>

    function Lookup(key: Key): Option<Document<V>>
      reads this
    {
      if key in rows then Some(rows[key]) else None
    }

    /** `racing` is the first insert of the same key that another session commits
        after this transaction's SELECT found nothing; a row found by the SELECT
        is locked, so then no such insert can exist. */
    method UpsertConfiguration(key: Key, value: V, now: int, lastValidatedAt: Option<int>,
                               expectedUpdatedAt: Option<int>, expectedExists: Option<bool>,
                               racing: Option<Document<V>>)
      returns (r: Result<Document<V>, UpsertError>)
      requires racing.Some? ==> key !in rows
      modifies this
      ensures r.Ok? <==>
        && racing.None?
        && (expectedExists == Some(true) ==> key in old(rows))
        && (expectedExists == Some(false) ==> key !in old(rows))
        && (expectedUpdatedAt.Some? ==>
              key in old(rows) && old(rows)[key].updatedAt == expectedUpdatedAt.value)
      ensures r.Ok? ==> r.value == Document(value, now, lastValidatedAt) && rows == old(rows)[key := r.value]
      ensures r.Err? ==> rows == if racing.Some? then old(rows)[key := racing.value] else old(rows)
      ensures var guard := GuardError(old(Lookup(key)), expectedUpdatedAt, expectedExists);
        r.Err? ==> r.error == if guard.Some? then guard.value
                              else if expectedExists.Some? || expectedUpdatedAt.Some? then CreatedConcurrently
                              else UniqueViolation
      ensures r == Err(RemovedOrReplaced) <==> key !in old(rows) && expectedExists == Some(true)
      ensures r == Err(ChangedConcurrently) <==>
        expectedUpdatedAt.Some?
        && if key in old(rows) then
             expectedExists != Some(false) && old(rows)[key].updatedAt != expectedUpdatedAt.value
           else expectedExists != Some(true)
      ensures r == Err(CreatedConcurrently) <==>
        if key in old(rows) then expectedExists == Some(false)
        else racing.Some? && expectedUpdatedAt.None? && expectedExists.Some? && !expectedExists.value
      ensures r == Err(UniqueViolation) <==> racing.Some? && expectedUpdatedAt.None? && expectedExists.None?
    {
      var config := Lookup(key);
      if racing.Some? {
        rows := rows[key := racing.value];
      }
      if expectedExists == Some(true) && config.None? {
        return Err(RemovedOrReplaced);
      }
      if expectedExists == Some(false) && config.Some? {
        return Err(CreatedConcurrently);
      }
      if expectedUpdatedAt.Some? && (config.None? || config.value.updatedAt != expectedUpdatedAt.value) {
        return Err(ChangedConcurrently);
      }
      if config.None? && key in rows {
        return Err(if expectedExists.Some? || expectedUpdatedAt.Some?
                   then CreatedConcurrently else UniqueViolation);
      }
      rows := rows[key := Document(value, now, lastValidatedAt)];
      return Ok(rows[key]);
    }
  }

  // ---------- Concurrent read-derive-save attempts on one key ----------

  type Change<!V> = Option<V> -> V

  datatype Phase<V> =
    | Read                                 // holds its snapshot
    | Opened(now: int)                     // transaction began, clock read
    | Selected(now: int, locked: bool)     // guard passed; row locked if it existed
    | Committed
    | Rejected

  datatype Attempt<!V> = Attempt(change: Change<V>, snapshot: Option<Document<V>>, phase: Phase<V>)

  datatype System<!V> = System(
    row: Option<Document<V>>,
    lock: Option<nat>,
    stamps: set<int>,                      // write timestamps drawn so far
    attempts: map<nat, Attempt<V>>,
    log: seq<Change<V>>)                   // committed changes, in commit order

  datatype Event<!V> =
    | Begin(id: nat, change: Change<V>)
    | Open(id: nat, now: int)
    | Select(id: nat)
    | Commit(id: nat)

  ghost predicate Enabled<V>(s: System<V>, e: Event<V>) {
    match e
    case Begin(id, _) => id !in s.attempts
    case Open(id, _) => id in s.attempts && s.attempts[id].phase == Read
    case Select(id) => id in s.attempts && s.attempts[id].phase.Opened? && (s.row.Some? ==> s.lock.None?)
    case Commit(id) => id in s.attempts && s.attempts[id].phase.Selected?
  }

  ghost function SetPhase<V>(s: System<V>, id: nat, phase: Phase<V>): System<V>
    requires id in s.attempts
  {
    s.(attempts := s.attempts[id := s.attempts[id].(phase := phase)])
  }

  ghost function Next<V>(s: System<V>, e: Event<V>): System<V>
    requires Enabled(s, e)
  {
    match e
    case Begin(id, change) => s.(attempts := s.attempts[id := Attempt(change, s.row, Read)])
    case Open(id, now) => SetPhase(s, id, Opened(now)).(stamps := s.stamps + {now})
    case Select(id) =>
      var a := s.attempts[id];
      var expectedUpdatedAt := if a.snapshot.Some? then Some(a.snapshot.value.updatedAt) else None;
      if GuardError(s.row, expectedUpdatedAt, Some(a.snapshot.Some?)).Some? then SetPhase(s, id, Rejected)
      else
        SetPhase(s, id, Selected(a.phase.now, s.row.Some?))
          .(lock := if s.row.Some? then Some(id) else s.lock)
    case Commit(id) =>
      var a := s.attempts[id];
      if !a.phase.locked && s.row.Some? then SetPhase(s, id, Rejected)  // unique constraint
      else
        var derived := a.change(if a.snapshot.Some? then Some(a.snapshot.value.value) else None);
        SetPhase(s, id, Committed)
          .(row := Some(Document(derived, a.phase.now, Some(a.phase.now))),
            lock := if a.phase.locked then None else s.lock,
            log := s.log + [a.change])
  }

  /** The write timestamp drawn is new. */
  ghost predicate DrawsFreshStamp<V>(s: System<V>, e: Event<V>) {
    e.Open? ==> e.now !in s.stamps
  }

  ghost function Run<V>(s: System<V>, es: seq<Event<V>>): Option<System<V>>
    decreases |es|
  {
    if es == [] then Some(s)
    else match Run(s, Front(es))
      case None => None
      case Some(before) => if Enabled(before, Last(es)) then Some(Next(before, Last(es))) else None
  }

  ghost predicate AllStampsFresh<V>(s: System<V>, es: seq<Event<V>>)
    requires Run(s, es).Some?
    decreases |es|
  {
    es == [] || (AllStampsFresh(s, Front(es)) && DrawsFreshStamp(Run(s, Front(es)).value, Last(es)))
  }

  /** No attempt has begun; the key may or may not have a row. */
  ghost predicate Initial<V>(s: System<V>) {
    s.attempts == map[] && s.lock.None? && s.log == []
    && (s.row.Some? ==> s.row.value.updatedAt in s.stamps)
  }

  ghost function Value<V>(row: Option<Document<V>>): Option<V> {
    if row.Some? then Some(row.value.value) else None
  }

  /** Applying changes one after another. */
  ghost function Fold<V>(start: Option<V>, log: seq<Change<V>>): Option<V>
    decreases |log|
  {
    if log == [] then start else Some(Last(log)(Fold(start, Front(log))))
  }

  predicate InTransaction<V>(a: Attempt<V>) {
    a.phase.Opened? || a.phase.Selected?
  }

  /** A snapshot that shows the stored timestamp is the stored row. */
  ghost predicate SnapshotKnown<V>(s: System<V>, a: Attempt<V>) {
    a.snapshot.Some? ==>
      s.row.Some? && a.snapshot.value.updatedAt in s.stamps
      && (a.snapshot.value.updatedAt == s.row.value.updatedAt ==> a.snapshot == s.row)
  }

  /** A timestamp not written yet is nowhere in the row, a snapshot or another
      open transaction. */
  ghost predicate StampUnused<V>(s: System<V>, id: nat)
    requires id in s.attempts
  {
    InTransaction(s.attempts[id]) ==>
      var now := s.attempts[id].phase.now;
      && now in s.stamps
      && (s.row.Some? ==> now != s.row.value.updatedAt)
      && (forall other :: other in s.attempts && s.attempts[other].snapshot.Some? ==>
            now != s.attempts[other].snapshot.value.updatedAt)
      && (forall other :: other in s.attempts && other != id && InTransaction(s.attempts[other]) ==>
            now != s.attempts[other].phase.now)
  }

  /** Past the guard, a locked row is the snapshot's, and no lock means no snapshot. */
  ghost predicate SelectionCurrent<V>(s: System<V>, id: nat)
    requires id in s.attempts
  {
    var a := s.attempts[id];
    a.phase.Selected? ==>
      if a.phase.locked then
        s.lock == Some(id) && s.row.Some? && a.snapshot.Some?
        && a.snapshot.value.updatedAt == s.row.value.updatedAt
      else a.snapshot.None?
  }

  ghost predicate Inv<V>(s: System<V>, start: Option<V>) {
    && Value(s.row) == Fold(start, s.log)
    && (s.row.Some? ==> s.row.value.updatedAt in s.stamps)
    && (forall id :: id in s.attempts ==> SnapshotKnown(s, s.attempts[id]))
    && (forall id :: id in s.attempts ==> StampUnused(s, id))
    && (forall id :: id in s.attempts ==> SelectionCurrent(s, id))
  }

  lemma BeginKeepsInvariant<V>(s: System<V>, e: Event<V>, start: Option<V>)
    requires Inv(s, start) && Enabled(s, e) && e.Begin?
    ensures Inv(Next(s, e), start)
  {
    var s' := Next(s, e);
    forall id | id in s'.attempts ensures StampUnused(s', id) {
      assert id != e.id ==> StampUnused(s, id);
    }
    forall id | id in s'.attempts ensures SelectionCurrent(s', id) {
      assert id != e.id ==> SelectionCurrent(s, id);
    }
  }

  lemma OpenKeepsInvariant<V>(s: System<V>, e: Event<V>, start: Option<V>)
    requires Inv(s, start) && Enabled(s, e) && e.Open? && DrawsFreshStamp(s, e)
    ensures Inv(Next(s, e), start)
  {
    var s' := Next(s, e);
    forall id | id in s'.attempts ensures SnapshotKnown(s', s'.attempts[id]) {
      assert SnapshotKnown(s, s.attempts[id]);
    }
    forall id | id in s'.attempts ensures StampUnused(s', id) {
      assert StampUnused(s, id);
      assert forall other :: other in s.attempts ==> SnapshotKnown(s, s.attempts[other]);
      assert forall other :: other in s.attempts ==> StampUnused(s, other);
    }
    forall id | id in s'.attempts ensures SelectionCurrent(s', id) {
      assert SelectionCurrent(s, id);
    }
  }

  lemma SelectKeepsInvariant<V>(s: System<V>, e: Event<V>, start: Option<V>)
    requires Inv(s, start) && Enabled(s, e) && e.Select?
    ensures Inv(Next(s, e), start)
  {
    var s' := Next(s, e);
    forall id | id in s'.attempts ensures SnapshotKnown(s', s'.attempts[id]) {
      assert SnapshotKnown(s, s.attempts[id]);
    }
    forall id | id in s'.attempts ensures StampUnused(s', id) {
      assert StampUnused(s, id);
    }
    forall id | id in s'.attempts ensures SelectionCurrent(s', id) {
      assert SelectionCurrent(s, id);
    }
  }

  lemma CommitKeepsInvariant<V>(s: System<V>, e: Event<V>, start: Option<V>)
    requires Inv(s, start) && Enabled(s, e) && e.Commit?
    ensures Inv(Next(s, e), start)
  {
    var s', a := Next(s, e), s.attempts[e.id];
    assert SnapshotKnown(s, a) && StampUnused(s, e.id) && SelectionCurrent(s, e.id);
    if s'.log != s.log {
      assert Front(s'.log) == s.log;
      assert Value(a.snapshot) == Value(s.row);
    }
    forall id | id in s'.attempts ensures SnapshotKnown(s', s'.attempts[id]) {
      assert SnapshotKnown(s, s.attempts[id]);
    }
    forall id | id in s'.attempts ensures StampUnused(s', id) {
      assert StampUnused(s, id);
    }
    forall id | id in s'.attempts ensures SelectionCurrent(s', id) {
      assert SelectionCurrent(s, id);
    }
  }

  lemma StepKeepsInvariant<V>(s: System<V>, e: Event<V>, start: Option<V>)
    requires Inv(s, start) && Enabled(s, e) && DrawsFreshStamp(s, e)
    ensures Inv(Next(s, e), start)
  {
    match e
    case Begin(_, _) => BeginKeepsInvariant(s, e, start);
    case Open(_, _) => OpenKeepsInvariant(s, e, start);
    case Select(_) => SelectKeepsInvariant(s, e, start);
    case Commit(_) => CommitKeepsInvariant(s, e, start);
  }

  lemma {:induction false} RunKeepsInvariant<V>(s: System<V>, es: seq<Event<V>>)
    requires Initial(s) && Run(s, es).Some? && AllStampsFresh(s, es)
    ensures Inv(Run(s, es).value, Value(s.row))
    decreases |es|
  {
    if es != [] {
      RunKeepsInvariant(s, Front(es));
      StepKeepsInvariant(Run(s, Front(es)).value, Last(es), Value(s.row));
    }
  }

  /** However the attempts interleave, the stored value is the fold of the
      committed changes in commit order: no update is lost. */
  lemma StoredValueIsFoldOfCommits<V>(s: System<V>, es: seq<Event<V>>)
    requires Initial(s) && Run(s, es).Some? && AllStampsFresh(s, es)
    ensures Value(Run(s, es).value.row) == Fold(Value(s.row), Run(s, es).value.log)
  {
    RunKeepsInvariant(s, es);
  }

  /** The guard lets an attempt through exactly when its whole snapshot is still
      the stored row, absence included. */
  lemma GuardPassesExactlyOnCurrentSnapshot<V>(s: System<V>, es: seq<Event<V>>, id: nat)
    requires Initial(s) && Run(s, es).Some? && AllStampsFresh(s, es)
    requires Enabled(Run(s, es).value, Select(id))
    ensures var now := Run(s, es).value;
      Next(now, Select(id)).attempts[id].phase.Selected? <==> now.attempts[id].snapshot == now.row
  {
    RunKeepsInvariant(s, es);
    assert SnapshotKnown(Run(s, es).value, Run(s, es).value.attempts[id]);
  }

  ghost function CommittedIds<V>(s: System<V>): set<nat> {
    set id | id in s.attempts && s.attempts[id].phase == Committed
  }

  /** An event either commits one attempt, logging its change, or leaves the row
      and the log alone. */
  lemma OnlyCommitsWrite<V>(s: System<V>, e: Event<V>)
    requires Enabled(s, e)
    ensures Next(s, e).log == s.log ==> Next(s, e).row == s.row && CommittedIds(Next(s, e)) == CommittedIds(s)
    ensures Next(s, e).log != s.log ==>
      && e.Commit? && e.id !in CommittedIds(s)
      && CommittedIds(Next(s, e)) == CommittedIds(s) + {e.id}
      && Next(s, e).log == s.log + [s.attempts[e.id].change]
  {
  }

  /** A rejected attempt leaves no trace: the log has one entry per committed attempt. */
  lemma {:induction false} OneLogEntryPerCommit<V>(s: System<V>, es: seq<Event<V>>)
    requires Initial(s) && Run(s, es).Some?
    ensures |Run(s, es).value.log| == |CommittedIds(Run(s, es).value)|
    decreases |es|
  {
    if es != [] {
      OneLogEntryPerCommit(s, Front(es));
      OnlyCommitsWrite(Run(s, Front(es)).value, Last(es));
    }
  }

  lemma ExtendRun<V>(s: System<V>, es: seq<Event<V>>, e: Event<V>)
    requires Run(s, es).Some? && Enabled(Run(s, es).value, e)
    ensures Run(s, es + [e]) == Some(Next(Run(s, es).value, e))
  {
    assert Front(es + [e]) == es;
  }

  /** Freshness is needed: a writer that draws the timestamp already stored hides
      its update from an attempt holding the earlier snapshot, which overwrites it. */
  lemma ReusedTimestampLosesAnUpdate() returns (s: System<int>, es: seq<Event<int>>)
    ensures Initial(s) && Run(s, es).Some?
    ensures Value(Run(s, es).value.row) != Fold(Value(s.row), Run(s, es).value.log)
  {
    var addTen: Change<int> := (v: Option<int>) => if v.Some? then v.value + 10 else 0;
    var addOne: Change<int> := (v: Option<int>) => if v.Some? then v.value + 1 else 0;
    var stored := Document(0, 7, None);
    s := System(Some(stored), None, {7}, map[], []);
    var hidden := Attempt(addOne, Some(stored), Read);
    es := Then(s, [], Begin(1, addOne), s.(attempts := map[1 := hidden]));
    es := SaveAlone(s, es, 0, addTen, 7, s.(attempts := map[1 := hidden]));
    es := SaveOpened(s, es, 1, 9, Run(s, es).value);
    FoldOfTwo(Value(s.row), addTen, addOne);
  }

  lemma FoldOfTwo<V>(start: Option<V>, f: Change<V>, g: Change<V>)
    ensures Fold(start, [] + [f] + [g]) == Some(g(Some(f(start))))
  {
    assert Front([f, g]) == [f] && Front([f]) == [];
    assert Fold(start, [f]) == Some(f(start));
  }

  /** An undisturbed attempt on an unlocked row, from snapshot to commit. */
  lemma SaveAlone(s: System<int>, es: seq<Event<int>>, id: nat, change: Change<int>, now: int, at: System<int>)
    returns (es': seq<Event<int>>)
    requires Run(s, es) == Some(at) && at.row.Some? && at.lock.None? && id !in at.attempts
    ensures Run(s, es') == Some(System(
      Some(Document(change(Some(at.row.value.value)), now, Some(now))), None, at.stamps + {now},
      at.attempts[id := Attempt(change, at.row, Committed)], at.log + [change]))
  {
    var next := at.(attempts := at.attempts[id := Attempt(change, at.row, Read)]);
    es' := Then(s, es, Begin(id, change), next);
    es' := SaveOpened(s, es', id, now, next);
    assert next.attempts[id := Attempt(change, at.row, Committed)]
           == at.attempts[id := Attempt(change, at.row, Committed)];
  }

  /** The rest of an attempt whose snapshot still passes the guard. */
  lemma SaveOpened(s: System<int>, es: seq<Event<int>>, id: nat, now: int, at: System<int>)
    returns (es': seq<Event<int>>)
    requires Run(s, es) == Some(at) && at.row.Some? && at.lock.None?
    requires id in at.attempts && at.attempts[id].phase == Read && at.attempts[id].snapshot.Some?
    requires at.attempts[id].snapshot.value.updatedAt == at.row.value.updatedAt
    ensures var a := at.attempts[id];
      Run(s, es') == Some(System(
        Some(Document(a.change(Some(a.snapshot.value.value)), now, Some(now))), None, at.stamps + {now},
        at.attempts[id := a.(phase := Committed)], at.log + [a.change]))
  {
    var a := at.attempts[id];
    var begun := at.(attempts := at.attempts[id := a.(phase := Opened(now))], stamps := at.stamps + {now});
    es' := Then(s, es, Open(id, now), begun);
    var selected := begun.(attempts := at.attempts[id := a.(phase := Selected(now, true))], lock := Some(id));
    assert begun.attempts[id := a.(phase := Selected(now, true))] == selected.attempts;
    es' := Then(s, es', Select(id), selected);
    var committed := System(
      Some(Document(a.change(Some(a.snapshot.value.value)), now, Some(now))), None, at.stamps + {now},
      at.attempts[id := a.(phase := Committed)], at.log + [a.change]);
    assert selected.attempts[id := a.(phase := Committed)] == committed.attempts;
    es' := Then(s, es', Commit(id), committed);
  }

  lemma Then<V>(s: System<V>, es: seq<Event<V>>, e: Event<V>, next: System<V>) returns (es': seq<Event<V>>)
    requires Run(s, es).Some? && Enabled(Run(s, es).value, e) && Next(Run(s, es).value, e) == next
    ensures es' == es + [e] && Run(s, es') == Some(next)
  {
    es' := es + [e];
    ExtendRun(s, es, e);
  }
}
