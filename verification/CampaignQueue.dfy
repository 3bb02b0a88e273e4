/**
 Claiming queued runs of a campaign with FOR UPDATE SKIP LOCKED: due retries
 first, earliest first, then unscheduled runs in any order, all marked as
 processing when the transaction commits.
 */
module CampaignQueue {
  import opened Common
  import opened Queries

  datatype RunState = Queued | Processing | Processed | Failed

  datatype QueuedRun = QueuedRun(campaignId: int, state: RunState, scheduledFor: Option<int>, hasWorkflowRun: bool)

  type Rows = map<nat, QueuedRun>

  // ---------- The two selects ----------

  predicate DueRetry(rows: Rows, id: nat, campaignId: int, cutoff: int) {
    id in rows && rows[id].campaignId == campaignId && rows[id].state == Queued
    && rows[id].scheduledFor.Some? && rows[id].scheduledFor.value <= cutoff
  }

  predicate Unscheduled(rows: Rows, id: nat, campaignId: int) {
    id in rows && rows[id].campaignId == campaignId && rows[id].state == Queued && rows[id].scheduledFor.None?
  }

  predicate NotLater(rows: Rows, a: nat, b: nat) {
    a in rows && b in rows && rows[a].scheduledFor.Some? && rows[b].scheduledFor.Some?
    && rows[a].scheduledFor.value <= rows[b].scheduledFor.value
  }

  lemma RegularSelectionTakesAll(rows: Rows, locked: set<nat>, scheduled: seq<nat>, campaignId: int, limit: nat,
                                 ids: seq<nat>)
    requires IsRegularSelection(rows, locked + ToSet(scheduled), campaignId, limit, ids)
    ensures forall id :: id in ids ==>
      QueuedFor(rows, id, campaignId) && rows[id].scheduledFor.None? && id !in locked
    ensures forall id :: QueuedFor(rows, id, campaignId) && id !in locked && id !in scheduled + ids ==>
      rows[id].scheduledFor.None? ==> |ids| == limit
  {
    forall id | QueuedFor(rows, id, campaignId) && rows[id].scheduledFor.None?
      ensures Unscheduled(rows, id, campaignId)
    {}
  }

  /** The answer to the first select: the `limit` earliest due, unlocked retries. */
  ghost predicate IsDueSelection(rows: Rows, locked: set<nat>, campaignId: int, cutoff: int, limit: nat,
                                 ids: seq<nat>)
  {
    && Distinct(ids) && |ids| <= limit
    && (forall id :: id in ids ==> DueRetry(rows, id, campaignId, cutoff) && id !in locked)
    && (forall i, j :: 0 <= i < j < |ids| ==> NotLater(rows, ids[i], ids[j]))
    && (forall id :: DueRetry(rows, id, campaignId, cutoff) && id !in locked && id !in ids ==>
          |ids| == limit && forall c :: c in ids ==> NotLater(rows, c, id))
  }

  predicate QueuedFor(rows: Rows, id: nat, campaignId: int) {
    id in rows && rows[id].campaignId == campaignId && rows[id].state == Queued
  }

  /** The first select in terms of the scheduled times: due retries alone, no later one
      before an earlier one, and none left over that is due before one taken. */
  lemma DueSelectionInTimes(rows: Rows, locked: set<nat>, campaignId: int, cutoff: int, limit: nat, ids: seq<nat>)
    requires IsDueSelection(rows, locked, campaignId, cutoff, limit, ids)
    ensures forall i :: 0 <= i < |ids| ==>
      QueuedFor(rows, ids[i], campaignId) && ids[i] !in locked
      && rows[ids[i]].scheduledFor.Some? && rows[ids[i]].scheduledFor.value <= cutoff
    ensures forall i, j :: 0 <= i < j < |ids| ==> rows[ids[i]].scheduledFor.value <= rows[ids[j]].scheduledFor.value
    ensures forall id :: QueuedFor(rows, id, campaignId) && id !in locked && id !in ids ==>
      rows[id].scheduledFor.Some? && rows[id].scheduledFor.value <= cutoff ==>
        |ids| == limit
        && forall i :: 0 <= i < |ids| ==> rows[ids[i]].scheduledFor.value <= rows[id].scheduledFor.value
  {
    forall i | 0 <= i < |ids| ensures DueRetry(rows, ids[i], campaignId, cutoff) && ids[i] !in locked {
      assert ids[i] in ids;
    }
    forall id, i | DueRetry(rows, id, campaignId, cutoff) && id !in locked && id !in ids && 0 <= i < |ids|
      ensures NotLater(rows, ids[i], id)
    {
      assert ids[i] in ids;
    }
    forall id | QueuedFor(rows, id, campaignId) && rows[id].scheduledFor.Some?
      ensures rows[id].scheduledFor.value <= cutoff ==> DueRetry(rows, id, campaignId, cutoff)
    {}
  }

  /** The answer to the second select: any `limit` unscheduled, unlocked runs. */
  ghost predicate IsRegularSelection(rows: Rows, locked: set<nat>, campaignId: int, limit: nat, ids: seq<nat>) {
    && Distinct(ids) && |ids| <= limit
    && (forall id :: id in ids ==> Unscheduled(rows, id, campaignId) && id !in locked)
    && (forall id :: Unscheduled(rows, id, campaignId) && id !in locked && id !in ids ==> |ids| == limit)
  }

  function MarkProcessing(rows: Rows, ids: set<nat>): Rows {
    map id | id in rows :: if id in ids then rows[id].(state := Processing) else rows[id]
  }

  function ToSet(ids: seq<nat>): set<nat> {
    set id | id in ids
  }

  /** One loop of the claim: marks the runs as processing and appends them. */
  method TakeRuns(before: Rows, claimed: seq<nat>, runs: seq<nat>) returns (rows: Rows, claimedRuns: seq<nat>)
    requires forall id :: id in runs ==> id in before
    ensures rows == MarkProcessing(before, ToSet(runs)) && claimedRuns == claimed + runs
  {
    rows, claimedRuns := before, claimed;
    assert MarkProcessing(before, ToSet([])) == before;
    var i := 0;
    while i < |runs|
      invariant 0 <= i <= |runs| && claimedRuns == claimed + runs[..i]
      invariant rows == MarkProcessing(before, ToSet(runs[..i]))
    {
      assert runs[i] in runs && runs[..i + 1] == runs[..i] + [runs[i]];
      MarkOneMore(before, runs[..i], runs[i]);
      rows := rows[runs[i] := rows[runs[i]].(state := Processing)];
      claimedRuns := claimedRuns + [runs[i]];
      i := i + 1;
    }
    assert runs[..i] == runs;
  }

  lemma MarkTwice(rows: Rows, a: seq<nat>, b: seq<nat>)
    ensures MarkProcessing(MarkProcessing(rows, ToSet(a)), ToSet(b)) == MarkProcessing(rows, ToSet(a + b))
    ensures MarkProcessing(rows, ToSet([])) == rows && [] + b == b
  {
    assert ToSet(a + b) == ToSet(a) + ToSet(b);
  }

  class CampaignClient {
    var rows: Rows

    /** `locked` and `lockedLater` are the rows other transactions hold at the two
        selects; `meanwhile` is what other transactions commit between them, to
        rows this transaction has not locked. */
    method ClaimQueuedRunsForProcessing(campaignId: int, scheduledBefore: int, limit: nat,
                                        locked: set<nat>, meanwhile: Rows, lockedLater: set<nat>)
      returns (claimedRuns: seq<nat>, scheduled: nat)
      modifies this
      ensures scheduled <= |claimedRuns| <= limit && Distinct(claimedRuns)
      ensures IsDueSelection(old(rows), locked, campaignId, scheduledBefore, limit, claimedRuns[..scheduled])
      ensures var taken := claimedRuns[..scheduled];
        // each was a due retry, not locked, and they come earliest first
        && (forall i :: 0 <= i < |taken| ==>
              QueuedFor(old(rows), taken[i], campaignId) && taken[i] !in locked
              && old(rows)[taken[i]].scheduledFor.Some? && old(rows)[taken[i]].scheduledFor.value <= scheduledBefore)
        && (forall i, j :: 0 <= i < j < |taken| ==>
              old(rows)[taken[i]].scheduledFor.value <= old(rows)[taken[j]].scheduledFor.value)
        // a due retry is left over only when `limit` retries no later than it were taken
        && (forall id :: QueuedFor(old(rows), id, campaignId) && id !in locked && id !in taken ==>
              old(rows)[id].scheduledFor.Some? && old(rows)[id].scheduledFor.value <= scheduledBefore ==>
                |taken| == limit
                && forall i :: 0 <= i < |taken| ==>
                     old(rows)[taken[i]].scheduledFor.value <= old(rows)[id].scheduledFor.value)
      ensures var seen := old(rows) + (meanwhile - ToSet(claimedRuns[..scheduled]));
        && (if scheduled < limit
            then IsRegularSelection(seen, lockedLater + ToSet(claimedRuns[..scheduled]), campaignId,
                                    limit - scheduled, claimedRuns[scheduled..])
            else claimedRuns[scheduled..] == [])
        && rows == MarkProcessing(seen, ToSet(claimedRuns))
        // the rest are unscheduled runs, and one is left over only when the limit is reached
        && (forall id :: id in claimedRuns[scheduled..] ==>
              QueuedFor(seen, id, campaignId) && seen[id].scheduledFor.None? && id !in lockedLater)
        && (forall id :: QueuedFor(seen, id, campaignId) && id !in lockedLater && id !in claimedRuns ==>
              seen[id].scheduledFor.None? ==> |claimedRuns| == limit)
      ensures forall id :: id in claimedRuns ==> id in rows && rows[id].state == Processing
    {
      var scheduledRuns := SelectDue(rows, locked, campaignId, scheduledBefore, limit);
      DueSelectionInTimes(rows, locked, campaignId, scheduledBefore, limit, scheduledRuns);
      scheduled := |scheduledRuns|;
      rows := rows + (meanwhile - ToSet(scheduledRuns));
      rows, claimedRuns := MarkClaimed(rows, lockedLater, campaignId, limit, scheduledRuns);
      assert claimedRuns[..scheduled] == scheduledRuns;
    }

    /** Puts claimed runs back when no workflow run was created for them. */
    method ReturnProcessingQueuedRunsWithoutWorkflow(ids: set<nat>) returns (count: nat)
      modifies this
      ensures rows == Returned(old(rows), ids)
      ensures count == |set id | id in ids && Returnable(old(rows), id)|
      ensures rows.Keys == old(rows).Keys
      ensures forall id :: id in rows ==>
        rows[id] == if id in ids && old(rows)[id].state == Processing && !old(rows)[id].hasWorkflowRun
                    then old(rows)[id].(state := Queued) else old(rows)[id]
    {
      if ids == {} {
        assert (set id | id in ids && Returnable(rows, id)) == {};
        return 0;
      }
      var back := set id | id in ids && Returnable(rows, id);
      rows := map id | id in rows :: if id in back then rows[id].(state := Queued) else rows[id];
      return |back|;
    }
  }

  /** The claim after its first select: marks those runs, then selects and marks
      unscheduled ones up to the rest of the limit. */
  method MarkClaimed(before: Rows, lockedLater: set<nat>, campaignId: int, limit: nat, scheduledRuns: seq<nat>)
    returns (rows: Rows, claimedRuns: seq<nat>)
    requires Distinct(scheduledRuns) && |scheduledRuns| <= limit && forall id :: id in scheduledRuns ==> id in before
    ensures scheduledRuns <= claimedRuns && |claimedRuns| <= limit && Distinct(claimedRuns)
    ensures var regular := claimedRuns[|scheduledRuns|..];
      && (if |scheduledRuns| < limit
          then IsRegularSelection(before, lockedLater + ToSet(scheduledRuns), campaignId, limit - |scheduledRuns|,
                                  regular)
          else regular == [])
      && (forall id :: id in regular ==>
            QueuedFor(before, id, campaignId) && before[id].scheduledFor.None? && id !in lockedLater)
      && (forall id :: QueuedFor(before, id, campaignId) && id !in lockedLater && id !in claimedRuns ==>
            before[id].scheduledFor.None? ==> |claimedRuns| == limit)
    ensures rows == MarkProcessing(before, ToSet(claimedRuns))
    ensures forall id :: id in claimedRuns ==> id in rows && rows[id].state == Processing
  {
    rows, claimedRuns := TakeRuns(before, [], scheduledRuns);
    assert claimedRuns == scheduledRuns;
    if |scheduledRuns| < limit {
      var regularRuns := SelectRegular(rows, lockedLater + ToSet(scheduledRuns), campaignId, limit - |scheduledRuns|);
      MarkingHidesNoRegularRun(before, scheduledRuns, lockedLater, campaignId, limit - |scheduledRuns|, regularRuns);
      RegularSelectionTakesAll(before, lockedLater, scheduledRuns, campaignId, limit - |scheduledRuns|, regularRuns);
      assert forall r :: r in regularRuns ==> r !in ToSet(scheduledRuns);
      DistinctConcat(scheduledRuns, regularRuns);
      rows, claimedRuns := TakeRuns(rows, claimedRuns, regularRuns);
      MarkTwice(before, scheduledRuns, regularRuns);
      assert claimedRuns[|scheduledRuns|..] == regularRuns;
    }
  }

  predicate Returnable(rows: Rows, id: nat) {
    id in rows && rows[id].state == Processing && !rows[id].hasWorkflowRun
  }

  function Returned(rows: Rows, ids: set<nat>): Rows {
    map id | id in rows :: if id in ids && Returnable(rows, id) then rows[id].(state := Queued) else rows[id]
  }

  lemma MarkOneMore(rows: Rows, ids: seq<nat>, id: nat)
    requires id in rows
    ensures id in MarkProcessing(rows, ToSet(ids))
    ensures MarkProcessing(rows, ToSet(ids + [id]))
            == MarkProcessing(rows, ToSet(ids))[id := MarkProcessing(rows, ToSet(ids))[id].(state := Processing)]
  {
    assert ToSet(ids + [id]) == ToSet(ids) + {id};
  }

  lemma MarkingHidesNoRegularRun(seen: Rows, scheduled: seq<nat>, locked: set<nat>, campaignId: int, limit: nat,
                                 ids: seq<nat>)
    requires IsRegularSelection(MarkProcessing(seen, ToSet(scheduled)), locked + ToSet(scheduled), campaignId, limit,
                                ids)
    ensures IsRegularSelection(seen, locked + ToSet(scheduled), campaignId, limit, ids)
  {
    forall id | id !in ToSet(scheduled)
      ensures Unscheduled(MarkProcessing(seen, ToSet(scheduled)), id, campaignId) <==> Unscheduled(seen, id, campaignId)
    {}
  }

  method SelectDue(rows: Rows, locked: set<nat>, campaignId: int, cutoff: int, limit: nat) returns (ids: seq<nat>)
    ensures IsDueSelection(rows, locked, campaignId, cutoff, limit, ids)
  {
    var due := set id | id in rows && DueRetry(rows, id, campaignId, cutoff) && id !in locked;
    var before := (a: nat, b: nat) => NotLater(rows, a, b);
    ids := TakeFirst(due, before, limit);
    assert forall id :: id in due <==> DueRetry(rows, id, campaignId, cutoff) && id !in locked;
    assert forall a, b :: before(a, b) ==> NotLater(rows, a, b);
  }

  method SelectRegular(rows: Rows, locked: set<nat>, campaignId: int, limit: nat) returns (ids: seq<nat>)
    ensures IsRegularSelection(rows, locked, campaignId, limit, ids)
  {
    var regular := set id | id in rows && Unscheduled(rows, id, campaignId) && id !in locked;
    ids := TakeFirst(regular, (_: nat, _: nat) => true, limit);
    assert forall id :: id in regular <==> Unscheduled(rows, id, campaignId) && id !in locked;
  }

  // ---------- Concurrent transactions ----------

  datatype Phase = DueSelected | RegularSelected | Committed | Aborted

  /** A claiming transaction; `dueSeen` is what its first select found due and unlocked. */
  datatype Txn = Txn(campaignId: int, cutoff: int, limit: nat, dueSeen: set<nat>,
                     scheduled: seq<nat>, regular: seq<nat>, phase: Phase)

  datatype System = System(rows: Rows, txns: map<nat, Txn>)

  datatype Event =
    | Enqueue(id: nat, run: QueuedRun)
    | SelectScheduled(t: nat, campaignId: int, cutoff: int, limit: nat, ids: seq<nat>)
    | SelectOthers(t: nat, ids: seq<nat>)
    | CommitClaim(t: nat)
    | Abort(t: nat)
    | StartWorkflow(id: nat)
    | Finish(id: nat, succeeded: bool)
    | ReturnRuns(given: set<nat>)

  predicate Open(s: System, t: nat) {
    t in s.txns && (s.txns[t].phase == DueSelected || s.txns[t].phase == RegularSelected)
  }

  function Selected(txn: Txn): seq<nat> {
    txn.scheduled + txn.regular
  }

  /** The rows locked by open transactions. */
  function Locked(s: System): set<nat> {
    set t, id | t in s.txns && Open(s, t) && id in Selected(s.txns[t]) :: id
  }

  ghost predicate Enabled(s: System, e: Event) {
    match e
    case Enqueue(id, run) => id !in s.rows && run.state == Queued
    case SelectScheduled(t, campaignId, cutoff, limit, ids) =>
      t !in s.txns && IsDueSelection(s.rows, Locked(s), campaignId, cutoff, limit, ids)
    case SelectOthers(t, ids) =>
      t in s.txns && s.txns[t].phase == DueSelected && |s.txns[t].scheduled| < s.txns[t].limit
      && IsRegularSelection(s.rows, Locked(s), s.txns[t].campaignId, s.txns[t].limit - |s.txns[t].scheduled|, ids)
    case CommitClaim(t) =>
      Open(s, t) && (s.txns[t].phase == DueSelected ==> |s.txns[t].scheduled| == s.txns[t].limit)
    case Abort(t) => Open(s, t)
    case StartWorkflow(id) => id in s.rows && s.rows[id].state == Processing
    case Finish(id, _) => id in s.rows && s.rows[id].state == Processing
    case ReturnRuns(_) => true
  }

  function DueUnlocked(s: System, campaignId: int, cutoff: int): set<nat> {
    set id | id in s.rows && DueRetry(s.rows, id, campaignId, cutoff) && id !in Locked(s)
  }

  ghost function Next(s: System, e: Event): System
    requires Enabled(s, e)
  {
    match e
    case Enqueue(id, run) => s.(rows := s.rows[id := run])
    case SelectScheduled(t, campaignId, cutoff, limit, ids) =>
      s.(txns := s.txns[t := Txn(campaignId, cutoff, limit, DueUnlocked(s, campaignId, cutoff), ids, [], DueSelected)])
    case SelectOthers(t, ids) =>
      s.(txns := s.txns[t := s.txns[t].(regular := ids, phase := RegularSelected)])
    case CommitClaim(t) =>
      System(MarkProcessing(s.rows, ToSet(Selected(s.txns[t]))), s.txns[t := s.txns[t].(phase := Committed)])
    case Abort(t) => s.(txns := s.txns[t := s.txns[t].(phase := Aborted)])
    case StartWorkflow(id) => s.(rows := s.rows[id := s.rows[id].(hasWorkflowRun := true)])
    case Finish(id, succeeded) =>
      s.(rows := s.rows[id := s.rows[id].(state := if succeeded then Processed else Failed)])
    case ReturnRuns(ids) => s.(rows := Returned(s.rows, ids))
  }

  ghost function Run(s: System, es: seq<Event>): Option<System>
    decreases |es|
  {
    if es == [] then Some(s)
    else match Run(s, Front(es))
      case None => None
      case Some(before) => if Enabled(before, Last(es)) then Some(Next(before, Last(es))) else None
  }

  ghost predicate Initial(s: System) {
    s.txns == map[]
  }

  /** A locked row is still queued, and open transactions share no row. */
  ghost predicate Inv(s: System) {
    && (forall t, id :: Open(s, t) && id in Selected(s.txns[t]) ==> id in s.rows && s.rows[id].state == Queued)
    && (forall t, u, id :: Open(s, t) && Open(s, u) && id in Selected(s.txns[t]) && id in Selected(s.txns[u]) ==>
          t == u)
    && (forall t :: t in s.txns ==> TxnInv(s, s.txns[t]))
  }

  /** What a transaction has selected: distinct, within the limit, retries earliest
      first, and no unscheduled run while a due retry it saw was left over. */
  ghost predicate TxnInv(s: System, txn: Txn) {
    && Distinct(Selected(txn)) && |Selected(txn)| <= txn.limit
    && ToSet(txn.scheduled) <= txn.dueSeen
    && (forall id :: id in txn.dueSeen ==>
          id in s.rows && s.rows[id].campaignId == txn.campaignId
          && s.rows[id].scheduledFor.Some? && s.rows[id].scheduledFor.value <= txn.cutoff)
    && (forall id :: id in txn.regular ==>
          id in s.rows && s.rows[id].campaignId == txn.campaignId && s.rows[id].scheduledFor.None?)
    && (forall i, j :: 0 <= i < j < |txn.scheduled| ==> NotLater(s.rows, txn.scheduled[i], txn.scheduled[j]))
    && (forall c, id :: c in txn.scheduled && id in txn.dueSeen && id !in txn.scheduled ==> NotLater(s.rows, c, id))
    && (txn.dueSeen <= ToSet(txn.scheduled) || |txn.scheduled| == txn.limit)
  }

  /** Rows keep their campaign and schedule; rows are never deleted. */
  ghost predicate SameSchedules(rows: Rows, rows': Rows) {
    forall id :: id in rows ==> id in rows' && rows'[id].scheduledFor == rows[id].scheduledFor
                                && rows'[id].campaignId == rows[id].campaignId
  }

  lemma TxnInvSurvives(s: System, s': System, txn: Txn)
    requires TxnInv(s, txn) && SameSchedules(s.rows, s'.rows)
    ensures TxnInv(s', txn) && TxnInv(s', txn.(phase := Committed)) && TxnInv(s', txn.(phase := Aborted))
  {
  }

  lemma StepKeepsSchedules(s: System, e: Event)
    requires Enabled(s, e)
    ensures SameSchedules(s.rows, Next(s, e).rows)
  {
  }

  lemma FirstSelectIsTxnInv(s: System, e: Event)
    requires e.SelectScheduled? && Enabled(s, e)
    ensures TxnInv(Next(s, e), Next(s, e).txns[e.t])
  {
    var txn := Next(s, e).txns[e.t];
    assert Selected(txn) == e.ids;
    if !(txn.dueSeen <= ToSet(e.ids)) {
      var id :| id in txn.dueSeen && id !in ToSet(e.ids);
      assert DueRetry(s.rows, id, e.campaignId, e.cutoff) && id !in e.ids;
    }
  }

  lemma SecondSelectIsTxnInv(s: System, e: Event)
    requires e.SelectOthers? && Enabled(s, e) && TxnInv(s, s.txns[e.t])
    ensures TxnInv(Next(s, e), Next(s, e).txns[e.t])
  {
    var txn := s.txns[e.t];
    forall id | id in e.ids ensures id !in ToSet(txn.scheduled) {
      assert id in ToSet(txn.scheduled) ==> id in txn.dueSeen;
    }
    assert Distinct(txn.scheduled) by {
      forall i, j | 0 <= i < j < |txn.scheduled| ensures txn.scheduled[i] != txn.scheduled[j] {
        assert Selected(txn)[i] == txn.scheduled[i] && Selected(txn)[j] == txn.scheduled[j];
      }
    }
    DistinctConcat(txn.scheduled, e.ids);
  }

  /** A newly selected row was locked by nobody and is queued. */
  lemma SelectionIsFresh(s: System, e: Event, u: nat, id: nat)
    requires (e.SelectScheduled? || e.SelectOthers?) && Enabled(s, e) && id in e.ids
    requires Open(s, u)
    ensures id !in Selected(s.txns[u]) && id in s.rows && s.rows[id].state == Queued
  {
    assert id in Selected(s.txns[u]) ==> id in Locked(s);
  }

  lemma StepKeepsInvariant(s: System, e: Event)
    requires Inv(s) && Enabled(s, e)
    ensures Inv(Next(s, e))
  {
    var s' := Next(s, e);
    StepKeepsSchedules(s, e);
    forall t | t in s'.txns ensures TxnInv(s', s'.txns[t]) {
      if e.SelectScheduled? && e.t == t {
        FirstSelectIsTxnInv(s, e);
      } else if e.SelectOthers? && e.t == t {
        SecondSelectIsTxnInv(s, e);
      } else {
        TxnInvSurvives(s, s', s.txns[t]);
      }
    }
    SelectionsStayApart(s, e);
  }

  lemma SelectionsStayApart(s: System, e: Event)
    requires Inv(s) && Enabled(s, e)
    ensures forall t, id :: Open(Next(s, e), t) && id in Selected(Next(s, e).txns[t]) ==>
      id in Next(s, e).rows && Next(s, e).rows[id].state == Queued
    ensures forall t, u, id :: Open(Next(s, e), t) && id in Selected(Next(s, e).txns[t]) ==>
      Open(Next(s, e), u) && id in Selected(Next(s, e).txns[u]) ==> t == u
  {
    var s' := Next(s, e);
    forall t, id | Open(s', t) && id in Selected(s'.txns[t]) ensures id in s'.rows && s'.rows[id].state == Queued {
      SelectedBefore(s, e, t, id);
    }
    forall t, u, id | Open(s', t) && id in Selected(s'.txns[t]) && Open(s', u) && id in Selected(s'.txns[u])
      ensures t == u
    {
      SelectedBefore(s, e, t, id);
      SelectedBefore(s, e, u, id);
      if SelectsIn(e, t, id) && Open(s, u) {
        SelectionIsFresh(s, e, u, id);
      }
      if SelectsIn(e, u, id) && Open(s, t) {
        SelectionIsFresh(s, e, t, id);
      }
    }
  }

  predicate SelectsIn(e: Event, t: nat, id: nat) {
    (e.SelectScheduled? || e.SelectOthers?) && e.t == t && id in e.ids
  }

  /** A selected row was selected before the event or by it. */
  lemma SelectedBefore(s: System, e: Event, t: nat, id: nat)
    requires Inv(s) && Enabled(s, e) && Open(Next(s, e), t) && id in Selected(Next(s, e).txns[t])
    ensures (Open(s, t) && id in Selected(s.txns[t])) || SelectsIn(e, t, id)
    ensures id in Next(s, e).rows && Next(s, e).rows[id].state == Queued
  {
    if e.CommitClaim? {
      assert id in ToSet(Selected(s.txns[e.t])) <==> id in Selected(s.txns[e.t]);
    }
  }

  lemma {:induction false} RunKeepsInvariant(s: System, es: seq<Event>)
    requires Initial(s) && Run(s, es).Some?
    ensures Inv(Run(s, es).value)
    decreases |es|
  {
    if es != [] {
      RunKeepsInvariant(s, Front(es));
      StepKeepsInvariant(Run(s, Front(es)).value, Last(es));
    }
  }

  /** No two transactions that are open at the same time select the same run. */
  lemma {:induction false} ConcurrentClaimsAreDisjoint(s: System, es: seq<Event>, t: nat, u: nat)
    requires Initial(s) && Run(s, es).Some? && t != u
    requires Open(Run(s, es).value, t) && Open(Run(s, es).value, u)
    ensures ToSet(Selected(Run(s, es).value.txns[t])) !! ToSet(Selected(Run(s, es).value.txns[u]))
  {
    RunKeepsInvariant(s, es);
  }

  lemma {:induction false} PrefixRuns(s: System, es: seq<Event>, i: nat)
    requires Run(s, es).Some? && i <= |es|
    ensures Run(s, es[..i]).Some?
    ensures i < |es| ==> Enabled(Run(s, es[..i]).value, es[i])
    decreases |es|
  {
    if i == |es| {
      assert es[..i] == es;
    } else {
      PrefixRuns(s, Front(es), i);
      assert Front(es)[..i] == es[..i];
    }
  }

  /** Rows are never deleted and keep their campaign and schedule over a whole run. */
  lemma {:induction false} RunKeepsSchedules(s: System, es: seq<Event>, i: nat)
    requires Run(s, es).Some? && i <= |es|
    ensures Run(s, es[..i]).Some? && SameSchedules(Run(s, es[..i]).value.rows, Run(s, es).value.rows)
    decreases |es|
  {
    PrefixRuns(s, es, i);
    if i == |es| {
      assert es[..i] == es;
    } else {
      RunKeepsSchedules(s, Front(es), i);
      assert Front(es)[..i] == es[..i];
      StepKeepsSchedules(Run(s, Front(es)).value, Last(es));
    }
  }

  /** Every transaction of a run began with the first select that is its `scheduled`. */
  lemma {:induction false} TransactionBegan(s: System, es: seq<Event>, t: nat) returns (i: nat)
    requires Initial(s) && Run(s, es).Some? && t in Run(s, es).value.txns
    ensures i < |es| && es[i].SelectScheduled? && es[i].t == t && Run(s, es[..i]).Some?
    ensures Enabled(Run(s, es[..i]).value, es[i])
    ensures var txn := Run(s, es).value.txns[t];
      && txn.campaignId == es[i].campaignId && txn.cutoff == es[i].cutoff && txn.limit == es[i].limit
      && txn.scheduled == es[i].ids
    decreases |es|
  {
    assert es != [];
    if t in Run(s, Front(es)).value.txns {
      i := TransactionBegan(s, Front(es), t);
      assert Front(es)[..i] == es[..i];
    } else {
      i := |es| - 1;
      assert es[..i] == Front(es);
    }
  }

  /** No transaction that is open has selected the row. */
  ghost predicate Unlocked(s: System, id: nat) {
    forall u :: Open(s, u) ==> id !in s.txns[u].scheduled + s.txns[u].regular
  }

  lemma UnlockedMeansNotLocked(s: System, id: nat)
    ensures Unlocked(s, id) <==> id !in Locked(s)
  {
    if id in Locked(s) {
      var u :| u in s.txns && Open(s, u) && id in Selected(s.txns[u]);
      assert id in s.txns[u].scheduled + s.txns[u].regular;
    } else {
      forall u | Open(s, u) ensures id !in s.txns[u].scheduled + s.txns[u].regular {
        assert id !in Selected(s.txns[u]);
      }
    }
  }

  /** Every claim of every run, from the moment `i` of its first select: it takes only
      due retries that nobody had locked, earliest first; a due, unlocked retry is left
      over only when the limit was filled with retries no later than it. Unscheduled
      runs come after, within the limit, and only if no due, unlocked retry was left. */
  lemma RetriesComeFirst(s: System, es: seq<Event>, t: nat) returns (i: nat)
    requires Initial(s) && Run(s, es).Some? && t in Run(s, es).value.txns
    ensures i < |es| && es[i].SelectScheduled? && es[i].t == t && Run(s, es[..i]).Some?
    ensures var rows, taken := Run(s, es[..i]).value.rows, Run(s, es).value.txns[t].scheduled;
      && (forall k :: 0 <= k < |taken| ==>
            QueuedFor(rows, taken[k], es[i].campaignId) && Unlocked(Run(s, es[..i]).value, taken[k])
            && rows[taken[k]].scheduledFor.Some? && rows[taken[k]].scheduledFor.value <= es[i].cutoff)
      && (forall a, b :: 0 <= a < b < |taken| ==>
            rows[taken[a]].scheduledFor.value <= rows[taken[b]].scheduledFor.value)
      && (forall id :: QueuedFor(rows, id, es[i].campaignId) && Unlocked(Run(s, es[..i]).value, id) && id !in taken ==>
            rows[id].scheduledFor.Some? && rows[id].scheduledFor.value <= es[i].cutoff ==>
              |taken| == es[i].limit && Run(s, es).value.txns[t].regular == []
              && forall k :: 0 <= k < |taken| ==> rows[taken[k]].scheduledFor.value <= rows[id].scheduledFor.value)
    ensures var now, txn := Run(s, es).value, Run(s, es).value.txns[t];
      && Distinct(txn.scheduled + txn.regular) && |txn.scheduled + txn.regular| <= es[i].limit
      && forall id :: id in txn.regular ==>
           id in now.rows && now.rows[id].campaignId == es[i].campaignId && now.rows[id].scheduledFor.None?
  {
    i := TransactionBegan(s, es, t);
    var first, e := Run(s, es[..i]).value, es[i];
    DueSelectionInTimes(first.rows, Locked(first), e.campaignId, e.cutoff, e.limit, e.ids);
    forall id ensures Unlocked(first, id) <==> id !in Locked(first) {
      UnlockedMeansNotLocked(first, id);
    }
    RunKeepsInvariant(s, es);
    var txn := Run(s, es).value.txns[t];
    assert TxnInv(Run(s, es).value, txn);
    assert Selected(txn) == txn.scheduled + txn.regular;
  }

  // ---------- How often a run is claimed ----------

  /** The committed claims that returned `id`. */
  ghost function Claims(s: System, es: seq<Event>, id: nat): nat
    requires Run(s, es).Some?
    decreases |es|
  {
    if es == [] then 0
    else
      Claims(s, Front(es), id)
      + if ClaimsRun(Run(s, Front(es)).value, Last(es), id) then 1 else 0
  }

  /** The times `id` was put back. */
  ghost function Returns(s: System, es: seq<Event>, id: nat): nat
    requires Run(s, es).Some?
    decreases |es|
  {
    if es == [] then 0
    else
      Returns(s, Front(es), id)
      + if ReturnsRun(Run(s, Front(es)).value, Last(es), id) then 1 else 0
  }

  function Taken(s: System, id: nat): nat {
    if id in s.rows && s.rows[id].state != Queued then 1 else 0
  }

  /** Every claim of a run is paid for: it was queued at the start or put back since. */
  lemma {:induction false} ClaimsBalanceReturns(s: System, es: seq<Event>, id: nat)
    requires Initial(s) && Run(s, es).Some?
    ensures Claims(s, es, id) + Taken(s, id) == Returns(s, es, id) + Taken(Run(s, es).value, id)
    decreases |es|
  {
    if es != [] {
      ClaimsBalanceReturns(s, Front(es), id);
      RunKeepsInvariant(s, Front(es));
      StepBalances(Run(s, Front(es)).value, Last(es), id);
    }
  }

  predicate ClaimsRun(s: System, e: Event, id: nat) {
    e.CommitClaim? && e.t in s.txns && id in Selected(s.txns[e.t])
  }

  predicate ReturnsRun(s: System, e: Event, id: nat) {
    e.ReturnRuns? && id in e.given && Returnable(s.rows, id)
  }

  lemma StepBalances(s: System, e: Event, id: nat)
    requires Inv(s) && Enabled(s, e)
    ensures (if ClaimsRun(s, e, id) then 1 else 0) + Taken(s, id)
            == (if ReturnsRun(s, e, id) then 1 else 0) + Taken(Next(s, e), id)
  {
    if e.CommitClaim? {
      assert id in Selected(s.txns[e.t]) <==> id in ToSet(Selected(s.txns[e.t]));
    }
  }

  /** So between two claims of the same run it was put back, whoever claims. */
  lemma ClaimedOncePerReturn(s: System, es: seq<Event>, id: nat)
    requires Initial(s) && Run(s, es).Some?
    ensures Claims(s, es, id) <= Returns(s, es, id) + 1
  {
    ClaimsBalanceReturns(s, es, id);
  }
}
