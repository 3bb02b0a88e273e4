/**
 Durable webhook deliveries: get-or-create, claim by lease, the three outcome
 updates, and the sweeper that pages through overdue rows.

 The outcome updates filter on the id alone, so safety is a property of runs in
 which every worker records strictly before its lease ends (`Timely`).
 */
module WebhookDelivery {
  import opened Common
  import opened Queries

  datatype Status = Waiting | Succeeded | DeadLetter

  datatype Delivery = Delivery(runId: int, nodeId: string, status: Status,
                               attemptCount: int, maxAttempts: int, scheduledFor: Option<int>)

  type Table = map<nat, Delivery>

  // ---------- Committed writes ----------

  datatype Write =
    | Claim(id: nat, now: int, lease: int)
    | Succeed(id: nat, attempt: int)
    | Retry(id: nat, attempt: int, at: int)
    | Bury(id: nat, attempt: int)

  predicate Claimable(d: Delivery, now: int) {
    d.status == Waiting && (d.scheduledFor.None? || d.scheduledFor.value <= now)
  }

  predicate Matches(t: Table, w: Write) {
    w.id in t && (w.Claim? ==> Claimable(t[w.id], w.now))
  }

  function Commit(t: Table, w: Write): Table {
    if !Matches(t, w) then t
    else
      var d := t[w.id];
      match w
      case Claim(id, now, lease) => t[id := d.(scheduledFor := Some(now + lease))]
      case Succeed(id, attempt) => t[id := d.(status := Succeeded, attemptCount := attempt, scheduledFor := None)]
      case Retry(id, attempt, at) => t[id := d.(status := Waiting, attemptCount := attempt, scheduledFor := Some(at))]
      case Bury(id, attempt) => t[id := d.(status := DeadLetter, attemptCount := attempt, scheduledFor := None)]
  }

  datatype CreateError = RunNotFound | RunWithoutOrganization | WrongOrganization | ConstraintViolation

  /** At most one delivery per workflow run and webhook node. */
  ghost predicate UniqueNodes(t: Table) {
    forall i, j :: i in t && j in t && t[i].runId == t[j].runId && t[i].nodeId == t[j].nodeId ==> i == j
  }

  class WebhookDeliveryClient {
    var runOrganizations: map<int, Option<int>>
    var rows: Table
    var nextId: nat

    ghost predicate Valid()
      reads this
    {
      UniqueNodes(rows) && 0 < nextId && forall id :: id in rows ==> 0 < id < nextId
    }

    /** Get-or-create on (run, node). `nodeId` is None when the caller omits it,
        which the NOT NULL column refuses. */
    method CreateWebhookDelivery(runId: int, organizationId: int, nodeId: Option<string>, maxAttempts: int,
                                 scheduledFor: Option<int>, now: int)
      returns (r: Result<(nat, bool), CreateError>)
      requires Valid()
      modifies this
      ensures Valid() && runOrganizations == old(runOrganizations)
      ensures r == Err(RunNotFound) <==> runId !in runOrganizations
      ensures r == Err(RunWithoutOrganization) <==> runId in runOrganizations && runOrganizations[runId].None?
      ensures r == Err(WrongOrganization) <==>
        runId in runOrganizations && runOrganizations[runId].Some? && runOrganizations[runId].value != organizationId
      ensures r == Err(ConstraintViolation) <==>
        runId in runOrganizations && runOrganizations[runId] == Some(organizationId) && nodeId.None?
      ensures r.Err? || !r.value.1 ==> rows == old(rows)
      ensures r.Ok? ==> nodeId.Some? && r.value.0 in rows
      ensures r.Ok? ==> rows[r.value.0].runId == runId && rows[r.value.0].nodeId == nodeId.value
      ensures r.Ok? && r.value.1 ==>
        && (forall i :: i in old(rows) ==> old(rows)[i].runId != runId || old(rows)[i].nodeId != nodeId.value)
        && r.value.0 !in old(rows)
        && rows == old(rows)[r.value.0 := Delivery(runId, nodeId.value, Waiting, 0, maxAttempts,
                                                   Some(if scheduledFor.Some? then scheduledFor.value else now))]
    {
      if runId !in runOrganizations {
        return Err(RunNotFound);
      }
      if runOrganizations[runId].None? {
        return Err(RunWithoutOrganization);
      }
      if runOrganizations[runId].value != organizationId {
        return Err(WrongOrganization);
      }
      if nodeId.None? {
        return Err(ConstraintViolation);
      }
      if i :| i in rows && rows[i].runId == runId && rows[i].nodeId == nodeId.value {
        return Ok((i, false));
      }
      var id := nextId;
      nextId := nextId + 1;
      rows := rows[id := Delivery(runId, nodeId.value, Waiting, 0, maxAttempts,
                                  Some(if scheduledFor.Some? then scheduledFor.value else now))];
      return Ok((id, true));
    }

    method ClaimWebhookDelivery(id: nat, leaseSeconds: int, now: int) returns (claimed: Option<Delivery>)
      modifies this
      ensures rows == Commit(old(rows), Claim(id, now, leaseSeconds))
      ensures claimed.Some? <==>
        && id in old(rows) && old(rows)[id].status == Waiting
        && (old(rows)[id].scheduledFor.Some? ==> old(rows)[id].scheduledFor.value <= now)
      ensures claimed.Some? ==>
        claimed.value == old(rows)[id].(scheduledFor := Some(now + leaseSeconds))
        && rows == old(rows)[id := claimed.value]
      ensures claimed.None? ==> rows == old(rows)
    {
      if id !in rows || rows[id].status != Waiting
         || (rows[id].scheduledFor.Some? && rows[id].scheduledFor.value > now) {
        return None;
      }
      rows := rows[id := rows[id].(scheduledFor := Some(now + leaseSeconds))];
      return Some(rows[id]);
    }

    method MarkWebhookDeliverySucceeded(id: nat, attempt: int)
      modifies this
      ensures rows == Commit(old(rows), Succeed(id, attempt))
      ensures id in old(rows) ==>
        rows == old(rows)[id := old(rows)[id].(status := Succeeded, attemptCount := attempt, scheduledFor := None)]
      ensures id !in old(rows) ==> rows == old(rows)
    {
      if id in rows {
        rows := rows[id := rows[id].(status := Succeeded, attemptCount := attempt, scheduledFor := None)];
      }
    }

    method ScheduleWebhookDeliveryRetry(id: nat, attempt: int, scheduledFor: int)
      modifies this
      ensures rows == Commit(old(rows), Retry(id, attempt, scheduledFor))
      ensures id in old(rows) ==>
        rows == old(rows)[id := old(rows)[id].(status := Waiting, attemptCount := attempt,
                                               scheduledFor := Some(scheduledFor))]
      ensures id !in old(rows) ==> rows == old(rows)
    {
      if id in rows {
        rows := rows[id := rows[id].(status := Waiting, attemptCount := attempt, scheduledFor := Some(scheduledFor))];
      }
    }

    method MarkWebhookDeliveryDeadLetter(id: nat, attempt: int)
      modifies this
      ensures rows == Commit(old(rows), Bury(id, attempt))
      ensures id in old(rows) ==>
        rows == old(rows)[id := old(rows)[id].(status := DeadLetter, attemptCount := attempt, scheduledFor := None)]
      ensures id !in old(rows) ==> rows == old(rows)
    {
      if id in rows {
        rows := rows[id := rows[id].(status := DeadLetter, attemptCount := attempt, scheduledFor := None)];
      }
    }
  }

  // ---------- Workers, clock and runs ----------

  datatype Phase =
    | ClockRead(now: int, lease: int)                    // about to commit its claim
    | Lost                                               // the claim matched nothing
    | Claimed(until: int)                                // claim committed
    | Fetched(until: int, attempt: int, maxAttempts: int) // row read back, request in flight
    | Finished

  datatype Worker = Worker(id: nat, phase: Phase)

  datatype System = System(clock: int, table: Table, workers: map<nat, Worker>)

  /** How a request ends: with an HTTP status, with a connection or timeout error, or
      with an error of any other kind. */
  datatype Reply = Answered(status: int) | Unreachable | Crashed

  datatype Outcome = Delivered | TransientFailure | PermanentFailure

  const RETRYABLE_STATUS_CODES := {408, 425, 429, 500, 502, 503, 504}

  function OutcomeOf(reply: Reply): Outcome {
    match reply
    case Answered(status) =>
      if 200 <= status < 300 then Delivered
      else if status in RETRYABLE_STATUS_CODES then TransientFailure
      else PermanentFailure
    case Unreachable => TransientFailure
    case Crashed => PermanentFailure
  }

  datatype Event =
    | Tick(to: int)
    | Create(id: nat, delivery: Delivery)
    | ReadClock(w: nat, id: nat, lease: int)
    | CommitClaim(w: nat)
    | Fetch(w: nat)
    | Record(w: nat, reply: Reply, delay: int)

  predicate Fresh(d: Delivery) {
    d.status == Waiting && d.attemptCount == 0 && d.maxAttempts >= 1 && d.scheduledFor.Some?
  }

  predicate Enabled(s: System, e: Event) {
    match e
    case Tick(to) => s.clock <= to
    case Create(id, delivery) => id !in s.table && Fresh(delivery)
    case ReadClock(w, _, lease) => w !in s.workers && lease > 0
    case CommitClaim(w) => w in s.workers && s.workers[w].phase.ClockRead?
    case Fetch(w) => w in s.workers && s.workers[w].phase.Claimed? && s.workers[w].id in s.table
    case Record(w, _, _) => w in s.workers && s.workers[w].phase.Fetched?
  }

  /** The update an outcome leads to; a transient failure is parked once the
      attempts are used up. */
  function WriteFor(s: System, w: nat, reply: Reply, delay: int): Write
    requires Enabled(s, Record(w, reply, delay))
  {
    var Worker(id, phase) := s.workers[w];
    match OutcomeOf(reply)
    case Delivered => Succeed(id, phase.attempt)
    case PermanentFailure => Bury(id, phase.attempt)
    case TransientFailure =>
      if phase.attempt >= phase.maxAttempts then Bury(id, phase.attempt)
      else Retry(id, phase.attempt, s.clock + delay)
  }

  function SetPhase(s: System, w: nat, phase: Phase): System
    requires w in s.workers
  {
    s.(workers := s.workers[w := s.workers[w].(phase := phase)])
  }

  function Next(s: System, e: Event): System
    requires Enabled(s, e)
  {
    match e
    case Tick(to) => s.(clock := to)
    case Create(id, delivery) => s.(table := s.table[id := delivery])
    case ReadClock(w, id, lease) => s.(workers := s.workers[w := Worker(id, ClockRead(s.clock, lease))])
    case CommitClaim(w) =>
      var Worker(id, ClockRead(now, lease)) := s.workers[w];
      var phase := if Matches(s.table, Claim(id, now, lease)) then Claimed(now + lease) else Lost;
      SetPhase(s, w, phase).(table := Commit(s.table, Claim(id, now, lease)))
    case Fetch(w) =>
      var d := s.table[s.workers[w].id];
      SetPhase(s, w, Fetched(s.workers[w].phase.until, d.attemptCount + 1, d.maxAttempts))
    case Record(w, reply, delay) =>
      SetPhase(s, w, Finished).(table := Commit(s.table, WriteFor(s, w, reply, delay)))
  }

  /** The event records an outcome of delivery `id`. */
  predicate Records(s: System, e: Event, id: nat)
    requires Enabled(s, e)
  {
    e.Record? && s.workers[e.w].id == id
  }

  /** Records of `id` are made strictly before the recorder's lease ends. */
  predicate Timely(s: System, e: Event, id: nat)
    requires Enabled(s, e)
  {
    Records(s, e, id) ==> s.clock < s.workers[e.w].phase.until
  }

  function Run(s: System, es: seq<Event>): Option<System>
    decreases |es|
  {
    if es == [] then Some(s)
    else match Run(s, Front(es))
      case None => None
      case Some(before) => if Enabled(before, Last(es)) then Some(Next(before, Last(es))) else None
  }

  ghost predicate AllTimely(s: System, es: seq<Event>, id: nat)
    requires Run(s, es).Some?
    decreases |es|
  {
    es == [] || (AllTimely(s, Front(es), id) && Timely(Run(s, Front(es)).value, Last(es), id))
  }

  ghost predicate Initial(s: System) {
    s.workers == map[] && forall id :: id in s.table ==> Fresh(s.table[id])
  }

  // ---------- Safety of timely runs ----------

  /** Worker `w` is processing delivery `id` under a live lease. */
  predicate Possesses(s: System, w: nat, id: nat) {
    w in s.workers && s.workers[w].id == id
    && (s.workers[w].phase.Claimed? || s.workers[w].phase.Fetched?)
    && s.clock < s.workers[w].phase.until
  }

  ghost predicate OnePossessor(s: System, id: nat) {
    forall w, v :: Possesses(s, w, id) && Possesses(s, v, id) ==> w == v
  }

  /** The row shows the possessor's lease end, and the possessor has read it. */
  ghost predicate RowShowsLease(s: System, id: nat) {
    forall w :: Possesses(s, w, id) ==>
      id in s.table && s.table[id].status == Waiting && s.table[id].scheduledFor == Some(s.workers[w].phase.until)
      && (s.workers[w].phase.Fetched? ==>
            s.workers[w].phase.attempt == s.table[id].attemptCount + 1
            && s.workers[w].phase.maxAttempts == s.table[id].maxAttempts)
  }

  predicate AttemptsLeft(s: System, id: nat) {
    id in s.table ==>
      0 <= s.table[id].attemptCount <= s.table[id].maxAttempts
      && (s.table[id].status == Waiting ==> s.table[id].attemptCount < s.table[id].maxAttempts)
  }

  ghost predicate ReadingsAreOld(s: System) {
    forall w :: w in s.workers && s.workers[w].phase.ClockRead? ==>
      s.workers[w].phase.now <= s.clock && s.workers[w].phase.lease > 0
  }

  /** The invariant of delivery `id`; other deliveries may be recorded late. */
  ghost predicate Inv(s: System, id: nat) {
    OnePossessor(s, id) && RowShowsLease(s, id) && AttemptsLeft(s, id) && ReadingsAreOld(s)
  }

  /** Possession begins only with a claim on a delivery nobody possesses. */
  lemma PossessionBeginsAlone(s: System, e: Event, id: nat, w: nat)
    requires Inv(s, id) && Enabled(s, e) && Possesses(Next(s, e), w, id)
    ensures Possesses(s, w, id) || (e == CommitClaim(w) && forall v :: !Possesses(s, v, id))
  {
  }

  lemma TimelyRecorderPossesses(s: System, e: Event, id: nat)
    requires Inv(s, id) && Enabled(s, e) && Timely(s, e, id) && Records(s, e, id)
    ensures Possesses(s, e.w, id) && forall w :: !Possesses(Next(s, e), w, id)
  {
    assert Possesses(s, e.w, id);
    forall w ensures !Possesses(Next(s, e), w, id) {
      if Possesses(Next(s, e), w, id) {
        PossessionBeginsAlone(s, e, id, w);
      }
    }
  }

  lemma StepKeepsOnePossessor(s: System, e: Event, id: nat)
    requires Inv(s, id) && Enabled(s, e) && Timely(s, e, id)
    ensures OnePossessor(Next(s, e), id)
  {
    forall w, v | Possesses(Next(s, e), w, id) && Possesses(Next(s, e), v, id) ensures w == v {
      PossessionBeginsAlone(s, e, id, w);
      PossessionBeginsAlone(s, e, id, v);
    }
  }

  lemma StepKeepsRowShowingLease(s: System, e: Event, id: nat)
    requires Inv(s, id) && Enabled(s, e) && Timely(s, e, id)
    ensures RowShowsLease(Next(s, e), id)
  {
    if Records(s, e, id) {
      TimelyRecorderPossesses(s, e, id);
    } else {
      forall w | Possesses(Next(s, e), w, id)
        ensures Possesses(s, w, id) || (e == CommitClaim(w) && forall v :: !Possesses(s, v, id))
      {
        PossessionBeginsAlone(s, e, id, w);
      }
    }
  }

  lemma StepKeepsAttempts(s: System, e: Event, id: nat)
    requires Inv(s, id) && Enabled(s, e) && Timely(s, e, id)
    ensures AttemptsLeft(Next(s, e), id) && ReadingsAreOld(Next(s, e))
  {
    if Records(s, e, id) {
      TimelyRecorderPossesses(s, e, id);
    }
  }

  lemma TimelyStepKeepsInvariant(s: System, e: Event, id: nat)
    requires Inv(s, id) && Enabled(s, e) && Timely(s, e, id)
    ensures Inv(Next(s, e), id)
  {
    StepKeepsOnePossessor(s, e, id);
    StepKeepsRowShowingLease(s, e, id);
    StepKeepsAttempts(s, e, id);
  }

  /** If a delivery's records are timely, then in every state at most one worker
      possesses it, its attempts never exceed the ceiling, and while it waits one is left. */
  lemma {:induction false} TimelyRunsKeepInvariant(s: System, es: seq<Event>, id: nat)
    requires Initial(s) && Run(s, es).Some? && AllTimely(s, es, id)
    ensures Inv(Run(s, es).value, id)
    decreases |es|
  {
    if es != [] {
      TimelyRunsKeepInvariant(s, Front(es), id);
      TimelyStepKeepsInvariant(Run(s, Front(es)).value, Last(es), id);
    }
  }

  predicate Terminal(t: Table, id: nat) {
    id in t && t[id].status != Waiting
  }

  /** What a recorded reply leaves in the row, field by field. */
  lemma RecordWritesOutcome(s: System, w: nat, reply: Reply, delay: int)
    requires Enabled(s, Record(w, reply, delay)) && s.workers[w].id in s.table
    ensures var id := s.workers[w].id;
      var before, after := s.table[id], Next(s, Record(w, reply, delay)).table;
      var used := s.workers[w].phase.attempt;
      var accepted := reply.Answered? && 200 <= reply.status <= 299;
      var retryable := reply.Unreachable? || (reply.Answered? && reply.status in {408, 425, 429, 500, 502, 503, 504});
      && after.Keys == s.table.Keys
      && (forall other :: other in after && other != id ==> after[other] == s.table[other])
      && after[id].attemptCount == used && after[id].maxAttempts == before.maxAttempts
      && after[id].runId == before.runId && after[id].nodeId == before.nodeId
      && (accepted ==> after[id].status == Succeeded && after[id].scheduledFor == None)
      && (retryable && used < s.workers[w].phase.maxAttempts ==>
            after[id].status == Waiting && after[id].scheduledFor == Some(s.clock + delay))
      && (!accepted && !(retryable && used < s.workers[w].phase.maxAttempts) ==>
            after[id].status == DeadLetter && after[id].scheduledFor == None)
  {
  }

  /** What a record leaves in the row. */
  function Recorded(s: System, w: nat, reply: Reply, delay: int): Delivery
    requires Enabled(s, Record(w, reply, delay)) && s.workers[w].id in s.table
  {
    Commit(s.table, WriteFor(s, w, reply, delay))[s.workers[w].id]
  }

  /** Claims pass over a terminal row, so a step changes it exactly when it is a
      record, by a worker of that delivery, of something the row does not already say. */
  lemma TerminalRowChangesExactlyOnRecord(s: System, e: Event, id: nat)
    requires Enabled(s, e) && Terminal(s.table, id)
    ensures id in Next(s, e).table
    ensures Next(s, e).table[id] != s.table[id]
            <==> Records(s, e, id) && Recorded(s, e.w, e.reply, e.delay) != s.table[id]
  {
  }

  lemma TimelyStepKeepsTerminal(s: System, e: Event, id: nat)
    requires Inv(s, id) && Enabled(s, e) && Timely(s, e, id) && Terminal(s.table, id)
    ensures id in Next(s, e).table && Next(s, e).table[id] == s.table[id]
  {
    TerminalRowChangesExactlyOnRecord(s, e, id);
    if Records(s, e, id) {
      TimelyRecorderPossesses(s, e, id);
      assert false;
    }
  }

  /** If a delivery's records are timely, its succeeded or dead-lettered row is never
      written again. */
  lemma {:induction false} TerminalForever(s: System, es: seq<Event>, i: nat, id: nat)
    requires Initial(s) && Run(s, es).Some? && AllTimely(s, es, id) && i <= |es|
    requires Run(s, es[..i]).Some? && Terminal(Run(s, es[..i]).value.table, id)
    ensures id in Run(s, es).value.table
    ensures Run(s, es).value.table[id] == Run(s, es[..i]).value.table[id]
    decreases |es|
  {
    if i == |es| {
      assert es[..i] == es;
    } else {
      assert Front(es)[..i] == es[..i];
      TerminalForever(s, Front(es), i, id);
      TimelyRunsKeepInvariant(s, Front(es), id);
      TimelyStepKeepsTerminal(Run(s, Front(es)).value, Last(es), id);
    }
  }

  /** The replies recorded for `id` in a run, in order. */
  function Replies(s: System, es: seq<Event>, id: nat): seq<Reply>
    requires Run(s, es).Some?
    decreases |es|
  {
    if es == [] then []
    else
      Replies(s, Front(es), id)
      + if Records(Run(s, Front(es)).value, Last(es), id) then [Last(es).reply] else []
  }

  predicate Accepted(reply: Reply) {
    reply.Answered? && 200 <= reply.status <= 299
  }

  predicate WorthRetrying(reply: Reply) {
    reply.Unreachable? || (reply.Answered? && reply.status in {408, 425, 429, 500, 502, 503, 504})
  }

  /** The status a delivery has after these replies, the last of them final if any is. */
  ghost predicate Tells(replies: seq<Reply>, maxAttempts: int, status: Status) {
    && |replies| <= maxAttempts
    && (forall k :: 0 <= k < |replies| - 1 ==> WorthRetrying(replies[k]))
    && (status == Succeeded <==> exists reply :: reply in replies && Accepted(reply))
    && (status == DeadLetter <==>
          (exists reply :: reply in replies && !Accepted(reply) && !WorthRetrying(reply))
          || (|replies| == maxAttempts && forall reply :: reply in replies ==> WorthRetrying(reply)))
    && (status == Waiting <==>
          |replies| < maxAttempts && forall reply :: reply in replies ==> WorthRetrying(reply))
  }

  lemma OneMoreReplyTells(replies: seq<Reply>, reply: Reply, maxAttempts: int, status: Status)
    requires Tells(replies, maxAttempts, Waiting)
    requires status == if Accepted(reply) then Succeeded
                       else if WorthRetrying(reply) && |replies| + 1 < maxAttempts then Waiting else DeadLetter
    ensures Tells(replies + [reply], maxAttempts, status)
  {
    var more := replies + [reply];
    assert forall r :: r in more <==> r in replies || r == reply;
    assert reply in more;
  }

  /** If its records are timely, a delivery has succeeded exactly if a request of it was
      answered with a 2xx status; it is dead-lettered exactly if one met a failure that
      is not worth retrying, or all its attempts met failures that are; it waits while
      every reply was worth retrying and attempts are left. */
  lemma {:induction false} StatusTellsReplies(s: System, es: seq<Event>, id: nat)
    requires Initial(s) && Run(s, es).Some? && AllTimely(s, es, id)
    ensures id !in Run(s, es).value.table ==> Replies(s, es, id) == []
    ensures id in Run(s, es).value.table ==>
      var d := Run(s, es).value.table[id];
      Tells(Replies(s, es, id), d.maxAttempts, d.status) && d.attemptCount == |Replies(s, es, id)|
    decreases |es|
  {
    if es != [] {
      var before, e := Run(s, Front(es)).value, Last(es);
      StatusTellsReplies(s, Front(es), id);
      TimelyRunsKeepInvariant(s, Front(es), id);
      if Records(before, e, id) {
        TimelyRecorderPossesses(before, e, id);
        RecordWritesOutcome(before, e.w, e.reply, e.delay);
        OneMoreReplyTells(Replies(s, Front(es), id), e.reply, before.table[id].maxAttempts,
                          Next(before, e).table[id].status);
      } else {
        OtherStepsKeepOutcome(before, e, id);
      }
    }
  }

  /** If its records are timely, a delivery's `attempt_count` counts them exactly, so
      it is recorded at most `max_attempts` times. */
  lemma AttemptCountIsRecords(s: System, es: seq<Event>, id: nat)
    requires Initial(s) && Run(s, es).Some? && AllTimely(s, es, id) && id in Run(s, es).value.table
    ensures Run(s, es).value.table[id].attemptCount == |Replies(s, es, id)|
    ensures |Replies(s, es, id)| <= Run(s, es).value.table[id].maxAttempts
  {
    StatusTellsReplies(s, es, id);
  }

  /** Only records change a delivery's status, attempts or ceiling. */
  lemma OtherStepsKeepOutcome(s: System, e: Event, id: nat)
    requires Enabled(s, e) && !Records(s, e, id)
    ensures id in s.table ==>
      id in Next(s, e).table && Next(s, e).table[id] == s.table[id].(scheduledFor := Next(s, e).table[id].scheduledFor)
    ensures id !in s.table && id in Next(s, e).table ==> Fresh(Next(s, e).table[id])
  {
  }

  // ---------- What holds without the discipline ----------

  /** The leases granted on `id` since the last retry recorded for it. */
  function Leases(s: System, es: seq<Event>, id: nat): seq<(int, int)>
    requires Run(s, es).Some?
    decreases |es|
  {
    if es == [] then []
    else
      var before, e := Run(s, Front(es)).value, Last(es);
      var leases := Leases(s, Front(es), id);
      if e.CommitClaim? && before.workers[e.w].id == id
         && Matches(before.table, Claim(id, before.workers[e.w].phase.now, before.workers[e.w].phase.lease))
      then leases + [(before.workers[e.w].phase.now, before.workers[e.w].phase.lease)]
      else if e.Record? && WriteFor(before, e.w, e.reply, e.delay).Retry? && before.workers[e.w].id == id then []
      else leases
  }

  /** Even with late records, two successful claims with no retry recorded between
      them are at least one lease apart. */
  lemma {:induction false} ClaimsAreOneLeaseApart(s: System, es: seq<Event>, id: nat)
    requires Initial(s) && Run(s, es).Some?
    ensures var leases := Leases(s, es, id);
      forall i :: 0 < i < |leases| ==> leases[i].0 >= leases[i - 1].0 + leases[i - 1].1
    ensures var leases := Leases(s, es, id);
      leases != [] ==>
        && id in Run(s, es).value.table
        && (Run(s, es).value.table[id].status == Waiting ==>
              Run(s, es).value.table[id].scheduledFor == Some(Last(leases).0 + Last(leases).1))
    decreases |es|
  {
    if es != [] {
      ClaimsAreOneLeaseApart(s, Front(es), id);
    }
  }

  /** A delivery waits exactly while its next attempt has a time. */
  lemma {:induction false} WaitingIffScheduled(s: System, es: seq<Event>, id: nat)
    requires Initial(s) && Run(s, es).Some? && id in Run(s, es).value.table
    ensures Run(s, es).value.table[id].status == Waiting <==> Run(s, es).value.table[id].scheduledFor.Some?
    decreases |es|
  {
    if es != [] {
      if id in Run(s, Front(es)).value.table {
        WaitingIffScheduled(s, Front(es), id);
      }
    }
  }

  lemma ExtendRun(s: System, es: seq<Event>, e: Event)
    requires Run(s, es).Some? && Enabled(Run(s, es).value, e)
    ensures Run(s, es + [e]) == Some(Next(Run(s, es).value, e))
  {
    assert Front(es + [e]) == es;
  }

  /** The event records an outcome of `id` at or after the recorder's lease end. */
  predicate Late(s: System, e: Event, id: nat)
    requires Enabled(s, e)
  {
    Records(s, e, id) && s.clock >= s.workers[e.w].phase.until
  }

  lemma {:induction false} PrefixRuns(s: System, es: seq<Event>, i: nat)
    requires Run(s, es).Some? && i <= |es|
    ensures Run(s, es[..i]).Some?
    ensures i < |es| ==> Enabled(Run(s, es[..i]).value, es[i])
    decreases |es|
  {
    if i == |es| {
      assert es[..i] == es;
    } else {
      PrefixRuns(s, Front(es), i);
      assert Front(es)[..i] == es[..i];
    }
  }

  /** A run whose records of `id` are not all timely has a late one. */
  lemma {:induction false} UntimelyRunHasLateRecord(s: System, es: seq<Event>, id: nat) returns (i: nat)
    requires Run(s, es).Some? && !AllTimely(s, es, id)
    ensures i < |es| && Run(s, es[..i]).Some? && Enabled(Run(s, es[..i]).value, es[i])
    ensures Late(Run(s, es[..i]).value, es[i], id)
    decreases |es|
  {
    assert es != [];
    if AllTimely(s, Front(es), id) {
      i := |es| - 1;
      assert es[..i] == Front(es);
    } else {
      i := UntimelyRunHasLateRecord(s, Front(es), id);
      assert Front(es)[..i] == es[..i];
    }
  }

  /** Whenever a terminal row is written again, in any run at all, some record of that
      delivery, this one or an earlier one, was made at or after its worker's lease end. */
  lemma RewrittenTerminalHasLateRecord(s: System, es: seq<Event>, e: Event, id: nat) returns (i: nat)
    requires Initial(s) && Run(s, es).Some? && Enabled(Run(s, es).value, e)
    requires Terminal(Run(s, es).value.table, id)
    requires Next(Run(s, es).value, e).table[id] != Run(s, es).value.table[id]
    ensures i <= |es| && Run(s, (es + [e])[..i]).Some? && Enabled(Run(s, (es + [e])[..i]).value, (es + [e])[i])
    ensures Late(Run(s, (es + [e])[..i]).value, (es + [e])[i], id)
  {
    ExtendRun(s, es, e);
    assert Front(es + [e]) == es && Last(es + [e]) == e;
    if AllTimely(s, es + [e], id) {
      TimelyRunsKeepInvariant(s, es, id);
      TimelyStepKeepsTerminal(Run(s, es).value, e, id);
      assert false;
    }
    i := UntimelyRunHasLateRecord(s, es + [e], id);
  }

  /** The discipline is needed: a worker that records after its lease ended turns
      a succeeded delivery back into a waiting one. */
  lemma LateRecordReopensDelivery() returns (s: System, es: seq<Event>)
    ensures Initial(s) && Run(s, es).Some? && es != []
    ensures Run(s, Front(es)).Some? && Terminal(Run(s, Front(es)).value.table, 1)
    ensures 1 in Run(s, es).value.table && Run(s, es).value.table[1].status == Waiting
  {
    s := System(0, map[1 := Delivery(1, "node", Waiting, 0, 5, Some(0))], map[]);
    es := [];
    es := ClaimAndFetch(s, es, 0, 10);
    ExtendRun(s, es, Tick(10));
    es := ClaimAndFetch(s, es + [Tick(10)], 1, 10);
    ExtendRun(s, es, Record(1, Answered(200), 0));
    es := es + [Record(1, Answered(200), 0)];
    ExtendRun(s, es, Record(0, Unreachable, 60));
    assert Front(es + [Record(0, Unreachable, 60)]) == es;
    es := es + [Record(0, Unreachable, 60)];
  }

  /** The rewriting record need not be the late one: a worker whose lease was taken
      over records late, and the new holder's timely record rewrites what it left. */
  lemma TimelyRecordRewritesTerminal() returns (s: System, es: seq<Event>, e: Event)
    ensures Initial(s) && Run(s, es).Some? && Enabled(Run(s, es).value, e)
    ensures Terminal(Run(s, es).value.table, 1) && Records(Run(s, es).value, e, 1) && Timely(Run(s, es).value, e, 1)
    ensures Next(Run(s, es).value, e).table[1] != Run(s, es).value.table[1]
  {
    s := System(0, map[1 := Delivery(1, "node", Waiting, 0, 5, Some(0))], map[]);
    es := [];
    es := ClaimAndFetch(s, es, 0, 10);
    ExtendRun(s, es, Tick(10));
    es := ClaimAndFetch(s, es + [Tick(10)], 1, 10);
    ExtendRun(s, es, Record(0, Answered(200), 0));
    es := es + [Record(0, Answered(200), 0)];
    e := Record(1, Unreachable, 60);
  }

  lemma ClaimAndFetch(s: System, es: seq<Event>, w: nat, lease: int) returns (es': seq<Event>)
    requires Run(s, es).Some? && w !in Run(s, es).value.workers && lease > 0
    requires 1 in Run(s, es).value.table && Claimable(Run(s, es).value.table[1], Run(s, es).value.clock)
    ensures Run(s, es').Some?
    ensures var before := Run(s, es).value;
      var d := before.table[1];
      var until := before.clock + lease;
      Run(s, es').value == System(before.clock, before.table[1 := d.(scheduledFor := Some(until))],
                                  before.workers[w := Worker(1, Fetched(until, d.attemptCount + 1, d.maxAttempts))])
  {
    var before := Run(s, es).value;
    ExtendRun(s, es, ReadClock(w, 1, lease));
    es' := es + [ReadClock(w, 1, lease)];
    ExtendRun(s, es', CommitClaim(w));
    es' := es' + [CommitClaim(w)];
    ExtendRun(s, es', Fetch(w));
    es' := es' + [Fetch(w)];
    assert before.workers[w := Worker(1, ClockRead(before.clock, lease))]
             [w := Worker(1, Claimed(before.clock + lease))].Keys == before.workers.Keys + {w};
  }

  // ---------- The sweeper ----------

  predicate Due(t: Table, id: nat, cutoff: int) {
    id in t && t[id].status == Waiting && t[id].scheduledFor.Some? && t[id].scheduledFor.value <= cutoff
  }

  /** The sweeper's predicate differs from the claim's, but not on reachable states. */
  lemma {:induction false} DueIsClaimable(s: System, es: seq<Event>, id: nat, now: int)
    requires Initial(s) && Run(s, es).Some? && id in Run(s, es).value.table
    ensures Due(Run(s, es).value.table, id, now) <==> Claimable(Run(s, es).value.table[id], now)
  {
    WaitingIffScheduled(s, es, id);
  }

  predicate Increasing(ids: seq<nat>) {
    forall i, j :: 0 <= i < j < |ids| ==> ids[i] < ids[j]
  }

  lemma IncreasingConcat(a: seq<nat>, b: seq<nat>)
    requires Increasing(a) && Increasing(b)
    requires a != [] && b != [] ==> Last(a) < b[0]
    ensures Increasing(a + b)
    ensures forall id :: id in a ==> id <= Last(a)
  {
    forall i, j | 0 <= i < j < |a + b| ensures (a + b)[i] < (a + b)[j] {
      if i < |a| <= j {
        assert a[i] <= Last(a) < b[0] <= b[j - |a|];
      }
    }
  }

  /** One page: the first `limit` due ids above `after`, in id order. */
  ghost predicate IsPage(t: Table, cutoff: int, limit: nat, after: nat, page: seq<nat>) {
    && Increasing(page) && |page| <= limit
    && (forall id :: id in page ==> after < id && Due(t, id, cutoff))
    && (forall id :: after < id && Due(t, id, cutoff) && id !in page ==>
          |page| == limit && (page != [] ==> Last(page) < id))
  }

  method GetDueWebhookDeliveries(rows: Table, cutoff: int, limit: nat, after: nat) returns (page: seq<nat>)
    ensures IsPage(rows, cutoff, limit, after, page)
    ensures forall id :: id in page ==>
      after < id && id in rows && rows[id].status == Waiting
      && rows[id].scheduledFor.Some? && rows[id].scheduledFor.value <= cutoff
    ensures |page| < limit ==> forall id :: id in rows && after < id && id !in page ==>
      rows[id].status != Waiting || rows[id].scheduledFor.None? || rows[id].scheduledFor.value > cutoff
    ensures forall i, j :: 0 <= i < j < |page| ==> page[i] < page[j]
  {
    var due := set id | id in rows && after < id && Due(rows, id, cutoff);
    var before := (a: nat, b: nat) => a <= b;
    page := TakeFirst(due, before, limit);
    assert forall id :: id in due <==> after < id && Due(rows, id, cutoff);
    forall i, j | 0 <= i < j < |page| ensures page[i] < page[j] {
      assert before(page[i], page[j]);
    }
    forall id | id in due && id !in page ensures |page| == limit && (page != [] ==> Last(page) < id) {
      if page != [] {
        assert Last(page) in page && before(Last(page), id);
      }
    }
  }

  /** What one page query sees: rows may be claimed, retried and finished between pages. */
  datatype View = View(table: Table, cutoff: int)

  ghost predicate DueThroughout(views: nat -> View, pages: nat, id: nat) {
    forall n: nat :: n < pages ==> Due(views(n).table, id, views(n).cutoff)
  }

  const PAGE_SIZE := 100

  /** The sweeping loop over the successive `views`. While deliveries created during
      the sweep stay below `bound`, it stops; it never repeats an id, only takes due
      rows, and takes every row that stays due throughout. */
  method SweepWebhookDeliveries(views: nat -> View, bound: nat) returns (swept: seq<nat>, pages: nat)
    requires forall n, id :: id in views(n).table ==> 0 < id <= bound
    ensures Increasing(swept)
    ensures forall id :: id in swept ==> exists n :: 0 <= n < pages && Due(views(n).table, id, views(n).cutoff)
    ensures forall id :: DueThroughout(views, pages, id) ==> id in swept
  {
    swept, pages := [], 0;
    var after := 0;
    while true
      invariant Increasing(swept) && after <= bound
      invariant forall id :: id in swept ==> id <= after
      invariant forall id :: id in swept ==> exists n :: 0 <= n < pages && Due(views(n).table, id, views(n).cutoff)
      invariant forall id :: 0 < id <= after && DueThroughout(views, pages, id) ==> id in swept
      decreases bound - after
    {
      var due := GetDueWebhookDeliveries(views(pages).table, views(pages).cutoff, PAGE_SIZE, after);
      pages := pages + 1;
      if due == [] {
        return;
      }
      assert due[0] in due && Last(due) in due;
      IncreasingConcat(due, []);
      if swept != [] {
        assert Last(swept) in swept;
      }
      IncreasingConcat(swept, due);
      swept := swept + due;
      after := Last(due);
      if |due| < PAGE_SIZE {
        return;
      }
    }
  }
}
