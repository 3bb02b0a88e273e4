/**
 Redialing a campaign: the recursive query that gathers each subscriber's retries
 under its root run, the choice of the latest call per root, and the transaction
 that seeds a child campaign with the chosen roots.
 */
module CampaignRedial {
  import opened Common

  type Context = map<string, string>

  datatype QueuedRun = QueuedRun(
    campaignId: nat, sourceUuid: string, context: Context, retryCount: nat, parent: Option<nat>)

  /** `callTags` is None when the gathered context has no list of tags. */
  datatype WorkflowRun = WorkflowRun(
    campaignId: Option<nat>, queuedRunId: Option<nat>, createdAt: int, callTags: Option<seq<string>>)

  type Runs = map<nat, QueuedRun>
  type Calls = map<nat, WorkflowRun>

  // ---------- What the recursive query should mean ----------

  predicate InCampaign(runs: Runs, cid: nat, id: nat) {
    id in runs && runs[id].campaignId == cid
  }

  predicate Root(runs: Runs, cid: nat, id: nat) {
    InCampaign(runs, cid, id) && runs[id].parent.None?
  }

  predicate ChildOf(runs: Runs, cid: nat, id: nat, parent: nat) {
    InCampaign(runs, cid, id) && runs[id].parent == Some(parent)
  }

  /** Following `n` parent links from `id`, all inside the campaign, ends at `root`. */
  ghost predicate LeadsTo(runs: Runs, cid: nat, id: nat, root: nat, n: nat)
    decreases n
  {
    if n == 0 then id == root && Root(runs, cid, id)
    else InCampaign(runs, cid, id) && runs[id].parent.Some? && LeadsTo(runs, cid, runs[id].parent.value, root, n - 1)
  }

  ghost predicate DescendsFrom(runs: Runs, cid: nat, id: nat, root: nat) {
    exists n: nat :: LeadsTo(runs, cid, id, root, n)
  }

  datatype Pair = Pair(rootId: nat, runId: nat)

  ghost predicate Within(runs: Runs, cid: nat, p: Pair, depth: nat) {
    exists n: nat :: n < depth && LeadsTo(runs, cid, p.runId, p.rootId, n)
  }

  lemma {:induction false} LeadsToOnce(runs: Runs, cid: nat, id: nat, r1: nat, n1: nat, r2: nat, n2: nat)
    requires LeadsTo(runs, cid, id, r1, n1) && LeadsTo(runs, cid, id, r2, n2)
    ensures r1 == r2 && n1 == n2
    decreases n1
  {
    if n1 != 0 && n2 != 0 {
      LeadsToOnce(runs, cid, runs[id].parent.value, r1, n1 - 1, r2, n2 - 1);
    }
  }

  /** The runs on the way from `id` to its root, `n` links up. */
  ghost function Chain(runs: Runs, cid: nat, id: nat, root: nat, n: nat): set<nat>
    requires LeadsTo(runs, cid, id, root, n)
    decreases n
  {
    if n == 0 then {id} else {id} + Chain(runs, cid, runs[id].parent.value, root, n - 1)
  }

  lemma {:induction false} ChainHasDistinctRuns(runs: Runs, cid: nat, id: nat, root: nat, n: nat)
    requires LeadsTo(runs, cid, id, root, n)
    ensures Chain(runs, cid, id, root, n) <= runs.Keys && |Chain(runs, cid, id, root, n)| == n + 1
    ensures forall x :: x in Chain(runs, cid, id, root, n) ==> Within(runs, cid, Pair(root, x), n + 1)
    decreases n
  {
    if n == 0 {
      assert LeadsTo(runs, cid, id, root, 0);
    } else {
      var rest := Chain(runs, cid, runs[id].parent.value, root, n - 1);
      ChainHasDistinctRuns(runs, cid, runs[id].parent.value, root, n - 1);
      if id in rest {
        assert Within(runs, cid, Pair(root, id), n);
        var m: nat :| m < n && LeadsTo(runs, cid, id, root, m);
        LeadsToOnce(runs, cid, id, root, n, root, m);
        assert false;
      }
      forall x | x in Chain(runs, cid, id, root, n) ensures Within(runs, cid, Pair(root, x), n + 1) {
        if x in rest {
          assert Within(runs, cid, Pair(root, x), n);
        } else {
          assert LeadsTo(runs, cid, x, root, n);
        }
      }
    }
  }

  lemma SubsetIsNoLarger(a: set<nat>, b: set<nat>)
    requires a <= b
    ensures |a| <= |b|
  {
    assert b == a + (b - a);
  }

  /** Even when other rows form parent cycles, no path down from a root is longer
      than the table, so the recursion stops. */
  lemma DepthIsBounded(runs: Runs, cid: nat, id: nat, root: nat, n: nat)
    requires LeadsTo(runs, cid, id, root, n)
    ensures n < |runs|
  {
    ChainHasDistinctRuns(runs, cid, id, root, n);
    SubsetIsNoLarger(Chain(runs, cid, id, root, n), runs.Keys);
  }

  // ---------- The query ----------

  method SelectRoots(runs: Runs, cid: nat) returns (roots: seq<nat>)
    ensures Distinct(roots) && forall id :: id in roots <==> Root(runs, cid, id)
  {
    var rest := runs.Keys;
    roots := [];
    while rest != {}
      invariant rest <= runs.Keys && Distinct(roots) && forall id :: id in roots ==> id !in rest
      invariant forall id :: id in roots <==> Root(runs, cid, id) && id !in rest
      decreases rest
    {
      var id :| id in rest;
      rest := rest - {id};
      if Root(runs, cid, id) {
        roots := roots + [id];
      }
    }
  }

  /** One recursive step: the working rows joined with their children. */
  method JoinChildren(runs: Runs, cid: nat, working: seq<Pair>) returns (next: seq<Pair>)
    requires Distinct(working)
    ensures Distinct(next)
    ensures forall p :: p in next <==>
      exists w :: w in working && w.rootId == p.rootId && ChildOf(runs, cid, p.runId, w.runId)
  {
    next := [];
    var k := 0;
    while k < |working|
      invariant 0 <= k <= |working| && Distinct(next)
      invariant forall p :: p in next <==>
        exists w :: w in working[..k] && w.rootId == p.rootId && ChildOf(runs, cid, p.runId, w.runId)
    {
      var w := working[k];
      assert w !in working[..k];
      var children := SelectChildren(runs, cid, w);
      forall p | p in children ensures p !in next {}
      assert working[..k + 1] == working[..k] + [w];
      next := next + children;
      k := k + 1;
    }
    assert working[..k] == working;
  }

  method SelectChildren(runs: Runs, cid: nat, w: Pair) returns (children: seq<Pair>)
    ensures Distinct(children)
    ensures forall p :: p in children <==> p.rootId == w.rootId && ChildOf(runs, cid, p.runId, w.runId)
  {
    var rest := runs.Keys;
    children := [];
    while rest != {}
      invariant rest <= runs.Keys && Distinct(children)
      invariant forall p :: p in children <==>
        p.rootId == w.rootId && ChildOf(runs, cid, p.runId, w.runId) && p.runId !in rest
      decreases rest
    {
      var id :| id in rest;
      rest := rest - {id};
      if ChildOf(runs, cid, id, w.runId) {
        children := children + [Pair(w.rootId, id)];
      }
    }
  }

  ghost predicate IsLevel(runs: Runs, cid: nat, level: seq<Pair>, depth: nat) {
    Distinct(level) && forall p :: p in level <==> LeadsTo(runs, cid, p.runId, p.rootId, depth)
  }

  ghost predicate IsTreeBelow(runs: Runs, cid: nat, tree: seq<Pair>, depth: nat) {
    Distinct(tree) && forall p :: p in tree <==> Within(runs, cid, p, depth)
  }

  lemma JoinIsNextLevel(runs: Runs, cid: nat, working: seq<Pair>, next: seq<Pair>, depth: nat)
    requires IsLevel(runs, cid, working, depth) && Distinct(next)
    requires forall p :: p in next <==>
      exists w :: w in working && w.rootId == p.rootId && ChildOf(runs, cid, p.runId, w.runId)
    ensures IsLevel(runs, cid, next, depth + 1)
  {
    forall p ensures p in next <==> LeadsTo(runs, cid, p.runId, p.rootId, depth + 1) {
      if LeadsTo(runs, cid, p.runId, p.rootId, depth + 1) {
        var w := Pair(p.rootId, runs[p.runId].parent.value);
        assert w in working && ChildOf(runs, cid, p.runId, w.runId);
      }
    }
  }

  lemma LevelsAddUp(runs: Runs, cid: nat, tree: seq<Pair>, level: seq<Pair>, depth: nat)
    requires IsTreeBelow(runs, cid, tree, depth) && IsLevel(runs, cid, level, depth)
    ensures IsTreeBelow(runs, cid, tree + level, depth + 1)
  {
    forall p | p in tree && p in level ensures false {
      var n: nat :| n < depth && LeadsTo(runs, cid, p.runId, p.rootId, n);
      LeadsToOnce(runs, cid, p.runId, p.rootId, n, p.rootId, depth);
    }
    forall p | p in tree ensures p !in level {
      var n: nat :| n < depth && LeadsTo(runs, cid, p.runId, p.rootId, n);
      if p in level {
        LeadsToOnce(runs, cid, p.runId, p.rootId, n, p.rootId, depth);
      }
    }
    DistinctConcat(tree, level);
    forall p ensures p in tree + level <==> Within(runs, cid, p, depth + 1) {
      assert p in tree <==> Within(runs, cid, p, depth);
      assert p in level <==> LeadsTo(runs, cid, p.runId, p.rootId, depth);
    }
  }

  lemma {:induction false} DeeperRunFillsLevel(runs: Runs, cid: nat, level: seq<Pair>, depth: nat,
                                               id: nat, root: nat, n: nat)
    requires IsLevel(runs, cid, level, depth) && LeadsTo(runs, cid, id, root, n) && n >= depth
    ensures level != []
    decreases n
  {
    if n == depth {
      assert Pair(root, id) in level;
    } else {
      DeeperRunFillsLevel(runs, cid, level, depth, runs[id].parent.value, root, n - 1);
    }
  }

  /** The recursive query pairs a run with a root exactly when its parents, all in
      the campaign, lead to that root; every pair comes once. Termination is part
      of the claim: no assumption is made about the parent links. */
  method RunTree(runs: Runs, cid: nat) returns (tree: seq<Pair>)
    ensures Distinct(tree)
    ensures forall p :: p in tree <==> DescendsFrom(runs, cid, p.runId, p.rootId)
  {
    var roots := SelectRoots(runs, cid);
    var working := seq(|roots|, i requires 0 <= i < |roots| => Pair(roots[i], roots[i]));
    forall p ensures p in working <==> LeadsTo(runs, cid, p.runId, p.rootId, 0) {
      if LeadsTo(runs, cid, p.runId, p.rootId, 0) {
        var i :| 0 <= i < |roots| && roots[i] == p.runId;
        assert working[i] == p;
      }
    }
    tree := [];
    var depth := 0;
    while working != []
      invariant IsLevel(runs, cid, working, depth) && IsTreeBelow(runs, cid, tree, depth)
      invariant depth <= |runs|
      decreases |runs| - depth
    {
      assert working[0] in working;
      DepthIsBounded(runs, cid, working[0].runId, working[0].rootId, depth);
      LevelsAddUp(runs, cid, tree, working, depth);
      tree := tree + working;
      var next := JoinChildren(runs, cid, working);
      JoinIsNextLevel(runs, cid, working, next, depth);
      working := next;
      depth := depth + 1;
    }
    forall p ensures p in tree <==> DescendsFrom(runs, cid, p.runId, p.rootId) {
      if n: nat :| LeadsTo(runs, cid, p.runId, p.rootId, n) {
        if n >= depth {
          DeeperRunFillsLevel(runs, cid, working, depth, p.runId, p.rootId, n);
        }
        assert n < depth;
      }
    }
  }

  /** `rank` witnesses that parent links stay in the campaign and form no cycle. */
  ghost predicate Acyclic(runs: Runs, cid: nat, rank: map<nat, nat>) {
    forall id :: InCampaign(runs, cid, id) && runs[id].parent.Some? ==>
      InCampaign(runs, cid, runs[id].parent.value)
      && id in rank && runs[id].parent.value in rank && rank[runs[id].parent.value] < rank[id]
  }

  lemma {:induction false} AcyclicRunHasRoot(runs: Runs, cid: nat, rank: map<nat, nat>, id: nat)
    returns (root: nat, n: nat)
    requires Acyclic(runs, cid, rank) && InCampaign(runs, cid, id)
    ensures LeadsTo(runs, cid, id, root, n)
    decreases if id in rank then rank[id] + 1 else 0
  {
    if runs[id].parent.None? {
      root, n := id, 0;
    } else {
      var m;
      root, m := AcyclicRunHasRoot(runs, cid, rank, runs[id].parent.value);
      n := m + 1;
    }
  }

  /** The trees partition the campaign's runs, each run under exactly one root,
      exactly when parent links stay in the campaign and form no cycle. */
  lemma TreesPartitionExactlyWhenAcyclic(runs: Runs, cid: nat)
    ensures forall id, r, s :: DescendsFrom(runs, cid, id, r) && DescendsFrom(runs, cid, id, s) ==> r == s
    ensures (exists rank :: Acyclic(runs, cid, rank)) <==>
      (forall id :: InCampaign(runs, cid, id) ==> exists root :: DescendsFrom(runs, cid, id, root))
  {
    forall id, r, s | DescendsFrom(runs, cid, id, r) && DescendsFrom(runs, cid, id, s) ensures r == s {
      var n: nat :| LeadsTo(runs, cid, id, r, n);
      var m: nat :| LeadsTo(runs, cid, id, s, m);
      LeadsToOnce(runs, cid, id, r, n, s, m);
    }
    if rank :| Acyclic(runs, cid, rank) {
      forall id | InCampaign(runs, cid, id) ensures exists root :: DescendsFrom(runs, cid, id, root) {
        var root, n := AcyclicRunHasRoot(runs, cid, rank, id);
        assert DescendsFrom(runs, cid, id, root);
      }
    }
    if forall id :: InCampaign(runs, cid, id) ==> exists root :: DescendsFrom(runs, cid, id, root) {
      DepthsAreRanks(runs, cid);
    }
  }

  ghost function Depth(runs: Runs, cid: nat, id: nat): nat
    requires exists root :: DescendsFrom(runs, cid, id, root)
  {
    var root :| DescendsFrom(runs, cid, id, root);
    var n: nat :| LeadsTo(runs, cid, id, root, n);
    n
  }

  lemma DepthsAreRanks(runs: Runs, cid: nat)
    requires forall id :: InCampaign(runs, cid, id) ==> exists root :: DescendsFrom(runs, cid, id, root)
    ensures exists rank :: Acyclic(runs, cid, rank)
  {
    var rank := map id | id in runs && InCampaign(runs, cid, id) :: Depth(runs, cid, id);
    forall id | InCampaign(runs, cid, id) && runs[id].parent.Some?
      ensures InCampaign(runs, cid, runs[id].parent.value) && rank[runs[id].parent.value] < rank[id]
    {
      var parent := runs[id].parent.value;
      var root :| DescendsFrom(runs, cid, id, root) && LeadsTo(runs, cid, id, root, Depth(runs, cid, id));
      var n := Depth(runs, cid, id);
      assert LeadsTo(runs, cid, parent, root, n - 1);
      var other :| DescendsFrom(runs, cid, parent, other)
        && LeadsTo(runs, cid, parent, other, Depth(runs, cid, parent));
      LeadsToOnce(runs, cid, parent, root, n - 1, other, Depth(runs, cid, parent));
    }
    assert Acyclic(runs, cid, rank);
  }

  // ---------- Candidates ----------

  /** A call made for one of the runs under `root`. */
  ghost predicate CallUnder(runs: Runs, calls: Calls, cid: nat, root: nat, w: nat) {
    w in calls && calls[w].campaignId == Some(cid) && calls[w].queuedRunId.Some?
    && DescendsFrom(runs, cid, calls[w].queuedRunId.value, root)
  }

  /** Of all calls under `root`, one of the most recently created. */
  ghost predicate LatestCall(runs: Runs, calls: Calls, cid: nat, root: nat, w: nat) {
    CallUnder(runs, calls, cid, root, w)
    && forall v :: CallUnder(runs, calls, cid, root, v) ==> calls[v].createdAt <= calls[w].createdAt
  }

  predicate Tagged(call: WorkflowRun, selected: seq<string>) {
    call.callTags.Some? && exists tag :: tag in selected && tag in call.callTags.value
  }

  function SelectedTags(voicemail: bool, noAnswer: bool, busy: bool): seq<string> {
    (if voicemail then ["voicemail_detected"] else [])
    + (if noAnswer then ["telephony_no-answer"] else [])
    + (if busy then ["telephony_busy"] else [])
  }

  datatype Candidate = Candidate(sourceUuid: string, context: Context)

  /** DISTINCT ON root_id over the joined rows, newest call first. */
  method LatestPerRoot(runs: Runs, calls: Calls, cid: nat, tree: seq<Pair>) returns (latest: map<nat, nat>)
    requires forall p :: p in tree <==> DescendsFrom(runs, cid, p.runId, p.rootId)
    ensures forall root :: root in latest <==> exists w :: CallUnder(runs, calls, cid, root, w)
    ensures forall root :: root in latest ==> LatestCall(runs, calls, cid, root, latest[root])
  {
    latest := map[];
    var rest := calls.Keys;
    while rest != {}
      invariant rest <= calls.Keys
      invariant forall root :: root in latest ==>
        CallUnder(runs, calls, cid, root, latest[root]) && latest[root] !in rest
      invariant forall root, w :: CallUnder(runs, calls, cid, root, w) && w !in rest ==>
        root in latest && calls[w].createdAt <= calls[latest[root]].createdAt
      decreases rest
    {
      var w :| w in rest;
      ghost var before, unread := latest, rest;
      rest := rest - {w};
      var call := calls[w];
      if call.campaignId == Some(cid) && call.queuedRunId.Some? {
        var under := RootOf(runs, cid, tree, call.queuedRunId.value);
        if under.Some? {
          assert CallUnder(runs, calls, cid, under.value, w);
          if under.value !in latest || calls[latest[under.value]].createdAt < call.createdAt {
            latest := latest[under.value := w];
          }
        }
      }
      forall root, v | CallUnder(runs, calls, cid, root, v) && v !in rest
        ensures root in latest && calls[v].createdAt <= calls[latest[root]].createdAt
      {
        if v != w {
          assert v !in unread && root in before;
        }
      }
    }
  }

  /** The root a run is paired with, if any. */
  method RootOf(runs: Runs, cid: nat, tree: seq<Pair>, run: nat) returns (root: Option<nat>)
    requires forall p :: p in tree <==> DescendsFrom(runs, cid, p.runId, p.rootId)
    ensures forall r: nat :: DescendsFrom(runs, cid, run, r) <==> root == Some(r)
  {
    TreesPartitionExactlyWhenAcyclic(runs, cid);
    var i := 0;
    while i < |tree|
      invariant 0 <= i <= |tree| && forall k :: 0 <= k < i ==> tree[k].runId != run
    {
      if tree[i].runId == run {
        assert tree[i] in tree;
        return Some(tree[i].rootId);
      }
      i := i + 1;
    }
    forall r: nat ensures DescendsFrom(runs, cid, run, r) <==> Pair(r, run) in tree {}
    return None;
  }

  // ---------- The tables and their writers ----------

  /** A value in a campaign's orchestrator metadata. */
  datatype Value = Id(id: nat) | Setting(text: string)

  type Metadata = map<string, Value>

  datatype Campaign = Campaign(totalRows: nat, metadata: Metadata)

  const REDIALED := "redialed_campaign_id"
  const INHERITED := {"max_concurrency", "schedule_config", "circuit_breaker"}
  const PARENT := "parent_campaign_id"

  predicate AlreadyRedialed(metadata: Metadata) {
    REDIALED in metadata
    && match metadata[REDIALED]
       case Id(id) => id != 0
       case Setting(text) => text != ""
  }

  function ChildMetadata(parentId: nat, metadata: Metadata): Metadata {
    (map k | k in metadata && k in INHERITED :: metadata[k])[PARENT := Id(parentId)]
  }

  /** `nextRun` and `nextCampaign` are the identity sequences. */
  datatype Db = Db(campaigns: map<nat, Campaign>, nextCampaign: nat, runs: Runs, nextRun: nat, calls: Calls)

  function UniqueKey(run: QueuedRun): (nat, string, nat) {
    (run.campaignId, run.sourceUuid, run.retryCount)
  }

  /** unique_campaign_source_retry */
  predicate UniqueRuns(runs: Runs) {
    forall a, b :: a in runs && b in runs && UniqueKey(runs[a]) == UniqueKey(runs[b]) ==> a == b
  }

  function Seed(childId: nat, candidate: Candidate): QueuedRun {
    QueuedRun(childId, candidate.sourceUuid, candidate.context, 0, None)
  }

  function Seeded(runs: Runs, next: nat, childId: nat, candidates: seq<Candidate>): Runs {
    if candidates == [] then runs
    else
      Seeded(runs, next, childId, Front(candidates))
      [next + |candidates| - 1 := Seed(childId, Last(candidates))]
  }

  /** `candidates` come from `roots`, each once: the roots whose call in `latest`, a
      latest one of its whole tree, carries one of the tags. */
  ghost predicate AreCandidatesOf(db: Db, cid: nat, tags: seq<string>, candidates: seq<Candidate>,
                                  roots: seq<nat>, latest: map<nat, nat>)
  {
    && |roots| == |candidates| && Distinct(roots)
    && (forall i :: 0 <= i < |roots| ==>
          Root(db.runs, cid, roots[i])
          && candidates[i] == Candidate(db.runs[roots[i]].sourceUuid, db.runs[roots[i]].context))
    && (forall root :: root in latest <==> exists w :: CallUnder(db.runs, db.calls, cid, root, w))
    && (forall root :: root in latest ==> LatestCall(db.runs, db.calls, cid, root, latest[root]))
    && (forall root :: root in roots <==>
          root in latest && latest[root] in db.calls && Tagged(db.calls[latest[root]], tags))
  }

  /** Calls created at the same instant may be decided either way. */
  ghost predicate AreCandidates(db: Db, cid: nat, tags: seq<string>, candidates: seq<Candidate>) {
    exists roots, latest :: AreCandidatesOf(db, cid, tags, candidates, roots, latest)
  }

  /** The subscriber's first run, which a candidate repeats. */
  predicate IsOriginal(db: Db, cid: nat, root: nat, candidate: Candidate) {
    root in db.runs && db.runs[root].campaignId == cid && db.runs[root].parent == None
    && candidate.sourceUuid == db.runs[root].sourceUuid && candidate.context == db.runs[root].context
  }

  /** A call of the root or a retry below it, and no such call is more recent. */
  ghost predicate IsLatest(db: Db, cid: nat, root: nat, w: nat) {
    IsCallOf(db, cid, root, w)
    && forall v :: IsCallOf(db, cid, root, v) ==> db.calls[v].createdAt <= db.calls[w].createdAt
  }

  ghost predicate IsCallOf(db: Db, cid: nat, root: nat, w: nat) {
    w in db.calls && db.calls[w].campaignId == Some(cid) && db.calls[w].queuedRunId.Some?
    && exists n: nat :: LeadsTo(db.runs, cid, db.calls[w].queuedRunId.value, root, n)
  }

  /** The call carries the tag of a reason selected for redialing. */
  predicate FailedFor(call: WorkflowRun, voicemail: bool, noAnswer: bool, busy: bool) {
    call.callTags.Some?
    && ((voicemail && "voicemail_detected" in call.callTags.value)
        || (noAnswer && "telephony_no-answer" in call.callTags.value)
        || (busy && "telephony_busy" in call.callTags.value))
  }

  ghost predicate LastFailed(db: Db, cid: nat, root: nat, w: nat, voicemail: bool, noAnswer: bool, busy: bool) {
    IsLatest(db, cid, root, w) && FailedFor(db.calls[w], voicemail, noAnswer, busy)
  }

  /** The candidate repeats a subscriber whose latest call failed for a selected reason. */
  ghost predicate RepeatsFailed(db: Db, cid: nat, candidate: Candidate, voicemail: bool, noAnswer: bool, busy: bool) {
    exists root, w ::
      IsOriginal(db, cid, root, candidate) && LastFailed(db, cid, root, w, voicemail, noAnswer, busy)
  }

  lemma SelectedReasons(call: WorkflowRun, voicemail: bool, noAnswer: bool, busy: bool)
    ensures Tagged(call, SelectedTags(voicemail, noAnswer, busy)) <==> FailedFor(call, voicemail, noAnswer, busy)
  {
    var tags := SelectedTags(voicemail, noAnswer, busy);
    assert "voicemail_detected" in tags <==> voicemail;
    assert "telephony_no-answer" in tags <==> noAnswer;
    assert "telephony_busy" in tags <==> busy;
  }

  lemma LatestIsLatestCall(db: Db, cid: nat, root: nat, w: nat)
    ensures IsLatest(db, cid, root, w) <==> LatestCall(db.runs, db.calls, cid, root, w)
  {
    assert forall v :: IsCallOf(db, cid, root, v) <==> CallUnder(db.runs, db.calls, cid, root, v);
  }

  lemma CandidatesFailed(db: Db, cid: nat, voicemail: bool, noAnswer: bool, busy: bool, candidates: seq<Candidate>)
    requires AreCandidates(db, cid, SelectedTags(voicemail, noAnswer, busy), candidates)
    ensures forall i :: 0 <= i < |candidates| ==>
      RepeatsFailed(db, cid, candidates[i], voicemail, noAnswer, busy)
    ensures forall root, w :: LastFailed(db, cid, root, w, voicemail, noAnswer, busy) ==>
      (forall v :: IsLatest(db, cid, root, v) ==> v == w) ==>
        exists i :: 0 <= i < |candidates| && IsOriginal(db, cid, root, candidates[i])
  {
    var tags := SelectedTags(voicemail, noAnswer, busy);
    var roots, latest :| AreCandidatesOf(db, cid, tags, candidates, roots, latest);
    forall i | 0 <= i < |candidates|
      ensures RepeatsFailed(db, cid, candidates[i], voicemail, noAnswer, busy)
    {
      var root: nat := roots[i];
      assert root in roots && IsOriginal(db, cid, root, candidates[i]);
      var w: nat := latest[root];
      LatestIsLatestCall(db, cid, root, w);
      SelectedReasons(db.calls[w], voicemail, noAnswer, busy);
      assert LastFailed(db, cid, root, w, voicemail, noAnswer, busy);
    }
    forall root: nat, w: nat | LastFailed(db, cid, root, w, voicemail, noAnswer, busy)
      && forall v :: IsLatest(db, cid, root, v) ==> v == w
      ensures exists i :: 0 <= i < |candidates| && IsOriginal(db, cid, root, candidates[i])
    {
      LatestIsLatestCall(db, cid, root, w);
      assert CallUnder(db.runs, db.calls, cid, root, w) && root in latest;
      LatestIsLatestCall(db, cid, root, latest[root]);
      SelectedReasons(db.calls[w], voicemail, noAnswer, busy);
      assert root in roots;
      var i :| 0 <= i < |roots| && roots[i] == root;
      assert IsOriginal(db, cid, root, candidates[i]);
    }
  }

  datatype RedialError = AlreadyRedialedError | NoSuchParent | UniqueViolation

  /** The redial transaction; `metadata` is the caller's earlier reading of the parent. */
  function Redial(db: Db, parentId: nat, metadata: Metadata, candidates: seq<Candidate>): Result<Db, RedialError> {
    var childId := db.nextCampaign;
    var child := Campaign(|candidates|, ChildMetadata(parentId, metadata));
    var runs := Seeded(db.runs, db.nextRun, childId, candidates);
    if AlreadyRedialed(metadata) then Err(AlreadyRedialedError)
    else if parentId !in db.campaigns then Err(NoSuchParent)
    else if !UniqueRuns(runs) then Err(UniqueViolation)
    else
      var parent := db.campaigns[parentId].(metadata := metadata[REDIALED := Id(childId)]);
      Ok(Db(db.campaigns[childId := child][parentId := parent], childId + 1, runs, db.nextRun + |candidates|, db.calls))
  }

  /** What a redial leaves in the tables: a child campaign with the inherited settings, one
      first run for each candidate, and the parent's link to the child. */
  predicate IsRedial(db: Db, parentId: nat, metadata: Metadata, candidates: seq<Candidate>, childId: nat, after: Db) {
    && parentId in db.campaigns
    && LinksChild(db.campaigns, parentId, metadata, |candidates|, childId, after.campaigns)
    && after.calls == db.calls
    && forall j :: 0 <= j < |candidates| ==> IsSeeded(after.runs, db.nextRun + j, childId, candidates[j])
  }

  predicate LinksChild(campaigns: map<nat, Campaign>, parentId: nat, metadata: Metadata, totalRows: nat, childId: nat,
                       after: map<nat, Campaign>)
  {
    && childId in after && parentId in after
    && (childId != parentId ==>
          after[childId].totalRows == totalRows && InheritsSettings(parentId, metadata, after[childId].metadata))
    && after[parentId].metadata == metadata["redialed_campaign_id" := Id(childId)]
    && forall id :: id in campaigns && id != parentId && id != childId ==> id in after && after[id] == campaigns[id]
  }

  predicate IsSeeded(runs: Runs, id: nat, childId: nat, candidate: Candidate) {
    id in runs && runs[id] == QueuedRun(childId, candidate.sourceUuid, candidate.context, 0, None)
  }

  predicate InheritsSettings(parentId: nat, metadata: Metadata, inherited: Metadata) {
    && "parent_campaign_id" in inherited && inherited["parent_campaign_id"] == Id(parentId)
    && (forall k :: k in {"max_concurrency", "schedule_config", "circuit_breaker"} ==>
          if k in metadata then k in inherited && inherited[k] == metadata[k] else k !in inherited)
    && forall k :: k in inherited ==>
         k in {"max_concurrency", "schedule_config", "circuit_breaker", "parent_campaign_id"}
  }

  lemma ChildInheritsSettings(parentId: nat, metadata: Metadata)
    ensures InheritsSettings(parentId, metadata, ChildMetadata(parentId, metadata))
  {
  }

  lemma {:induction false} SeededRunAt(runs: Runs, next: nat, childId: nat, candidates: seq<Candidate>, j: nat)
    requires j < |candidates|
    ensures IsSeeded(Seeded(runs, next, childId, candidates), next + j, childId, candidates[j])
    decreases |candidates|
  {
    if j < |candidates| - 1 {
      SeededRunAt(runs, next, childId, Front(candidates), j);
    }
  }

  lemma ChildIsLinked(campaigns: map<nat, Campaign>, parentId: nat, metadata: Metadata, totalRows: nat, childId: nat)
    requires parentId in campaigns
    ensures var child := Campaign(totalRows, ChildMetadata(parentId, metadata));
      var parent := campaigns[parentId].(metadata := metadata[REDIALED := Id(childId)]);
      LinksChild(campaigns, parentId, metadata, totalRows, childId, campaigns[childId := child][parentId := parent])
  {
    ChildInheritsSettings(parentId, metadata);
  }

  lemma RedialIsWritten(db: Db, parentId: nat, metadata: Metadata, candidates: seq<Candidate>)
    ensures Redial(db, parentId, metadata, candidates).Ok? ==>
      IsRedial(db, parentId, metadata, candidates, db.nextCampaign, Redial(db, parentId, metadata, candidates).value)
  {
    if Redial(db, parentId, metadata, candidates).Ok? {
      ChildIsLinked(db.campaigns, parentId, metadata, |candidates|, db.nextCampaign);
      forall j | 0 <= j < |candidates|
        ensures IsSeeded(Seeded(db.runs, db.nextRun, db.nextCampaign, candidates), db.nextRun + j, db.nextCampaign,
                         candidates[j])
      {
        SeededRunAt(db.runs, db.nextRun, db.nextCampaign, candidates, j);
      }
    }
  }

  method SeedRuns(before: Runs, next: nat, childId: nat, candidates: seq<Candidate>) returns (runs: Runs)
    ensures runs == Seeded(before, next, childId, candidates)
  {
    runs := before;
    var i := 0;
    while i < |candidates|
      invariant 0 <= i <= |candidates|
      invariant runs == Seeded(before, next, childId, candidates[..i])
    {
      assert Front(candidates[..i + 1]) == candidates[..i];
      runs := runs[next + i := Seed(childId, candidates[i])];
      i := i + 1;
    }
    assert candidates[..i] == candidates;
  }

  method AssembleTags(voicemail: bool, noAnswer: bool, busy: bool) returns (tags: seq<string>)
    ensures tags == SelectedTags(voicemail, noAnswer, busy)
  {
    tags := [];
    if voicemail {
      tags := tags + ["voicemail_detected"];
    }
    if noAnswer {
      tags := tags + ["telephony_no-answer"];
    }
    if busy {
      tags := tags + ["telephony_busy"];
    }
  }

  /** The query's final WHERE clause. */
  method TaggedRoots(calls: Calls, latest: map<nat, nat>, tags: seq<string>) returns (roots: seq<nat>)
    requires forall root :: root in latest ==> latest[root] in calls
    ensures Distinct(roots)
    ensures forall root :: root in roots <==> root in latest && Tagged(calls[latest[root]], tags)
  {
    var rest := latest.Keys;
    roots := [];
    while rest != {}
      invariant rest <= latest.Keys && Distinct(roots)
      invariant forall root :: root in roots <==>
        root in latest && root !in rest && Tagged(calls[latest[root]], tags)
      decreases rest
    {
      var root :| root in rest;
      rest := rest - {root};
      if Tagged(calls[latest[root]], tags) {
        roots := roots + [root];
      }
    }
  }

  lemma LatestBelongToRoots(db: Db, cid: nat, latest: map<nat, nat>)
    requires forall root :: root in latest ==> LatestCall(db.runs, db.calls, cid, root, latest[root])
    ensures forall root :: root in latest ==> Root(db.runs, cid, root)
  {
    forall root | root in latest ensures Root(db.runs, cid, root) {
      var w := latest[root];
      assert CallUnder(db.runs, db.calls, cid, root, w);
      DescendantsHaveARoot(db.runs, cid, db.calls[w].queuedRunId.value, root);
    }
  }

  /** Some choice of latest calls exists. */
  lemma HasLatest(runs: Runs, calls: Calls, cid: nat) returns (latest: map<nat, nat>)
    ensures forall root :: root in latest <==> exists w :: CallUnder(runs, calls, cid, root, w)
    ensures forall root :: root in latest ==> LatestCall(runs, calls, cid, root, latest[root])
  {
    var called := set root | root in runs && exists w :: CallUnder(runs, calls, cid, root, w);
    forall root | root in called ensures exists w :: LatestCall(runs, calls, cid, root, w) {
      var w :| CallUnder(runs, calls, cid, root, w);
      LatestExists(runs, calls, cid, root, w);
    }
    latest := map root | root in called :: PickLatest(runs, calls, cid, root);
    forall root | exists w :: CallUnder(runs, calls, cid, root, w) ensures root in called {
      var w :| CallUnder(runs, calls, cid, root, w);
      DescendantsHaveARoot(runs, cid, calls[w].queuedRunId.value, root);
    }
  }

  ghost function PickLatest(runs: Runs, calls: Calls, cid: nat, root: nat): nat
    requires exists w :: LatestCall(runs, calls, cid, root, w)
  {
    var w :| LatestCall(runs, calls, cid, root, w);
    w
  }

  function CallsAfter(calls: Calls, instant: int): set<nat> {
    set v | v in calls && calls[v].createdAt > instant
  }

  /** Following later and later calls ends, the table being finite. */
  lemma LatestExists(runs: Runs, calls: Calls, cid: nat, root: nat, w: nat)
    requires CallUnder(runs, calls, cid, root, w)
    ensures exists v :: LatestCall(runs, calls, cid, root, v)
    decreases CallsAfter(calls, calls[w].createdAt)
  {
    if v :| CallUnder(runs, calls, cid, root, v) && calls[v].createdAt > calls[w].createdAt {
      var before, after := CallsAfter(calls, calls[w].createdAt), CallsAfter(calls, calls[v].createdAt);
      assert v in before && v !in after && after <= before;
      LatestExists(runs, calls, cid, root, v);
    } else {
      assert LatestCall(runs, calls, cid, root, w);
    }
  }

  lemma NoTagsNoCandidates(db: Db, cid: nat)
    ensures AreCandidates(db, cid, [], [])
  {
    var latest := HasLatest(db.runs, db.calls, cid);
    assert AreCandidatesOf(db, cid, [], [], [], latest);
  }

  class CampaignClient {
    var db: Db

    method GetRedialCandidates(cid: nat, voicemail: bool, noAnswer: bool, busy: bool)
      returns (candidates: seq<Candidate>)
      ensures AreCandidates(db, cid, SelectedTags(voicemail, noAnswer, busy), candidates)
      // a candidate is a root whose latest call failed for a selected reason
      ensures forall i :: 0 <= i < |candidates| ==>
        RepeatsFailed(db, cid, candidates[i], voicemail, noAnswer, busy)
      // and such a root is a candidate, if its latest call is not in doubt
      ensures forall root, w :: LastFailed(db, cid, root, w, voicemail, noAnswer, busy) ==>
        (forall v :: IsLatest(db, cid, root, v) ==> v == w) ==>
          exists i :: 0 <= i < |candidates| && IsOriginal(db, cid, root, candidates[i])
    {
      var tags := AssembleTags(voicemail, noAnswer, busy);
      if tags == [] {
        NoTagsNoCandidates(db, cid);
        CandidatesFailed(db, cid, voicemail, noAnswer, busy, []);
        return [];
      }
      var tree := RunTree(db.runs, cid);
      var latest := LatestPerRoot(db.runs, db.calls, cid, tree);
      var roots := TaggedRoots(db.calls, latest, tags);
      LatestBelongToRoots(db, cid, latest);
      candidates := CandidatesOf(db.runs, roots);
      assert AreCandidatesOf(db, cid, tags, candidates, roots, latest);
      CandidatesFailed(db, cid, voicemail, noAnswer, busy, candidates);
    }

    method CreateRedialCampaign(parentId: nat, metadata: Metadata, candidates: seq<Candidate>)
      returns (r: Result<nat, RedialError>)
      modifies this
      ensures match Redial(old(db), parentId, metadata, candidates)
        case Ok(after) => r == Ok(old(db).nextCampaign) && db == after
        case Err(error) => r == Err(error) && db == old(db)
      ensures r.Ok? ==> IsRedial(old(db), parentId, metadata, candidates, r.value, db)
      ensures r == Err(AlreadyRedialedError) <==>
        "redialed_campaign_id" in metadata && metadata["redialed_campaign_id"] !in {Id(0), Setting("")}
      ensures r == Err(NoSuchParent) ==> parentId !in old(db).campaigns
      ensures parentId !in old(db).campaigns ==> r.Err?
    {
      RedialIsWritten(db, parentId, metadata, candidates);
      if AlreadyRedialed(metadata) {
        return Err(AlreadyRedialedError);
      }
      var childId := db.nextCampaign;
      var child := Campaign(|candidates|, ChildMetadata(parentId, metadata));
      var runs := SeedRuns(db.runs, db.nextRun, childId, candidates);
      if parentId !in db.campaigns {
        return Err(NoSuchParent);
      }
      if !UniqueRuns(runs) {
        return Err(UniqueViolation);
      }
      var parent := db.campaigns[parentId].(metadata := metadata[REDIALED := Id(childId)]);
      db := Db(db.campaigns[childId := child][parentId := parent], childId + 1, runs,
               db.nextRun + |candidates|, db.calls);
      return Ok(childId);
    }
  }

  lemma {:induction false} DescendantsHaveARoot(runs: Runs, cid: nat, id: nat, root: nat)
    requires DescendsFrom(runs, cid, id, root)
    ensures Root(runs, cid, root)
  {
    var n: nat :| LeadsTo(runs, cid, id, root, n);
    RootEndsTheLinks(runs, cid, id, root, n);
  }

  lemma {:induction false} RootEndsTheLinks(runs: Runs, cid: nat, id: nat, root: nat, n: nat)
    requires LeadsTo(runs, cid, id, root, n)
    ensures Root(runs, cid, root)
    decreases n
  {
    if n != 0 {
      RootEndsTheLinks(runs, cid, runs[id].parent.value, root, n - 1);
    }
  }

  // ---------- Every reachable database ----------

  datatype Event =
    | NewCampaign(campaign: Campaign)
    | NewRun(campaignId: nat, sourceUuid: string, context: Context)
    | Retry(original: nat, sourceUuid: string, context: Context)
    | RecordCall(id: nat, call: WorkflowRun)
    | RedialRoots(parentId: nat, metadata: Metadata, roots: seq<nat>)

  function Insert(db: Db, run: QueuedRun): Db {
    if UniqueRuns(db.runs[db.nextRun := run]) then db.(runs := db.runs[db.nextRun := run], nextRun := db.nextRun + 1)
    else db
  }

  /** Candidates are distinct roots of the parent campaign, read from this database. */
  predicate Enabled(db: Db, e: Event) {
    match e
    case NewCampaign(_) => true
    case NewRun(cid, _, _) => cid in db.campaigns
    case Retry(original, _, _) => original in db.runs
    case RecordCall(id, _) => id !in db.calls
    case RedialRoots(parentId, _, roots) =>
      Distinct(roots) && forall root :: root in roots ==> Root(db.runs, parentId, root)
  }

  function CandidatesOf(runs: Runs, roots: seq<nat>): seq<Candidate>
    requires forall root :: root in roots ==> root in runs
  {
    seq(|roots|, i requires 0 <= i < |roots| =>
      assert roots[i] in roots;
      Candidate(runs[roots[i]].sourceUuid, runs[roots[i]].context))
  }

  function CreatedRun(db: Db, e: Event): QueuedRun
    requires Enabled(db, e) && (e.NewRun? || e.Retry?)
  {
    match e
    case NewRun(cid, uuid, context) => QueuedRun(cid, uuid, context, 0, None)
    case Retry(original, uuid, context) =>
      var run := db.runs[original];
      QueuedRun(run.campaignId, uuid, context, run.retryCount + 1, Some(original))
  }

  function Next(db: Db, e: Event): Db
    requires Enabled(db, e)
  {
    match e
    case NewCampaign(campaign) =>
      db.(campaigns := db.campaigns[db.nextCampaign := campaign], nextCampaign := db.nextCampaign + 1)
    case NewRun(_, _, _) => Insert(db, CreatedRun(db, e))
    case Retry(_, _, _) => Insert(db, CreatedRun(db, e))
    case RecordCall(id, call) => db.(calls := db.calls[id := call])
    case RedialRoots(parentId, metadata, roots) =>
      match Redial(db, parentId, metadata, CandidatesOf(db.runs, roots))
      case Ok(after) => after
      case Err(_) => db
  }

  ghost function Run(db: Db, es: seq<Event>): Option<Db>
    decreases |es|
  {
    if es == [] then Some(db)
    else match Run(db, Front(es))
      case None => None
      case Some(before) => if Enabled(before, Last(es)) then Some(Next(before, Last(es))) else None
  }

  /** A run is a root at retry 0, or one retry after a run of its own campaign. */
  predicate Linked(runs: Runs, id: nat)
    requires id in runs
  {
    match runs[id].parent
    case None => runs[id].retryCount == 0
    case Some(p) =>
      p in runs && runs[p].campaignId == runs[id].campaignId && runs[id].retryCount == runs[p].retryCount + 1
  }

  ghost predicate Inv(db: Db) {
    && UniqueRuns(db.runs)
    && (forall id :: id in db.runs ==>
          id < db.nextRun && db.runs[id].campaignId < db.nextCampaign && Linked(db.runs, id))
    && (forall id :: id in db.campaigns ==> id < db.nextCampaign)
  }

  lemma CandidatesDiffer(db: Db, parentId: nat, roots: seq<nat>)
    requires Inv(db) && Enabled(db, RedialRoots(parentId, map[], roots))
    ensures var candidates := CandidatesOf(db.runs, roots);
      forall i, j :: 0 <= i < j < |candidates| ==> candidates[i].sourceUuid != candidates[j].sourceUuid
  {
    forall i, j | 0 <= i < j < |roots|
      ensures CandidatesOf(db.runs, roots)[i].sourceUuid != CandidatesOf(db.runs, roots)[j].sourceUuid
    {
      assert roots[i] in roots && roots[j] in roots;
      assert Root(db.runs, parentId, roots[i]) && Root(db.runs, parentId, roots[j]);
      assert Linked(db.runs, roots[i]) && Linked(db.runs, roots[j]);
      assert UniqueKey(db.runs[roots[i]]) != UniqueKey(db.runs[roots[j]]);
    }
  }

  lemma {:induction false} SeededAt(runs: Runs, next: nat, childId: nat, candidates: seq<Candidate>, id: nat)
    requires forall x :: x in runs ==> x < next
    ensures id in Seeded(runs, next, childId, candidates) <==> id in runs || next <= id < next + |candidates|
    ensures id in runs ==> Seeded(runs, next, childId, candidates)[id] == runs[id]
    ensures next <= id < next + |candidates| ==>
      Seeded(runs, next, childId, candidates)[id] == Seed(childId, candidates[id - next])
    decreases |candidates|
  {
    if candidates != [] {
      SeededAt(runs, next, childId, Front(candidates), id);
    }
  }

  /** Distinct roots of one campaign seed distinct rows of a campaign that has none,
      so the unique constraint cannot reject a redial. */
  lemma SeedsAreUnique(db: Db, parentId: nat, roots: seq<nat>)
    requires Inv(db) && Enabled(db, RedialRoots(parentId, map[], roots))
    ensures UniqueRuns(Seeded(db.runs, db.nextRun, db.nextCampaign, CandidatesOf(db.runs, roots)))
  {
    var candidates := CandidatesOf(db.runs, roots);
    CandidatesDiffer(db, parentId, roots);
    var runs := Seeded(db.runs, db.nextRun, db.nextCampaign, candidates);
    forall a, b | a in runs && b in runs && UniqueKey(runs[a]) == UniqueKey(runs[b]) ensures a == b {
      SeededAt(db.runs, db.nextRun, db.nextCampaign, candidates, a);
      SeededAt(db.runs, db.nextRun, db.nextCampaign, candidates, b);
      if a !in db.runs && b !in db.runs {
        SeedsDiffer(candidates, a - db.nextRun, b - db.nextRun);
      }
    }
  }

  lemma SeedsDiffer(candidates: seq<Candidate>, i: nat, j: nat)
    requires i < |candidates| && j < |candidates|
    requires forall i, j :: 0 <= i < j < |candidates| ==> candidates[i].sourceUuid != candidates[j].sourceUuid
    ensures candidates[i].sourceUuid == candidates[j].sourceUuid ==> i == j
  {
  }

  /** In every such database a redial is refused only for its metadata or its parent. */
  lemma RedialNeverViolatesUniqueness(db: Db, parentId: nat, metadata: Metadata, roots: seq<nat>)
    requires Inv(db) && Enabled(db, RedialRoots(parentId, metadata, roots))
    ensures Redial(db, parentId, metadata, CandidatesOf(db.runs, roots)).Ok?
            <==> parentId in db.campaigns && !AlreadyRedialed(metadata)
  {
    SeedsAreUnique(db, parentId, roots);
  }

  lemma InsertKeepsInvariant(db: Db, run: QueuedRun)
    requires Inv(db) && run.campaignId < db.nextCampaign && Linked(db.runs[db.nextRun := run], db.nextRun)
    requires run.parent != Some(db.nextRun)
    ensures Inv(Insert(db, run))
  {
    forall id | id in Insert(db, run).runs ensures Linked(Insert(db, run).runs, id) {
      if id in db.runs {
        assert Linked(db.runs, id);
      }
    }
  }

  lemma RedialKeepsInvariant(db: Db, parentId: nat, metadata: Metadata, roots: seq<nat>)
    requires Inv(db) && Enabled(db, RedialRoots(parentId, metadata, roots))
    ensures Inv(Next(db, RedialRoots(parentId, metadata, roots)))
  {
    SeedsAreUnique(db, parentId, roots);
    var runs := Next(db, RedialRoots(parentId, metadata, roots)).runs;
    var candidates := CandidatesOf(db.runs, roots);
    forall id | id in runs
      ensures Linked(runs, id) && id < Next(db, RedialRoots(parentId, metadata, roots)).nextRun
      ensures runs[id].campaignId < Next(db, RedialRoots(parentId, metadata, roots)).nextCampaign
    {
      SeededAt(db.runs, db.nextRun, db.nextCampaign, candidates, id);
      if id in db.runs {
        assert Linked(db.runs, id);
        if db.runs[id].parent.Some? {
          SeededAt(db.runs, db.nextRun, db.nextCampaign, candidates, db.runs[id].parent.value);
        }
      }
    }
  }

  /** Whatever the query answers in a reachable database can be redialed. */
  lemma AnsweredCandidatesCanBeRedialed(db: Db, parentId: nat, tags: seq<string>, candidates: seq<Candidate>,
                                        metadata: Metadata)
    requires Inv(db) && AreCandidates(db, parentId, tags, candidates)
    ensures Redial(db, parentId, metadata, candidates).Ok? <==> parentId in db.campaigns && !AlreadyRedialed(metadata)
  {
    var roots, latest :| AreCandidatesOf(db, parentId, tags, candidates, roots, latest);
    forall root | root in roots ensures Root(db.runs, parentId, root) {
      var i :| 0 <= i < |roots| && roots[i] == root;
    }
    assert candidates == CandidatesOf(db.runs, roots);
    RedialNeverViolatesUniqueness(db, parentId, metadata, roots);
  }

  lemma StepKeepsInvariant(db: Db, e: Event)
    requires Inv(db) && Enabled(db, e)
    ensures Inv(Next(db, e))
  {
    match e
    case NewRun(_, _, _) => CreationKeepsInvariant(db, e);
    case Retry(_, _, _) => CreationKeepsInvariant(db, e);
    case RedialRoots(parentId, metadata, roots) => RedialKeepsInvariant(db, parentId, metadata, roots);
    case NewCampaign(_) =>
    case RecordCall(_, _) =>
  }

  lemma CreationInserts(db: Db, e: Event)
    requires Enabled(db, e) && (e.NewRun? || e.Retry?)
    ensures Next(db, e) == Insert(db, CreatedRun(db, e))
  {
  }

  /** A new subscriber starts at retry 0; a retry is one more, of the same campaign and
      under the run it retries. */
  lemma CreatedRows(db: Db, campaignId: nat, original: nat, sourceUuid: string, context: Context)
    ensures Enabled(db, NewRun(campaignId, sourceUuid, context)) ==>
      CreatedRun(db, NewRun(campaignId, sourceUuid, context)) == QueuedRun(campaignId, sourceUuid, context, 0, None)
    ensures Enabled(db, Retry(original, sourceUuid, context)) ==>
      CreatedRun(db, Retry(original, sourceUuid, context))
      == QueuedRun(db.runs[original].campaignId, sourceUuid, context, db.runs[original].retryCount + 1, Some(original))
  {
  }

  lemma CreatedRunIsLinked(db: Db, e: Event)
    requires Inv(db) && Enabled(db, e) && (e.NewRun? || e.Retry?)
    ensures var run := CreatedRun(db, e);
      run.campaignId < db.nextCampaign && run.parent != Some(db.nextRun)
      && Linked(db.runs[db.nextRun := run], db.nextRun)
  {
  }

  lemma CreationKeepsInvariant(db: Db, e: Event)
    requires Inv(db) && Enabled(db, e) && (e.NewRun? || e.Retry?)
    ensures Inv(Next(db, e))
  {
    CreationInserts(db, e);
    CreatedRunIsLinked(db, e);
    InsertKeepsInvariant(db, CreatedRun(db, e));
  }

  ghost predicate Initial(db: Db) {
    db.runs == map[] && db.calls == map[] && db.campaigns == map[]
  }

  lemma {:induction false} RunKeepsInvariant(db: Db, es: seq<Event>)
    requires Initial(db) && Run(db, es).Some?
    ensures Inv(Run(db, es).value)
    decreases |es|
  {
    if es != [] {
      RunKeepsInvariant(db, Front(es));
      StepKeepsInvariant(Run(db, Front(es)).value, Last(es));
    }
  }

  lemma {:induction false} RetriesAreDepth(runs: Runs, id: nat) returns (root: nat)
    requires id in runs && forall x :: x in runs ==> Linked(runs, x)
    ensures LeadsTo(runs, runs[id].campaignId, id, root, runs[id].retryCount)
    decreases runs[id].retryCount
  {
    assert Linked(runs, id);
    if runs[id].parent.None? {
      root := id;
    } else {
      root := RetriesAreDepth(runs, runs[id].parent.value);
    }
  }

  /** In every reachable database each campaign's trees partition its runs, and a
      run sits in its tree as deep as its retry count. */
  lemma ReachableTreesPartition(db: Db, es: seq<Event>, id: nat)
    requires Initial(db) && Run(db, es).Some? && id in Run(db, es).value.runs
    ensures var runs := Run(db, es).value.runs;
      var cid := runs[id].campaignId;
      && (exists root :: LeadsTo(runs, cid, id, root, runs[id].retryCount))
      && (forall r, s :: DescendsFrom(runs, cid, id, r) && DescendsFrom(runs, cid, id, s) ==> r == s)
  {
    RunKeepsInvariant(db, es);
    var runs := Run(db, es).value.runs;
    var root := RetriesAreDepth(runs, id);
    TreesPartitionExactlyWhenAcyclic(runs, runs[id].campaignId);
  }

  /** A redial from the parent's current metadata shuts out the next one; from an
      earlier reading it does not, and the parent is redialed again. */
  lemma SecondRedialNeedsAStaleReading(db: Db, parentId: nat, metadata: Metadata, roots: seq<nat>, again: seq<nat>)
    requires Inv(db) && Enabled(db, RedialRoots(parentId, metadata, roots)) && db.nextCampaign > 0
    requires parentId in db.campaigns && db.campaigns[parentId].metadata == metadata && !AlreadyRedialed(metadata)
    requires Enabled(Next(db, RedialRoots(parentId, metadata, roots)), RedialRoots(parentId, metadata, again))
    ensures var after := Next(db, RedialRoots(parentId, metadata, roots));
      var candidates := CandidatesOf(after.runs, again);
      && Redial(after, parentId, after.campaigns[parentId].metadata, candidates) == Err(AlreadyRedialedError)
      && Redial(after, parentId, metadata, candidates).Ok?
  {
    RedialNeverViolatesUniqueness(db, parentId, metadata, roots);
    var after := Next(db, RedialRoots(parentId, metadata, roots));
    StepKeepsInvariant(db, RedialRoots(parentId, metadata, roots));
    RedialNeverViolatesUniqueness(after, parentId, metadata, again);
  }
}
