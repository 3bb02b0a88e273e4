/**
 The organization-wide usage page: the paged listing of workflow runs in a total
 order, and the report that exports the same runs at once.
 */
module RunListing {
  import opened Common
  import opened Queries
  import opened RunFilters

  datatype Db = Db(runs: Runs, workflowOrganizations: map<int, int>)

  datatype Request = Request(organizationId: int, start: Option<real>, end: Option<real>, filters: seq<Filter>)

  const USAGE_ALLOWED_FILTERS := {
    "duration", "dispositionCode", "callerNumber", "calledNumber", "runId", "workflowId", "campaignId",
    "callDirection", "callChannel"}

  // ---------- Which runs ----------

  predicate BelongsTo(db: Db, id: nat, organizationId: int) {
    id in db.runs && db.runs[id].workflowId in db.workflowOrganizations
    && db.workflowOrganizations[db.runs[id].workflowId] == organizationId
  }

  /** The runs a request asks for: filters with a disallowed attribute ask for nothing. */
  predicate Matches(db: Db, q: Request, id: nat) {
    && BelongsTo(db, id, q.organizationId) && db.runs[id].hasUsage && Within(db.runs[id].createdAt, q.start, q.end)
    && (forall f :: f in q.filters && f.attribute in USAGE_ALLOWED_FILTERS ==> Meets(id, db.runs[id], f))
  }

  ghost function Matching(db: Db, q: Request): set<nat> {
    set id | id in db.runs && Matches(db, q, id)
  }

  method SanitizeFilters(filters: seq<Filter>) returns (sanitized: seq<Filter>)
    ensures forall f :: f in sanitized <==> f in filters && f.attribute in USAGE_ALLOWED_FILTERS
  {
    sanitized := [];
    var i := 0;
    while i < |filters|
      invariant 0 <= i <= |filters|
      invariant forall f :: f in sanitized <==> f in filters[..i] && f.attribute in USAGE_ALLOWED_FILTERS
    {
      if filters[i].attribute in USAGE_ALLOWED_FILTERS {
        sanitized := sanitized + [filters[i]];
      }
      i := i + 1;
    }
    assert filters[..i] == filters;
  }

  method DateConditions(q: Request) returns (base: Query)
    ensures forall id, run :: Selects(base, id, run) <==> Within(run.createdAt, q.start, q.end)
  {
    base := CompileRange(
      if q.start.Some? then Some(CreatedFrom(q.start.value)) else None,
      if q.end.Some? then Some(CreatedTo(q.end.value)) else None);
  }

  /** The rows both queries select before ordering. */
  method SelectRuns(db: Db, q: Request) returns (ids: set<nat>)
    ensures ids == Matching(db, q)
    ensures forall id :: id in ids <==>
      && id in db.runs && db.runs[id].hasUsage
      && db.runs[id].workflowId in db.workflowOrganizations
      && db.workflowOrganizations[db.runs[id].workflowId] == q.organizationId
      && (q.start.Some? ==> db.runs[id].createdAt.Some? && q.start.value <= db.runs[id].createdAt.value)
      && (q.end.Some? ==> db.runs[id].createdAt.Some? && db.runs[id].createdAt.value <= q.end.value)
      && (forall f :: f in q.filters && f.attribute in USAGE_ALLOWED_FILTERS ==> Meets(id, db.runs[id], f))
  {
    var base := DateConditions(q);
    var sanitized := SanitizeFilters(q.filters);
    var query := ApplyWorkflowRunFilters(base, sanitized);
    ids := set id | id in db.runs && BelongsTo(db, id, q.organizationId) && db.runs[id].hasUsage
                    && Selects(query, id, db.runs[id]);
    forall id | id in db.runs
      ensures Selects(query, id, db.runs[id]) <==>
        Within(db.runs[id].createdAt, q.start, q.end) && MeetsAll(id, db.runs[id], sanitized)
    {
      var run := db.runs[id];
      assert Selects(query, id, run) <==> Selects(base, id, run) && MeetsAll(id, run, sanitized);
    }
  }

  /** The page passes on every filter of the common compiler but four, which it ignores. */
  lemma AllowedFiltersAreKnown(attribute: string)
    ensures attribute in USAGE_ALLOWED_FILTERS
            <==> FieldOf(attribute).Some? && attribute !in {"dateRange", "status", "tokenUsage", "callTags"}
  {
  }

  // ---------- In which order ----------

  datatype Sort = Sort(byDuration: bool, ascending: bool)

  function SortKey(run: Run, byDuration: bool): Option<real> {
    if byDuration then run.duration else run.createdAt
  }

  /** Ascending or descending, nulls last. */
  predicate KeyBefore(a: Option<real>, b: Option<real>, ascending: bool) {
    a.Some? && (b.None? || (if ascending then a.value < b.value else a.value > b.value))
  }

  /** The listing's order: the sort key, then the id, newest first. */
  predicate Precedes(runs: Runs, sort: Sort, a: nat, b: nat)
    requires a in runs && b in runs
  {
    var x, y := SortKey(runs[a], sort.byDuration), SortKey(runs[b], sort.byDuration);
    KeyBefore(x, y, sort.ascending) || (x == y && a > b)
  }

  /** No two runs are tied, so paging cannot repeat or skip one. */
  lemma OrderIsStrictAndTotal(runs: Runs, sort: Sort, a: nat, b: nat, c: nat)
    requires a in runs && b in runs && c in runs
    ensures !Precedes(runs, sort, a, a)
    ensures Precedes(runs, sort, a, b) || Precedes(runs, sort, b, a) || a == b
    ensures Precedes(runs, sort, a, b) && Precedes(runs, sort, b, c) ==> Precedes(runs, sort, a, c)
  {
  }

  /** The report's order: created_at descending, which puts nulls first, and no tie-break. */
  predicate NotOlder(runs: Runs, a: nat, b: nat) {
    a in runs && b in runs
    && (runs[a].createdAt.None?
        || (runs[b].createdAt.Some? && runs[a].createdAt.value >= runs[b].createdAt.value))
  }

  /** The listing's order in terms of the columns: the chosen column ascends or
      descends, rows without a value come last, equal values by descending id. */
  ghost predicate Sorted(runs: Runs, sort: Sort, s: seq<nat>) {
    && (forall i :: 0 <= i < |s| ==> s[i] in runs)
    && (sort.byDuration ==> forall i, j :: 0 <= i < j < |s| ==>
          Ranked(runs[s[i]].duration, runs[s[j]].duration, sort.ascending, s[i], s[j]))
    && (!sort.byDuration ==> forall i, j :: 0 <= i < j < |s| ==>
          Ranked(runs[s[i]].createdAt, runs[s[j]].createdAt, sort.ascending, s[i], s[j]))
  }

  predicate Ranked(x: Option<real>, y: Option<real>, ascending: bool, a: nat, b: nat) {
    && (x.None? ==> y.None?)
    && (x.Some? && y.Some? ==> if ascending then x.value <= y.value else y.value <= x.value)
    && (x == y ==> b < a)
  }

  lemma InOrderIsSorted(runs: Runs, sort: Sort, s: seq<nat>)
    ensures InOrder(runs, sort, s) <==> Sorted(runs, sort, s)
  {
    assert forall id :: id in s ==> exists i :: 0 <= i < |s| && s[i] == id;
    assert forall i :: 0 <= i < |s| ==> s[i] in s;
    if forall i :: 0 <= i < |s| ==> s[i] in runs {
      forall i, j | 0 <= i < j < |s|
        ensures Precedes(runs, sort, s[i], s[j]) <==>
          Ranked(SortKey(runs[s[i]], sort.byDuration), SortKey(runs[s[j]], sort.byDuration), sort.ascending,
                 s[i], s[j])
      {}
    }
  }

  // ---------- The listing and its pages ----------

  predicate InOrder(runs: Runs, sort: Sort, s: seq<nat>) {
    && (forall id :: id in s ==> id in runs)
    && (forall i, j :: 0 <= i < j < |s| ==> Precedes(runs, sort, s[i], s[j]))
  }

  /** All the runs `ids`, each once, in order. */
  ghost predicate IsListing(runs: Runs, ids: set<nat>, sort: Sort, s: seq<nat>) {
    InOrder(runs, sort, s) && forall id :: id in s <==> id in ids
  }

  lemma {:induction false} ListingIsUnique(runs: Runs, sort: Sort, s: seq<nat>, t: seq<nat>)
    requires InOrder(runs, sort, s) && InOrder(runs, sort, t) && forall id :: id in s <==> id in t
    ensures s == t
    decreases |s|
  {
    if s != [] && t != [] {
      FirstIsFirst(runs, sort, s, t);
      assert s == [s[0]] + s[1..] && t == [t[0]] + t[1..];
      forall id ensures id in s[1..] <==> id in t[1..] {
        RestHasNoFirst(runs, sort, s);
        RestHasNoFirst(runs, sort, t);
      }
      ListingIsUnique(runs, sort, s[1..], t[1..]);
    } else {
      NotEmptyAlone(s, t);
      NotEmptyAlone(t, s);
    }
  }

  lemma NotEmptyAlone(s: seq<nat>, t: seq<nat>)
    requires forall id :: id in s ==> id in t
    ensures s != [] ==> t != []
  {
    if s != [] {
      assert s[0] in t;
    }
  }

  lemma RestHasNoFirst(runs: Runs, sort: Sort, s: seq<nat>)
    requires InOrder(runs, sort, s) && s != []
    ensures s[0] !in s[1..] && forall id :: id in s <==> id == s[0] || id in s[1..]
  {
    assert s == [s[0]] + s[1..];
    forall i | 0 < i < |s| ensures s[i] != s[0] {
      OrderIsStrictAndTotal(runs, sort, s[0], s[i], s[i]);
    }
  }

  lemma FirstIsFirst(runs: Runs, sort: Sort, s: seq<nat>, t: seq<nat>)
    requires InOrder(runs, sort, s) && InOrder(runs, sort, t) && s != [] && t != []
    requires forall id :: id in s <==> id in t
    ensures s[0] == t[0]
  {
    if s[0] != t[0] {
      assert s[0] in t && t[0] in s;
      var i :| 0 <= i < |t| && t[i] == s[0];
      var j :| 0 <= j < |s| && s[j] == t[0];
      OrderIsStrictAndTotal(runs, sort, s[0], t[0], s[0]);
    }
  }

  function Min(a: nat, b: nat): nat {
    if a <= b then a else b
  }

  /** LIMIT and OFFSET */
  function Slice(s: seq<nat>, limit: nat, offset: nat): seq<nat> {
    s[Min(offset, |s|)..Min(offset + limit, |s|)]
  }

  ghost predicate IsPage(runs: Runs, ids: set<nat>, sort: Sort, limit: nat, offset: nat, page: seq<nat>, total: nat) {
    exists listing :: IsListing(runs, ids, sort, listing) && total == |listing| && page == Slice(listing, limit, offset)
  }

  method GetUsageHistory(db: Db, q: Request, limit: nat, offset: nat, sort: Sort)
    returns (page: seq<nat>, total: nat)
    ensures IsPage(db.runs, Matching(db, q), sort, limit, offset, page, total)
    ensures Sorted(db.runs, sort, page) && total == |Matching(db, q)|
  {
    var ids := SelectRuns(db, q);
    var before := (a: nat, b: nat) => a == b || (a in db.runs && b in db.runs && Precedes(db.runs, sort, a, b));
    forall a, b, c | a in ids && b in ids && c in ids
      ensures before(a, b) || before(b, a)
      ensures before(a, b) && before(b, c) ==> before(a, c)
    {
      OrderIsStrictAndTotal(db.runs, sort, a, b, c);
    }
    var listing := TakeFirst(ids, before, |ids|);
    forall i, j | 0 <= i < j < |listing| ensures Precedes(db.runs, sort, listing[i], listing[j]) {
      assert before(listing[i], listing[j]) && listing[i] in listing && listing[j] in listing;
    }
    assert IsListing(db.runs, ids, sort, listing);
    page := Slice(listing, limit, offset);
    total := |listing|;
    assert InOrder(db.runs, sort, page);
    InOrderIsSorted(db.runs, sort, page);
    CountOfListing(db.runs, ids, sort, listing);
  }

  lemma CountOfListing(runs: Runs, ids: set<nat>, sort: Sort, listing: seq<nat>)
    requires IsListing(runs, ids, sort, listing)
    ensures |listing| == |ids|
  {
    InOrderIsDistinct(runs, sort, listing);
    DistinctIdsCount(listing, ids);
  }

  lemma {:induction false} DistinctIdsCount(s: seq<nat>, ids: set<nat>)
    requires Distinct(s) && forall id :: id in s <==> id in ids
    ensures |s| == |ids|
    decreases |s|
  {
    if s == [] {
      assert ids == {};
    } else {
      forall id ensures id in Front(s) <==> id in ids - {Last(s)} {
        assert id in s <==> id in Front(s) || id == Last(s);
      }
      DistinctIdsCount(Front(s), ids - {Last(s)});
    }
  }

  predicate NewestFirst(runs: Runs, s: seq<nat>) {
    forall i, j :: 0 <= i < j < |s| ==> NotOlder(runs, s[i], s[j])
  }

  /** Every run of `ids` once, newest first; ties in any order. */
  ghost predicate IsReport(runs: Runs, ids: set<nat>, report: seq<nat>) {
    Distinct(report) && NewestFirst(runs, report) && forall id :: id in report <==> id in ids
  }

  method GetUsageRunsForReport(db: Db, q: Request) returns (report: seq<nat>)
    ensures IsReport(db.runs, Matching(db, q), report)
    // created_at descending, with the runs that have none first
    ensures forall i, j :: 0 <= i < j < |report| && report[i] in db.runs && report[j] in db.runs ==>
      var x, y := db.runs[report[i]].createdAt, db.runs[report[j]].createdAt;
      (y.None? ==> x.None?) && (x.Some? && y.Some? ==> y.value <= x.value)
  {
    var ids := SelectRuns(db, q);
    var before := (a: nat, b: nat) => NotOlder(db.runs, a, b);
    report := TakeFirst(ids, before, |ids|);
    forall i, j | 0 <= i < j < |report| ensures NotOlder(db.runs, report[i], report[j]) {
      assert before(report[i], report[j]);
    }
  }

  // ---------- Reading all pages ----------

  /** How many pages of `limit` rows hold `total` rows. */
  function TotalPages(total: nat, limit: nat): nat
    requires limit >= 1
  {
    if total == 0 then 0 else 1 + TotalPages(if total <= limit then 0 else total - limit, limit)
  }

  lemma ProductsAreApart(d: nat, p: nat, q: nat)
    requires p < q
    ensures d * q >= d * p + d
  {
    assert d * q == d * p + d * (q - p);
    assert d * (q - p) == d * (q - p - 1) + d;
  }

  lemma QuotientIsUnique(d: nat, p: nat, q: nat, r: nat, r': nat)
    requires d * p + r == d * q + r' && r < d && r' < d
    ensures p == q
  {
    if p < q {
      ProductsAreApart(d, p, q);
    } else if q < p {
      ProductsAreApart(d, q, p);
    }
  }

  lemma OneMorePage(rows: nat, limit: nat)
    requires limit >= 1
    ensures (rows + limit) / limit == rows / limit + 1
  {
    var p, q := (rows + limit) / limit, rows / limit + 1;
    assert rows + limit == limit * p + (rows + limit) % limit;
    assert rows + limit == limit * q + rows % limit by {
      assert rows == limit * (rows / limit) + rows % limit;
      assert limit * q == limit * (rows / limit) + limit;
    }
    QuotientIsUnique(limit, p, q, (rows + limit) % limit, rows % limit);
  }

  /** The handler's rounding-up division is that number. */
  lemma {:induction false} TotalPagesIsCeiling(total: nat, limit: nat)
    requires limit >= 1
    ensures TotalPages(total, limit) == (total + limit - 1) / limit
    decreases total
  {
    if total > limit {
      TotalPagesIsCeiling(total - limit, limit);
      OneMorePage(total - 1, limit);
    } else if total > 0 {
      OneMorePage(total - 1, limit);
    }
  }

  method PageCount(total: nat, limit: nat) returns (pages: nat)
    requires limit >= 1
    ensures pages == TotalPages(total, limit)
  {
    TotalPagesIsCeiling(total, limit);
    pages := (total + limit - 1) / limit;
  }

  method PageOffset(page: nat, limit: nat) returns (offset: nat)
    requires page >= 1
    ensures offset == Offset(page - 1, limit)
  {
    OffsetIsProduct(page - 1, limit);
    offset := (page - 1) * limit;
  }

  /** The handler; its page numbers count from 1. */
  method UsageRuns(db: Db, q: Request, sort: Sort, page: nat, limit: nat)
    returns (runs: seq<nat>, totalCount: nat, totalPages: nat)
    requires page >= 1 && 1 <= limit <= 100
    ensures IsPage(db.runs, Matching(db, q), sort, limit, Offset(page - 1, limit), runs, totalCount)
    ensures Sorted(db.runs, sort, runs) && totalCount == |Matching(db, q)|
    ensures totalPages == TotalPages(totalCount, limit)
  {
    var offset := PageOffset(page, limit);
    runs, totalCount := GetUsageHistory(db, q, limit, offset, sort);
    totalPages := PageCount(totalCount, limit);
  }

  lemma {:induction false} PagesReachTheEnd(total: nat, limit: nat)
    requires limit >= 1
    ensures Offset(TotalPages(total, limit), limit) >= total
    ensures total > 0 ==> TotalPages(total, limit) > 0 && Offset(TotalPages(total, limit) - 1, limit) < total
    ensures total == 0 ==> TotalPages(total, limit) == 0
    decreases total
  {
    if total > limit {
      PagesReachTheEnd(total - limit, limit);
    }
  }

  /** Where a page starts; pages are counted from 0 here. */
  function Offset(page: nat, limit: nat): nat {
    if page == 0 then 0 else Offset(page - 1, limit) + limit
  }

  lemma {:induction false} OffsetIsProduct(page: nat, limit: nat)
    ensures Offset(page, limit) == page * limit
  {
    if page != 0 {
      OffsetIsProduct(page - 1, limit);
    }
  }

  lemma {:induction false} OffsetsGrow(p: nat, q: nat, limit: nat)
    requires p <= q
    ensures Offset(p, limit) <= Offset(q, limit)
    decreases q
  {
    if p < q {
      OffsetsGrow(p, q - 1, limit);
    }
  }

  function Concat(pages: seq<seq<nat>>): seq<nat>
    decreases |pages|
  {
    if pages == [] then [] else Concat(Front(pages)) + Last(pages)
  }

  lemma {:induction false} SlicesTile(s: seq<nat>, limit: nat, pages: seq<seq<nat>>)
    requires forall p :: 0 <= p < |pages| ==> pages[p] == Slice(s, limit, Offset(p, limit))
    ensures Concat(pages) == s[..Min(Offset(|pages|, limit), |s|)]
    decreases |pages|
  {
    if pages != [] {
      SlicesTile(s, limit, Front(pages));
      SliceExtends(s, limit, Offset(|pages| - 1, limit));
    }
  }

  lemma SliceExtends(s: seq<nat>, limit: nat, offset: nat)
    ensures s[..Min(offset, |s|)] + Slice(s, limit, offset) == s[..Min(offset + limit, |s|)]
  {
  }

  /** What a client reads that asks for page after page up to the reported count. */
  ghost predicate ArePages(runs: Runs, ids: set<nat>, sort: Sort, limit: nat, total: nat, pages: seq<seq<nat>>) {
    && limit >= 1 && |pages| == TotalPages(total, limit)
    && (exists listing :: IsListing(runs, ids, sort, listing) && total == |listing|)
    && forall p :: 0 <= p < |pages| ==> IsPage(runs, ids, sort, limit, Offset(p, limit), pages[p], total)
  }

  lemma PagesAreSlices(runs: Runs, ids: set<nat>, sort: Sort, limit: nat, total: nat, pages: seq<seq<nat>>,
                       listing: seq<nat>)
    requires ArePages(runs, ids, sort, limit, total, pages) && IsListing(runs, ids, sort, listing)
    ensures forall p :: 0 <= p < |pages| ==> pages[p] == Slice(listing, limit, Offset(p, limit))
  {
    forall p | 0 <= p < |pages| ensures pages[p] == Slice(listing, limit, Offset(p, limit)) {
      var other :| IsListing(runs, ids, sort, other) && total == |other|
        && pages[p] == Slice(other, limit, Offset(p, limit));
      ListingIsUnique(runs, sort, listing, other);
    }
  }

  lemma PagesConcatToListing(runs: Runs, ids: set<nat>, sort: Sort, limit: nat, total: nat, pages: seq<seq<nat>>,
                             listing: seq<nat>)
    requires ArePages(runs, ids, sort, limit, total, pages)
    requires IsListing(runs, ids, sort, listing) && total == |listing|
    ensures Concat(pages) == listing
  {
    PagesAreSlices(runs, ids, sort, limit, total, pages, listing);
    PagesReachTheEnd(total, limit);
    SlicesAddUp(listing, limit, pages);
  }

  lemma NoPageIsEmpty(runs: Runs, ids: set<nat>, sort: Sort, limit: nat, total: nat, pages: seq<seq<nat>>,
                      listing: seq<nat>)
    requires ArePages(runs, ids, sort, limit, total, pages)
    requires IsListing(runs, ids, sort, listing) && total == |listing|
    ensures forall p :: 0 <= p < |pages| ==> 0 < |pages[p]| <= limit
  {
    if pages != [] {
      PagesAreSlices(runs, ids, sort, limit, total, pages, listing);
      PagesReachTheEnd(total, limit);
      NoSliceIsEmpty(listing, limit, pages);
    }
  }

  lemma HasListing(runs: Runs, ids: set<nat>, sort: Sort, limit: nat, total: nat, pages: seq<seq<nat>>)
    returns (listing: seq<nat>)
    requires ArePages(runs, ids, sort, limit, total, pages)
    ensures IsListing(runs, ids, sort, listing) && total == |listing|
  {
    listing :| IsListing(runs, ids, sort, listing) && total == |listing|;
  }

  /** Walking pages 1..total_pages on a fixed database lists every run of `ids`, the
      matching ones, exactly once, in the requested order, and no page is empty. */
  lemma AllPagesListEveryRunOnce(runs: Runs, ids: set<nat>, sort: Sort, limit: nat, total: nat,
                                 pages: seq<seq<nat>>)
    requires ArePages(runs, ids, sort, limit, total, pages)
    ensures IsListing(runs, ids, sort, Concat(pages)) && |Concat(pages)| == total && Distinct(Concat(pages))
    ensures Sorted(runs, sort, Concat(pages))
    ensures forall p :: 0 <= p < |pages| ==> 0 < |pages[p]| <= limit
  {
    var listing := HasListing(runs, ids, sort, limit, total, pages);
    PagesConcatToListing(runs, ids, sort, limit, total, pages, listing);
    NoPageIsEmpty(runs, ids, sort, limit, total, pages, listing);
    InOrderIsDistinct(runs, sort, listing);
    InOrderIsSorted(runs, sort, listing);
  }

  lemma SlicesAddUp(s: seq<nat>, limit: nat, pages: seq<seq<nat>>)
    requires Offset(|pages|, limit) >= |s|
    requires forall p :: 0 <= p < |pages| ==> pages[p] == Slice(s, limit, Offset(p, limit))
    ensures Concat(pages) == s
  {
    SlicesTile(s, limit, pages);
    assert s[..|s|] == s;
  }

  lemma NoSliceIsEmpty(s: seq<nat>, limit: nat, pages: seq<seq<nat>>)
    requires limit >= 1 && |pages| > 0 && Offset(|pages| - 1, limit) < |s|
    requires forall p :: 0 <= p < |pages| ==> pages[p] == Slice(s, limit, Offset(p, limit))
    ensures forall p :: 0 <= p < |pages| ==> 0 < |pages[p]| <= limit
  {
    forall p | 0 <= p < |pages| ensures 0 < |pages[p]| <= limit {
      PageIsNotEmpty(s, limit, |pages|, p);
    }
  }

  lemma SliceInsideIsNotEmpty(s: seq<nat>, limit: nat, offset: nat)
    requires limit >= 1 && offset < |s|
    ensures 0 < |Slice(s, limit, offset)| <= limit
  {
  }

  lemma PageIsNotEmpty(listing: seq<nat>, limit: nat, pages: nat, p: nat)
    requires limit >= 1 && p < pages && Offset(pages - 1, limit) < |listing|
    ensures 0 < |Slice(listing, limit, Offset(p, limit))| <= limit
  {
    OffsetsGrow(p, pages - 1, limit);
    SliceInsideIsNotEmpty(listing, limit, Offset(p, limit));
  }

  lemma InOrderIsDistinct(runs: Runs, sort: Sort, s: seq<nat>)
    requires InOrder(runs, sort, s)
    ensures Distinct(s)
  {
    forall i, j | 0 <= i < j < |s| ensures s[i] != s[j] {
      assert s[i] in s && s[j] in s;
      OrderIsStrictAndTotal(runs, sort, s[i], s[j], s[j]);
    }
  }

  lemma SameMembersSameBag(s: seq<nat>, t: seq<nat>)
    requires Distinct(s) && Distinct(t) && forall id :: id in s <==> id in t
    ensures multiset(s) == multiset(t)
  {
    forall id: nat ensures multiset(s)[id] == multiset(t)[id] {
      CountOfDistinct(s, id);
      CountOfDistinct(t, id);
    }
  }

  lemma {:induction false} CountOfDistinct(s: seq<nat>, id: nat)
    requires Distinct(s)
    ensures multiset(s)[id] == if id in s then 1 else 0
    decreases |s|
  {
    if s != [] {
      CountOfDistinct(Front(s), id);
      assert s == Front(s) + [Last(s)];
    }
  }

  /** The pages together hold the runs of the report, each as often: once. */
  lemma PagesHoldTheReport(db: Db, q: Request, sort: Sort, limit: nat, total: nat, pages: seq<seq<nat>>,
                           report: seq<nat>)
    requires ArePages(db.runs, Matching(db, q), sort, limit, total, pages)
    requires IsReport(db.runs, Matching(db, q), report)
    ensures multiset(Concat(pages)) == multiset(report) && |report| == total
    ensures forall id :: id in Concat(pages) <==> Matches(db, q, id)
  {
    AllPagesListEveryRunOnce(db.runs, Matching(db, q), sort, limit, total, pages);
    SameMembersSameBag(Concat(pages), report);
    assert |multiset(report)| == |report| && |multiset(Concat(pages))| == |Concat(pages)|;
  }
}
