/** The read side of the job board, `getJobs`: filter by title search and
    by status, sort by order, cut out one page, and report the filtered total
    (talent-flow/src/lib/mockApi.js, lines 92-104). */
module JobQuery {
  import opened Text
  import opened Domain
  import opened Seqs
  import opened JobOrder

  /** The arguments of `getJobs`. An empty search and a `None` status mean
      "no filter". Only the default sort key, `order`, is modelled. */
  datatype Query = Query(search: string, status: Option<JobStatus>, page: int, pageSize: int)

  /** `{ jobs, total }`: one page of the filtered jobs and the filtered count. */
  datatype Page = Page(jobs: seq<Job>, total: int)

  /** `j.title.toLowerCase().includes(search.toLowerCase())`. */
  function TitleMatcher(search: string): Job -> bool {
    (j: Job) => Contains(LowerStr(j.title), LowerStr(search))
  }

  /** `j.status === status`. */
  function StatusMatcher(status: JobStatus): Job -> bool {
    (j: Job) => j.status == status
  }

  /** A job passes the query: its title contains the search when one is
      given, and its status is the requested one when one is given. */
  predicate Matches(j: Job, q: Query) {
    && (q.search == "" || Contains(LowerStr(j.title), LowerStr(q.search)))
    && (q.status.None? || j.status == q.status.value)
  }

  function QueryMatcher(q: Query): Job -> bool {
    (j: Job) => Matches(j, q)
  }

  /** The two filters of `getJobs`, each applied only when its key is set. */
  function FilterJobs(jobs: seq<Job>, q: Query): seq<Job> {
    var bySearch := if q.search != "" then Filter(jobs, TitleMatcher(q.search)) else jobs;
    if q.status.Some? then Filter(bySearch, StatusMatcher(q.status.value)) else bySearch
  }

  /** Filtering by search and then by status keeps exactly the jobs that
      pass both tests, in their original order. */
  lemma FilterJobsMatches(jobs: seq<Job>, q: Query)
    ensures FilterJobs(jobs, q) == Filter(jobs, QueryMatcher(q))
  {
    var m := QueryMatcher(q);
    if q.search != "" {
      var t := TitleMatcher(q.search);
      if q.status.Some? {
        var st := StatusMatcher(q.status.value);
        FilterFilter(jobs, t, st, m);
      } else {
        FilterExt(jobs, t, m);
      }
    } else if q.status.Some? {
      FilterExt(jobs, StatusMatcher(q.status.value), m);
    } else {
      FilterAll(jobs, m);
    }
  }

  /** `s.slice(begin, end)` with JavaScript's index rules: a negative index
      counts from the end, and both are clamped to 0..|s|. */
  function Slice<T>(s: seq<T>, begin: int, end: int): (r: seq<T>)
    ensures var b, e := RelativeIndex(begin, |s|), RelativeIndex(end, |s|);
      && |r| == (if b < e then e - b else 0)
      && forall k :: 0 <= k < |r| ==> r[k] == s[b + k]
    ensures 0 <= begin <= end <= |s| ==> r == s[begin..end]
    ensures end <= begin && (0 <= end || begin < 0) ==> r == []
  {
    var b := RelativeIndex(begin, |s|);
    var e := RelativeIndex(end, |s|);
    if b < e then s[b..e] else []
  }

  function Min(a: int, b: int): int {
    if a <= b then a else b
  }

  function Max(a: int, b: int): int {
    if a <= b then b else a
  }

  /** `(page - 1) * pageSize`, where a page starts. */
  function PageStart(page: int, pageSize: int): int {
    (page - 1) * pageSize
  }

  /** `page * pageSize`, where a page ends. */
  function PageEnd(page: int, pageSize: int): int {
    page * pageSize
  }

  /** Page `page` (from 1) of size `pageSize` is the window of s that starts
      at (page - 1) * pageSize and holds min(pageSize, what is left) items. */
  lemma PageWindow<T>(s: seq<T>, page: int, pageSize: int)
    requires page >= 1 && pageSize >= 0
    ensures 0 <= PageStart(page, pageSize)
    ensures |Slice(s, PageStart(page, pageSize), PageEnd(page, pageSize))|
      == Min(pageSize, Max(0, |s| - PageStart(page, pageSize)))
    ensures var start, r := PageStart(page, pageSize), Slice(s, PageStart(page, pageSize), PageEnd(page, pageSize));
      start <= |s| ==> start + |r| <= |s| && r == s[start..start + |r|]
  {
    PageBounds(page, pageSize);
  }

  /** A page from 1 starts at a non-negative position and ends `pageSize`
      later. */
  lemma PageBounds(page: int, pageSize: int)
    requires page >= 1 && pageSize >= 0
    ensures 0 <= PageStart(page, pageSize)
    ensures PageEnd(page, pageSize) == PageStart(page, pageSize) + pageSize
  {
    assert page * pageSize == (page - 1) * pageSize + pageSize;
  }

  /** A slice of jobs sorted by order is sorted by order, and holds only
      jobs of the original. */
  lemma SliceMembers(s: seq<Job>, begin: int, end: int)
    ensures forall i :: 0 <= i < |Slice(s, begin, end)| ==> Slice(s, begin, end)[i] in s
    ensures SortedByOrder(s) ==> SortedByOrder(Slice(s, begin, end))
  {
  }

  lemma SortedMembers(s: seq<Job>)
    ensures forall i :: 0 <= i < |SortByOrder(s)| ==> SortByOrder(s)[i] in s
  {
    var r := SortByOrder(s);
    assert forall i :: 0 <= i < |r| ==> r[i] in multiset(r);
  }

  /** `getJobs` before the simulated request: filter, sort by order, cut out
      the page; `total` counts every job that passes. */
  function QueryJobs(jobs: seq<Job>, q: Query): (r: Page)
    ensures r.total == |Filter(jobs, QueryMatcher(q))|
  {
    FilterJobsMatches(jobs, q);
    var filtered := FilterJobs(jobs, q);
    Page(Slice(SortByOrder(filtered), PageStart(q.page, q.pageSize), PageEnd(q.page, q.pageSize)), |filtered|)
  }

  /** The page holds only jobs of the store that pass both filters, sorted by
      order. */
  lemma QueryJobsMembers(jobs: seq<Job>, q: Query)
    ensures var r := QueryJobs(jobs, q);
      && (forall i :: 0 <= i < |r.jobs| ==> r.jobs[i] in jobs && Matches(r.jobs[i], q))
      && SortedByOrder(r.jobs)
  {
    FilterJobsMatches(jobs, q);
    var filtered := FilterJobs(jobs, q);
    var sorted := SortByOrder(filtered);
    var page := Slice(sorted, PageStart(q.page, q.pageSize), PageEnd(q.page, q.pageSize));
    SliceMembers(sorted, PageStart(q.page, q.pageSize), PageEnd(q.page, q.pageSize));
    SortedMembers(filtered);
    assert forall i :: 0 <= i < |page| ==> page[i] in filtered;
    assert forall i :: 0 <= i < |page| ==> page[i] in jobs && QueryMatcher(q)(page[i]);
    assert QueryJobs(jobs, q).jobs == page;
  }

  /** The window facts for any page cut out of a list of jobs. */
  lemma PageOfWindow(r: Page, sorted: seq<Job>, page: int, pageSize: int)
    requires page >= 1 && pageSize >= 0
    requires r == Page(Slice(sorted, PageStart(page, pageSize), PageEnd(page, pageSize)), |sorted|)
    ensures var start := PageStart(page, pageSize);
      && 0 <= start
      && |sorted| == r.total
      && |r.jobs| == Min(pageSize, Max(0, r.total - start))
      && (start <= r.total ==> start + |r.jobs| <= |sorted| && r.jobs == sorted[start..start + |r.jobs|])
  {
    PageWindow(sorted, page, pageSize);
  }

  /** For a page number from 1 and a non-negative page size, the page is the
      window of the sorted matches that starts at (page - 1) * pageSize and
      holds min(pageSize, max(0, total - (page - 1) * pageSize)) jobs. */
  lemma QueryJobsWindow(jobs: seq<Job>, q: Query)
    requires q.page >= 1 && q.pageSize >= 0
    ensures var r, start := QueryJobs(jobs, q), PageStart(q.page, q.pageSize);
      var sorted := SortByOrder(Filter(jobs, QueryMatcher(q)));
      && 0 <= start
      && |sorted| == r.total
      && |r.jobs| == Min(q.pageSize, Max(0, r.total - start))
      && (start <= r.total ==> start + |r.jobs| <= |sorted| && r.jobs == sorted[start..start + |r.jobs|])
  {
    FilterJobsMatches(jobs, q);
    PageOfWindow(QueryJobs(jobs, q), SortByOrder(Filter(jobs, QueryMatcher(q))), q.page, q.pageSize);
  }
}
