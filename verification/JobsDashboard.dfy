/** The jobs board of talent-flow/src/components/JobsDashboard.jsx: its
    filters, the fetch of one page, saving from the editor, the optimistic
    archive toggle with a per-field rollback, and the optimistic drag
    reorder with a whole-list rollback and a refetch on success. */
module JobsDashboard {
  import opened Domain
  import opened Seqs
  import opened JobOrder
  import opened JobQuery
  import opened MockApi
  import opened Optimistic

  /** The filter state. A `None` status is the "all" choice (`''`). */
  datatype Filters = Filters(search: string, status: Option<JobStatus>, page: int, pageSize: int)

  /** The filters the board opens with: no search, active jobs, page 1 of 10. */
  const InitialFilters := Filters("", Some(Active), 1, 10)

  function QueryOf(f: Filters): Query {
    Query(f.search, f.status, f.page, f.pageSize)
  }

  /** The two filter inputs of the board: the search box and the status select. */
  datatype FilterChange = SearchTo(search: string) | StatusTo(status: Option<JobStatus>)

  /** `handleFilterChange(key, value)`: the changed filter takes the value,
      the page goes back to 1, and nothing else changes. */
  function HandleFilterChange(f: Filters, c: FilterChange): (r: Filters)
    ensures r.page == 1 && r.pageSize == f.pageSize
    ensures c.SearchTo? ==> r.search == c.search && r.status == f.status
    ensures c.StatusTo? ==> r.status == c.status && r.search == f.search
  {
    match c
    case SearchTo(s) => f.(search := s, page := 1)
    case StatusTo(s) => f.(status := s, page := 1)
  }

  /** After any filter change the board shows the first window of the
      matches, and repeating the change changes nothing more. */
  lemma FilterChangeRestartsPaging(f: Filters, c: FilterChange)
    ensures PageStart(HandleFilterChange(f, c).page, HandleFilterChange(f, c).pageSize) == 0
    ensures HandleFilterChange(HandleFilterChange(f, c), c) == HandleFilterChange(f, c)
  {
  }

  /** What the board shows: the fetched page, the total, and whether the last
      fetch failed (its error line). */
  datatype View = View(jobs: seq<Job>, total: int, failed: bool)

  /** `fetchJobs()`: on success the page and total of `getJobs` for the current
      filters replace what is shown and the error clears; on failure the page
      and total stay and the error is shown. */
  function FetchJobs(v: View, f: Filters, db: Db, ok: bool): (r: View)
    ensures r.failed <==> !ok
    ensures ok ==> r.total == |Filter(db.jobs, QueryMatcher(QueryOf(f)))|
    ensures ok ==> forall i :: 0 <= i < |r.jobs| ==> r.jobs[i] in db.jobs && Matches(r.jobs[i], QueryOf(f))
    ensures ok ==> SortedByOrder(r.jobs)
    ensures ok ==> r.jobs == QueryJobs(db.jobs, QueryOf(f)).jobs
    ensures !ok ==> r.jobs == v.jobs && r.total == v.total
  {
    match GetJobs(db, QueryOf(f), ok)
    case Ok(page) => View(page.jobs, page.total, false)
    case NetworkError => v.(failed := true)
  }

  /** `if (jobData.id)`: a present, non-empty id means an existing job. */
  predicate IsUpdate(data: JobPatch) {
    data.id.Some? && data.id.value != ""
  }

  /** `handleSaveJob(jobData)`: update the job with that id, or create a new
      job, then refetch; when the call fails the error propagates to the
      editor, so nothing is refetched. A new job needs a title. */
  function HandleSaveJob(v: View, f: Filters, db: Db, data: JobPatch, freshId: string, ok: bool, fetchOk: bool): (r: (View, Db))
    requires IsUpdate(data) || data.title.Some?
    ensures IsUpdate(data) ==> r.1 == UpdateJob(db, data.id.value, data, ok).db
    ensures !IsUpdate(data) ==> r.1 == CreateJob(db, data, freshId, ok).db
    ensures ok ==> r.0 == FetchJobs(v, f, r.1, fetchOk)
    ensures !ok ==> r == (v, db)
  {
    var after := if IsUpdate(data) then UpdateJob(db, data.id.value, data, ok).db
                 else CreateJob(db, data, freshId, ok).db;
    if ok then (FetchJobs(v, f, after, fetchOk), after) else (v, db)
  }

  /** Saving adds a job exactly when it creates one and the request succeeds;
      an update never changes how many jobs there are. */
  lemma SaveJobCount(v: View, f: Filters, db: Db, data: JobPatch, freshId: string, ok: bool, fetchOk: bool)
    requires IsUpdate(data) || data.title.Some?
    ensures |HandleSaveJob(v, f, db, data, freshId, ok, fetchOk).1.jobs|
      == |db.jobs| + (if ok && !IsUpdate(data) then 1 else 0)
  {
  }

  /** The status the archive button switches to. */
  function ToggleTarget(s: JobStatus): (r: JobStatus)
    ensures r != s
    ensures r == Archived <==> s == Active
  {
    if s == Active then Archived else Active
  }

  /** `jobs.map(j => j.id === id ? { ...j, status } : j)`. */
  function SetStatusWhere(jobs: seq<Job>, id: string, s: JobStatus): seq<Job> {
    seq(|jobs|, i requires 0 <= i < |jobs| => if jobs[i].id == id then jobs[i].(status := s) else jobs[i])
  }

  /** An optimistic handler's result: what was shown while the request was
      pending, how it settled, what the board shows after, whether it
      refetched, and the store after. */
  datatype Outcome = Outcome(optimistic: seq<Job>, phase: Phase<seq<Job>>, view: View, refetched: bool, db: Db)

  /** `handleToggleArchive(job)`: every shown job with the job's id shows the
      other status at once and the server is asked for it. On success the
      board refetches exactly when a status filter is set and the job no
      longer passes it; on failure those jobs get the original status back
      and the store is unchanged. */
  function HandleToggleArchive(v: View, f: Filters, db: Db, job: Job, ok: bool, fetchOk: bool): (r: Outcome)
    ensures var s := ToggleTarget(job.status);
      && |r.optimistic| == |v.jobs|
      && (forall i :: 0 <= i < |v.jobs| && v.jobs[i].id == job.id ==> r.optimistic[i] == v.jobs[i].(status := s))
      && (forall i :: 0 <= i < |v.jobs| && v.jobs[i].id != job.id ==> r.optimistic[i] == v.jobs[i])
    ensures r.phase.Committed? <==> ok
    ensures r.db == UpdateJob(db, job.id, StatusPatch(ToggleTarget(job.status)), ok).db
    ensures ok ==> (r.refetched <==> f.status.Some? && f.status.value != ToggleTarget(job.status))
    ensures ok && !r.refetched ==> r.view == v.(jobs := r.optimistic)
    ensures ok && r.refetched ==> r.view == FetchJobs(v.(jobs := r.optimistic), f, r.db, fetchOk)
    ensures !ok ==> !r.refetched && r.view.total == v.total && r.view.failed == v.failed
    ensures !ok ==> |r.view.jobs| == |v.jobs|
    ensures !ok ==> forall i :: 0 <= i < |v.jobs| ==>
      r.view.jobs[i] == (if v.jobs[i].id == job.id then v.jobs[i].(status := job.status) else v.jobs[i])
  {
    var newStatus := ToggleTarget(job.status);
    var pending := Begin(Idle(v.jobs), SetStatusWhere(v.jobs, job.id, newStatus));
    var call := UpdateJob(db, job.id, StatusPatch(newStatus), ok);
    var phase := Settle(pending, ok, SetStatusWhere(pending.shown, job.id, job.status));
    var refetch := ok && f.status.Some? && f.status.value != newStatus;
    var shown := v.(jobs := phase.shown);
    Outcome(pending.shown, phase, if refetch then FetchJobs(shown, f, call.db, fetchOk) else shown, refetch, call.db)
  }

  /** When every shown job with the toggled id had the toggled job's status
      (as when the job was picked from the board), a failed toggle shows
      exactly the board from before. */
  lemma ToggleRollbackRestores(v: View, f: Filters, db: Db, job: Job, fetchOk: bool)
    requires forall i :: 0 <= i < |v.jobs| && v.jobs[i].id == job.id ==> v.jobs[i].status == job.status
    ensures HandleToggleArchive(v, f, db, job, false, fetchOk).view == v
    ensures HandleToggleArchive(v, f, db, job, false, fetchOk).db == db
  {
    var r := HandleToggleArchive(v, f, db, job, false, fetchOk);
    assert r.view.jobs == v.jobs;
  }

  /** The two drag refs: the order value of the dragged job and of the job
      dragged over, each `null` when unset. */
  datatype DragRefs = DragRefs(item: Option<int>, over: Option<int>)

  /** `j => j.order === order`. */
  function HasOrder(order: int): Job -> bool {
    (j: Job) => j.order == order
  }

  /** The client-side splice: take the job at i out, and put it back at index
      j of the shortened list, so it lands just before the job that was at j;
      for a downward drag (j > i) that is index j - 1 of the result, and the
      target stays at index j. The other jobs keep their relative order. */
  function ClientMove(s: seq<Job>, i: nat, j: nat): (r: seq<Job>)
    requires i < |s| && j < |s|
    ensures |r| == |s|
    ensures multiset(r) == multiset(s)
    ensures r[if j > i then j - 1 else j] == s[i]
    ensures RemoveAt(r, if j > i then j - 1 else j) == RemoveAt(s, i)
  {
    var k := if j > i then j - 1 else j;
    MovePermutes(s, i, k);
    RemoveInserted(RemoveAt(s, i), k, s[i]);
    Move(s, i, k)
  }

  /** The client splices when a drag ref names an order that no shown job
      holds, so `find` gave `undefined` (i or j is -1). `indexOf(undefined)`
      is -1 and `splice(-1, 1)` takes out the last job; the second splice
      puts the taken job back before the target job, or, when the target is
      missing or was the job taken out, at index -1 of the shortened list,
      that is before its last job. (`indexOf` on the target finds it at its
      own index, as `find` returned the first job with its order.) */
  function MissingRefSplice(s: seq<Job>, i: int, j: int): (r: seq<Job>)
    requires |s| > 0 && -1 <= i < |s| && -1 <= j < |s| && (i < 0 || j < 0)
    ensures |r| == |s| && multiset(r) == multiset(s)
    ensures var k := if i < 0 then |s| - 1 else i;
      var p := if 0 <= j && j != k then j else if |s| >= 2 then |s| - 2 else 0;
      && r[p] == s[k]
      && RemoveAt(r, p) == RemoveAt(s, k)
      && (0 <= j && j != k ==> r[p + 1] == s[j])
  {
    var k := if i < 0 then |s| - 1 else i;
    var rest := RemoveAt(s, k);
    var t := if 0 <= j && j != k then j else -1;
    var p := RelativeIndex(t, |rest|);
    MovePermutes(s, k, p);
    RemoveInserted(rest, p, s[k]);
    InsertAt(rest, p, s[k])
  }

  /** The drag when a ref names an order no shown job holds: the splices
      are set, then reading `.order` of `undefined` throws inside the `try`
      before any `await`, so the list from before is put back in the same
      batch and the server is never asked. */
  function MissingRef(v: View, i: int, j: int, db: Db): (o: Outcome)
    requires -1 <= i < |v.jobs| && -1 <= j < |v.jobs| && (i < 0 || j < 0)
    ensures multiset(o.optimistic) == multiset(v.jobs)
    ensures |v.jobs| > 0 ==> o.optimistic == MissingRefSplice(v.jobs, i, j)
    ensures o.phase == RolledBack(v.jobs) && o.view == v && o.db == db && !o.refetched
  {
    var spliced := if |v.jobs| == 0 then v.jobs else MissingRefSplice(v.jobs, i, j);
    Outcome(spliced, RolledBack(v.jobs), v, false, db)
  }

  /** The result of `handleDragEnd`: the optimistic handler's outcome, the
      drag refs after it, and whether the server was asked to reorder. */
  datatype DragOutcome = DragOutcome(outcome: Outcome, refs: DragRefs, called: bool)

  /** `handleDragEnd()`. With a ref unset or both refs equal it does nothing
      at all. Otherwise it looks up both jobs by order among the shown jobs;
      when one is missing the error inside the `try` restores the list
      without asking the server. With both found it shows the client splice
      at once and asks the server to reorder; success refetches, failure
      puts back the list from before verbatim. The refs are cleared in every
      case past the first check. Every shown order must be one the server
      can move, between 1 and the number of stored jobs. */
  function HandleDragEnd(v: View, f: Filters, refs: DragRefs, db: Db, ok: bool, fetchOk: bool): (r: DragOutcome)
    requires forall i :: 0 <= i < |v.jobs| ==> 1 <= v.jobs[i].order <= |db.jobs|
    ensures refs.item.None? || refs.over.None? || refs.item == refs.over ==>
      r.refs == refs && !r.called && r.outcome.view == v && r.outcome.db == db
    ensures !(refs.item.None? || refs.over.None? || refs.item == refs.over) ==>
      r == DropOn(v, f, refs.item.value, refs.over.value, db, ok, fetchOk)
    ensures multiset(r.outcome.optimistic) == multiset(v.jobs)
    ensures !r.called ==> r.outcome.view == v && r.outcome.db == db && !r.outcome.refetched
    ensures r.called ==>
      && refs.item.Some? && refs.over.Some?
      && (exists i :: 0 <= i < |v.jobs| && v.jobs[i].order == refs.item.value)
      && (exists j :: 0 <= j < |v.jobs| && v.jobs[j].order == refs.over.value)
    ensures r.called ==> r.outcome.db == ReorderJob(db, refs.item.value, refs.over.value, ok).db
    ensures r.called && ok ==>
      && r.outcome.refetched
      && r.outcome.phase == Committed(r.outcome.optimistic)
      && r.outcome.view == FetchJobs(v.(jobs := r.outcome.optimistic), f, r.outcome.db, fetchOk)
    ensures r.called && !ok ==> r.outcome.phase == RolledBack(v.jobs) && r.outcome.view == v && r.outcome.db == db
  {
    if refs.item.None? || refs.over.None? || refs.item == refs.over then
      DragOutcome(Outcome(v.jobs, Idle(v.jobs), v, false, db), refs, false)
    else
      DropOn(v, f, refs.item.value, refs.over.value, db, ok, fetchOk)
  }

  /** `handleDragEnd()` past its first check, with the dragged order `from`
      and the target order `to`: both jobs are looked up by order among the
      shown jobs. The server is asked exactly when both are found; then the
      board shows the client splice of the two. When one is missing, the
      board sets the splices at index -1 and puts back the list from before.
      The refs are cleared either way. */
  function DropOn(v: View, f: Filters, from: int, to: int, db: Db, ok: bool, fetchOk: bool): (r: DragOutcome)
    requires from != to
    requires forall i :: 0 <= i < |v.jobs| ==> 1 <= v.jobs[i].order <= |db.jobs|
    ensures r.refs == DragRefs(None, None)
    ensures var i, j := FirstIndex(v.jobs, HasOrder(from)), FirstIndex(v.jobs, HasOrder(to));
      && (r.called <==> i >= 0 && j >= 0)
      && (i >= 0 && j >= 0 ==> r.outcome.optimistic == ClientMove(v.jobs, i, j))
      && (|v.jobs| > 0 && (i < 0 || j < 0) ==> r.outcome.optimistic == MissingRefSplice(v.jobs, i, j))
    ensures multiset(r.outcome.optimistic) == multiset(v.jobs)
    ensures !r.called ==> r.outcome.view == v && r.outcome.db == db && !r.outcome.refetched
    ensures r.called ==>
      && (exists i :: 0 <= i < |v.jobs| && v.jobs[i].order == from)
      && (exists j :: 0 <= j < |v.jobs| && v.jobs[j].order == to)
    ensures r.called ==> r.outcome.db == ReorderJob(db, from, to, ok).db
    ensures r.called && ok ==>
      && r.outcome.refetched
      && r.outcome.phase == Committed(r.outcome.optimistic)
      && r.outcome.view == FetchJobs(v.(jobs := r.outcome.optimistic), f, r.outcome.db, fetchOk)
    ensures r.called && !ok ==> r.outcome.phase == RolledBack(v.jobs) && r.outcome.view == v && r.outcome.db == db
  {
    var i := FirstIndex(v.jobs, HasOrder(from));
    var j := FirstIndex(v.jobs, HasOrder(to));
    var cleared := DragRefs(None, None);
    if i < 0 || j < 0 then
      DragOutcome(MissingRef(v, i, j, db), cleared, false)
    else
      DragOutcome(MoveShown(v, f, i, j, db, ok, fetchOk), cleared, true)
  }

  /** The drag once both jobs are found at positions i and j: the splice is
      shown at once and the server is asked to move order `v.jobs[i].order`
      to `v.jobs[j].order`; success refetches, failure puts back the list
      from before. */
  function MoveShown(v: View, f: Filters, i: nat, j: nat, db: Db, ok: bool, fetchOk: bool): (o: Outcome)
    requires i < |v.jobs| && j < |v.jobs| && i != j
    requires 1 <= v.jobs[i].order <= |db.jobs|
    ensures o.optimistic == ClientMove(v.jobs, i, j)
    ensures multiset(o.optimistic) == multiset(v.jobs)
    ensures o.db == ReorderJob(db, v.jobs[i].order, v.jobs[j].order, ok).db
    ensures ok ==>
      && o.refetched
      && o.phase == Committed(o.optimistic)
      && o.view == FetchJobs(v.(jobs := o.optimistic), f, o.db, fetchOk)
    ensures !ok ==> !o.refetched && o.phase == RolledBack(v.jobs) && o.view == v && o.db == db
  {
    var pending := Begin(Idle(v.jobs), ClientMove(v.jobs, i, j));
    var call := ReorderJob(db, v.jobs[i].order, v.jobs[j].order, ok);
    var phase := Settle(pending, ok, pending.snapshot);
    var view := if ok then FetchJobs(v.(jobs := phase.shown), f, call.db, fetchOk) else v;
    Outcome(pending.shown, phase, view, ok, call.db)
  }

  /** On three jobs with orders 1, 2, 3 the drag finds the first job at
      position 0 and the third at position 2. */
  lemma FindFirstAndThird(jobs: seq<Job>)
    requires |jobs| == 3
    requires jobs[0].order == 1 && jobs[1].order == 2 && jobs[2].order == 3
    ensures FirstIndex(jobs, HasOrder(1)) == 0
    ensures FirstIndex(jobs, HasOrder(3)) == 2
  {
    assert jobs[1..][1..] == [jobs[2]];
  }

  /** Three stored jobs with orders 1, 2, 3, all shown. */
  predicate ThreeInOrder(jobs: seq<Job>) {
    |jobs| == 3 && jobs[0].order == 1 && jobs[1].order == 2 && jobs[2].order == 3
  }

  /** Dragging the first of them onto the third, the request succeeding. */
  function DragFirstOntoThird(jobs: seq<Job>, f: Filters, fetchOk: bool): DragOutcome
    requires ThreeInOrder(jobs)
  {
    HandleDragEnd(View(jobs, 3, false), f, DragRefs(Some(1), Some(3)), Db(jobs, [], map[]), true, fetchOk)
  }

  /** The board shows the dragged job in the middle, before the job it was
      dropped on. */
  lemma DragDownClientShows(jobs: seq<Job>, f: Filters, fetchOk: bool)
    requires ThreeInOrder(jobs)
    ensures DragFirstOntoThird(jobs, f, fetchOk).called
    ensures DragFirstOntoThird(jobs, f, fetchOk).outcome.optimistic == [jobs[1], jobs[0], jobs[2]]
  {
    FindFirstAndThird(jobs);
    assert Move(jobs, 0, 1) == [jobs[1], jobs[0], jobs[2]];
  }

  /** The server stores the dragged job last. */
  lemma DragDownServerStores(jobs: seq<Job>, f: Filters, fetchOk: bool)
    requires ThreeInOrder(jobs)
    ensures DragFirstOntoThird(jobs, f, fetchOk).outcome.db.jobs
      == [jobs[1].(order := 1), jobs[2].(order := 2), jobs[0].(order := 3)]
  {
    FindFirstAndThird(jobs);
    ReorderFirstToLast(jobs);
  }

  /** So the optimistic list and the store differ in their middle job until
      the refetch replaces what the board shows. */
  lemma DragDownDisagrees(jobs: seq<Job>, f: Filters, fetchOk: bool)
    requires ThreeInOrder(jobs)
    requires Strip(jobs[0]) != Strip(jobs[2])
    ensures var r := DragFirstOntoThird(jobs, f, fetchOk);
      && |r.outcome.optimistic| == |r.outcome.db.jobs| == 3
      && Strip(r.outcome.optimistic[1]) != Strip(r.outcome.db.jobs[1])
      && r.outcome.refetched
  {
    DragDownClientShows(jobs, f, fetchOk);
    DragDownServerStores(jobs, f, fetchOk);
  }
}
