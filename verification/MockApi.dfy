/** The mock service of talent-flow/src/lib/mockApi.js: the store of three
    collections, its initialisation from storage or from seed data, and the
    seven service calls. Every call is a pure function of the store before
    it; the outcome of the simulated request (`mockRequest`) is the
    parameter `ok`, and ids drawn from the clock are parameters. */
module MockApi {
  import opened Text
  import opened Domain
  import opened Seqs
  import opened Slugs
  import opened JobOrder
  import opened JobQuery

  /** `mockRequest(data)`: resolves with data, or rejects with the random
      network error. */
  function Request<T>(data: T, ok: bool): (r: Response<T>)
    ensures r.Ok? <==> ok
    ensures r.Ok? ==> r.value == data
  {
    if ok then Ok(data) else NetworkError
  }

  // ---------------------------------------------------------------- jobs

  /** `getJobs`: reads the store and never writes it. A resolved page holds
      only stored jobs passing both filters, sorted by order, and `total`
      counts every stored job that passes; the page is the query's window
      (see `QueryJobsWindow`). */
  function GetJobs(db: Db, q: Query, ok: bool): (r: Response<Page>)
    ensures r.Ok? <==> ok
    ensures r.Ok? ==> r.value.total == |Filter(db.jobs, QueryMatcher(q))|
    ensures r.Ok? ==> forall i :: 0 <= i < |r.value.jobs| ==>
      r.value.jobs[i] in db.jobs && Matches(r.value.jobs[i], q)
    ensures r.Ok? ==> SortedByOrder(r.value.jobs)
    ensures r.Ok? ==> r.value == QueryJobs(db.jobs, q)
  {
    QueryJobsMembers(db.jobs, q);
    Request(QueryJobs(db.jobs, q), ok)
  }

  /** `createJob(jobData)`: a new job appended at the end, with the fresh id,
      the given title, the slug of that title, status active whatever the
      input says, the given tags or none, and the next order number. Nothing
      is written when the request fails. The source reads `jobData.title`
      unconditionally, so a title must be present. */
  function CreateJob(db: Db, data: JobPatch, freshId: string, ok: bool): (r: Call<Job>)
    requires data.title.Some?
    ensures r.response.Ok? <==> ok
    ensures !ok ==> r.db == db
    ensures ok ==> var j := r.response.value;
      && r.db == db.(jobs := db.jobs + [j])
      && j.id == freshId
      && j.title == data.title.value
      && j.slug == Slug(data.title.value)
      && j.status == Active
      && j.tags == data.tags.GetOr([])
      && j.order == |db.jobs| + 1
  {
    var title := data.title.value;
    var job := Job(freshId, title, Slug(title), Active, data.tags.GetOr([]), |db.jobs| + 1);
    match Request(job, ok)
    case Ok(_) => Call(Ok(job), db.(jobs := db.jobs + [job]))
    case NetworkError => Call(NetworkError, db)
  }

  /** Appending the created job turns orders 1..N into 1..N+1. */
  lemma CreateJobKeepsContiguous(db: Db, data: JobPatch, freshId: string, ok: bool)
    requires data.title.Some?
    requires Contiguous(db.jobs)
    ensures Contiguous(CreateJob(db, data, freshId, ok).db.jobs)
  {
    if ok {
      var j := CreateJob(db, data, freshId, ok).response.value;
      var n := |db.jobs|;
      assert OrdersOf(db.jobs + [j]) == OrdersOf(db.jobs) + [n + 1];
      assert Iota(n + 1) == Iota(n) + [n + 1];
    }
  }

  /** Two words separated by a run of spaces slug to the lower-cased words
      joined by one hyphen. */
  lemma TwoWordSlug(a: string, w: string, b: string, la: string, lb: string)
    requires |a| > 0 && |b| > 0 && |w| > 0
    requires forall i :: 0 <= i < |a| ==> !IsSpace(a[i])
    requires forall i :: 0 <= i < |w| ==> IsSpace(w[i])
    requires forall i :: 0 <= i < |b| ==> !IsSpace(b[i])
    requires LowerStr(a) == la && LowerStr(b) == lb
    ensures Slug(a + w + b) == la + "-" + lb
  {
    SlugOfSeparatedWords(a, w, b);
    WordSlug(a, la);
    WordSlug(b, lb);
  }

  lemma SpacedTitleSlug()
    ensures Slug("Backend   Engineer") == "backend" + "-" + "engineer"
  {
    var a, w, b := "Backend", "   ", "Engineer";
    assert LowerStr(a) == [Lower(a[0])] + a[1..];
    assert LowerStr(b) == [Lower(b[0])] + b[1..];
    TwoWordSlug(a, w, b, "backend", "engineer");
    assert a + w + b == "Backend   Engineer";
  }

  /** Creating a job in a store of 25: the new job gets order 26, status
      active although the input asked for archived, no tags, and the slug of
      its title. */
  lemma CreateJobExample(db: Db, freshId: string)
    requires |db.jobs| == 25
    ensures var r := CreateJob(db, JobPatch(None, Some("Backend   Engineer"), None, Some(Archived), None, None), freshId, true);
      && r.response.value.slug == "backend" + "-" + "engineer"
      && r.response.value.order == 26
      && r.response.value.status == Active
      && r.response.value.tags == []
  {
    SpacedTitleSlug();
  }

  /** `j => j.id === id`. */
  function HasJobId(id: string): Job -> bool {
    (j: Job) => j.id == id
  }

  /** `db.jobs.map(j => j.id === id ? { ...j, ...patch } : j)`. */
  function MergeWhere(jobs: seq<Job>, id: string, p: JobPatch): seq<Job> {
    seq(|jobs|, i requires 0 <= i < |jobs| => if jobs[i].id == id then Merge(jobs[i], p) else jobs[i])
  }

  /** `updateJob(id, patch)`: every job with that id gets the patch merged
      over it and every other job is left as it was; an unknown id writes an
      unchanged list and is no error. The reply is the first matching job
      with the patch merged over it, or the patch alone when no job has that
      id. Nothing is written when the request fails. */
  function UpdateJob(db: Db, id: string, p: JobPatch, ok: bool): (r: Call<JobPatch>)
    ensures r.response.Ok? <==> ok
    ensures !ok ==> r.db == db
    ensures ok ==> r.db.candidates == db.candidates && r.db.assessments == db.assessments
    ensures ok ==> |r.db.jobs| == |db.jobs|
    ensures ok ==> forall i :: 0 <= i < |db.jobs| && db.jobs[i].id == id ==> r.db.jobs[i] == Merge(db.jobs[i], p)
    ensures ok ==> forall i :: 0 <= i < |db.jobs| && db.jobs[i].id != id ==> r.db.jobs[i] == db.jobs[i]
    ensures ok && (forall i :: 0 <= i < |db.jobs| ==> db.jobs[i].id != id) ==> r.db == db && r.response.value == p
    ensures ok ==> var k := FirstIndex(db.jobs, HasJobId(id));
      0 <= k ==> r.response.value == PatchOf(Merge(db.jobs[k], p))
  {
    var updated := MergeWhere(db.jobs, id, p);
    var k := FirstIndex(db.jobs, HasJobId(id));
    var reply := if k < 0 then p else PatchOf(Merge(db.jobs[k], p));
    assert k < 0 ==> updated == db.jobs;
    match Request(reply, ok)
    case Ok(_) => Call(Ok(reply), db.(jobs := updated))
    case NetworkError => Call(NetworkError, db)
  }

  /** Merging the same patch twice is merging it once. */
  lemma MergeIdempotent(j: Job, p: JobPatch)
    ensures Merge(Merge(j, p), p) == Merge(j, p)
  {
  }

  /** Repeating a successful update changes nothing more: whether or not the
      patch renames the job, the second pass finds either no job with the id
      or jobs that already carry the patch. */
  lemma UpdateJobIdempotent(db: Db, id: string, p: JobPatch)
    ensures var once := UpdateJob(db, id, p, true).db;
      UpdateJob(once, id, p, true).db == once
  {
    var once := UpdateJob(db, id, p, true).db;
    var twice := UpdateJob(once, id, p, true).db;
    forall i | 0 <= i < |once.jobs|
      ensures twice.jobs[i] == once.jobs[i]
    {
      if once.jobs[i].id == id {
        assert db.jobs[i].id == id;
        MergeIdempotent(db.jobs[i], p);
      }
    }
  }

  /** A patch without an order field keeps every order value, so the orders
      stay 1..N; this covers the archive toggle. */
  lemma UpdateJobKeepsOrders(db: Db, id: string, p: JobPatch, ok: bool)
    requires p.order.None?
    ensures OrdersOf(UpdateJob(db, id, p, ok).db.jobs) == OrdersOf(db.jobs)
    ensures Contiguous(db.jobs) ==> Contiguous(UpdateJob(db, id, p, ok).db.jobs)
  {
  }

  /** `reorderJob({ fromOrder, toOrder })`: the request is awaited first, so a
      failure writes nothing; on success the stored jobs are the reordered
      list, whose orders are exactly 1..N and which holds the same jobs up to
      their order values. The source needs a job at sorted position
      `fromOrder - 1` (counted from the end when negative), else it stores a
      phantom `{order: k}` object. */
  function ReorderJob(db: Db, fromOrder: int, toOrder: int, ok: bool): (r: Call<seq<Job>>)
    requires 0 < |db.jobs| && fromOrder <= |db.jobs|
    ensures r.response.Ok? <==> ok
    ensures !ok ==> r.db == db
    ensures ok ==> r.db == db.(jobs := r.response.value)
    ensures ok ==> OrdersOf(r.response.value) == Iota(|db.jobs|)
    ensures ok ==> multiset(Stripped(r.response.value)) == multiset(Stripped(db.jobs))
    ensures ok ==> r.response.value == Reorder(db.jobs, fromOrder, toOrder)
  {
    match Request((), ok)
    case NetworkError => Call(NetworkError, db)
    case Ok(_) =>
      var updated := Reorder(db.jobs, fromOrder, toOrder);
      Call(Ok(updated), db.(jobs := updated))
  }

  /** One drag request as the board sends it, with the outcome of its
      simulated request. */
  datatype ReorderRequest = ReorderRequest(fromOrder: int, toOrder: int, ok: bool)

  /** A run of reorder requests applied one after the other. */
  function ReorderAll(db: Db, rs: seq<ReorderRequest>): (r: Db)
    requires 0 < |db.jobs|
    requires forall i :: 0 <= i < |rs| ==> rs[i].fromOrder <= |db.jobs|
    ensures |r.jobs| == |db.jobs|
    ensures r.candidates == db.candidates && r.assessments == db.assessments
    decreases |rs|
  {
    if |rs| == 0 then db
    else ReorderAll(ReorderJob(db, rs[0].fromOrder, rs[0].toOrder, rs[0].ok).db, rs[1..])
  }

  /** Orders stay 1..N across any run of reorders that starts from orders
      1..N, and become 1..N after the first one that succeeds whatever they
      were before. */
  lemma {:induction false} ReorderAllContiguous(db: Db, rs: seq<ReorderRequest>)
    requires 0 < |db.jobs|
    requires forall i :: 0 <= i < |rs| ==> rs[i].fromOrder <= |db.jobs|
    ensures Contiguous(db.jobs) || (exists i :: 0 <= i < |rs| && rs[i].ok) ==>
      Contiguous(ReorderAll(db, rs).jobs)
    decreases |rs|
  {
    if |rs| > 0 {
      var next := ReorderJob(db, rs[0].fromOrder, rs[0].toOrder, rs[0].ok).db;
      if rs[0].ok {
        ReorderIsContiguous(db.jobs, rs[0].fromOrder, rs[0].toOrder);
      }
      if exists i :: 0 <= i < |rs| && rs[i].ok {
        var i :| 0 <= i < |rs| && rs[i].ok;
        if i > 0 {
          assert rs[1..][i - 1].ok;
        }
      }
      ReorderAllContiguous(next, rs[1..]);
    }
  }

  // ---------------------------------------------------------- candidates

  /** `getCandidates()`: the whole candidate list, unfiltered. */
  function GetCandidates(db: Db, ok: bool): (r: Response<seq<Candidate>>)
    ensures r.Ok? <==> ok
    ensures r.Ok? ==> r.value == db.candidates
  {
    Request(db.candidates, ok)
  }

  /** `c => c.id === id`. */
  function HasCandidateId(id: string): Candidate -> bool {
    (c: Candidate) => c.id == id
  }

  /** `candidates.map(c => c.id === id ? { ...c, stage } : c)`. */
  function SetStageWhere(cs: seq<Candidate>, id: string, stage: Stage): seq<Candidate> {
    seq(|cs|, i requires 0 <= i < |cs| => if cs[i].id == id then cs[i].(stage := stage) else cs[i])
  }

  /** The reply of `updateCandidateStage`: the found candidate with the new
      stage, or only `{ stage }` when no candidate has the id. */
  datatype StageReply = Moved(candidate: Candidate) | StageOnly(stage: Stage)

  /** `updateCandidateStage(id, stage)`: every candidate with that id gets the
      new stage and nothing else changes; an unknown id writes an unchanged
      list and is no error. Nothing is written when the request fails. */
  function UpdateCandidateStage(db: Db, id: string, stage: Stage, ok: bool): (r: Call<StageReply>)
    ensures r.response.Ok? <==> ok
    ensures !ok ==> r.db == db
    ensures ok ==> r.db.jobs == db.jobs && r.db.assessments == db.assessments
    ensures ok ==> |r.db.candidates| == |db.candidates|
    ensures ok ==> forall i :: 0 <= i < |db.candidates| && db.candidates[i].id == id ==>
      r.db.candidates[i] == db.candidates[i].(stage := stage)
    ensures ok ==> forall i :: 0 <= i < |db.candidates| && db.candidates[i].id != id ==>
      r.db.candidates[i] == db.candidates[i]
    ensures ok && (forall i :: 0 <= i < |db.candidates| ==> db.candidates[i].id != id) ==>
      r.db == db && r.response.value == StageOnly(stage)
    ensures ok ==> var k := FirstIndex(db.candidates, HasCandidateId(id));
      0 <= k ==> r.response.value == Moved(db.candidates[k].(stage := stage))
  {
    var updated := SetStageWhere(db.candidates, id, stage);
    var k := FirstIndex(db.candidates, HasCandidateId(id));
    var reply := if k < 0 then StageOnly(stage) else Moved(db.candidates[k].(stage := stage));
    assert k < 0 ==> updated == db.candidates;
    match Request((), ok)
    case Ok(_) => Call(Ok(reply), db.(candidates := updated))
    case NetworkError => Call(NetworkError, db)
  }

  /** After a successful move every candidate with the id is in the new stage;
      names, emails and applied-for jobs of all candidates are unchanged. */
  lemma UpdateCandidateStageMoves(db: Db, id: string, stage: Stage)
    ensures var cs := UpdateCandidateStage(db, id, stage, true).db.candidates;
      && (forall i :: 0 <= i < |cs| && cs[i].id == id ==> cs[i].stage == stage)
      && (forall i :: 0 <= i < |cs| ==>
            cs[i].(stage := db.candidates[i].stage) == db.candidates[i])
  {
  }

  // --------------------------------------------------------- assessments

  /** `getAssessment(jobId)`: the assessment stored for the job, or `null`
      when there is none (not an error). */
  function GetAssessment(db: Db, jobId: string, ok: bool): (r: Response<Option<Assessment>>)
    ensures r.Ok? <==> ok
    ensures r.Ok? ==> (r.value.Some? <==> jobId in db.assessments)
    ensures r.Ok? && r.value.Some? ==> r.value.value == db.assessments[jobId]
  {
    Request(if jobId in db.assessments then Some(db.assessments[jobId]) else None, ok)
  }

  /** `saveAssessment(jobId, a)`: creates or replaces the entry for the job
      and keeps every other entry. Nothing is written when the request
      fails. */
  function SaveAssessment(db: Db, jobId: string, a: Assessment, ok: bool): (r: Call<Assessment>)
    ensures r.response.Ok? <==> ok
    ensures !ok ==> r.db == db
    ensures ok ==> r.response.value == a
    ensures ok ==> r.db.jobs == db.jobs && r.db.candidates == db.candidates
    ensures ok ==> r.db.assessments.Keys == db.assessments.Keys + {jobId}
    ensures ok ==> r.db.assessments[jobId] == a
    ensures ok ==> forall k :: k in db.assessments && k != jobId ==> r.db.assessments[k] == db.assessments[k]
  {
    match Request((), ok)
    case Ok(_) => Call(Ok(a), db.(assessments := db.assessments[jobId := a]))
    case NetworkError => Call(NetworkError, db)
  }

  /** Reading back a saved assessment gives it; other jobs read as before. */
  lemma SaveThenGet(db: Db, jobId: string, a: Assessment, other: string)
    requires other != jobId
    ensures var saved := SaveAssessment(db, jobId, a, true).db;
      && GetAssessment(saved, jobId, true) == Ok(Some(a))
      && GetAssessment(saved, other, true) == GetAssessment(db, other, true)
  {
  }

  // ------------------------------------------------------- initialisation

  /** What storage holds under the three keys. `None` is a missing key or a
      value that does not parse: `loadData` returns `null` for both. */
  datatype Stored = Stored(
    jobs: Option<seq<Job>>,
    candidates: Option<seq<Candidate>>,
    assessments: Option<map<string, Assessment>>)

  /** Storage holding all three collections of the store. */
  function Persist(db: Db): Stored {
    Stored(Some(db.jobs), Some(db.candidates), Some(db.assessments))
  }

  predicate Complete(s: Stored) {
    s.jobs.Some? && s.candidates.Some? && s.assessments.Some?
  }

  // ------------------------------------------------------------ seed data

  const SeedJobCount := 25
  const SeedCandidateCount := 1000
  const TagPool: seq<string> := ["React", "Node.js", "TypeScript"]

  /** The random draws of `generateSeedData`: per job whether
      `Math.random() > 0.3` and `Math.floor(Math.random() * 3)`, per candidate
      `Math.floor(Math.random() * 25)` and `Math.floor(Math.random() * 6)`. */
  datatype SeedDraws = SeedDraws(active: seq<bool>, tagDraw: seq<nat>, jobDraw: seq<nat>, stageDraw: seq<nat>)

  /** Draws of the right number and in the ranges the expressions produce. */
  predicate ValidDraws(d: SeedDraws) {
    && |d.active| == SeedJobCount
    && |d.tagDraw| == SeedJobCount
    && (forall i :: 0 <= i < |d.tagDraw| ==> d.tagDraw[i] < 3)
    && |d.jobDraw| == SeedCandidateCount
    && (forall i :: 0 <= i < |d.jobDraw| ==> d.jobDraw[i] < SeedJobCount)
    && |d.stageDraw| == SeedCandidateCount
    && (forall i :: 0 <= i < |d.stageDraw| ==> d.stageDraw[i] < |Stages|)
  }

  /** `job-${n}`. */
  function JobId(n: nat): string {
    "job-" + NatToString(n)
  }

  /** The seeded job at index i. */
  function SeedJob(i: nat, active: bool, tagDraw: nat): Job
    requires tagDraw < 3
  {
    var n := NatToString(i + 1);
    Job(JobId(i + 1), "Software Engineer " + n, "software-engineer-" + n,
        if active then Active else Archived, TagPool[..tagDraw + 1], i + 1)
  }

  /** The seeded candidate at index i, applying to seeded job `jobDraw`. */
  function SeedCandidate(i: nat, jobDraw: nat, stageDraw: nat): Candidate
    requires stageDraw < |Stages|
  {
    var n := NatToString(i + 1);
    Candidate("cand-" + n, "Candidate " + n, "candidate" + n + "@example.com",
              JobId(jobDraw + 1), Stages[stageDraw])
  }

  /** The one seeded assessment, for "job-1". */
  const SeedAssessment: Assessment := Assessment("assess-1", "job-1", [
    Question("q1", SingleChoice, "Years of React experience?", true,
             Some(["0-1", "1-3", "3-5", "5+"]), None, None),
    Question("q2", MultiChoice, "Which state management libraries have you used?", true,
             Some(["Redux", "MobX", "Zustand", "Context API"]), None, None),
    Question("q3", ShortText, "Link to your GitHub profile.", true, None, None, None),
    Question("q4", LongText, "Describe a challenging technical problem you solved.", false, None, None, None),
    Question("q5", Numeric, "On a scale of 1-10, how proficient are you with TypeScript?", true,
             None, Some(1), Some(10)),
    Question("q6", FileUpload, "Upload your resume.", true, None, None, None)])

  /** A string of digits is its own lower-case form and its own slug. */
  lemma DigitsSlug(n: string)
    requires forall i :: 0 <= i < |n| ==> '0' <= n[i] <= '9'
    ensures Slug(n) == n
  {
    SlugOfWord(n, false);
  }

  /** A word without spaces slugs to its lower-case form; here for the
      words of the seeded titles. */
  lemma WordSlug(w: string, lower: string)
    requires forall i :: 0 <= i < |w| ==> !IsSpace(w[i])
    requires LowerStr(w) == lower
    ensures Slug(w) == lower
  {
    SlugOfWord(w, false);
  }

  lemma SoftwareSlug()
    ensures Slug("Software") == "software"
  {
    var w := "Software";
    assert LowerStr(w) == [Lower(w[0])] + w[1..];
    WordSlug(w, "software");
  }

  lemma EngineerSlug()
    ensures Slug("Engineer") == "engineer"
  {
    var w := "Engineer";
    assert LowerStr(w) == [Lower(w[0])] + w[1..];
    WordSlug(w, "engineer");
  }

  /** The seeded slug is the slug of the seeded title. */
  lemma SeedSlug(n: string)
    requires |n| > 0 && forall i :: 0 <= i < |n| ==> '0' <= n[i] <= '9'
    ensures Slug("Software Engineer " + n) == "software-engineer-" + n
  {
    var rest := "Engineer" + " " + n;
    assert rest[0] == 'E';
    assert Slug(rest) == "engineer" + "-" + n by {
      SlugOfSeparatedWords("Engineer", " ", n);
      EngineerSlug();
      DigitsSlug(n);
    }
    assert Slug("Software" + " " + rest) == "software" + "-" + Slug(rest) by {
      SlugOfSeparatedWords("Software", " ", rest);
      SoftwareSlug();
    }
    assert "Software Engineer " + n == "Software" + " " + rest;
    assert "software" + "-" + ("engineer" + "-" + n) == "software-engineer-" + n;
  }

  /** The 25 seeded jobs. */
  function SeedJobs(d: SeedDraws): seq<Job>
    requires ValidDraws(d)
  {
    seq(SeedJobCount, i requires 0 <= i < SeedJobCount => SeedJob(i, d.active[i], d.tagDraw[i]))
  }

  /** The 1000 seeded candidates. */
  function SeedCandidates(d: SeedDraws): seq<Candidate>
    requires ValidDraws(d)
  {
    seq(SeedCandidateCount, i requires 0 <= i < SeedCandidateCount => SeedCandidate(i, d.jobDraw[i], d.stageDraw[i]))
  }

  lemma SeedJobSlugs(d: SeedDraws)
    requires ValidDraws(d)
    ensures forall i :: 0 <= i < |SeedJobs(d)| ==> SeedJobs(d)[i].slug == Slug(SeedJobs(d)[i].title)
  {
    var jobs := SeedJobs(d);
    forall i | 0 <= i < |jobs|
      ensures jobs[i].slug == Slug(jobs[i].title)
    {
      SeedSlug(NatToString(i + 1));
    }
  }

  lemma SeedCandidateJobs(d: SeedDraws)
    requires ValidDraws(d)
    ensures forall i :: 0 <= i < |SeedCandidates(d)| ==>
      d.jobDraw[i] < |SeedJobs(d)| && SeedJobs(d)[d.jobDraw[i]].id == SeedCandidates(d)[i].jobId
  {
    var jobs, candidates := SeedJobs(d), SeedCandidates(d);
    forall i | 0 <= i < |candidates|
      ensures d.jobDraw[i] < |jobs| && jobs[d.jobDraw[i]].id == candidates[i].jobId
    {
      var k := d.jobDraw[i];
      assert k < SeedJobCount;
      assert candidates[i] == SeedCandidate(i, k, d.stageDraw[i]);
      assert jobs[k] == SeedJob(k, d.active[k], d.tagDraw[k]);
      assert jobs[k].id == candidates[i].jobId;
    }
  }

  /** `generateSeedData()`: 25 jobs with orders 1..25 whose slugs are the
      slugs of their titles and which carry one to three tags, 1000
      candidates each applying to one of those jobs, and a single assessment,
      for the first job. */
  function GenerateSeed(d: SeedDraws): (r: Db)
    requires ValidDraws(d)
    ensures |r.jobs| == SeedJobCount && OrdersOf(r.jobs) == Iota(SeedJobCount)
    ensures forall i :: 0 <= i < |r.jobs| ==> r.jobs[i].slug == Slug(r.jobs[i].title)
    ensures forall i :: 0 <= i < |r.jobs| ==> 1 <= |r.jobs[i].tags| <= 3
    ensures |r.candidates| == SeedCandidateCount
    ensures forall i :: 0 <= i < |r.candidates| ==>
      exists k :: 0 <= k < |r.jobs| && r.jobs[k].id == r.candidates[i].jobId
    ensures r.assessments.Keys == {r.jobs[0].id}
    ensures r.assessments[r.jobs[0].id].jobId == r.jobs[0].id
  {
    SeedJobSlugs(d);
    SeedCandidateJobs(d);
    var jobs, candidates := SeedJobs(d), SeedCandidates(d);
    assert forall i :: 0 <= i < |candidates| ==>
      exists k :: 0 <= k < |jobs| && jobs[k].id == candidates[i].jobId by {
      forall i | 0 <= i < |candidates|
        ensures exists k :: 0 <= k < |jobs| && jobs[k].id == candidates[i].jobId
      {
        var k := d.jobDraw[i];
        assert jobs[k].id == candidates[i].jobId;
      }
    }
    assert SeedJobs(d)[0].id == "job-1" by {
      assert NatToString(1) == "1";
    }
    Db(SeedJobs(d), SeedCandidates(d), map["job-1" := SeedAssessment])
  }

  /** The first load: the stored collections when all three are present (an
      empty list counts as present), otherwise the seed that
      `generateSeedData` builds from the draws, which is then written to
      storage in full. Either way storage ends up holding exactly the store. */
  function Init(stored: Stored, d: SeedDraws): (r: (Db, Stored))
    requires ValidDraws(d)
    ensures r.1 == Persist(r.0)
    ensures Complete(stored) ==> r.1 == stored
    ensures !Complete(stored) ==> r.0 == GenerateSeed(d)
    ensures !Complete(stored) ==> |r.0.jobs| == SeedJobCount && OrdersOf(r.0.jobs) == Iota(SeedJobCount)
  {
    if Complete(stored) then
      (Db(stored.jobs.value, stored.candidates.value, stored.assessments.value), stored)
    else
      var seed := GenerateSeed(d);
      (seed, Persist(seed))
  }

  /** Loading again after a first load keeps the store, whatever the second
      load would draw: the seed is generated at most once. */
  lemma InitIdempotent(stored: Stored, d: SeedDraws, d2: SeedDraws)
    requires ValidDraws(d) && ValidDraws(d2)
    ensures Init(Init(stored, d).1, d2).0 == Init(stored, d).0
  {
  }
}
