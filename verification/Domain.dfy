/** The records of the recruiting data layer: jobs, candidates and
    assessments, the three-collection store, and the outcome of a simulated
    service call. */
module Domain {
  import opened Text

  /** JavaScript's `null`/`undefined` versus a present value. */
  datatype Option<+T> = None | Some(value: T) {
    /** `x || fallback` for a value that is truthy whenever present. */
    function GetOr(fallback: T): T {
      match this
      case Some(v) => v
      case None => fallback
    }
  }

  /** A job is either open ("active") or archived. */
  datatype JobStatus = Active | Archived

  datatype Job = Job(
    id: string,
    title: string,
    slug: string,
    status: JobStatus,
    tags: seq<string>,
    order: int)

  /** A partial job object: the fields it carries are `Some`. It is the
      argument of `updateJob` (shallow-merged) and of `createJob`. */
  datatype JobPatch = JobPatch(
    id: Option<string>,
    title: Option<string>,
    slug: Option<string>,
    status: Option<JobStatus>,
    tags: Option<seq<string>>,
    order: Option<int>)

  /** `{ status: s }`. */
  function StatusPatch(s: JobStatus): JobPatch {
    JobPatch(None, None, None, Some(s), None, None)
  }

  /** `{ ...job }`: every field of the job. */
  function PatchOf(j: Job): JobPatch {
    JobPatch(Some(j.id), Some(j.title), Some(j.slug), Some(j.status), Some(j.tags), Some(j.order))
  }

  /** `{ ...j, ...p }`: each field p carries overrides j's. */
  function Merge(j: Job, p: JobPatch): Job {
    Job(p.id.GetOr(j.id), p.title.GetOr(j.title), p.slug.GetOr(j.slug),
        p.status.GetOr(j.status), p.tags.GetOr(j.tags), p.order.GetOr(j.order))
  }

  /** The six hiring stages, in board order. */
  datatype Stage = Applied | Screen | Tech | Offer | Hired | Rejected

  const Stages: seq<Stage> := [Applied, Screen, Tech, Offer, Hired, Rejected]

  /** Where a stage sits on the board: every stage is listed, at this position. */
  function StageIndex(s: Stage): (k: nat)
    ensures k < |Stages| && Stages[k] == s
  {
    match s
    case Applied => 0
    case Screen => 1
    case Tech => 2
    case Offer => 3
    case Hired => 4
    case Rejected => 5
  }

  datatype Candidate = Candidate(
    id: string,
    name: string,
    email: string,
    jobId: string,
    stage: Stage)

  datatype QuestionKind = ShortText | LongText | SingleChoice | MultiChoice | Numeric | FileUpload

  /** The kind's name as stored in a question's `type` field. */
  function KindName(k: QuestionKind): string {
    match k
    case ShortText => "short-text"
    case LongText => "long-text"
    case SingleChoice => "single-choice"
    case MultiChoice => "multi-choice"
    case Numeric => "numeric"
    case FileUpload => "file-upload"
  }

  predicate IsChoice(k: QuestionKind) {
    k == SingleChoice || k == MultiChoice
  }

  /** A question object; `prompt` is its `label` field (a Dafny keyword),
      `options` is present on choice questions and `min`/`max` on numeric ones. */
  datatype Question = Question(
    id: string,
    kind: QuestionKind,
    prompt: string,
    required: bool,
    options: Option<seq<string>>,
    min: Option<int>,
    max: Option<int>)

  datatype Assessment = Assessment(id: string, jobId: string, questions: seq<Question>)

  /** The in-memory snapshot of the three persisted collections; assessments
      are keyed by job id. */
  datatype Db = Db(
    jobs: seq<Job>,
    candidates: seq<Candidate>,
    assessments: map<string, Assessment>)

  /** How a simulated request settled: resolved with a value, or rejected
      with the random network error. */
  datatype Response<+T> = Ok(value: T) | NetworkError

  /** The response of a service operation together with the store after it. */
  datatype Call<+T> = Call(response: Response<T>, db: Db)
}
