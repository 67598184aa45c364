/** The assessment builder of talent-flow/src/components/AssessmentBuilder.jsx:
    loading a job's assessment (or a blank one), adding, editing and removing
    questions, editing choice options, and saving. */
module AssessmentBuilder {
  import opened Text
  import opened Domain
  import opened Seqs
  import opened MockApi

  /** The builder is still loading (where a failed fetch leaves it, since the
      rejection is not caught) or is editing an assessment. */
  datatype Builder = Loading | Editing(assessment: Assessment)

  /** The assessment the builder starts from when the job has none. */
  function BlankAssessment(jobId: string): Assessment {
    Assessment("assess-" + jobId, jobId, [])
  }

  /** The load effect: the stored assessment of the job, or a blank one with
      id "assess-<jobId>" and no questions when the job has none. */
  function Load(db: Db, jobId: string, ok: bool): (r: Builder)
    ensures r.Loading? <==> !ok
    ensures ok && jobId in db.assessments ==> r == Editing(db.assessments[jobId])
    ensures ok && jobId !in db.assessments ==>
      r.assessment.jobId == jobId && r.assessment.questions == [] && r.assessment.id == "assess-" + jobId
  {
    match GetAssessment(db, jobId, ok)
    case NetworkError => Loading
    case Ok(data) => Editing(data.GetOr(BlankAssessment(jobId)))
  }

  const DefaultOptions: seq<string> := ["Option 1", "Option 2"]

  /** The label a new question of this kind gets. */
  function NewPrompt(kind: QuestionKind): string {
    "New " + ReplaceFirst(KindName(kind), '-', ' ') + " question"
  }

  /** The question `addQuestion(type)` creates at clock reading `now`: id
      "q-<now>", not required, two default options exactly when it is a
      choice question, the range 0..10 exactly when it is numeric. */
  function NewQuestion(kind: QuestionKind, now: nat): (q: Question)
    ensures q.id == "q-" + NatToString(now) && q.kind == kind && !q.required
    ensures q.prompt == NewPrompt(kind)
    ensures q.options.Some? <==> IsChoice(kind)
    ensures IsChoice(kind) ==> q.options.value == DefaultOptions
    ensures q.min.Some? <==> kind == Numeric
    ensures q.max.Some? <==> kind == Numeric
    ensures kind == Numeric ==> q.min.value == 0 && q.max.value == 10
  {
    Question(
      "q-" + NatToString(now), kind, NewPrompt(kind), false,
      if IsChoice(kind) then Some(DefaultOptions) else None,
      if kind == Numeric then Some(0) else None,
      if kind == Numeric then Some(10) else None)
  }

  /** The label a new question of each kind gets: the first dash of the
      kind's name becomes a space, and a name without a dash is kept. */
  lemma NewPromptLabels(k: QuestionKind)
    ensures NewPrompt(k) == (match k
      case ShortText => "New short text question"
      case LongText => "New long text question"
      case SingleChoice => "New single choice question"
      case MultiChoice => "New multi choice question"
      case Numeric => "New numeric question"
      case FileUpload => "New file upload question")
  {
    match k
    case ShortText => ShortTextPrompt();
    case LongText => LongTextPrompt();
    case SingleChoice => SingleChoicePrompt();
    case MultiChoice => MultiChoicePrompt();
    case Numeric => NumericPrompt();
    case FileUpload => FileUploadPrompt();
  }

  /** The label of a kind named p + "-" + t, with no dash in p. */
  lemma SpacedPrompt(name: string, p: string, t: string, prompt: string)
    requires name == p + "-" + t && '-' !in p
    requires prompt == "New " + p + " " + t + " question"
    ensures "New " + ReplaceFirst(name, '-', ' ') + " question" == prompt
  {
    DashToSpace(p, t);
  }

  // The label of each kind, one small proof per kind.

  lemma ShortTextPrompt()
    ensures NewPrompt(ShortText) == "New short text question"
  {
    SpacedPrompt(KindName(ShortText), "short", "text", "New short text question");
  }

  lemma LongTextPrompt()
    ensures NewPrompt(LongText) == "New long text question"
  {
    SpacedPrompt(KindName(LongText), "long", "text", "New long text question");
  }

  lemma SingleChoicePrompt()
    ensures NewPrompt(SingleChoice) == "New single choice question"
  {
    SpacedPrompt(KindName(SingleChoice), "single", "choice", "New single choice question");
  }

  lemma MultiChoicePrompt()
    ensures NewPrompt(MultiChoice) == "New multi choice question"
  {
    SpacedPrompt(KindName(MultiChoice), "multi", "choice", "New multi choice question");
  }

  lemma FileUploadPrompt()
    ensures NewPrompt(FileUpload) == "New file upload question"
  {
    SpacedPrompt(KindName(FileUpload), "file", "upload", "New file upload question");
  }

  lemma NumericPrompt()
    ensures NewPrompt(Numeric) == "New numeric question"
  {
    ReplaceAbsent(KindName(Numeric), '-', ' ');
  }

  /** With no dash in p, the first dash of p + "-" + t is the one after p. */
  lemma DashToSpace(p: string, t: string)
    requires '-' !in p
    ensures ReplaceFirst(p + "-" + t, '-', ' ') == p + " " + t
  {
    var d := "-" + t;
    assert p + "-" + t == p + d;
    ReplaceAfterPrefix(p, d, '-', ' ');
    assert d[0] == '-' && d[1..] == t;
    assert ReplaceFirst(d, '-', ' ') == " " + t;
    assert p + (" " + t) == p + " " + t;
  }

  /** Replacing the first a in s when a prefix has none. */
  lemma {:induction false} ReplaceAfterPrefix(p: string, s: string, a: char, b: char)
    requires a !in p
    ensures ReplaceFirst(p + s, a, b) == p + ReplaceFirst(s, a, b)
    decreases |p|
  {
    if |p| > 0 {
      assert (p + s)[1..] == p[1..] + s;
      ReplaceAfterPrefix(p[1..], s, a, b);
      assert p == [p[0]] + p[1..];
    } else {
      assert p + s == s;
    }
  }

  /** A string without a is left as it is. */
  lemma ReplaceAbsent(s: string, a: char, b: char)
    requires a !in s
    ensures ReplaceFirst(s, a, b) == s
  {
    ReplaceAfterPrefix(s, "", a, b);
    assert s + "" == s;
  }

  /** `addQuestion(type)`: the new question goes last and nothing else
      changes. */
  function AddQuestion(a: Assessment, kind: QuestionKind, now: nat): (r: Assessment)
    ensures r.id == a.id && r.jobId == a.jobId
    ensures |r.questions| == |a.questions| + 1
    ensures r.questions[..|a.questions|] == a.questions
    ensures r.questions[|a.questions|] == NewQuestion(kind, now)
  {
    a.(questions := a.questions + [NewQuestion(kind, now)])
  }

  /** The two fields the builder edits through `updateQuestion`: the label
      input and the required checkbox. */
  datatype QuestionEdit = SetPrompt(prompt: string) | SetRequired(required: bool)

  function ApplyEdit(q: Question, e: QuestionEdit): Question {
    match e
    case SetPrompt(p) => q.(prompt := p)
    case SetRequired(b) => q.(required := b)
  }

  /** `updateQuestion(qId, field, value)`: every question with the id gets
      the new field value, every other question and field stays. */
  function UpdateQuestion(a: Assessment, qId: string, e: QuestionEdit): (r: Assessment)
    ensures r.id == a.id && r.jobId == a.jobId
    ensures |r.questions| == |a.questions|
    ensures forall i :: 0 <= i < |a.questions| && a.questions[i].id != qId ==> r.questions[i] == a.questions[i]
    ensures forall i :: 0 <= i < |a.questions| && a.questions[i].id == qId ==>
      && (e.SetPrompt? ==> r.questions[i] == a.questions[i].(prompt := e.prompt))
      && (e.SetRequired? ==> r.questions[i] == a.questions[i].(required := e.required))
  {
    a.(questions := seq(|a.questions|, i requires 0 <= i < |a.questions| =>
      if a.questions[i].id == qId then ApplyEdit(a.questions[i], e) else a.questions[i]))
  }

  /** Repeating an edit changes nothing more. */
  lemma UpdateQuestionIdempotent(a: Assessment, qId: string, e: QuestionEdit)
    ensures UpdateQuestion(UpdateQuestion(a, qId, e), qId, e) == UpdateQuestion(a, qId, e)
  {
    var once := UpdateQuestion(a, qId, e);
    var twice := UpdateQuestion(once, qId, e);
    assert twice.questions == once.questions;
  }

  /** Every question with this id lists options and has one at `optIndex`:
      the only calls the option inputs make (`[...q.options]` throws on a
      question without options). */
  predicate OptionEditable(a: Assessment, qId: string, optIndex: nat) {
    forall i :: 0 <= i < |a.questions| && a.questions[i].id == qId ==>
      a.questions[i].options.Some? && optIndex < |a.questions[i].options.value|
  }

  /** `updateOption(qId, optIndex, value)`: the option at `optIndex` of every
      question with the id becomes `value`; all else stays. */
  function UpdateOption(a: Assessment, qId: string, optIndex: nat, value: string): (r: Assessment)
    requires OptionEditable(a, qId, optIndex)
    ensures r.id == a.id && r.jobId == a.jobId
    ensures |r.questions| == |a.questions|
    ensures forall i :: 0 <= i < |a.questions| && a.questions[i].id != qId ==> r.questions[i] == a.questions[i]
    ensures forall i :: 0 <= i < |a.questions| && a.questions[i].id == qId ==>
      var q := a.questions[i];
      r.questions[i] == q.(options := Some(q.options.value[optIndex := value]))
    ensures OptionEditable(r, qId, optIndex)
  {
    a.(questions := seq(|a.questions|, i requires 0 <= i < |a.questions| =>
      var q := a.questions[i];
      if q.id == qId then q.(options := Some(q.options.value[optIndex := value])) else q))
  }

  /** The last write to an option wins. */
  lemma UpdateOptionLastWins(a: Assessment, qId: string, optIndex: nat, v: string, w: string)
    requires OptionEditable(a, qId, optIndex)
    ensures UpdateOption(UpdateOption(a, qId, optIndex, v), qId, optIndex, w) == UpdateOption(a, qId, optIndex, w)
  {
    var once := UpdateOption(a, qId, optIndex, v);
    var twice := UpdateOption(once, qId, optIndex, w);
    var direct := UpdateOption(a, qId, optIndex, w);
    forall i | 0 <= i < |a.questions|
      ensures twice.questions[i] == direct.questions[i]
    {
      if a.questions[i].id == qId {
        var opts := a.questions[i].options.value;
        assert opts[optIndex := v][optIndex := w] == opts[optIndex := w];
      }
    }
    assert twice.questions == direct.questions;
  }

  /** Writing back the value an option already has changes nothing, so
      editing an option and typing the old text back restores the
      assessment. */
  lemma UpdateOptionRestores(a: Assessment, qId: string, optIndex: nat, v: string, previous: string)
    requires OptionEditable(a, qId, optIndex)
    requires forall i :: 0 <= i < |a.questions| && a.questions[i].id == qId ==> a.questions[i].options.value[optIndex] == previous
    ensures UpdateOption(UpdateOption(a, qId, optIndex, v), qId, optIndex, previous) == a
  {
    UpdateOptionLastWins(a, qId, optIndex, v, previous);
    var r := UpdateOption(a, qId, optIndex, previous);
    forall i | 0 <= i < |a.questions|
      ensures r.questions[i] == a.questions[i]
    {
      if a.questions[i].id == qId {
        var opts := a.questions[i].options.value;
        assert opts[optIndex := previous] == opts;
      }
    }
    assert r.questions == a.questions;
  }

  function IdIsNot(qId: string): Question -> bool {
    (q: Question) => q.id != qId
  }

  /** `removeQuestion(qId)`: exactly the questions with another id stay, in
      their order. */
  function RemoveQuestion(a: Assessment, qId: string): (r: Assessment)
    ensures r.id == a.id && r.jobId == a.jobId
    ensures forall i :: 0 <= i < |r.questions| ==> r.questions[i].id != qId && r.questions[i] in a.questions
    ensures forall i :: 0 <= i < |a.questions| && a.questions[i].id != qId ==> a.questions[i] in r.questions
    ensures IsSubsequence(r.questions, a.questions)
  {
    FilterIsSubsequence(a.questions, IdIsNot(qId));
    a.(questions := Filter(a.questions, IdIsNot(qId)))
  }

  /** Removing a question twice is removing it once. */
  lemma RemoveQuestionIdempotent(a: Assessment, qId: string)
    ensures RemoveQuestion(RemoveQuestion(a, qId), qId) == RemoveQuestion(a, qId)
  {
    var once := RemoveQuestion(a, qId);
    FilterAll(once.questions, IdIsNot(qId));
  }

  /** Adding a question with an unused id and removing it again gives back
      the assessment. */
  lemma AddThenRemove(a: Assessment, kind: QuestionKind, now: nat)
    requires forall i :: 0 <= i < |a.questions| ==> a.questions[i].id != "q-" + NatToString(now)
    ensures RemoveQuestion(AddQuestion(a, kind, now), "q-" + NatToString(now)) == a
  {
    var qId := "q-" + NatToString(now);
    var added := AddQuestion(a, kind, now);
    assert added.questions == a.questions + [NewQuestion(kind, now)];
    FilterConcat(a.questions, [NewQuestion(kind, now)], IdIsNot(qId));
    FilterAll(a.questions, IdIsNot(qId));
    assert Filter([NewQuestion(kind, now)], IdIsNot(qId)) == [];
  }

  /** The alert after pressing save. */
  datatype SaveAlert = Saved | SaveFailed

  /** `handleSave`: the assessment being edited is stored under the builder's
      job id, whatever job id the assessment itself carries. */
  function HandleSave(a: Assessment, jobId: string, db: Db, ok: bool): (r: (SaveAlert, Db))
    ensures r.0 == Saved <==> ok
    ensures !ok ==> r.1 == db
    ensures ok ==> jobId in r.1.assessments && r.1.assessments[jobId] == a
    ensures ok ==> r.1.assessments.Keys == db.assessments.Keys + {jobId}
    ensures forall k :: k in db.assessments && k != jobId ==> r.1.assessments[k] == db.assessments[k]
    ensures r.1.jobs == db.jobs && r.1.candidates == db.candidates
  {
    var call := SaveAssessment(db, jobId, a, ok);
    (if call.response.Ok? then Saved else SaveFailed, call.db)
  }

  /** Whatever was built and saved is what the builder loads next time. */
  lemma SaveThenLoad(a: Assessment, jobId: string, db: Db)
    ensures Load(HandleSave(a, jobId, db, true).1, jobId, true) == Editing(a)
  {
  }
}
