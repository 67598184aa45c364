# talent-flow data layer in Dafny

This project models the client-side data layer of the talent-flow recruiting
tool. It covers the in-memory mock service, which holds jobs, candidates and
assessments, and the dashboards that change them optimistically. Each piece
is a pure function over immutable records.

- `Domain`: the records (`Job`, `Candidate`, `Question`, `Assessment`), the
  store `Db` of the three collections, the partial job object `JobPatch` and
  its shallow merge, and the `Response` of a simulated request.
- `Text`, `Seqs`, `Slugs`: ASCII models of the JavaScript string and array
  operations the code uses (`toLowerCase`, `includes`, `trim`, `split`,
  `join`, `filter`, `map`, `indexOf`, `findIndex`), plus the slug that
  `createJob` derives from a title.
- `JobOrder`: the stable sort by `order`, JavaScript's `splice` index rules,
  and the server reorder with its renumbering to 1..N.
- `JobQuery`: `getJobs`, which filters by title and status, sorts by order,
  cuts out one page and reports the filtered total.
- `MockApi`: the service calls, each taking the store before the call and the
  outcome `ok` of the simulated request. It also models the first load: the
  stored collections are used, or seed data when any of them is absent.
- `Optimistic`: the Idle → Pending → Committed/RolledBack state machine that
  the dashboards share.
- `JobsDashboard`, `CandidatesDashboard`, `JobEditorModal`,
  `AssessmentBuilder`: the handlers of the four components.

Random and outside inputs are parameters. `mockRequest` becomes the flag `ok`.
Ids built from `Date.now()` become `freshId` or `now`. The seed's
`Math.random()` draws become a `SeedDraws` value. Each later fetch also takes
its own outcome flag `fetchOk`.

Behaviour of the code worth noting:
- `updateJob` and `updateCandidateStage` raise no error for an unknown id.
  They save an unchanged list and reply with the patch (for a candidate, the
  new stage alone). They do not fail with a not-found error.
- The `getJobs` sort uses the comparator `a[sort] > b[sort] ? 1 : -1`, which
  never reports a tie. The model sorts by `order` only, as a stable sort. It
  claims nothing about how equal orders are placed beyond that.
- `handleSaveJob` refetches only when the awaited save succeeded. A failed
  save throws before the refetch line.
- A dragged job moved downward lands before the job it was dropped on in the
  optimistic list, but after it on the server. `JobsDashboard.DragDownDisagrees`
  proves that the two lists differ. The refetch after a successful drag is what
  brings them back in line.

## Model

| member | source | states |
|---|---|---|
| `MockApi.Request` | talent-flow/src/lib/mockApi.js:77-88 | a simulated request resolves with its data exactly when the outcome is success, and otherwise rejects |
| `MockApi.GetJobs` | talent-flow/src/lib/mockApi.js:92-105 | a resolved page holds only stored jobs that pass both filters, sorted by order; `total` counts every stored job that passes; the page is exactly the query's window, the one `JobQuery.QueryJobsWindow` fixes; the store is not written |
| `JobQuery.QueryJobs` | talent-flow/src/lib/mockApi.js:92-104 | `total` is the number of jobs matching the title search and the status filter |
| `JobQuery.FilterJobsMatches` | talent-flow/src/lib/mockApi.js:94-99 | applying the search filter and then the status filter, each only when set, keeps exactly the jobs that pass both tests, in their original order |
| `JobQuery.QueryJobsMembers` | talent-flow/src/lib/mockApi.js:93-103 | every job on the page is a stored job that passes both filters, and the page is sorted by order |
| `JobQuery.QueryJobsWindow` | talent-flow/src/lib/mockApi.js:101-103 | for page >= 1 and pageSize >= 0, the page holds min(pageSize, max(0, total - (page-1)*pageSize)) jobs and is the window of the sorted matches starting at (page-1)*pageSize |
| `JobQuery.Slice` | talent-flow/src/lib/mockApi.js:103 | `slice(begin, end)` returns the elements from the clamped begin up to the clamped end, with negative indices counted from the end; for 0 <= begin <= end <= length it is that exact window; an end at or before begin gives an empty list |
| `JobOrder.SortByOrder` | talent-flow/src/lib/mockApi.js:130 | the sort returns a permutation of the jobs, sorted by order |
| `JobOrder.SortSortedIdentity` | talent-flow/src/lib/mockApi.js:130 | sorting jobs that are already in order leaves them in place |
| `JobOrder.ContiguousSortedPositions` | talent-flow/src/lib/mockApi.js:130-131 | when orders are a permutation of 1..N, the job holding order k sits at sorted position k-1 |
| `JobOrder.RenumberedMove` | talent-flow/src/lib/mockApi.js:131-133 | after the two splices and the renumbering, orders are 1..N, the moved job is at the target position, and the other jobs keep their relative order |
| `JobOrder.Reorder` | talent-flow/src/lib/mockApi.js:130-133 | the result has orders exactly 1..N whatever the input orders were; the job at splice position fromOrder-1 lands at toOrder-1 (JavaScript index clamping); the others keep their relative order; up to `order` the result is a permutation of the input |
| `JobOrder.ReorderIsContiguous` | talent-flow/src/lib/mockApi.js:133 | after any reorder the orders are a permutation of 1..N |
| `JobOrder.ReorderByOrderValue` | talent-flow/src/lib/mockApi.js:130-133 | with orders 1..N and both arguments in 1..N, the job that held order fromOrder now holds order toOrder, with all its other fields unchanged, and the other jobs keep their relative order |
| `JobOrder.ReorderFirstToLast` | talent-flow/src/lib/mockApi.js:130-133 | on orders [1,2,3], moving order 1 to order 3 gives the first job order 3 and the other two orders 1 and 2 |
| `Text.ContainsIff` | talent-flow/src/lib/mockApi.js:95 | `includes` holds exactly when the search string occurs at some position of the title |
| `Text.Trim` | talent-flow/src/components/JobEditorModal.jsx:37 | the trimmed string is a window of the input with only whitespace outside it and no whitespace at either of its own ends, which fixes it uniquely; an already trimmed string is returned unchanged |
| `Text.JoinSplit` | talent-flow/src/components/JobEditorModal.jsx:37 | splitting on a character and joining the pieces with that character gives the string back, so `split` loses nothing |
| `Slugs.Slug` | talent-flow/src/lib/mockApi.js:110 | the slug is never longer than the title and contains no whitespace and no upper-case letter |
| `Slugs.SlugOfSeparatedWords` | talent-flow/src/lib/mockApi.js:110 | two parts separated by any non-empty whitespace run give the two slugs joined by exactly one '-' |
| `MockApi.CreateJob` | talent-flow/src/lib/mockApi.js:106-119 | on success exactly one job is appended, with the fresh id, the given title, the slug of the title, status active whatever the input says, the given tags or [], and order = previous length + 1; on failure the store is unchanged |
| `MockApi.CreateJobKeepsContiguous` | talent-flow/src/lib/mockApi.js:111-117 | creating a job turns orders 1..N into 1..N+1 |
| `MockApi.CreateJobExample` | talent-flow/src/lib/mockApi.js:106-117 | in a store of 25 jobs, creating "Backend   Engineer" with status archived gives order 26, status active, no tags and slug "backend-engineer" |
| `MockApi.UpdateJob` | talent-flow/src/lib/mockApi.js:120-125 | on success only jobs with the id get the patch merged over them and the length is kept; an unknown id leaves the store equal to before and replies with the patch; the reply is the first match merged with the patch; on failure nothing is written |
| `MockApi.UpdateJobIdempotent` | talent-flow/src/lib/mockApi.js:121-123 | applying the same successful update twice gives the same store as applying it once |
| `MockApi.UpdateJobKeepsOrders` | talent-flow/src/lib/mockApi.js:121-123 | a patch without an order field keeps every order value, so orders 1..N stay 1..N |
| `MockApi.ReorderJob` | talent-flow/src/lib/mockApi.js:126-136 | the request is awaited first, so a failure writes nothing; on success the stored and returned list is `JobOrder.Reorder` of the stored jobs (the job at sorted position fromOrder-1 moved to toOrder-1), has orders exactly 1..N and holds the same jobs up to their order values |
| `MockApi.ReorderAll` | talent-flow/src/lib/mockApi.js:126-136 | a run of reorder requests applied in turn keeps the number of jobs and never touches candidates or assessments |
| `MockApi.ReorderAllContiguous` | talent-flow/src/lib/mockApi.js:126-136 | over any run of reorder requests, orders stay 1..N when they started that way, and they become 1..N once any request succeeds |
| `MockApi.GetCandidates` | talent-flow/src/lib/mockApi.js:137 | a resolved call returns the whole candidate list, unfiltered |
| `MockApi.UpdateCandidateStage` | talent-flow/src/lib/mockApi.js:138-143 | on success only candidates with the id get the new stage, whichever of the six stages it is; the length and every other candidate are kept; an unknown id leaves the store equal to before; on failure nothing is written |
| `MockApi.UpdateCandidateStageMoves` | talent-flow/src/lib/mockApi.js:139 | after a move every candidate with the id is in the new stage, and apart from the stage every candidate is unchanged |
| `MockApi.GetAssessment` | talent-flow/src/lib/mockApi.js:144 | a resolved lookup gives the stored assessment when the job has one, and null (not an error) when it has none |
| `MockApi.SaveAssessment` | talent-flow/src/lib/mockApi.js:145-150 | on success the entry for the job id is created or replaced and every other entry is kept; on failure nothing is written |
| `MockApi.SaveThenGet` | talent-flow/src/lib/mockApi.js:144-149 | after a save, looking up that job id gives the saved assessment and looking up any other job id gives what it gave before |
| `MockApi.Init` | talent-flow/src/lib/mockApi.js:49-69 | the stored collections are used when all three are present, and otherwise the seed `generateSeedData` builds from the draws, with 25 jobs ordered 1..25; either way storage ends up holding exactly the store |
| `MockApi.InitIdempotent` | talent-flow/src/lib/mockApi.js:59-69 | loading again after a first load gives the same store whatever the second load would draw, so the seed is generated at most once |
| `MockApi.GenerateSeed` | talent-flow/src/lib/mockApi.js:6-47 | the seed has 25 jobs with orders 1..25, each slug equal to the slug of its title and one to three tags; 1000 candidates, each applying to a seeded job; and one assessment, for the first job |
| `JobsDashboard.HandleFilterChange` | talent-flow/src/components/JobsDashboard.jsx:37-39 | the changed filter takes the new value, the page goes back to 1, and the other filters are kept |
| `JobsDashboard.FilterChangeRestartsPaging` | talent-flow/src/components/JobsDashboard.jsx:37-39 | after a filter change the board shows the first window of matches, and repeating the change has no further effect |
| `JobsDashboard.FetchJobs` | talent-flow/src/components/JobsDashboard.jsx:19-31 | a successful fetch shows exactly the page `getJobs` returns for the current filters, with its total, and clears the error; a failed fetch keeps what was shown and sets the error |
| `JobsDashboard.HandleSaveJob` | talent-flow/src/components/JobsDashboard.jsx:41-48 | data with an id updates that job and data without one creates a job; the list is refetched exactly when the save succeeded |
| `JobsDashboard.SaveJobCount` | talent-flow/src/components/JobsDashboard.jsx:41-48 | a save adds one job exactly when it creates a job and succeeds; an update never changes the job count |
| `JobsDashboard.ToggleTarget` | talent-flow/src/components/JobsDashboard.jsx:51-52 | the target status always differs from the current one, and it is archived exactly when the current one is active |
| `JobsDashboard.HandleToggleArchive` | talent-flow/src/components/JobsDashboard.jsx:50-68 | the optimistic list changes only the status of jobs with the toggled id; on success the board refetches exactly when a status filter is set and differs from the new status, and then shows that fetch's result, otherwise it keeps the optimistic list; on failure those jobs get their original status back, no other job changes and the store is not written |
| `JobsDashboard.ToggleRollbackRestores` | talent-flow/src/components/JobsDashboard.jsx:63-66 | when the toggled job is shown with its current status, a failed toggle leaves the board and the store exactly as before |
| `JobsDashboard.ClientMove` | talent-flow/src/components/JobsDashboard.jsx:81-83 | the client splice is a permutation of the shown list; the dragged job lands just before the target job (index j for an upward drag, j-1 for a downward one, where the target stays at j); all other jobs keep their relative order |
| `JobsDashboard.MissingRefSplice` | talent-flow/src/components/JobsDashboard.jsx:75-83 | when a ref names an order no shown job holds, the list the splices set is a permutation of the jobs: the dragged job, or the last job when the dragged one is missing, lands just before the target job, or before the new last job when the target is missing or was the one taken out; all other jobs keep their relative order |
| `JobsDashboard.MissingRef` | talent-flow/src/components/JobsDashboard.jsx:75-96 | when a ref names an order no shown job holds, the splices are set, the `try` throws before the server is asked, the pre-drag list is restored, nothing is refetched and the store is not written |
| `JobsDashboard.HandleDragEnd` | talent-flow/src/components/JobsDashboard.jsx:70-98 | with a null ref or equal refs nothing happens and the refs stay; otherwise the drop is `JobsDashboard.DropOn` of the two orders; the optimistic list is always a permutation of the shown one, and the server is asked only with both refs naming shown jobs, after which success refetches and failure restores the pre-drag list verbatim without writing the store |
| `JobsDashboard.DropOn` | talent-flow/src/components/JobsDashboard.jsx:75-97 | the server is asked exactly when both orders name shown jobs; then the optimistic list is the `ClientMove` splice of the first jobs holding them and the server moves the dragged order to the target order; otherwise the list set is the `MissingRefSplice` and the pre-drag list is put back; the refs are cleared either way |
| `JobsDashboard.MoveShown` | talent-flow/src/components/JobsDashboard.jsx:78-97 | once both jobs are found, the optimistic list is the `ClientMove` splice of the shown list, and the server is asked to move the dragged job's order to the target's order; success commits that list and refetches, failure rolls back to the list from before the drag |
| `JobsDashboard.DragDownClientShows` | talent-flow/src/components/JobsDashboard.jsx:81-83 | on [A,B,C], dragging A onto C shows [B,A,C] |
| `JobsDashboard.DragDownServerStores` | talent-flow/src/components/JobsDashboard.jsx:87 | on [A,B,C], dragging A onto C stores [B,C,A], renumbered 1..3 |
| `JobsDashboard.DragDownDisagrees` | talent-flow/src/components/JobsDashboard.jsx:81-89 | for that downward drag the optimistic list and the stored list differ in the middle job, and the board refetches |
| `CandidatesDashboard.FilteredCandidates` | talent-flow/src/components/CandidatesDashboard.jsx:28-33 | a candidate is shown exactly when its lower-cased name or lower-cased email contains the lower-cased search; the shown list is a subsequence of all candidates |
| `CandidatesDashboard.EmptySearchShowsAll` | talent-flow/src/components/CandidatesDashboard.jsx:28-33 | an empty search shows every candidate, in order |
| `CandidatesDashboard.ColumnMembers` | talent-flow/src/components/CandidatesDashboard.jsx:80-82 | a stage column holds exactly the filtered candidates in that stage |
| `CandidatesDashboard.ColumnsPartition` | talent-flow/src/components/CandidatesDashboard.jsx:73-82 | taken together, the six columns hold the filtered list exactly, up to order |
| `CandidatesDashboard.ColumnCountsSum` | talent-flow/src/components/CandidatesDashboard.jsx:80 | the six column counts add up to the number of filtered candidates |
| `CandidatesDashboard.HandleDragEnd` | talent-flow/src/components/CandidatesDashboard.jsx:35-50 | a null or unknown id changes nothing; otherwise the optimistic list changes only the dragged candidate's stage, to any stage, success keeps it without a refetch, and failure restores the whole list snapshot |
| `CandidatesDashboard.StageMoveKeepsBoardInSync` | talent-flow/src/components/CandidatesDashboard.jsx:35-50 | when the board showed the stored candidates before a move, it shows them after the move too, on success or failure |
| `Optimistic.SnapshotRollback` | talent-flow/src/components/CandidatesDashboard.jsx:36-47 | a rollback to the snapshot shows exactly what was shown before the optimistic change |
| `Optimistic.Begin` | talent-flow/src/components/JobsDashboard.jsx:54-55 | starting an optimistic update shows the expected value at once and keeps what was shown before as the snapshot |
| `Optimistic.Settle` | talent-flow/src/components/CandidatesDashboard.jsx:36-47 | a pending update settles as committed, still showing the optimistic value, exactly when the request succeeded, and otherwise as rolled back, showing the restored value |
| `JobEditorModal.FormFor` | talent-flow/src/components/JobEditorModal.jsx:8-18 | with no job the form is empty; otherwise it holds the job's title, and its tag string parses back to the job's tags whenever those are non-empty, trimmed and comma-free |
| `JobEditorModal.ParseTags` | talent-flow/src/components/JobEditorModal.jsx:37 | parsed tags are never empty, have no leading or trailing whitespace, and contain no comma |
| `JobEditorModal.ParseJoinedTags` | talent-flow/src/components/JobEditorModal.jsx:12-37 | for tags that are non-empty, trimmed and comma-free, parsing their ", " join gives back the same list |
| `JobEditorModal.Submit` | talent-flow/src/components/JobEditorModal.jsx:25-38 | an empty title is refused and nothing is saved; otherwise the payload keeps every field of the edited job, id included, and overrides only title and tags; for a new job the payload has no id |
| `JobEditorModal.SaveUneditedIsIdentity` | talent-flow/src/components/JobEditorModal.jsx:8-38 | opening the editor on a job with clean tags and saving without edits gives a payload that, merged over the job, is the job itself |
| `AssessmentBuilder.Load` | talent-flow/src/components/AssessmentBuilder.jsx:9-17 | the builder edits the stored assessment; with none stored, it edits a blank one with id "assess-" + jobId, that jobId and no questions |
| `AssessmentBuilder.NewQuestion` | talent-flow/src/components/AssessmentBuilder.jsx:19-27 | a new question is not required; choice kinds get options ['Option 1','Option 2'], numeric gets min 0 and max 10, and other kinds get neither; its label is the kind's prompt that `AssessmentBuilder.NewPromptLabels` spells out |
| `AssessmentBuilder.NewPromptLabels` | talent-flow/src/components/AssessmentBuilder.jsx:23 | for every question kind, the new label is "New " + the kind's name with its first dash turned into a space + " question" (so "New numeric question" for the dashless name) |
| `AssessmentBuilder.AddQuestion` | talent-flow/src/components/AssessmentBuilder.jsx:19-30 | exactly one question is appended at the end and the existing questions are unchanged |
| `AssessmentBuilder.UpdateQuestion` | talent-flow/src/components/AssessmentBuilder.jsx:32-37 | only questions with the id get the new field value; the length, the order and every other question are unchanged |
| `AssessmentBuilder.UpdateQuestionIdempotent` | talent-flow/src/components/AssessmentBuilder.jsx:32-37 | repeating an edit has no further effect |
| `AssessmentBuilder.UpdateOption` | talent-flow/src/components/AssessmentBuilder.jsx:39-51 | only the option at the index of questions with the id changes; the option count and every other question are kept |
| `AssessmentBuilder.UpdateOptionLastWins` | talent-flow/src/components/AssessmentBuilder.jsx:39-51 | two writes to the same option equal the last write alone |
| `AssessmentBuilder.UpdateOptionRestores` | talent-flow/src/components/AssessmentBuilder.jsx:39-51 | writing an option and then writing its old value back restores the assessment |
| `AssessmentBuilder.RemoveQuestion` | talent-flow/src/components/AssessmentBuilder.jsx:53-55 | every question with the id is removed and the others stay, in their original order |
| `AssessmentBuilder.RemoveQuestionIdempotent` | talent-flow/src/components/AssessmentBuilder.jsx:53-55 | removing a question twice is the same as removing it once |
| `AssessmentBuilder.AddThenRemove` | talent-flow/src/components/AssessmentBuilder.jsx:19-55 | adding a question with an unused id and then removing it gives back the assessment |
| `AssessmentBuilder.HandleSave` | talent-flow/src/components/AssessmentBuilder.jsx:57-67 | the edited assessment is stored under the builder's job id exactly when the request succeeds; the assessments of every other job are kept and no new key appears; jobs and candidates are untouched |
| `AssessmentBuilder.SaveThenLoad` | talent-flow/src/components/AssessmentBuilder.jsx:9-67 | an assessment that was saved is the one the builder loads next time |

## Left out

- Rendering, styling, icons and the view switching in `App.jsx`: they only present state.
- `localStorage` and JSON encoding: storage is the `Stored` record of three optional collections. A value that does not parse is modelled as absent, which is what `loadData` returns for it.
- Latency, error rates and `Math.random`: each request's outcome is a parameter, and so are the seed's random draws.
- `Date.now()` ids: the fresh job id and the question clock reading are parameters.
- `alert`, `console`, the loading and saving flags, React hooks and `setState` batching.
- Races between pending mutations and stale `db` closures: this is concurrency, and the model runs one call at a time on the store it is given.
- Unicode behaviour of `toLowerCase`, `trim` and `\s`: the model uses ASCII only.
- `getJobs` sorting by keys other than `order`: that comparator is not a valid total order. Ties in `order` are placed by a stable sort, which is one order the comparator may produce.
- `getJobs` parameter defaults (`page = 1`, `pageSize = 10`, ...): a `Query` always carries all four values.
- `JobOrder.Reorder`: requires a non-empty job list and `fromOrder <= N`. Outside that range the first `splice` removes nothing, `undefined` is put back in, and the renumbering `map` turns it into a phantom object `{order: k}` with no other fields, which the `Job` record cannot hold.
- `MockApi.ReorderJob`: has the same requirement as `JobOrder.Reorder`, for the same reason.
- `JobsDashboard.HandleDragEnd`: when a drag ref names an order that no shown job holds and no job is shown at all, the source sets the list `[undefined]` and then, in the same batch, restores the empty list. The model's `optimistic` field there is the empty list. With jobs shown, the list it sets is modelled exactly, by `JobsDashboard.MissingRefSplice`.
- `JobsDashboard.HandleDragEnd`: requires every shown order to lie in 1..N of the store, the range the server can move. This holds whenever the board shows a page fetched from a store whose orders are 1..N.
- `AssessmentBuilder.UpdateOption`: requires every question with the id to have options and an option at the index. The source throws on a question without options, and an index past the end would leave holes in the array.
- `AssessmentBuilder.UpdateQuestion`: models only the two fields the builder edits, the label and the required flag, not an arbitrary field name.
- The form's `handleChange`, which copies one input's value into the form.
- `JobEditorModal` closing after a save and showing a save error: these are presentation only.
