/** The candidates board of
    talent-flow/src/components/CandidatesDashboard.jsx: the search over names
    and emails, one column per hiring stage, and the optimistic stage move
    with a whole-list rollback and no refetch. */
module CandidatesDashboard {
  import opened Text
  import opened Domain
  import opened Seqs
  import opened MockApi
  import opened Optimistic

  /** The lower-cased name or the lower-cased email contains the lower-cased
      search. */
  predicate MatchesSearch(c: Candidate, search: string) {
    Contains(LowerStr(c.name), LowerStr(search)) || Contains(LowerStr(c.email), LowerStr(search))
  }

  function SearchMatcher(search: string): Candidate -> bool {
    (c: Candidate) => MatchesSearch(c, search)
  }

  /** `filteredCandidates`: exactly the candidates matching the search, in
      their original relative order. */
  function FilteredCandidates(all: seq<Candidate>, search: string): (r: seq<Candidate>)
    ensures forall i :: 0 <= i < |r| ==> r[i] in all && MatchesSearch(r[i], search)
    ensures forall i :: 0 <= i < |all| && MatchesSearch(all[i], search) ==> all[i] in r
    ensures IsSubsequence(r, all)
  {
    FilterIsSubsequence(all, SearchMatcher(search));
    Filter(all, SearchMatcher(search))
  }

  /** Every string contains the empty string. */
  lemma ContainsEmpty(s: string)
    ensures Contains(s, "")
  {
  }

  /** An empty search shows every candidate. */
  lemma EmptySearchShowsAll(all: seq<Candidate>)
    ensures FilteredCandidates(all, "") == all
  {
    forall i | 0 <= i < |all|
      ensures SearchMatcher("")(all[i])
    {
      ContainsEmpty(LowerStr(all[i].name));
    }
    FilterAll(all, SearchMatcher(""));
  }

  function StageMatcher(stage: Stage): Candidate -> bool {
    (c: Candidate) => c.stage == stage
  }

  /** The column of one stage. */
  function Column(filtered: seq<Candidate>, stage: Stage): seq<Candidate> {
    Filter(filtered, StageMatcher(stage))
  }

  /** A column holds exactly the filtered candidates in its stage. */
  lemma ColumnMembers(filtered: seq<Candidate>, stage: Stage)
    ensures forall i :: 0 <= i < |Column(filtered, stage)| ==>
      Column(filtered, stage)[i] in filtered && Column(filtered, stage)[i].stage == stage
    ensures forall i :: 0 <= i < |filtered| && filtered[i].stage == stage ==> filtered[i] in Column(filtered, stage)
  {
  }

  /** The columns of the given stages side by side. */
  function ColumnsOf(filtered: seq<Candidate>, stages: seq<Stage>): seq<Candidate>
    decreases |stages|
  {
    if |stages| == 0 then [] else Column(filtered, stages[0]) + ColumnsOf(filtered, stages[1..])
  }

  /** The six columns side by side, in board order. */
  function AllColumns(filtered: seq<Candidate>): seq<Candidate> {
    ColumnsOf(filtered, Stages)
  }

  /** The column counts of the given stages. */
  function CountsOf(filtered: seq<Candidate>, stages: seq<Stage>): seq<nat> {
    seq(|stages|, i requires 0 <= i < |stages| => |Column(filtered, stages[i])|)
  }

  /** The column counts in the headers. */
  function ColumnCounts(filtered: seq<Candidate>): seq<nat> {
    CountsOf(filtered, Stages)
  }

  function Sum(xs: seq<nat>): nat
    decreases |xs|
  {
    if |xs| == 0 then 0 else xs[0] + Sum(xs[1..])
  }

  /** No stage is listed twice. */
  predicate NoDuplicates(stages: seq<Stage>)
    decreases |stages|
  {
    |stages| == 0 || (stages[0] !in stages[1..] && NoDuplicates(stages[1..]))
  }

  lemma StagesNoDuplicates()
    ensures NoDuplicates(Stages)
  {
    var s := Stages;
    assert s[1..][1..][1..][1..][1..][1..] == [];
  }

  /** Column of a list with one more candidate in front. */
  lemma ColumnCons(c: Candidate, rest: seq<Candidate>, stage: Stage)
    ensures Column([c] + rest, stage) == (if c.stage == stage then [c] else []) + Column(rest, stage)
  {
    assert ([c] + rest)[1..] == rest;
  }

  /** The multiset of a column of a list with one more candidate in front. */
  lemma ColumnConsMultiset(c: Candidate, rest: seq<Candidate>, stage: Stage)
    ensures multiset(Column([c] + rest, stage))
      == (if c.stage == stage then multiset{c} else multiset{}) + multiset(Column(rest, stage))
  {
    ColumnCons(c, rest, stage);
  }

  /** The first column followed by the others. */
  lemma ColumnsOfUnfold(filtered: seq<Candidate>, stages: seq<Stage>)
    requires |stages| > 0
    ensures multiset(ColumnsOf(filtered, stages))
      == multiset(Column(filtered, stages[0])) + multiset(ColumnsOf(filtered, stages[1..]))
  {
  }

  /** The bookkeeping of one step of `ColumnsOfCons`: the first column and
      the other columns each gain their share, and together they gain both. */
  lemma Regroup<T>(whole: multiset<T>, first: multiset<T>, others: multiset<T>,
                   restWhole: multiset<T>, restFirst: multiset<T>, restOthers: multiset<T>,
                   head: multiset<T>, tail: multiset<T>, gained: multiset<T>)
    requires whole == first + others
    requires restWhole == restFirst + restOthers
    requires first == head + restFirst
    requires others == tail + restOthers
    requires head + tail == gained
    ensures whole == gained + restWhole
  {
  }

  /** One more candidate in front lands in the column of its stage when that
      stage is listed, and in no other column. */
  lemma {:induction false} ColumnsOfCons(c: Candidate, rest: seq<Candidate>, stages: seq<Stage>)
    requires NoDuplicates(stages)
    ensures multiset(ColumnsOf([c] + rest, stages))
      == (if c.stage in stages then multiset{c} else multiset{}) + multiset(ColumnsOf(rest, stages))
    decreases |stages|
  {
    if |stages| > 0 {
      var s, more := stages[0], stages[1..];
      var one: multiset<Candidate> := multiset{c};
      var head := if c.stage == s then one else multiset{};
      var tail := if c.stage in more then one else multiset{};
      var gained := if c.stage in stages then one else multiset{};
      assert head + tail == gained by {
        assert stages == [s] + more;
        assert !(c.stage == s && c.stage in more);
      }
      ColumnConsMultiset(c, rest, s);
      ColumnsOfCons(c, rest, more);
      ColumnsOfUnfold([c] + rest, stages);
      ColumnsOfUnfold(rest, stages);
      Regroup(multiset(ColumnsOf([c] + rest, stages)), multiset(Column([c] + rest, s)),
              multiset(ColumnsOf([c] + rest, more)), multiset(ColumnsOf(rest, stages)),
              multiset(Column(rest, s)), multiset(ColumnsOf(rest, more)), head, tail, gained);
    }
  }

  /** Columns of the empty list are empty. */
  lemma {:induction false} ColumnsOfEmpty(stages: seq<Stage>)
    ensures ColumnsOf([], stages) == []
    decreases |stages|
  {
    if |stages| > 0 {
      ColumnsOfEmpty(stages[1..]);
    }
  }

  /** When every candidate's stage is listed once, the columns of the listed
      stages hold the list exactly, up to order. */
  lemma {:induction false} ColumnsOfPartition(filtered: seq<Candidate>, stages: seq<Stage>)
    requires NoDuplicates(stages)
    requires forall i :: 0 <= i < |filtered| ==> filtered[i].stage in stages
    ensures multiset(ColumnsOf(filtered, stages)) == multiset(filtered)
    decreases |filtered|
  {
    if |filtered| == 0 {
      ColumnsOfEmpty(stages);
    } else {
      var c, rest := filtered[0], filtered[1..];
      assert forall i :: 0 <= i < |rest| ==> rest[i].stage in stages by {
        forall i | 0 <= i < |rest|
          ensures rest[i].stage in stages
        {
          assert rest[i] == filtered[i + 1];
        }
      }
      ColumnsOfPartition(rest, stages);
      ColumnsOfCons(c, rest, stages);
      assert [c] + rest == filtered;
    }
  }

  /** The columns partition the filtered list: every filtered candidate is in
      exactly the column of its stage, so together they hold the filtered
      list up to order. */
  lemma ColumnsPartition(filtered: seq<Candidate>)
    ensures multiset(AllColumns(filtered)) == multiset(filtered)
  {
    StagesNoDuplicates();
    forall i | 0 <= i < |filtered|
      ensures filtered[i].stage in Stages
    {
      assert Stages[StageIndex(filtered[i].stage)] == filtered[i].stage;
    }
    ColumnsOfPartition(filtered, Stages);
  }

  /** The length of the columns side by side is the sum of their counts. */
  lemma {:induction false} ColumnsOfLength(filtered: seq<Candidate>, stages: seq<Stage>)
    ensures |ColumnsOf(filtered, stages)| == Sum(CountsOf(filtered, stages))
    decreases |stages|
  {
    if |stages| > 0 {
      ColumnsOfLength(filtered, stages[1..]);
      assert CountsOf(filtered, stages)[1..] == CountsOf(filtered, stages[1..]);
    }
  }

  /** The six header counts add up to the number of filtered candidates. */
  lemma ColumnCountsSum(filtered: seq<Candidate>)
    ensures Sum(ColumnCounts(filtered)) == |filtered|
  {
    ColumnsPartition(filtered);
    ColumnsOfLength(filtered, Stages);
    assert |multiset(AllColumns(filtered))| == |AllColumns(filtered)|;
    assert |multiset(filtered)| == |filtered|;
  }

  /** The result of a stage move: what was shown while pending, how it
      settled, whether the server was asked, and the store after. */
  datatype StageMove = StageMove(optimistic: seq<Candidate>, phase: Phase<seq<Candidate>>, called: bool, db: Db)

  /** `handleDragEnd(candidateId, newStage)`. A null or unknown id fails on
      `candidate.stage` before anything changes. Otherwise the candidate shows
      in the new stage at once, whichever stage that is, and the server is
      asked; on failure the whole list from before comes back, on success
      the optimistic list stays and nothing is refetched. */
  function HandleDragEnd(all: seq<Candidate>, id: Option<string>, stage: Stage, db: Db, ok: bool): (r: StageMove)
    ensures r.called <==> id.Some? && exists i :: 0 <= i < |all| && all[i].id == id.value
    ensures !r.called ==> r.phase == Idle(all) && r.db == db
    ensures r.called ==> r.db == UpdateCandidateStage(db, id.value, stage, ok).db
    ensures r.called ==>
      && |r.optimistic| == |all|
      && (forall i :: 0 <= i < |all| && all[i].id == id.value ==> r.optimistic[i] == all[i].(stage := stage))
      && (forall i :: 0 <= i < |all| && all[i].id != id.value ==> r.optimistic[i] == all[i])
    ensures r.called && ok ==> r.phase == Committed(r.optimistic)
    ensures r.called && !ok ==> r.phase == RolledBack(all)
  {
    if id.None? || FirstIndex(all, HasCandidateId(id.value)) < 0 then
      StageMove(all, Idle(all), false, db)
    else
      var pending := Begin(Idle(all), SetStageWhere(all, id.value, stage));
      var call := UpdateCandidateStage(db, id.value, stage, ok);
      StageMove(pending.shown, Settle(pending, ok, pending.snapshot), true, call.db)
  }

  /** Without a refetch the board still agrees with the store: if it showed
      the stored candidates before the move, it shows them after, whether the
      request succeeded or failed. */
  lemma StageMoveKeepsBoardInSync(all: seq<Candidate>, id: Option<string>, stage: Stage, db: Db, ok: bool)
    requires db.candidates == all
    ensures HandleDragEnd(all, id, stage, db, ok).phase.shown == HandleDragEnd(all, id, stage, db, ok).db.candidates
  {
  }
}
