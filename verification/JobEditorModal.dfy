/** The job editor of talent-flow/src/components/JobEditorModal.jsx: the form
    it opens with, the comma-separated tag input, the title check and the
    payload it hands to the board's save handler. */
module JobEditorModal {
  import opened Text
  import opened Domain

  /** The two inputs of the form; tags are edited as one string. */
  datatype Form = Form(title: string, tags: string)

  /** What `tags.join(', ')` puts between two tags. */
  const TagSeparator: string := ", "

  /** The form for the edited job (its title and its tags joined by ", "),
      or an empty form for a new job. Tags the parser could have produced
      show in a form that parses back to them. */
  function FormFor(job: Option<Job>): (r: Form)
    ensures job.None? ==> r == Form("", "")
    ensures job.Some? ==> r.title == job.value.title
    ensures job.Some? && CleanTagList(job.value.tags) ==> ParseTags(r.tags) == job.value.tags
  {
    match job
    case None => Form("", "")
    case Some(j) =>
      var form := Form(j.title, Join(j.tags, TagSeparator));
      assert CleanTagList(j.tags) ==> ParseTags(form.tags) == j.tags by {
        if CleanTagList(j.tags) {
          ParseJoinedTags(j.tags);
        }
      }
      form
  }

  /** `.map(t => t.trim()).filter(Boolean)`: every piece trimmed, empty pieces
      dropped; what is left is non-empty and trimmed. */
  function CleanTags(pieces: seq<string>): (r: seq<string>)
    ensures |r| <= |pieces|
    decreases |pieces|
  {
    if |pieces| == 0 then []
    else
      var t := Trim(pieces[0]);
      (if t == "" then [] else [t]) + CleanTags(pieces[1..])
  }

  /** Every cleaned tag is non-empty and trimmed. */
  lemma {:induction false} CleanTagsShape(pieces: seq<string>)
    ensures forall i :: 0 <= i < |CleanTags(pieces)| ==> CleanTags(pieces)[i] != "" && Trimmed(CleanTags(pieces)[i])
    decreases |pieces|
  {
    if |pieces| > 0 {
      var t := Trim(pieces[0]);
      var head := if t == "" then [] else [t];
      var rest := CleanTags(pieces[1..]);
      CleanTagsShape(pieces[1..]);
      assert CleanTags(pieces) == head + rest;
      ShapeConcat(head, rest);
    }
  }

  /** Two lists of non-empty trimmed tags make one. */
  lemma ShapeConcat(a: seq<string>, b: seq<string>)
    requires forall i :: 0 <= i < |a| ==> a[i] != "" && Trimmed(a[i])
    requires forall i :: 0 <= i < |b| ==> b[i] != "" && Trimmed(b[i])
    ensures forall i :: 0 <= i < |a + b| ==> (a + b)[i] != "" && Trimmed((a + b)[i])
  {
    forall i | 0 <= i < |a + b|
      ensures (a + b)[i] != "" && Trimmed((a + b)[i])
    {
      if i >= |a| {
        assert (a + b)[i] == b[i - |a|];
      }
    }
  }

  /** Cleaning a list with one more piece in front. */
  lemma CleanTagsCons(p: string, ps: seq<string>)
    ensures CleanTags([p] + ps) == (if Trim(p) == "" then [] else [Trim(p)]) + CleanTags(ps)
  {
    assert ([p] + ps)[1..] == ps;
  }

  /** Trimming adds no character, so a character none of the pieces holds is
      in none of the cleaned tags. */
  lemma {:induction false} CleanTagsAvoid(pieces: seq<string>, c: char)
    requires forall i :: 0 <= i < |pieces| ==> c !in pieces[i]
    ensures forall i :: 0 <= i < |CleanTags(pieces)| ==> c !in CleanTags(pieces)[i]
    decreases |pieces|
  {
    if |pieces| > 0 {
      CleanTagsAvoid(pieces[1..], c);
    }
  }

  /** `tags.split(',').map(t => t.trim()).filter(Boolean)`: the tags are never
      empty, never start or end with a space, and never hold a comma. */
  function ParseTags(s: string): (r: seq<string>)
    ensures forall i :: 0 <= i < |r| ==> r[i] != "" && Trimmed(r[i]) && ',' !in r[i]
  {
    CleanTagsShape(Split(s, ','));
    CleanTagsAvoid(Split(s, ','), ',');
    CleanTags(Split(s, ','))
  }

  /** A tag joined after ", " parses as if the space were not there. */
  lemma ParseAfterSpace(s: string)
    ensures ParseTags(" " + s) == ParseTags(s)
  {
    SplitPrefix(" ", s, ',');
    var parts := Split(s, ',');
    assert parts == [parts[0]] + parts[1..];
    CleanTagsCons(" " + parts[0], parts[1..]);
    CleanTagsCons(parts[0], parts[1..]);
    TrimSkipsLeadingSpace(' ', parts[0]);
  }

  /** Tags the parser could have produced: non-empty, trimmed, comma-free. */
  predicate CleanTagList(tags: seq<string>) {
    forall i :: 0 <= i < |tags| ==> tags[i] != "" && Trimmed(tags[i]) && ',' !in tags[i]
  }

  /** The empty tag list shows as "" and "" parses to no tags. */
  lemma ParseJoinedEmpty()
    ensures ParseTags(Join([], TagSeparator)) == []
  {
    assert Join([], TagSeparator) == "";
    assert Split("", ',') == [""];
    assert Trim("") == "";
    assert CleanTags([""]) == [] by {
      assert [""][1..] == [];
    }
  }

  /** One tag shows as itself and parses back to itself. */
  lemma ParseJoinedSingle(t: string)
    requires t != "" && Trimmed(t) && ',' !in t
    ensures ParseTags(Join([t], TagSeparator)) == [t]
  {
    SplitNoSeparator(t, ',');
    CleanTagsCons(t, []);
  }

  /** ", " between two strings is a comma followed by a string that starts
      with a space. */
  lemma SeparatorParts(a: string, b: string)
    ensures a + TagSeparator + b == a + [','] + (" " + b)
  {
    assert TagSeparator == [','] + " ";
  }

  /** One more tag in front of a list that round-trips. */
  lemma ParseJoinedCons(t: string, rest: seq<string>)
    requires t != "" && Trimmed(t) && ',' !in t
    requires |rest| > 0
    requires ParseTags(Join(rest, TagSeparator)) == rest
    ensures ParseTags(Join([t] + rest, TagSeparator)) == [t] + rest
  {
    var joined := Join(rest, TagSeparator);
    calc {
      ParseTags(Join([t] + rest, TagSeparator));
      { JoinCons(t, rest, TagSeparator);
        SeparatorParts(t, joined); }
      CleanTags(Split(t + [','] + (" " + joined), ','));
      { SplitAtSeparator(t, " " + joined, ','); }
      CleanTags([t] + Split(" " + joined, ','));
      { CleanTagsCons(t, Split(" " + joined, ',')); }
      [t] + ParseTags(" " + joined);
      { ParseAfterSpace(joined); }
      [t] + rest;
    }
  }

  /** Formatting tags for the form and parsing them back gives the same
      tags, for every list the parser could have produced. */
  lemma {:induction false} ParseJoinedTags(tags: seq<string>)
    requires CleanTagList(tags)
    ensures ParseTags(Join(tags, TagSeparator)) == tags
    decreases |tags|
  {
    if |tags| == 0 {
      ParseJoinedEmpty();
    } else if |tags| == 1 {
      ParseJoinedSingle(tags[0]);
      assert tags == [tags[0]];
    } else {
      var rest := tags[1..];
      assert CleanTagList(rest) by {
        forall i | 0 <= i < |rest|
          ensures rest[i] != "" && Trimmed(rest[i]) && ',' !in rest[i]
        {
          assert rest[i] == tags[i + 1];
        }
      }
      ParseJoinedTags(rest);
      ParseJoinedCons(tags[0], rest);
      assert [tags[0]] + rest == tags;
    }
  }

  /** What pressing save does: refuse with "Title is required." or hand a
      payload to the save handler. */
  datatype Submission = TitleRequired | Save(payload: JobPatch)

  /** `handleSubmit`: an empty title is refused and nothing is saved;
      otherwise the payload is the edited job's fields (none for a new job,
      so no id) with the form's title and the parsed tags over them. */
  function Submit(form: Form, job: Option<Job>): (r: Submission)
    ensures r.TitleRequired? <==> form.title == ""
    ensures r.Save? ==> r.payload.title == Some(form.title) && r.payload.tags == Some(ParseTags(form.tags))
    ensures r.Save? && job.Some? ==>
      && r.payload.id == Some(job.value.id)
      && r.payload.slug == Some(job.value.slug)
      && r.payload.status == Some(job.value.status)
      && r.payload.order == Some(job.value.order)
    ensures r.Save? && job.None? ==>
      r.payload.id.None? && r.payload.slug.None? && r.payload.status.None? && r.payload.order.None?
  {
    if form.title == "" then TitleRequired
    else
      var base := match job
        case None => JobPatch(None, None, None, None, None, None)
        case Some(j) => PatchOf(j);
      Save(base.(title := Some(form.title), tags := Some(ParseTags(form.tags))))
  }

  /** Opening the editor on a job and saving without editing hands back a
      payload that, merged over the job, gives the job itself. */
  lemma SaveUneditedIsIdentity(job: Job)
    requires job.title != ""
    requires CleanTagList(job.tags)
    ensures Submit(FormFor(Some(job)), Some(job)).Save?
    ensures Merge(job, Submit(FormFor(Some(job)), Some(job)).payload) == job
  {
    ParseJoinedTags(job.tags);
  }
}
