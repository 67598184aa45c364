/** The slug `createJob` derives from a title:
    `title.toLowerCase().replace(/\s+/g, '-')`. */
module Slugs {
  import opened Text

  /** Slug of s when `inRun` says whether the character before s was a
      space: a space run already begun emits nothing more. */
  function SlugFrom(s: string, inRun: bool): (r: string)
    ensures |r| <= |s|
    decreases |s|
  {
    if |s| == 0 then ""
    else if IsSpace(s[0]) then (if inRun then "" else "-") + SlugFrom(s[1..], true)
    else [Lower(s[0])] + SlugFrom(s[1..], false)
  }

  /** No space and no upper-case letter survives the scan. */
  lemma {:induction false} SlugFromChars(s: string, inRun: bool)
    ensures forall i :: 0 <= i < |SlugFrom(s, inRun)| ==> !IsSpace(SlugFrom(s, inRun)[i]) && !('A' <= SlugFrom(s, inRun)[i] <= 'Z')
    decreases |s|
  {
    if |s| > 0 {
      SlugFromChars(s[1..], IsSpace(s[0]));
    }
  }

  /** The slug is never longer than the title and holds no space and no
      upper-case letter. */
  function Slug(title: string): (r: string)
    ensures |r| <= |title|
    ensures forall i :: 0 <= i < |r| ==> !IsSpace(r[i]) && !('A' <= r[i] <= 'Z')
  {
    SlugFromChars(title, false);
    SlugFrom(title, false)
  }

  /** Whether a scan that started with `inRun` is inside a space run after s. */
  function EndsInRun(s: string, inRun: bool): bool {
    if |s| == 0 then inRun else IsSpace(s[|s| - 1])
  }

  /** The slug of a concatenation is the concatenation of the slugs, the
      second scanned with the run state the first ends in. */
  lemma {:induction false} SlugFromConcat(a: string, b: string, inRun: bool)
    ensures SlugFrom(a + b, inRun) == SlugFrom(a, inRun) + SlugFrom(b, EndsInRun(a, inRun))
    decreases |a|
  {
    if |a| == 0 {
      assert a + b == b;
    } else {
      var next := IsSpace(a[0]);
      var head := if next then (if inRun then "" else "-") else [Lower(a[0])];
      var tail := SlugFrom(b, EndsInRun(a, inRun));
      assert EndsInRun(a[1..], next) == EndsInRun(a, inRun);
      calc {
        SlugFrom(a + b, inRun);
        { assert (a + b)[0] == a[0] && (a + b)[1..] == a[1..] + b; }
        head + SlugFrom(a[1..] + b, next);
        { SlugFromConcat(a[1..], b, next); }
        head + (SlugFrom(a[1..], next) + tail);
        { ConcatAssoc(head, SlugFrom(a[1..], next), tail); }
        (head + SlugFrom(a[1..], next)) + tail;
        SlugFrom(a, inRun) + tail;
      }
    }
  }

  lemma ConcatAssoc<T>(x: seq<T>, y: seq<T>, z: seq<T>)
    ensures x + (y + z) == (x + y) + z
  {
  }

  /** A word without spaces is only lower-cased. */
  lemma {:induction false} SlugOfWord(w: string, inRun: bool)
    requires forall i :: 0 <= i < |w| ==> !IsSpace(w[i])
    ensures SlugFrom(w, inRun) == LowerStr(w)
    decreases |w|
  {
    if |w| > 0 {
      SlugOfWord(w[1..], false);
      assert LowerStr(w) == [Lower(w[0])] + LowerStr(w[1..]);
    }
  }

  /** A non-empty space run becomes a single hyphen and leaves the scan
      inside a run. */
  lemma {:induction false} SlugOfSpaces(w: string, inRun: bool)
    requires |w| > 0
    requires forall i :: 0 <= i < |w| ==> IsSpace(w[i])
    ensures SlugFrom(w, inRun) == (if inRun then "" else "-")
    decreases |w|
  {
    if |w| > 1 {
      SlugOfSpaces(w[1..], true);
    }
  }

  /** A word whose slug starts fresh does not care about the run state. */
  lemma RunStateIrrelevant(b: string)
    requires b == [] || !IsSpace(b[0])
    ensures SlugFrom(b, true) == SlugFrom(b, false)
  {
  }

  /** Two words separated by any non-empty space run slug to the two slugs
      joined by one hyphen. */
  lemma SlugOfSeparatedWords(a: string, w: string, b: string)
    requires a == [] || !IsSpace(a[|a| - 1])
    requires |w| > 0 && forall i :: 0 <= i < |w| ==> IsSpace(w[i])
    requires b == [] || !IsSpace(b[0])
    ensures Slug(a + w + b) == Slug(a) + "-" + Slug(b)
  {
    SlugFromConcat(a + w, b, false);
    SlugFromConcat(a, w, false);
    assert !EndsInRun(a, false);
    SlugOfSpaces(w, false);
    assert EndsInRun(a + w, false) by {
      assert (a + w)[|a + w| - 1] == w[|w| - 1];
    }
    RunStateIrrelevant(b);
  }
}
