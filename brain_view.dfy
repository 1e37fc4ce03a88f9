/**
 * Note capture and search of components/BrainView.tsx, as pure functions over
 * an immutable state record. The classification the AI service returns is a
 * parameter.
 */
module BrainView {
  import opened Records
  import opened Text
  import opened Seqs

  /** What `quickCaptureProcess` resolved to; either field may be missing. */
  datatype AiResult = AiResult(category: Option<string>, suggestedAction: Option<string>)

  /** The notes, the capture text box and the search box. */
  datatype BrainState = BrainState(notes: seq<Note>, input: string, filter: string)

  /** `value || fallback` for an optional string: missing and empty both fall back. */
  function OrElse(o: Option<string>, fallback: string): (r: string)
    ensures o.Some? && o.value != "" ==> r == o.value
    ensures o.None? || o.value == "" ==> r == fallback
    ensures fallback != "" ==> r != ""
  {
    if o.Some? && o.value != "" then o.value else fallback
  }

  /**
   * `handleCapture`: a blank input (after trimming) changes nothing; otherwise
   * a note holding the untrimmed input is prepended and the box is cleared.
   * `newId` and `createdAt` stand for `Date.now()` and the formatted date.
   */
  function Capture(s: BrainState, ai: AiResult, newId: string, createdAt: string): (r: BrainState)
    ensures Trim(s.input) == "" ==> r == s
    ensures Trim(s.input) != "" ==>
      && |r.notes| == |s.notes| + 1 && r.notes[1..] == s.notes
      && r.notes[0].id == newId && r.notes[0].content == s.input && r.notes[0].createdAt == createdAt
      && r.notes[0].category == OrElse(ai.category, "General")
      && r.notes[0].action == OrElse(ai.suggestedAction, "Review")
      && r.input == "" && r.filter == s.filter
  {
    if Trim(s.input) == "" then s
    else
      var note := Note(newId, s.input, OrElse(ai.category, "General"), OrElse(ai.suggestedAction, "Review"), createdAt);
      BrainState([note] + s.notes, "", s.filter)
  }

  /** The search test: case-insensitive substring. */
  predicate Matches(n: Note, filter: string) {
    Contains(Lower(n.content), Lower(filter))
  }

  /** `filteredNotes`. */
  function FilteredNotes(notes: seq<Note>, filter: string): seq<Note> {
    Filter(notes, (n: Note) => Matches(n, filter))
  }

  /** The search result is the order-preserving subsequence of the matching notes. */
  lemma FilteredSpec(notes: seq<Note>, filter: string)
    ensures forall n :: n in FilteredNotes(notes, filter) <==> n in notes && Contains(Lower(n.content), Lower(filter))
    ensures forall n :: (multiset(FilteredNotes(notes, filter))[n] ==
                         if Contains(Lower(n.content), Lower(filter)) then multiset(notes)[n] else 0)
    ensures IsSubsequence(FilteredNotes(notes, filter), notes)
  {
    forall n ensures multiset(FilteredNotes(notes, filter))[n] ==
      if Contains(Lower(n.content), Lower(filter)) then multiset(notes)[n] else 0
    {
      FilterCount(notes, (n: Note) => Matches(n, filter), n);
    }
    forall n ensures n in FilteredNotes(notes, filter) <==> n in notes && Contains(Lower(n.content), Lower(filter)) {
      FilterMembership(notes, (n: Note) => Matches(n, filter), n);
    }
    FilterIsSubsequence(notes, (n: Note) => Matches(n, filter));
  }

  /** An empty search box shows every note. */
  lemma EmptyFilterKeepsAll(notes: seq<Note>)
    ensures FilteredNotes(notes, "") == notes
  {
    forall i | 0 <= i < |notes| ensures Matches(notes[i], "") {
      ContainsTrivial(Lower(notes[i].content));
    }
    FilterKeepsAll(notes, (n: Note) => Matches(n, ""));
  }

  /** The search ignores the case of the query. */
  lemma FilterIgnoresQueryCase(notes: seq<Note>, filter: string)
    ensures FilteredNotes(notes, Lower(filter)) == FilteredNotes(notes, filter)
  {
    LowerIdempotent(filter);
    FilterCongruent(notes, (n: Note) => Matches(n, Lower(filter)), (n: Note) => Matches(n, filter));
  }
}
