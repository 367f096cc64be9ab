/** The detective's notebook: one note per suspect, and a scratchpad of case
    notes that can be pinned, deleted, and are listed pinned first. Each
    handler of the notes page is a transform of the list it replaces. */
module Notes {
  import opened Js
  import opened CaseFile

  datatype Tag = Neutral | Suspicious | Cleared | AlibiTag

  datatype SuspectNote = SuspectNote(suspectName: string, avatarId: string, note: string, tag: Tag)

  datatype CaseNote = CaseNote(id: int, text: string, pinned: bool, timestamp: string)

  // ---------------------------------------------------------------------
  // Suspect notes
  // ---------------------------------------------------------------------

  /** One blank, neutral note per profile, in profile order. */
  function InitialSuspectNotes(profiles: seq<CharacterProfile>): (r: seq<SuspectNote>)
    ensures |r| == |profiles|
    ensures forall i :: 0 <= i < |r| ==>
      r[i] == SuspectNote(profiles[i].name, profiles[i].avatarId, "", Neutral)
  {
    if profiles == [] then []
    else [SuspectNote(profiles[0].name, profiles[0].avatarId, "", Neutral)] + InitialSuspectNotes(profiles[1..])
  }

  /** The suspect tab that opens first: the first profile's name, or "". */
  function InitialActiveSuspect(profiles: seq<CharacterProfile>): (r: string)
    ensures profiles != [] ==> r == profiles[0].name
    ensures profiles == [] ==> r == ""
  {
    if profiles != [] then profiles[0].name else ""
  }

  /** `Partial<SuspectNote>`: an absent key is `None`. */
  datatype NotePatch = NotePatch(
    suspectName: Option<string>,
    avatarId: Option<string>,
    note: Option<string>,
    tag: Option<Tag>)

  /** `{ ...n, ...field }` */
  function ApplyPatch(n: SuspectNote, field: NotePatch): SuspectNote {
    SuspectNote(
      field.suspectName.GetOr(n.suspectName),
      field.avatarId.GetOr(n.avatarId),
      field.note.GetOr(n.note),
      field.tag.GetOr(n.tag))
  }

  /** `updateSuspectNote(name, field)` */
  function UpdateSuspectNote(notes: seq<SuspectNote>, name: string, field: NotePatch): (r: seq<SuspectNote>)
    ensures |r| == |notes|
  {
    if notes == [] then []
    else [if notes[0].suspectName == name then ApplyPatch(notes[0], field) else notes[0]]
         + UpdateSuspectNote(notes[1..], name, field)
  }

  /** Every note of that suspect gets the given fields merged in, and every
      other note is left exactly as it was. */
  lemma {:induction false} UpdateSuspectNoteMerges(notes: seq<SuspectNote>, name: string, field: NotePatch)
    ensures var r := UpdateSuspectNote(notes, name, field);
      && |r| == |notes|
      && (forall i :: 0 <= i < |notes| && notes[i].suspectName == name ==>
            && r[i].note == field.note.GetOr(notes[i].note)
            && r[i].tag == field.tag.GetOr(notes[i].tag)
            && r[i].avatarId == field.avatarId.GetOr(notes[i].avatarId)
            && r[i].suspectName == field.suspectName.GetOr(name))
      && (forall i :: 0 <= i < |notes| && notes[i].suspectName != name ==> r[i] == notes[i])
  {
    if notes != [] {
      UpdateSuspectNoteMerges(notes[1..], name, field);
      var r := UpdateSuspectNote(notes, name, field);
      assert forall i :: 1 <= i < |notes| ==> r[i] == UpdateSuspectNote(notes[1..], name, field)[i - 1];
    }
  }

  /** Repeating an update that does not rename the note changes nothing more. */
  lemma {:induction false} UpdateSuspectNoteIdempotent(notes: seq<SuspectNote>, name: string, field: NotePatch)
    requires field.suspectName.None? || field.suspectName == Some(name)
    ensures UpdateSuspectNote(UpdateSuspectNote(notes, name, field), name, field)
            == UpdateSuspectNote(notes, name, field)
  {
    if notes != [] {
      UpdateSuspectNoteIdempotent(notes[1..], name, field);
    }
  }

  function NoteOf(name: string): SuspectNote -> bool {
    (n: SuspectNote) => n.suspectName == name
  }

  /** `activeSuspectNote`: the first note of the active suspect, if any. */
  function ActiveSuspectNote(notes: seq<SuspectNote>, active: string): (r: Option<SuspectNote>)
    ensures r.Some? <==> exists j :: 0 <= j < |notes| && notes[j].suspectName == active
    ensures r.Some? ==>
      exists j :: 0 <= j < |notes| && r.value == notes[j] && notes[j].suspectName == active
        && forall k :: 0 <= k < j ==> notes[k].suspectName != active
  {
    match FindIndex(notes, NoteOf(active))
    case None => None
    case Some(i) => Some(notes[i])
  }

  /** On a fresh notebook the active suspect's note is the blank note of the
      first profile. */
  lemma FreshNotebookShowsFirstSuspect(profiles: seq<CharacterProfile>)
    requires profiles != []
    ensures ActiveSuspectNote(InitialSuspectNotes(profiles), InitialActiveSuspect(profiles))
            == Some(SuspectNote(profiles[0].name, profiles[0].avatarId, "", Neutral))
  {
    var notes := InitialSuspectNotes(profiles);
    assert notes[0].suspectName == profiles[0].name;
  }

  // ---------------------------------------------------------------------
  // Case notes
  // ---------------------------------------------------------------------

  /** `addCaseNote()`: the new list and the new contents of the input box.
      `id` stands for `Date.now()` and `stamp` for the formatted time. */
  function AddCaseNote(notes: seq<CaseNote>, input: string, id: int, stamp: string): (seq<CaseNote>, string) {
    if !Truthy(Trim(input)) then (notes, input)
    else ([CaseNote(id, Trim(input), false, stamp)] + notes, "")
  }

  /** Blank input changes nothing; any other input prepends one unpinned note
      holding the trimmed text before the old list, and empties the box. */
  lemma AddCaseNoteCases(notes: seq<CaseNote>, input: string, id: int, stamp: string)
    ensures (forall i :: 0 <= i < |input| ==> IsWhitespace(input[i])) ==>
      AddCaseNote(notes, input, id, stamp) == (notes, input)
    ensures (exists i :: 0 <= i < |input| && !IsWhitespace(input[i])) ==>
      var text := Trim(input);
      && AddCaseNote(notes, input, id, stamp) == ([CaseNote(id, text, false, stamp)] + notes, "")
      && text != [] && !IsWhitespace(text[0]) && !IsWhitespace(text[|text| - 1])
  {
    TrimShape(input);
  }

  /** `togglePin(id)` */
  function TogglePin(notes: seq<CaseNote>, id: int): (r: seq<CaseNote>)
    ensures |r| == |notes|
  {
    if notes == [] then []
    else [if notes[0].id == id then notes[0].(pinned := !notes[0].pinned) else notes[0]]
         + TogglePin(notes[1..], id)
  }

  /** Only notes with that id flip, and only their pin; toggling twice
      restores the list. */
  lemma {:induction false} TogglePinFlipsOnlyThatId(notes: seq<CaseNote>, id: int)
    ensures var r := TogglePin(notes, id);
      && (forall i :: 0 <= i < |notes| && notes[i].id == id ==> r[i] == notes[i].(pinned := !notes[i].pinned))
      && (forall i :: 0 <= i < |notes| && notes[i].id != id ==> r[i] == notes[i])
    ensures TogglePin(TogglePin(notes, id), id) == notes
  {
    if notes != [] {
      TogglePinFlipsOnlyThatId(notes[1..], id);
      var r := TogglePin(notes, id);
      assert forall i :: 1 <= i < |notes| ==> r[i] == TogglePin(notes[1..], id)[i - 1];
    }
  }

  /** `deleteNote(id)` */
  function DeleteNote(notes: seq<CaseNote>, id: int): (r: seq<CaseNote>)
    ensures |r| <= |notes|
  {
    if notes == [] then []
    else (if notes[0].id == id then [] else [notes[0]]) + DeleteNote(notes[1..], id)
  }

  /** Exactly the notes with that id go: a note with that id no longer
      occurs, and every other note occurs as often as before. */
  lemma {:induction false} DeleteNoteRemovesExactlyThatId(notes: seq<CaseNote>, id: int)
    ensures forall n :: multiset(DeleteNote(notes, id))[n] == if n.id == id then 0 else multiset(notes)[n]
    ensures forall n :: n in DeleteNote(notes, id) <==> n in notes && n.id != id
  {
    if notes != [] {
      DeleteNoteRemovesExactlyThatId(notes[1..], id);
      assert notes == [notes[0]] + notes[1..];
      assert multiset(notes) == multiset{notes[0]} + multiset(notes[1..]);
    }
  }

  /** Survivors keep their order: deleting from two lists joined is deleting
      from each and joining the results. */
  lemma {:induction false} DeleteNoteDistributes(a: seq<CaseNote>, b: seq<CaseNote>, id: int)
    ensures DeleteNote(a + b, id) == DeleteNote(a, id) + DeleteNote(b, id)
  {
    if a != [] {
      DeleteNoteDistributes(a[1..], b, id);
      assert (a + b)[1..] == a[1..] + b;
    } else {
      assert a + b == b;
    }
  }

  // ---------------------------------------------------------------------
  // The pinned-first listing
  // ---------------------------------------------------------------------

  function Pinned(s: seq<CaseNote>): (r: seq<CaseNote>)
    ensures forall i :: 0 <= i < |r| ==> r[i].pinned
  {
    if s == [] then [] else Pinned(s[..|s| - 1]) + (if s[|s| - 1].pinned then [s[|s| - 1]] else [])
  }

  function Unpinned(s: seq<CaseNote>): (r: seq<CaseNote>)
    ensures forall i :: 0 <= i < |r| ==> !r[i].pinned
  {
    if s == [] then [] else Unpinned(s[..|s| - 1]) + (if s[|s| - 1].pinned then [] else [s[|s| - 1]])
  }

  /** `sortedCaseNotes`: a stable sort on a copy, pinned notes first. */
  function SortedCaseNotes(s: seq<CaseNote>): seq<CaseNote> {
    Pinned(s) + Unpinned(s)
  }

  /** The comparator `(b.pinned ? 1 : 0) - (a.pinned ? 1 : 0)`. */
  function Compare(a: CaseNote, b: CaseNote): int {
    (if b.pinned then 1 else 0) - (if a.pinned then 1 else 0)
  }

  /** Insert `x` after every element that does not compare greater than it:
      one step of a stable insertion sort. */
  function InsertStable(r: seq<CaseNote>, x: CaseNote): seq<CaseNote> {
    if r == [] || Compare(r[|r| - 1], x) <= 0 then r + [x]
    else InsertStable(r[..|r| - 1], x) + [r[|r| - 1]]
  }

  /** A stable sort by the comparator: each element in turn is inserted
      after all earlier ones that do not compare greater. */
  function StableSortBy(s: seq<CaseNote>): seq<CaseNote> {
    if s == [] then [] else InsertStable(StableSortBy(s[..|s| - 1]), s[|s| - 1])
  }

  /** The listing is a rearrangement of the notes: nothing added or lost. */
  lemma {:induction false} SortedCaseNotesIsPermutation(s: seq<CaseNote>)
    ensures multiset(SortedCaseNotes(s)) == multiset(s)
  {
    if s != [] {
      var init := s[..|s| - 1];
      SortedCaseNotesIsPermutation(init);
      assert s == init + [s[|s| - 1]];
    }
  }

  /** Every pinned note comes before every unpinned one. */
  lemma SortedCaseNotesPinnedFirst(s: seq<CaseNote>)
    ensures var r := SortedCaseNotes(s);
      forall i, j :: 0 <= i < j < |r| && !r[i].pinned ==> !r[j].pinned
  {
    var r := SortedCaseNotes(s);
    forall i, j | 0 <= i < j < |r| && !r[i].pinned ensures !r[j].pinned {
      assert i >= |Pinned(s)|;
    }
  }

  /** The listing is exactly what a stable sort by the page's comparator
      produces: the pinned notes in their original order, then the unpinned
      notes in theirs. */
  lemma {:induction false} SortedCaseNotesIsStableSort(s: seq<CaseNote>)
    ensures StableSortBy(s) == SortedCaseNotes(s)
  {
    if s != [] {
      var init, x := s[..|s| - 1], s[|s| - 1];
      SortedCaseNotesIsStableSort(init);
      if x.pinned {
        InsertPinnedAfterPinned(Pinned(init), Unpinned(init), x);
      } else {
        assert InsertStable(Pinned(init) + Unpinned(init), x) == Pinned(init) + Unpinned(init) + [x];
      }
    }
  }

  /** A pinned note inserted stably into pinned-then-unpinned notes lands
      after the last pinned one. */
  lemma {:induction false} InsertPinnedAfterPinned(p: seq<CaseNote>, u: seq<CaseNote>, x: CaseNote)
    requires x.pinned
    requires forall i :: 0 <= i < |p| ==> p[i].pinned
    requires forall i :: 0 <= i < |u| ==> !u[i].pinned
    ensures InsertStable(p + u, x) == p + [x] + u
    decreases |u|
  {
    if u == [] {
      assert p + u == p;
      if p != [] {
        assert Compare(p[|p| - 1], x) == 0;
      }
    } else {
      var last := u[|u| - 1];
      assert (p + u)[|p + u| - 1] == last;
      assert Compare(last, x) == 1;
      assert (p + u)[..|p + u| - 1] == p + u[..|u| - 1];
      InsertPinnedAfterPinned(p, u[..|u| - 1], x);
      assert p + [x] + u[..|u| - 1] + [last] == p + [x] + u;
    }
  }
}
