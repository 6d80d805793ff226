/**
  The form's inputs wired to their handlers, and a run of such inputs applied in
  order, each update to the configuration the previous one produced (the owner's
  setter applies every `prev => next` update to the latest value).
 */
module FormEvents {
  import opened Wrappers
  import opened Text
  import opened SpriteSheet
  import opened InputPanel

  /** One user input on the form. */
  datatype Event =
    | RowEdited(id: int, newName: string)
    | DescriptionEdited(text: string)
    | StyleSelected(style: string)
    | FacingSelected(facing: string)
    | FilePicked(selection: FileSelection)
    | RemoveImageClicked

  /** The event's `onChange` / `onClick` handler applied to the configuration. */
  function Dispatch(c: SpriteSheetConfig, e: Event): (r: SpriteSheetConfig)
    ensures RowIds(r.rows) == RowIds(c.rows)
    ensures !e.RowEdited? ==> r.rows == c.rows
    ensures e.DescriptionEdited? ==> r.characterDescription == e.text
    ensures !e.DescriptionEdited? ==> r.characterDescription == c.characterDescription
    ensures e.StyleSelected? ==> r.style == e.style
    ensures !e.StyleSelected? ==> r.style == c.style
    ensures e.FacingSelected? ==> r.facing == e.facing
    ensures !e.FacingSelected? ==> r.facing == c.facing
    ensures e.FilePicked? && e.selection.Chosen? ==> r.referenceImage == e.selection.readResult
    ensures e.FilePicked? && e.selection.NoFile? ==> r == c
    ensures !(e.FilePicked? || e.RemoveImageClicked?) ==> r.referenceImage == c.referenceImage
    ensures e.RemoveImageClicked? ==> r.referenceImage == None
  {
    match e
    case RowEdited(id, newName) => HandleRowChange(c, id, newName)
    case DescriptionEdited(text) => HandleDescriptionChange(c, text)
    case StyleSelected(style) => HandleStyleChange(c, style)
    case FacingSelected(facing) => HandleFacingChange(c, facing)
    case FilePicked(selection) => HandleFileUpload(c, selection)
    case RemoveImageClicked => RemoveImage(c)
  }

  /** The events applied one after another, oldest first. */
  function Replay(c: SpriteSheetConfig, events: seq<Event>): SpriteSheetConfig
    decreases |events|
  {
    if events == [] then c else Replay(Dispatch(c, events[0]), events[1..])
  }

  /** No run of edits adds, drops, reorders or re-identifies a row. */
  lemma {:induction false} ReplayKeepsRowIds(c: SpriteSheetConfig, events: seq<Event>)
    ensures RowIds(Replay(c, events).rows) == RowIds(c.rows)
    ensures |Replay(c, events).rows| == |c.rows|
    decreases |events|
  {
    if events != [] {
      ReplayKeepsRowIds(Dispatch(c, events[0]), events[1..]);
    }
  }

  /** Distinct row ids stay distinct under any run of edits. */
  lemma {:induction false} ReplayKeepsUniqueIds(c: SpriteSheetConfig, events: seq<Event>)
    requires UniqueIds(c.rows)
    ensures UniqueIds(Replay(c, events).rows)
    decreases |events|
  {
    if events != [] {
      var next := Dispatch(c, events[0]);
      assert forall i :: 0 <= i < |c.rows| ==> next.rows[i].id == RowIds(next.rows)[i];
      ReplayKeepsUniqueIds(next, events[1..]);
    }
  }

  /** Events that touch the gate's inputs: the description and the image. */
  predicate TouchesGate(e: Event) {
    e.DescriptionEdited? || e.FilePicked? || e.RemoveImageClicked?
  }

  /** A run of style, facing and row edits leaves the gate where it was. */
  lemma {:induction false} ReplayKeepsGate(c: SpriteSheetConfig, events: seq<Event>, isGenerating: bool)
    requires forall k :: 0 <= k < |events| ==> !TouchesGate(events[k])
    ensures CanGenerate(Replay(c, events), isGenerating) == CanGenerate(c, isGenerating)
    decreases |events|
  {
    if events != [] {
      ReplayKeepsGate(Dispatch(c, events[0]), events[1..], isGenerating);
    }
  }

  /** Without a description edit the stored description is the original text. */
  lemma {:induction false} ReplayKeepsDescription(c: SpriteSheetConfig, events: seq<Event>)
    requires forall k :: 0 <= k < |events| ==> !events[k].DescriptionEdited?
    ensures Replay(c, events).characterDescription == c.characterDescription
    decreases |events|
  {
    if events != [] {
      ReplayKeepsDescription(Dispatch(c, events[0]), events[1..]);
    }
  }

  /** The last description edit of a run decides the stored description,
      verbatim. */
  lemma {:induction false} ReplayLastDescriptionWins(c: SpriteSheetConfig, events: seq<Event>, text: string, rest: seq<Event>)
    requires forall k :: 0 <= k < |rest| ==> !rest[k].DescriptionEdited?
    ensures Replay(c, events + [DescriptionEdited(text)] + rest).characterDescription == text
    decreases |events|
  {
    if events == [] {
      assert events + [DescriptionEdited(text)] + rest == [DescriptionEdited(text)] + rest;
      ReplayKeepsDescription(HandleDescriptionChange(c, text), rest);
    } else {
      assert (events + [DescriptionEdited(text)] + rest)[1..] == events[1..] + [DescriptionEdited(text)] + rest;
      ReplayLastDescriptionWins(Dispatch(c, events[0]), events[1..], text, rest);
    }
  }

  // ---------------------------------------------------------------------------
  // Walk-throughs of the form
  // ---------------------------------------------------------------------------

  /** An empty description, no image and no generation running: the button is
      disabled. */
  lemma EmptyFormIsDisabled(c: SpriteSheetConfig)
    requires c.characterDescription == "" && c.referenceImage == None
    ensures PressGenerate(c, false) == Ignored
  {
  }

  /** Typing "A cybernetic ninja" stores exactly that text and enables the
      button. */
  lemma TypingDescriptionEnables(c: SpriteSheetConfig)
    ensures Dispatch(c, DescriptionEdited("A cybernetic ninja")).characterDescription == "A cybernetic ninja"
    ensures PressGenerate(Dispatch(c, DescriptionEdited("A cybernetic ninja")), false) == GenerateRequested
  {
    var text := "A cybernetic ninja";
    assert !IsTrimmable(text[0]);
  }

  /** A description of whitespace alone, the empty one included, is stored as
      typed but does not enable the button. */
  lemma TypingWhitespaceKeepsDisabled(c: SpriteSheetConfig, text: string)
    requires forall i :: 0 <= i < |text| ==> IsTrimmable(text[i])
    requires c.referenceImage == None
    ensures Dispatch(c, DescriptionEdited(text)).characterDescription == text
    ensures PressGenerate(Dispatch(c, DescriptionEdited(text)), false) == Ignored
  {
  }

  /** For instance a space, a tab and a line feed. */
  lemma TypingSpacesKeepsDisabled(c: SpriteSheetConfig)
    requires c.referenceImage == None
    ensures PressGenerate(Dispatch(c, DescriptionEdited(" \t\n ")), false) == Ignored
  {
    TypingWhitespaceKeepsDisabled(c, " \t\n ");
  }

  /** A finished upload enables the button even with an empty description;
      removing the image again clears it. */
  lemma UploadThenRemove(c: SpriteSheetConfig, payload: string)
    requires c.characterDescription == ""
    ensures var up := Dispatch(c, FilePicked(Chosen(Some(payload))));
      && up.referenceImage == Some(payload)
      && PressGenerate(up, false) == GenerateRequested
      && Dispatch(up, RemoveImageClicked).referenceImage == None
      && PressGenerate(Dispatch(up, RemoveImageClicked), false) == Ignored
  {
  }
}
