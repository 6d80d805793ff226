/**
  The state updates and the generate gate of the `InputPanel` form.

  Every handler hands the owner's setter a pure update `SpriteSheetConfig ->
  SpriteSheetConfig`; here each such update is a function of the previous
  configuration and the handler's input. The gate is recomputed from the current
  configuration and the owner's `isGenerating` flag.
 */
module InputPanel {
  import opened Wrappers
  import opened Text
  import opened SpriteSheet

  // ---------------------------------------------------------------------------
  // Row rename
  // ---------------------------------------------------------------------------

  /** The rename mapped over the rows: every row whose id equals `id` gets the
      new name, every other row is kept as it is, and neither the number nor the
      order of the rows changes. Ids are not assumed to be unique. */
  function RenameRows(rows: seq<AnimationRow>, id: int, newName: string): (r: seq<AnimationRow>)
    ensures |r| == |rows|
    ensures forall i :: 0 <= i < |rows| ==> r[i].id == rows[i].id
    ensures forall i :: 0 <= i < |rows| && rows[i].id == id ==> r[i].name == newName
    ensures forall i :: 0 <= i < |rows| && rows[i].id != id ==> r[i] == rows[i]
    ensures (forall i :: 0 <= i < |rows| ==> rows[i].id != id) ==> r == rows
  {
    if rows == [] then []
    else
      var head := if rows[0].id == id then rows[0].(name := newName) else rows[0];
      [head] + RenameRows(rows[1..], id, newName)
  }

  /** `handleRowChange(id, newName)`: only `rows` changes, and it changes as
      `RenameRows` says. */
  function HandleRowChange(c: SpriteSheetConfig, id: int, newName: string): (r: SpriteSheetConfig)
    ensures SameOutside(c, r, Rows)
    ensures RowIds(r.rows) == RowIds(c.rows)
    ensures forall i :: 0 <= i < |c.rows| && c.rows[i].id == id ==> r.rows[i].name == newName
    ensures forall i :: 0 <= i < |c.rows| && c.rows[i].id != id ==> r.rows[i] == c.rows[i]
    ensures (forall i :: 0 <= i < |c.rows| ==> c.rows[i].id != id) ==> r == c
  {
    c.(rows := RenameRows(c.rows, id, newName))
  }

  /** Renaming never disturbs the distinctness of the row ids. */
  lemma RenamePreservesUniqueIds(c: SpriteSheetConfig, id: int, newName: string)
    requires UniqueIds(c.rows)
    ensures UniqueIds(HandleRowChange(c, id, newName).rows)
  {
  }

  /** With distinct ids, a rename touches exactly the one row that carries the id. */
  lemma RenameTouchesOneRow(c: SpriteSheetConfig, k: int, newName: string)
    requires UniqueIds(c.rows)
    requires 0 <= k < |c.rows|
    ensures HandleRowChange(c, c.rows[k].id, newName).rows
            == c.rows[k := AnimationRow(c.rows[k].id, newName)]
  {
  }

  /** Typing the old name back undoes a rename, provided every row carrying the
      id had that old name. */
  lemma RenameUndo(c: SpriteSheetConfig, id: int, oldName: string, newName: string)
    requires forall i :: 0 <= i < |c.rows| && c.rows[i].id == id ==> c.rows[i].name == oldName
    ensures HandleRowChange(HandleRowChange(c, id, newName), id, oldName) == c
  {
  }

  /** Two renames of the same id: the later one wins. */
  lemma RenameLastWins(c: SpriteSheetConfig, id: int, first: string, second: string)
    ensures HandleRowChange(HandleRowChange(c, id, first), id, second)
            == HandleRowChange(c, id, second)
  {
  }

  // ---------------------------------------------------------------------------
  // Single-field setters
  // ---------------------------------------------------------------------------

  /** `handleDescriptionChange`: the text is stored verbatim, untrimmed. */
  function HandleDescriptionChange(c: SpriteSheetConfig, text: string): (r: SpriteSheetConfig)
    ensures SameOutside(c, r, Description)
    ensures r.characterDescription == text
  {
    c.(characterDescription := text)
  }

  /** `handleStyleChange`: the selected label replaces the style. */
  function HandleStyleChange(c: SpriteSheetConfig, value: string): (r: SpriteSheetConfig)
    ensures SameOutside(c, r, Style)
    ensures r.style == value
  {
    c.(style := value)
  }

  /** `handleFacingChange`: the selected label replaces the facing direction. */
  function HandleFacingChange(c: SpriteSheetConfig, value: string): (r: SpriteSheetConfig)
    ensures SameOutside(c, r, Facing)
    ensures r.facing == value
  {
    c.(facing := value)
  }

  /** The reader's `onloadend` update: `referenceImage` becomes the reader's
      result. A reader that failed reports `null` as its result, so a failed read
      clears the image. */
  function OnLoadEnd(c: SpriteSheetConfig, readResult: Option<string>): (r: SpriteSheetConfig)
    ensures SameOutside(c, r, ReferenceImage)
    ensures r.referenceImage == readResult
  {
    c.(referenceImage := readResult)
  }

  /** What the file picker reports: nothing selected, or a file whose read has
      finished with the given result. */
  datatype FileSelection = NoFile | Chosen(readResult: Option<string>)

  /** `handleFileUpload`: no file, no update; otherwise the `onloadend` update. */
  function HandleFileUpload(c: SpriteSheetConfig, selection: FileSelection): (r: SpriteSheetConfig)
    ensures selection.NoFile? ==> r == c
    ensures selection.Chosen? ==> SameOutside(c, r, ReferenceImage)
    ensures selection.Chosen? ==> r.referenceImage == selection.readResult
  {
    match selection
    case NoFile => c
    case Chosen(result) => OnLoadEnd(c, result)
  }

  /** `removeImage`'s state update: the image becomes absent. */
  function RemoveImage(c: SpriteSheetConfig): (r: SpriteSheetConfig)
    ensures SameOutside(c, r, ReferenceImage)
    ensures r.referenceImage == None
  {
    c.(referenceImage := None)
  }

  /** Removing the image twice is removing it once. */
  lemma RemoveImageIdempotent(c: SpriteSheetConfig)
    ensures RemoveImage(RemoveImage(c)) == RemoveImage(c)
  {
  }

  /** Removing an uploaded image restores a configuration that had none. */
  lemma RemoveUndoesUpload(c: SpriteSheetConfig, payload: string)
    requires c.referenceImage == None
    ensures RemoveImage(HandleFileUpload(c, Chosen(Some(payload)))) == c
  {
  }

  /** Each setter is undone by setting the field's previous value again. */
  lemma SettersUndo(c: SpriteSheetConfig, text: string, value: string, image: Option<string>)
    ensures HandleDescriptionChange(HandleDescriptionChange(c, text), c.characterDescription) == c
    ensures HandleStyleChange(HandleStyleChange(c, value), c.style) == c
    ensures HandleFacingChange(HandleFacingChange(c, value), c.facing) == c
    ensures OnLoadEnd(OnLoadEnd(c, image), c.referenceImage) == c
  {
  }

  /** Of two updates of the same field, the later one wins. */
  lemma SettersLastWins(c: SpriteSheetConfig, a: string, b: string, x: Option<string>, y: Option<string>)
    ensures HandleDescriptionChange(HandleDescriptionChange(c, a), b) == HandleDescriptionChange(c, b)
    ensures HandleStyleChange(HandleStyleChange(c, a), b) == HandleStyleChange(c, b)
    ensures HandleFacingChange(HandleFacingChange(c, a), b) == HandleFacingChange(c, b)
    ensures OnLoadEnd(OnLoadEnd(c, x), y) == OnLoadEnd(c, y)
  {
  }

  // ---------------------------------------------------------------------------
  // Generate gate and button
  // ---------------------------------------------------------------------------

  /** `canGenerate`: some visible description text or an image, and no
      generation running. The image test is for presence only, so an empty
      string counts as an image. */
  function CanGenerate(c: SpriteSheetConfig, isGenerating: bool): (enabled: bool)
    ensures enabled <==>
      !isGenerating && (HasVisibleChar(c.characterDescription) || c.referenceImage.Some?)
  {
    (|Trim(c.characterDescription)| > 0 || c.referenceImage != None) && !isGenerating
  }

  /** What a click on the generate button does. */
  datatype ClickOutcome = Ignored | GenerateRequested

  /** The button is disabled whenever the gate is closed, so a click reaches
      `onGenerate` only while the gate is open. */
  function PressGenerate(c: SpriteSheetConfig, isGenerating: bool): (o: ClickOutcome)
    ensures o == GenerateRequested <==>
      !isGenerating && (HasVisibleChar(c.characterDescription) || c.referenceImage.Some?)
  {
    if CanGenerate(c, isGenerating) then GenerateRequested else Ignored
  }

  /** While a generation runs the gate is closed, whatever the configuration. */
  lemma GateClosedWhileGenerating(c: SpriteSheetConfig)
    ensures !CanGenerate(c, true)
  {
  }

  /** A blank (empty or all-whitespace) description and no image close the gate. */
  lemma GateClosedWhenBlank(c: SpriteSheetConfig, isGenerating: bool)
    requires forall i :: 0 <= i < |c.characterDescription| ==> IsTrimmable(c.characterDescription[i])
    requires c.referenceImage == None
    ensures !CanGenerate(c, isGenerating)
  {
  }

  /** An image opens the gate whatever the description. */
  lemma GateOpenWithImage(c: SpriteSheetConfig)
    requires c.referenceImage.Some?
    ensures CanGenerate(c, false)
  {
  }

  /** One non-whitespace character in the description opens the gate. */
  lemma GateOpenWithVisibleText(c: SpriteSheetConfig, k: int)
    requires 0 <= k < |c.characterDescription|
    requires !IsTrimmable(c.characterDescription[k])
    ensures CanGenerate(c, false)
  {
  }

  /** Style, facing and row edits never move the gate. */
  lemma GateIgnoresStyleFacingRows(c: SpriteSheetConfig, value: string, id: int, newName: string, isGenerating: bool)
    ensures CanGenerate(HandleStyleChange(c, value), isGenerating) == CanGenerate(c, isGenerating)
    ensures CanGenerate(HandleFacingChange(c, value), isGenerating) == CanGenerate(c, isGenerating)
    ensures CanGenerate(HandleRowChange(c, id, newName), isGenerating) == CanGenerate(c, isGenerating)
  {
  }

  /** After removing the image only the description can hold the gate open. */
  lemma GateAfterRemoveImage(c: SpriteSheetConfig, isGenerating: bool)
    ensures CanGenerate(RemoveImage(c), isGenerating)
            <==> !isGenerating && HasVisibleChar(c.characterDescription)
  {
  }
}
