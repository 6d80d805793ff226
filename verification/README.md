# Sprite-sheet input form, modelled in Dafny

The `InputPanel` component of the sprite-sheet generator is a form over a
`SpriteSheetConfig`: a character description, an optional reference image, an
art style, a facing direction and a list of named animation rows. Every field
edit hands the owner's setter a pure update `prev => next` of the configuration,
and a derived gate, `canGenerate`, decides whether the generate button is
enabled. This project models those updates and the gate as pure Dafny functions
and proves what they promise.

Modules:

- `Wrappers` (`wrappers.dfy`): `Option`, standing for a value or JavaScript's `null`.
- `Text` (`text.dfy`): JavaScript's `String.prototype.trim` over an explicit set
  of whitespace code points: the WhiteSpace and LineTerminator productions of
  ECMA-262, with the Unicode Zs separators listed one by one.
- `SpriteSheet` (`sprite_sheet.dfy`): the `AnimationRow` and `SpriteSheetConfig`
  records, the `SameOutside` frame predicate ("equal on every field but one"),
  the row-id sequence and id distinctness.
- `InputPanel` (`input_panel.dfy`): the handlers `handleRowChange`,
  `handleDescriptionChange`, `handleStyleChange`, `handleFacingChange`,
  `handleFileUpload` with its `onloadend` update, `removeImage`, the
  `canGenerate` gate and the disabled generate button.
- `FormEvents` (`form_events.dfy`): the form's inputs wired to those handlers,
  a run of inputs applied in order, invariants of such runs, and walk-throughs
  of the form.

A failed read clears the image. `onloadend` also fires after a failed read, the
reader's `result` is then `null`, and the update stores it unchanged, so any
image already present is replaced by none. `OnLoadEnd` takes the reader's result
as an `Option<string>` and stores it as it comes.

## Model

| member | source | states |
|---|---|---|
| `InputPanel.RenameRows` | components/InputPanel.tsx:19 | The mapped rows have the same length, and each index keeps its row's id. Every row carrying the target id gets the new name, duplicates included. Every other row is identical to before. If no row carries the id, the rows are unchanged. |
| `InputPanel.HandleRowChange` | components/InputPanel.tsx:16-21 | Only `rows` changes. The id sequence is unchanged, so order and count are kept. Matching rows get the new name and the others stay as they were. With no matching id the whole configuration is unchanged. |
| `InputPanel.RenamePreservesUniqueIds` | components/InputPanel.tsx:19 | If the row ids were distinct before a rename, they are distinct after it. |
| `InputPanel.RenameTouchesOneRow` | components/InputPanel.tsx:19 | With distinct ids, renaming the id found at index k changes exactly the name at index k. |
| `InputPanel.RenameUndo` | components/InputPanel.tsx:16-21 | Renaming back to the old name restores the original configuration, provided every row with that id had the old name. |
| `InputPanel.RenameLastWins` | components/InputPanel.tsx:16-21 | Two renames of the same id equal the second rename alone. |
| `InputPanel.HandleDescriptionChange` | components/InputPanel.tsx:23-25 | The description becomes exactly the typed text, with no trimming. Every other field is unchanged. |
| `InputPanel.HandleStyleChange` | components/InputPanel.tsx:27-29 | The style becomes the selected value. Every other field is unchanged. |
| `InputPanel.HandleFacingChange` | components/InputPanel.tsx:31-33 | The facing becomes the selected value. Every other field is unchanged. |
| `InputPanel.OnLoadEnd` | components/InputPanel.tsx:39-41 | The reference image becomes the reader's result, so a `null` result clears it. Every other field is unchanged. |
| `InputPanel.HandleFileUpload` | components/InputPanel.tsx:35-44 | With no file selected the configuration is unchanged. Otherwise only the image changes, to the read result. |
| `InputPanel.RemoveImage` | components/InputPanel.tsx:46-49 | The reference image becomes absent. Every other field is unchanged. |
| `InputPanel.RemoveImageIdempotent` | components/InputPanel.tsx:47 | Removing the image twice gives the same configuration as removing it once. |
| `InputPanel.RemoveUndoesUpload` | components/InputPanel.tsx:35-47 | Uploading to a configuration with no image and then removing the image gives back the original configuration. |
| `InputPanel.SettersUndo` | components/InputPanel.tsx:23-40 | Each single-field setter is undone by setting the field's previous value again. This covers description, style, facing and image. |
| `InputPanel.SettersLastWins` | components/InputPanel.tsx:23-40 | Two updates of the same field equal the later update alone. |
| `InputPanel.CanGenerate` | components/InputPanel.tsx:52 | The gate is open iff no generation is running and either the description has a non-whitespace character or an image is present. An empty-string image counts as present. |
| `InputPanel.PressGenerate` | components/InputPanel.tsx:167-169 | A click requests generation iff the gate is open. In particular it never does so while a generation is running. |
| `InputPanel.GateClosedWhileGenerating` | components/InputPanel.tsx:52 | While a generation is running the gate is closed for every configuration. |
| `InputPanel.GateClosedWhenBlank` | components/InputPanel.tsx:52 | An empty or all-whitespace description with no image closes the gate. |
| `InputPanel.GateOpenWithImage` | components/InputPanel.tsx:52 | With no generation running, an image opens the gate whatever the description is. |
| `InputPanel.GateOpenWithVisibleText` | components/InputPanel.tsx:52 | With no generation running, one non-whitespace character in the description opens the gate. |
| `InputPanel.GateIgnoresStyleFacingRows` | components/InputPanel.tsx:16-52 | Style, facing and row edits never change the gate. |
| `InputPanel.GateAfterRemoveImage` | components/InputPanel.tsx:46-52 | After the image is removed, the gate is open iff no generation is running and the description has visible text. |
| `Text.TrimStart` | components/InputPanel.tsx:52 | The result is a suffix of the input. Everything dropped is whitespace, and a non-empty result starts with a non-whitespace character. |
| `Text.TrimEnd` | components/InputPanel.tsx:52 | The result is a prefix of the input. Everything dropped is whitespace, and a non-empty result ends with a non-whitespace character. |
| `Text.Trim` | components/InputPanel.tsx:52 | `trim()` returns a contiguous slice of the input. Everything outside the slice is whitespace, and a non-empty result starts and ends with a non-whitespace character. The result is non-empty iff the input has a non-whitespace character. |
| `Text.TrimIdempotent` | components/InputPanel.tsx:52 | Trimming a trimmed string changes nothing. |
| `FormEvents.Dispatch` | components/InputPanel.tsx:83-155 | Each input goes to its handler: a description edit stores its text, a style or facing selection stores its value, a finished upload stores the read result, picking no file changes nothing, and a removal leaves no image. No input changes the row ids, and each field changes only through its own input. |
| `FormEvents.ReplayKeepsRowIds` | components/InputPanel.tsx:16-49 | No sequence of edits adds, drops, reorders or re-identifies a row. |
| `FormEvents.ReplayKeepsUniqueIds` | components/InputPanel.tsx:16-49 | Distinct row ids stay distinct through any sequence of edits. |
| `FormEvents.ReplayKeepsGate` | components/InputPanel.tsx:16-52 | A sequence of style, facing and row edits leaves the gate unchanged. |
| `FormEvents.ReplayKeepsDescription` | components/InputPanel.tsx:16-49 | Without a description edit, the description stays the original text. |
| `FormEvents.ReplayLastDescriptionWins` | components/InputPanel.tsx:23-25 | The last description edit in a sequence decides the stored description, verbatim. |
| `FormEvents.EmptyFormIsDisabled` | components/InputPanel.tsx:52-169 | An empty description with no image leaves the button disabled. |
| `FormEvents.TypingDescriptionEnables` | components/InputPanel.tsx:23-52 | Typing "A cybernetic ninja" stores exactly that text and enables the button. |
| `FormEvents.TypingWhitespaceKeepsDisabled` | components/InputPanel.tsx:23-52 | Any whitespace-only description, the empty one included, is stored as typed but does not enable the button when there is no image. |
| `FormEvents.TypingSpacesKeepsDisabled` | components/InputPanel.tsx:23-52 | The description made of a space, a tab, a line feed and a space leaves the button disabled when there is no image. |
| `FormEvents.UploadThenRemove` | components/InputPanel.tsx:35-52 | A finished upload enables the button even with an empty description. Removing the image clears it and disables the button again. |

## Left out

- Rendering: the JSX markup, CSS classes, icons, labels and placeholder texts (components/InputPanel.tsx:54-190) have no state behaviour.
- File reading: `FileReader`, `readAsDataURL` and the data-URL encoding are browser I/O. The read's outcome is an input of `HandleFileUpload` (`Chosen(result)`).
- Overlapping reads: the asynchronous timing of `onloadend` and the last-writer-wins race between reads are not modelled. Each read is applied as one update at the moment it finishes.
- File-picker reset: `removeImage` also clears the hidden file input's value so the same file can be chosen again. That is a DOM side effect outside the configuration.
- Catalogs: membership of `style` and `facing` in the art-style and facing-direction catalogs is enforced only by the `<select>` element's options. The catalogs live in a constants module that is not part of this model, so both values are opaque strings here.
- Row count: the default rows live in that constants module too, so the model proves that edits keep the row count and ids, not that there are exactly eight rows.
- `onGenerate`: the owner's callback is external. A click is modelled only as whether it reaches the callback.
- Image check on line 69: the upload area's truthiness test treats an empty-string image as absent, while the gate on line 52 treats it as present. That check only chooses what to render and is not modelled.
- Text encoding: JavaScript strings are UTF-16 code units, while Dafny's `char` is a Unicode scalar value. Unpaired surrogates are not representable. Every code point `trim` removes lies in the Basic Multilingual Plane, so the gate is unaffected.
- Unicode version: `Text.IsTrimmable` fixes the Zs separators at the Unicode 15 repertoire. Engines built on other Unicode versions may differ, for example on U+180E in versions before 6.3.
- Row ids: JavaScript numbers are modelled as `int`; non-integer ids are not modelled. Only a NaN id never matches under `===`, so a NaN row could never be renamed through the per-row `handleRowChange(row.id, …)` call; NaN ids are not modelled either.
