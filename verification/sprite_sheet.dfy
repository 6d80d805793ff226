/**
  The configuration the input form edits. Its owner creates it; the form only
  asks for one-field updates of it through a setter.
 */
module SpriteSheet {
  import opened Wrappers

  /** One of the named animation slots of the sheet. `id` never changes once
      the row exists; only `name` is editable. */
  datatype AnimationRow = AnimationRow(id: int, name: string)

  /** `referenceImage` is `None` where the component stores `null`; `style` and
      `facing` are labels of catalogs this model treats as opaque strings. */
  datatype SpriteSheetConfig = SpriteSheetConfig(
    characterDescription: string,
    referenceImage: Option<string>,
    style: string,
    facing: string,
    rows: seq<AnimationRow>)

  /** The fields of a configuration, used to say which one an update may touch. */
  datatype Field = Description | ReferenceImage | Style | Facing | Rows

  /** `a` and `b` agree on every field except possibly `f`. */
  predicate SameOutside(a: SpriteSheetConfig, b: SpriteSheetConfig, f: Field) {
    && (f != Description ==> a.characterDescription == b.characterDescription)
    && (f != ReferenceImage ==> a.referenceImage == b.referenceImage)
    && (f != Style ==> a.style == b.style)
    && (f != Facing ==> a.facing == b.facing)
    && (f != Rows ==> a.rows == b.rows)
  }

  /** The row identities in display order. */
  function RowIds(rows: seq<AnimationRow>): seq<int> {
    seq(|rows|, i requires 0 <= i < |rows| => rows[i].id)
  }

  /** No two rows share an id (the owner assigns each slot a distinct id). */
  predicate UniqueIds(rows: seq<AnimationRow>) {
    forall i, j :: 0 <= i < j < |rows| ==> rows[i].id != rows[j].id
  }
}
