/**
 * The list of day entries that the store-hours settings form edits: loading
 * fetched rows into it, and the per-day edit `handleChange`.
 */
module StoreHoursForm {
  import opened Wrappers
  import opened StoreHours

  /** The edits the form makes: `handleChange(index, field, value)` for its three fields. */
  datatype HoursEdit = SetOpenTime(time: string) | SetCloseTime(time: string) | SetClosed(closed: bool)

  /** Copies the four editable fields of each fetched row, dropping `id` and `store_id`. */
  function LoadHours(rows: seq<StoreHoursRow>): (hours: seq<HoursInput>)
    ensures |hours| == |rows|
    ensures forall i :: 0 <= i < |rows| ==>
      && hours[i].dayOfWeek == rows[i].dayOfWeek
      && hours[i].openTime == rows[i].openTime
      && hours[i].closeTime == rows[i].closeTime
      && hours[i].isClosed == rows[i].isClosed
  {
    seq(|rows|, i requires 0 <= i < |rows| =>
      HoursInput(rows[i].dayOfWeek, rows[i].openTime, rows[i].closeTime, rows[i].isClosed))
  }

  /** `{ ...h, [field]: value }`. */
  function ApplyEdit(h: HoursInput, edit: HoursEdit): HoursInput
  {
    match edit
    case SetOpenTime(t) => h.(openTime := Some(t))
    case SetCloseTime(t) => h.(closeTime := Some(t))
    case SetClosed(b) => h.(isClosed := b)
  }

  /** The field an edit writes, read back from an entry. */
  predicate Holds(h: HoursInput, edit: HoursEdit)
  {
    match edit
    case SetOpenTime(t) => h.openTime == Some(t)
    case SetCloseTime(t) => h.closeTime == Some(t)
    case SetClosed(b) => h.isClosed == b
  }

  /** The entries agree on every field except, perhaps, the one `edit` writes. */
  predicate SameExceptField(a: HoursInput, b: HoursInput, edit: HoursEdit)
  {
    && a.dayOfWeek == b.dayOfWeek
    && (edit.SetOpenTime? || a.openTime == b.openTime)
    && (edit.SetCloseTime? || a.closeTime == b.closeTime)
    && (edit.SetClosed? || a.isClosed == b.isClosed)
  }

  /**
   * `handleChange`: `prev.map((h, i) => i === dayIndex ? { ...h, [field]: value } : h)`.
   * Only the entry at `dayIndex` changes, and in it only the named field.
   */
  function HandleChange(hours: seq<HoursInput>, dayIndex: int, edit: HoursEdit): (r: seq<HoursInput>)
    ensures |r| == |hours|
    ensures forall i :: 0 <= i < |hours| && i != dayIndex ==> r[i] == hours[i]
    ensures 0 <= dayIndex < |hours| ==>
      Holds(r[dayIndex], edit) && SameExceptField(r[dayIndex], hours[dayIndex], edit)
    ensures !(0 <= dayIndex < |hours|) ==> r == hours
  {
    seq(|hours|, i requires 0 <= i < |hours| => if i == dayIndex then ApplyEdit(hours[i], edit) else hours[i])
  }

  /** The open/closed switch: turning it to `checked` records `is_closed = !checked`. */
  function ToggleOpen(hours: seq<HoursInput>, index: int, checked: bool): (r: seq<HoursInput>)
    ensures |r| == |hours|
    ensures 0 <= index < |hours| ==> r[index].isClosed == !checked
  {
    HandleChange(hours, index, SetClosed(!checked))
  }

  /** Repeating an edit changes nothing more. */
  lemma HandleChangeIdempotent(hours: seq<HoursInput>, dayIndex: int, edit: HoursEdit)
    ensures HandleChange(HandleChange(hours, dayIndex, edit), dayIndex, edit)
            == HandleChange(hours, dayIndex, edit)
  {
  }

  /** Edits of different days do not interfere: they can be made in either order. */
  lemma HandleChangeCommutes(hours: seq<HoursInput>, i: int, e: HoursEdit, j: int, f: HoursEdit)
    requires i != j
    ensures HandleChange(HandleChange(hours, i, e), j, f) == HandleChange(HandleChange(hours, j, f), i, e)
  {
  }

  /**
   * A store without hours shows the seven default days in the form, Sunday to
   * Saturday, whatever ids the database assigned to the created rows.
   */
  lemma NewStoreLoadsDefaults(storeId: string, createdIds: seq<string>)
    requires |createdIds| == 7
    ensures LoadHours(GetStoreHours(storeId, Fetched(Some([])), false, createdIds).value) == DefaultHours()
  {
  }

  /** Loading what was saved for a store gives back the form's entries. */
  lemma LoadAfterSave(storeId: string, hours: seq<HoursInput>, ids: seq<string>)
    requires |ids| == |hours|
    ensures LoadHours(CreatedRows(ids, InsertRows(storeId, hours))) == hours
  {
    var loaded := LoadHours(CreatedRows(ids, InsertRows(storeId, hours)));
    assert forall i :: 0 <= i < |hours| ==> loaded[i] == hours[i];
  }
}
