/**
 * Opening hours of a store: the week's day names, the default hours created
 * for a store that has none, and the rows written when the hours are saved.
 */
module StoreHours {
  import opened Wrappers

  /** `StoreHoursInput`: one day's hours as the settings form edits them. */
  datatype HoursInput = HoursInput(dayOfWeek: int, openTime: Option<string>,
                                   closeTime: Option<string>, isClosed: bool)

  /** `StoreHours`: a stored row, with the id the database gave it. */
  datatype StoreHoursRow = StoreHoursRow(id: string, storeId: string, dayOfWeek: int,
                                         openTime: Option<string>, closeTime: Option<string>,
                                         isClosed: bool)

  /** A row as inserted: the input fields and the store it belongs to. */
  datatype HoursInsert = HoursInsert(storeId: string, dayOfWeek: int, openTime: Option<string>,
                                     closeTime: Option<string>, isClosed: bool)

  /** `DAYS_OF_WEEK`, indexed by `day_of_week` (0 = Sunday). */
  const DaysOfWeek: seq<string> :=
    ["Sunday", "Monday", "Tuesday", "Wednesday", "Thursday", "Friday", "Saturday"]

  /** `getDayName`: the entry of `DAYS_OF_WEEK`, or "Unknown" outside 0..6. */
  function GetDayName(dayOfWeek: int): (name: string)
    ensures 0 <= dayOfWeek < 7 <==> name != "Unknown"
    ensures 0 <= dayOfWeek < 7 ==> name == DaysOfWeek[dayOfWeek]
  {
    if 0 <= dayOfWeek < |DaysOfWeek| && DaysOfWeek[dayOfWeek] != "" then DaysOfWeek[dayOfWeek]
    else "Unknown"
  }

  /** The hours created for a store that has none: every day 09:00 to 21:00, open. */
  function DefaultHours(): (hours: seq<HoursInput>)
    ensures |hours| == 7
    ensures forall i :: 0 <= i < 7 ==> hours[i].dayOfWeek == i
    ensures forall i :: 0 <= i < 7 ==>
      hours[i].openTime == Some("09:00") && hours[i].closeTime == Some("21:00") && !hours[i].isClosed
  {
    seq(7, i => HoursInput(i, Some("09:00"), Some("21:00"), false))
  }

  /** `{ ...h, store_id: storeId }`. */
  function WithStore(storeId: string, h: HoursInput): HoursInsert
  {
    HoursInsert(storeId, h.dayOfWeek, h.openTime, h.closeTime, h.isClosed)
  }

  /** The input fields of an inserted row. */
  function InsertedInput(r: HoursInsert): HoursInput
  {
    HoursInput(r.dayOfWeek, r.openTime, r.closeTime, r.isClosed)
  }

  /** The rows `updateStoreHours` (and the default-hours insert) write for a store. */
  function InsertRows(storeId: string, hours: seq<HoursInput>): (rows: seq<HoursInsert>)
    ensures |rows| == |hours|
    ensures forall i :: 0 <= i < |rows| ==> rows[i].storeId == storeId && InsertedInput(rows[i]) == hours[i]
  {
    seq(|hours|, i requires 0 <= i < |hours| => WithStore(storeId, hours[i]))
  }

  /** What `insert(...).select()` returns: the inserted rows, each with the id it was given. */
  function CreatedRows(ids: seq<string>, rows: seq<HoursInsert>): (created: seq<StoreHoursRow>)
    requires |ids| == |rows|
    ensures |created| == |rows|
  {
    seq(|rows|, i requires 0 <= i < |rows| =>
      StoreHoursRow(ids[i], rows[i].storeId, rows[i].dayOfWeek, rows[i].openTime,
                    rows[i].closeTime, rows[i].isClosed))
  }

  /** The fetch succeeded but found no rows (`!data || data.length === 0`). */
  predicate NoHours(fetched: Fetch<seq<StoreHoursRow>>)
  {
    fetched.Fetched? && fetched.data.GetOr([]) == []
  }

  /**
   * `getStoreHours`: a failed fetch throws; the store's rows are returned as
   * fetched; when there are none, the default hours are inserted and returned
   * as created (`createdIds` are the ids the database assigns), unless the
   * insert fails, which throws too.
   */
  function GetStoreHours(storeId: string, fetched: Fetch<seq<StoreHoursRow>>, insertFailed: bool,
                         createdIds: seq<string>): (hours: Outcome<seq<StoreHoursRow>>)
    requires NoHours(fetched) ==> |createdIds| == 7
    ensures hours.Threw? <==> fetched.Failed? || (NoHours(fetched) && insertFailed)
    ensures fetched.Fetched? && !NoHours(fetched) ==> hours == Returned(fetched.data.value)
    ensures NoHours(fetched) && !insertFailed ==> |hours.value| == 7
    ensures NoHours(fetched) && !insertFailed ==> forall i :: 0 <= i < 7 ==>
      hours.value[i] == StoreHoursRow(createdIds[i], storeId, i, Some("09:00"), Some("21:00"), false)
  {
    match fetched
    case Failed => Threw
    case Fetched(data) =>
      if data.GetOr([]) == [] then
        if insertFailed then Threw
        else Returned(CreatedRows(createdIds, InsertRows(storeId, DefaultHours())))
      else Returned(data.value)
  }

  /** The seven day names are distinct, so each default row is labelled with its own day. */
  lemma DayNamesDistinct(i: int, j: int)
    requires 0 <= i < 7 && 0 <= j < 7 && i != j
    ensures GetDayName(i) != GetDayName(j)
  {
  }
}
