/** The record shapes the transform reads and writes. */
module Records {
  import opened Options

  /** One raw record of the dataset. `lastName` is an optional property:
      `None` when the record has no `last_name` at all. */
  datatype OriginalDataItem = OriginalDataItem(
    firstName: string,
    lastName: Option<string>,
    username: string,
    power: string,
    gender: string,
    birthDate: string)

  /** What `new Date(year, monthIndex, day)` is handed: the three numbers as
      passed (no calendar normalisation), or `InvalidDate` when any of them
      is `NaN`. */
  datatype CalendarDate = Date(year: int, monthIndex: int, day: int) | InvalidDate

  /** One display-ready record. `power` is `None` where `parseInt` gave `NaN`. */
  datatype TransformedDataItem = TransformedDataItem(
    fullName: string,
    username: string,
    power: Option<int>,
    birthDate: CalendarDate)
}
