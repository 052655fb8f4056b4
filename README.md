# Record transform, modelled in Dafny

This project models the transform engine of a small mobile app. The engine
lives in `app/utils/dataTransform.ts` and has two pure functions over an
array of raw person records (`OriginalDataItem`, `app/types.ts:32-39`):

- `transformData` maps every record to a display-ready `TransformedDataItem`
  (`app/types.ts:41-46`). It joins `first_name` and an optional `last_name`
  into `fullName`, copies `username`, reads `power` with
  `Number.parseInt(power, 10)` and turns `birth_date` (`DD.MM.YYYY`) into
  `new Date(year, month - 1, day)` by splitting on `.`.
- `calculateArithmeticMean` returns 0 for an empty array. Otherwise it sums
  `Number.parseInt(power, 10)` over the records in one `reduce` and divides
  once by the count.

Modules:

- `Options` (`options.dfy`): the `Option` type. For numbers, `None` stands
  for JavaScript's `NaN`; for the optional `last_name` of a record, it stands
  for an absent property.
- `JsString` (`js_string.dfy`):
  - the white space `Number.parseInt` skips;
  - `String.prototype.split` with a one-character separator, and its inverse
    `Join`.
- `JsNumber` (`js_number.dfy`): `Number.parseInt` after the ECMAScript
  algorithm. It:
  - trims leading white space and reads an optional sign;
  - handles the radix: when omitted (0 here) it means 10 and a `0x`/`0X`
    prefix switches to 16; 16 also strips the prefix; any other radix outside
    2..36 gives `NaN`;
  - reads the longest run of digits and gives `NaN` when there is none.

  Its reference is a positional value, `Σ digit × radix^place`.
- `Records` (`records.dfy`): the two record shapes. The date is the raw
  `(year, monthIndex, day)` triple handed to the `Date` constructor, or
  `InvalidDate` when any argument is `NaN`.
- `DataTransform` (`data_transform.dfy`): `TransformData`,
  `CalculateArithmeticMean` and their properties. The mean is an exact `real`.
  It is `None` when any power is `NaN`, because `NaN` absorbs the sum.
- `SampleData` (`sample_data.dfy`): the ten records of the demo screen
  (`app/(tabs)/data-transform.tsx:12-90`). It holds what the engine makes of
  them. Their mean is 5462 / 10 = 546.2.

Three behaviours of the code a reader might not expect:

- A `last_name` that is present but empty counts as absent. The code tests
  JavaScript truthiness, so `fullName` is then the first name alone.
- A `birth_date` with more than three dot-separated fields does not give an
  unexpected date. The destructuring `[day, month, year]` reads only the first
  three fields and ignores the rest (`BirthDateIgnoresExtraFields`).
- The date fields are parsed with the radix omitted, unlike `power`. So a
  `0x` field reads as hexadecimal (`ParseIntHexPrefix`).

## Model

| member | source | states |
|---|---|---|
| `DataTransform.FullName` | app/utils/dataTransform.ts:11 | the full name starts with `first_name`; it equals `first_name` exactly if and only if `last_name` is absent or empty |
| `DataTransform.FullNameSplitsBack` | app/utils/dataTransform.ts:11 | for a first name without spaces, splitting the full name on a space gives back `[first_name]` when there is no last name; otherwise the first piece is `first_name` and the remaining pieces join back to `last_name` |
| `DataTransform.TransformData` | app/utils/dataTransform.ts:8-27 | one output per input, in the same order; output `i` is the transform of input `i` alone |
| `DataTransform.TransformDataFieldwise` | app/utils/dataTransform.ts:20-25 | output `i` has the full name of input `i`, its username copied verbatim, its power parsed in base 10 and its date built from its `birth_date` |
| `DataTransform.GenderDropped` | app/utils/dataTransform.ts:20-25 | `gender` does not reach the output: records that differ only in gender transform identically |
| `DataTransform.TransformDataConcat` | app/utils/dataTransform.ts:9 | the transform of a concatenation is the concatenation of the transforms, so there is no dependency between elements |
| `DataTransform.TransformDataReverse` | app/utils/dataTransform.ts:9 | the transform commutes with reversing the input order |
| `DataTransform.BirthDateFromFields` | app/utils/dataTransform.ts:17-18 | `dd.mm.yyyy` made of digit fields gives the date (yyyy, mm − 1, dd) as the fields' base-10 values, with no calendar check |
| `DataTransform.DateOfDigitFields` | app/utils/dataTransform.ts:18 | three digit fields taken as day, month and year give (year, month − 1, day) |
| `DataTransform.SplitThreeFields` | app/utils/dataTransform.ts:17 | splitting `a.b.c` on `.` gives exactly `[a, b, c]` when no field holds a dot |
| `DataTransform.SplitMoreFields` | app/utils/dataTransform.ts:17 | splitting `a.b.c.rest` gives `a`, `b`, `c` and then the fields of `rest` |
| `DataTransform.DateOfLeadingFields` | app/utils/dataTransform.ts:17-18 | the date depends only on the first three fields of the split |
| `DataTransform.BirthDateIgnoresExtraFields` | app/utils/dataTransform.ts:17-18 | fields after the third do not change the date |
| `DataTransform.NewDate` | app/utils/dataTransform.ts:18 | `new Date(year, monthIndex, day)`: the date is valid exactly when no argument is `NaN`, and then holds the three arguments unchanged |
| `DataTransform.DateOfFields` | app/utils/dataTransform.ts:17-18 | the destructuring `[day, month, year]` and the constructor call: valid exactly when there are three fields and each parses (radix omitted), and then day, month − 1 and year are their values |
| `DataTransform.ParseBirthDate` | app/utils/dataTransform.ts:17-18 | split on `.` then `DateOfFields`; text with fewer than two dots leaves `year` undefined, so the date is invalid |
| `DataTransform.TransformItem` | app/utils/dataTransform.ts:10-25 | the `map` callback: the username is copied, the full name is the first name alone exactly when the last name is absent or empty, and the date is invalid unless the birth date has two dots; `TransformDataFieldwise` gives every field |
| `DataTransform.AddPower` | app/utils/dataTransform.ts:41 | one step of the `reduce`: a number exactly when both the running sum and the parsed power are numbers, and then their sum; `NaN` otherwise |
| `DataTransform.SumPowers` | app/utils/dataTransform.ts:40-42 | the `reduce` from `acc`: a `NaN` start stays `NaN`; `SumPowersIsSum` gives its value |
| `DataTransform.CalculateArithmeticMean` | app/utils/dataTransform.ts:34-48 | an empty array has mean exactly 0; `MeanIsTotalOverCount` gives the non-empty case |
| `DataTransform.ParsedPowersAt` | app/utils/dataTransform.ts:41 | the parsed powers are `Number.parseInt(power, 10)` of each record, in order |
| `DataTransform.ParsedPowersAreTransformedPowers` | app/utils/dataTransform.ts:14 | the mean reads the same parsed powers that the transform puts in its output |
| `DataTransform.AllValues` | app/utils/dataTransform.ts:40-42 | the powers have numeric values if and only if every parse succeeded; the values match the parses position by position |
| `DataTransform.SumPowersFoldsParsedPowers` | app/utils/dataTransform.ts:40-42 | the `reduce` over records is the same left fold over their parsed powers |
| `DataTransform.FoldPowersOfNaN` | app/utils/dataTransform.ts:41 | once the running sum is `NaN`, it stays `NaN` |
| `DataTransform.FoldPowersIsSum` | app/utils/dataTransform.ts:40-42 | the fold from a start value is that value plus the sum of the powers when all parse, and `NaN` otherwise |
| `DataTransform.SumPowersIsSum` | app/utils/dataTransform.ts:40-42 | the `reduce` from 0 is the sum of the parsed powers, or `NaN` when any power is `NaN` |
| `DataTransform.MeanIsTotalOverCount` | app/utils/dataTransform.ts:40-45 | for a non-empty array, the mean is the sum of the parsed powers divided once by the count, and `NaN` when any power is `NaN` |
| `DataTransform.MeanOfPowers` | app/utils/dataTransform.ts:40-45 | when every power parses to the matching given value, the mean is the sum of those values over their count |
| `DataTransform.SumBounds` | app/utils/dataTransform.ts:40-42 | arithmetic helper for `MeanWithinBounds`: a sum of `n` terms between `lo` and `hi` lies between `n·lo` and `n·hi` |
| `DataTransform.QuotientBounds` | app/utils/dataTransform.ts:45 | arithmetic helper for `MeanWithinBounds`: dividing such a total by the count lands between `lo` and `hi` |
| `DataTransform.MeanWithinBounds` | app/utils/dataTransform.ts:34-48 | when every power parses to a value between `lo` and `hi`, the mean is a number between `lo` and `hi` |
| `JsString.TrimStartRemovesWhiteSpace` | app/utils/dataTransform.ts:14 | trimming removes a prefix made only of white space, and what is left does not start with white space |
| `JsString.TrimStartSkipsWhiteSpace` | app/utils/dataTransform.ts:14 | leading white space does not change the trimmed string |
| `JsString.Split` | app/utils/dataTransform.ts:17 | the split has one more piece than the separator occurs; no piece holds the separator; joining the pieces gives back the string |
| `JsString.SplitAfterPiece` | app/utils/dataTransform.ts:17 | a separator-free piece followed by the separator is split off as the first piece |
| `JsString.SplitWithoutSeparator` | app/utils/dataTransform.ts:17 | a string without the separator splits into itself alone |
| `JsString.SplitJoin` | app/utils/dataTransform.ts:17 | splitting undoes joining for pieces free of the separator |
| `JsNumber.DigitValue` | app/utils/dataTransform.ts:14 | a character's digit value is at most 36, and below 10 exactly for `0`..`9` |
| `JsNumber.DigitPrefixIsLongest` | app/utils/dataTransform.ts:14 | `parseInt` reads a run of digits of the radix that is followed by a non-digit or by the end |
| `JsNumber.DigitPrefixLengthOf` | app/utils/dataTransform.ts:14 | any such run followed by a non-digit or the end is exactly the run that is read |
| `JsNumber.PositionalValueSnoc` | app/utils/dataTransform.ts:14 | appending a digit multiplies the positional value by the radix and adds the digit |
| `JsNumber.Distribute` | app/utils/dataTransform.ts:14 | arithmetic helper for `PositionalValueSnoc`: `d·(r·p) + rest·r = (d·p + rest)·r` |
| `JsNumber.DigitsValueIsPositional` | app/utils/dataTransform.ts:14 | the digit-by-digit accumulation equals the positional value `Σ digit × radix^place` |
| `JsNumber.DigitsValueOfShowDecimal` | app/utils/dataTransform.ts:14 | accumulating the decimal digits of `n` gives back `n` |
| `JsNumber.ParseInt` | app/utils/dataTransform.ts:14 | a given radix outside 2..36 gives `NaN` |
| `JsNumber.ParseIntUnsigned` | app/utils/dataTransform.ts:14 | text without leading white space, sign or hex prefix is read as its digit prefix |
| `JsNumber.ParseIntNegated` | app/utils/dataTransform.ts:14 | a leading `-` negates the value read |
| `JsNumber.ReadAllDigits` | app/utils/dataTransform.ts:14 | text made only of decimal digits is read in full |
| `JsNumber.ParseIntOfDigits` | app/utils/dataTransform.ts:14 | a non-empty string of decimal digits parses, in base 10 or with the radix omitted, to its positional value |
| `JsNumber.ShowDecimal` | app/utils/dataTransform.ts:14 | printing helper, the inverse used by `ParseIntShowDecimal`: decimal text is non-empty, all digits, and has no leading zero |
| `JsNumber.ShowDecimalReads` | app/utils/dataTransform.ts:14 | reading the decimal text of `n` gives `n` |
| `JsNumber.ParseIntShowDecimal` | app/utils/dataTransform.ts:14 | parsing the decimal text of `n` gives `n`, and with a leading `-` gives `−n` |
| `JsNumber.ParseIntStopsAtNonDigit` | app/utils/dataTransform.ts:14 | parsing stops at the first non-digit: trailing text after the digits is ignored |
| `JsNumber.ParseIntSkipsWhiteSpace` | app/utils/dataTransform.ts:14 | leading white space does not change the result |
| `JsNumber.ParseIntWithoutDigits` | app/utils/dataTransform.ts:14 | text without any decimal digit parses to `NaN` |
| `JsNumber.ParseIntHexPrefix` | app/utils/dataTransform.ts:18 | with the radix omitted, `0x1A` reads as hexadecimal 26 |
| `JsNumber.ParseIntDecimalIgnoresHexPrefix` | app/utils/dataTransform.ts:14 | in base 10, `0x1A` reads only its leading `0` |
| `SampleData.ParseThreeDigits` | app/utils/dataTransform.ts:14 | a three-digit power reads as hundreds, tens and units |
| `SampleData.SamplePowerAt` | app/utils/dataTransform.ts:41 | each demo-screen power string parses to the number it spells |
| `SampleData.SamplePowersParse` | app/utils/dataTransform.ts:40-42 | all ten demo-screen powers parse to 481, 578, 463, 436, 687, 631, 659, 500, 609, 418 |
| `SampleData.SampleTotal` | app/utils/dataTransform.ts:40-42 | the demo-screen powers add up to 5462 |
| `SampleData.SampleMean` | app/utils/dataTransform.ts:34-48 | the mean of the ten demo-screen records is exactly 5462 / 10 = 546.2 |
| `SampleData.FirstBirthDate` | app/utils/dataTransform.ts:17-18 | `07.10.1996` becomes the date (1996, 9, 7) |
| `SampleData.SampleFirstRecord` | app/utils/dataTransform.ts:9-26 | the first demo-screen record becomes `Stepha Quiddinton`, `squiddinton0`, 481, (1996, 9, 7) |
| `SampleData.SampleRecordWithoutLastName` | app/utils/dataTransform.ts:11 | the demo-screen record `Kenneth`, which has no `last_name`, keeps its first name alone |

## Left out

- `demonstrateTransformation` (`app/utils/dataTransform.ts:54-66`) is left out. It only logs, serialises with `JSON.stringify` and rounds with `toFixed`.
- `Date` semantics are left out: rolling over out-of-range components, mapping two-digit years to 19xx, time zones and the epoch value. The model keeps the triple given to the constructor and no calendar check is made, as in the code. JavaScript also gives an Invalid Date when finite components fall outside the time-value range (about ±275760 years from 1970): a year field of `300000` is an Invalid Date there, but `Date(300000, …)` here.
- Floating point is left out. Powers and sums are unbounded integers and the mean is an exact `real`, so rounding above 2^53 and in the division are not modelled. Every `NaN` is `None`. `Number.parseInt` of a digit string longer than about 309 digits gives `Infinity` in JavaScript, which then flows into `power` and into the mean; the model gives the exact integer instead.
- `JsNumber.ParseInt`: `-0` is the integer 0. The radix is a mathematical integer, not the result of `ToInt32` on an arbitrary value.
- Strings are sequences of characters, not UTF-16 code units.
- The screens, the `Post` and `User` shapes, the REST fetches and the layout are left out because they are UI and I/O with no logic.
- `DataTransform.TransformData`: the promises that it is deterministic and leaves its input unchanged are not separate lemmas. They hold by construction, because Dafny functions have no side effects and give equal results on equal inputs.
- `SampleData.SamplePowerAt`: only the first record is transformed in full (`SampleFirstRecord`). For the other nine records the model proves their powers and the mean, not each full output record.
