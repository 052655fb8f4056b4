/** The record transform: `transformData` maps each raw record to a
    display-ready one, and `calculateArithmeticMean` averages the parsed
    `power` fields. Both are pure; a Dafny function cannot change its input
    and gives equal results on equal inputs, so the determinism and
    non-mutation the transform promises hold by construction. */
module DataTransform {
  import opened Options
  import opened JsString
  import opened JsNumber
  import opened Records

  // ---------------------------------------------------------------------------
  // fullName

  /** JavaScript truthiness of the optional last name: present and non-empty. */
  predicate HasLastName(lastName: Option<string>) {
    lastName.Some? && lastName.value != ""
  }

  /** The first name, followed by a space and the last name when there is a
      (non-empty) last name. */
  function FullName(firstName: string, lastName: Option<string>): (fullName: string)
    ensures |firstName| <= |fullName| && fullName[..|firstName|] == firstName
    ensures fullName == firstName <==> !HasLastName(lastName)
  {
    if HasLastName(lastName) then firstName + " " + lastName.value else firstName
  }

  /** When the first name holds no space, the full name splits back at its
      spaces into the first name followed by the words of the last name; with
      no last name it is the first name alone, with no separator added. */
  lemma {:induction false} FullNameSplitsBack(firstName: string, lastName: Option<string>)
    requires ' ' !in firstName
    ensures var words := Split(FullName(firstName, lastName), ' ');
      && words[0] == firstName
      && (HasLastName(lastName) ==> Join(words[1..], ' ') == lastName.value)
      && (!HasLastName(lastName) ==> words == [firstName])
  {
    if HasLastName(lastName) {
      SplitAfterPiece(firstName, lastName.value, ' ');
      assert firstName + " " + lastName.value == firstName + [' '] + lastName.value;
    } else {
      SplitWithoutSeparator(firstName, ' ');
    }
  }

  // ---------------------------------------------------------------------------
  // birthDate

  /** `Number.parseInt` of the `i`-th field of a split, radix omitted; a field
      past the end is `undefined`, which parses to `NaN`. */
  function ParseField(parts: seq<string>, i: nat): Option<int> {
    if i < |parts| then ParseInt(parts[i], 0) else None
  }

  /** `month - 1`, where `NaN - 1` is `NaN`. */
  function PreviousMonth(month: Option<int>): Option<int> {
    match month
    case None => None
    case Some(m) => Some(m - 1)
  }

  /** `new Date(year, monthIndex, day)`: any `NaN` argument gives an invalid date. */
  function NewDate(year: Option<int>, monthIndex: Option<int>, day: Option<int>): (date: CalendarDate)
    ensures date.Date? <==> year.Some? && monthIndex.Some? && day.Some?
    ensures date.Date? ==>
      date.year == year.value && date.monthIndex == monthIndex.value && date.day == day.value
  {
    if year.Some? && monthIndex.Some? && day.Some? then Date(year.value, monthIndex.value, day.value)
    else InvalidDate
  }

  /** `DD.MM.YYYY` to a date: split on `.`, take the fields by position (day,
      month, year) and hand `(year, month - 1, day)` to the date constructor.
      Text with fewer than two dots lacks a year field, so the date is invalid. */
  function ParseBirthDate(birthDate: string): (date: CalendarDate)
    ensures Occurrences(birthDate, '.') < 2 ==> date == InvalidDate
  {
    DateOfFields(Split(birthDate, '.'))
  }

  /** `const [day, month, year] = parts` and the date built from them: valid
      exactly when the three fields are there and parse, and then made of
      their values with the month moved down by one. */
  function DateOfFields(parts: seq<string>): (date: CalendarDate)
    ensures date.Date? <==>
      |parts| >= 3 && ParseInt(parts[0], 0).Some? && ParseInt(parts[1], 0).Some? && ParseInt(parts[2], 0).Some?
    ensures date.Date? ==>
      && |parts| >= 3
      && date.day == ParseInt(parts[0], 0).value
      && date.monthIndex == ParseInt(parts[1], 0).value - 1
      && date.year == ParseInt(parts[2], 0).value
  {
    NewDate(ParseField(parts, 2), PreviousMonth(ParseField(parts, 1)), ParseField(parts, 0))
  }

  /** Three digit fields separated by dots become (year, month - 1, day),
      with no check that they name a real calendar day. */
  lemma BirthDateFromFields(dd: string, mm: string, yyyy: string)
    requires |dd| >= 1 && AllDecimalDigits(dd)
    requires |mm| >= 1 && AllDecimalDigits(mm)
    requires |yyyy| >= 1 && AllDecimalDigits(yyyy)
    ensures ParseBirthDate(dd + "." + mm + "." + yyyy)
         == Date(PositionalValue(yyyy, 10), PositionalValue(mm, 10) - 1, PositionalValue(dd, 10))
  {
    assert '.' !in dd && '.' !in mm && '.' !in yyyy;
    SplitThreeFields(dd, mm, yyyy);
    DateOfDigitFields(dd, mm, yyyy);
  }

  /** The date of three digit fields, taken as day, month and year. */
  lemma DateOfDigitFields(dd: string, mm: string, yyyy: string)
    requires |dd| >= 1 && AllDecimalDigits(dd)
    requires |mm| >= 1 && AllDecimalDigits(mm)
    requires |yyyy| >= 1 && AllDecimalDigits(yyyy)
    ensures DateOfFields([dd, mm, yyyy])
         == Date(PositionalValue(yyyy, 10), PositionalValue(mm, 10) - 1, PositionalValue(dd, 10))
  {
    ParseIntOfDigits(dd, 0);
    ParseIntOfDigits(mm, 0);
    ParseIntOfDigits(yyyy, 0);
  }

  /** Splitting `a.b.c` gives exactly its three fields. */
  lemma SplitThreeFields(a: string, b: string, c: string)
    requires '.' !in a && '.' !in b && '.' !in c
    ensures Split(a + "." + b + "." + c, '.') == [a, b, c]
  {
    SplitJoin([a, b, c], '.');
    assert [a, b, c][1..] == [b, c] && [b, c][1..] == [c];
    assert Join([a, b, c], '.') == a + "." + b + "." + c;
  }

  /** Fields after the third are ignored. */
  lemma BirthDateIgnoresExtraFields(dd: string, mm: string, yyyy: string, rest: string)
    requires '.' !in dd && '.' !in mm && '.' !in yyyy
    ensures ParseBirthDate(dd + "." + mm + "." + yyyy + "." + rest) == ParseBirthDate(dd + "." + mm + "." + yyyy)
  {
    var long := dd + "." + mm + "." + yyyy + "." + rest;
    assert long == dd + ['.'] + (mm + ['.'] + (yyyy + ['.'] + rest));
    SplitThreeFields(dd, mm, yyyy);
    SplitMoreFields(dd, mm, yyyy, rest);
    DateOfLeadingFields(Split(long, '.'), [dd, mm, yyyy]);
  }

  /** Splitting `a.b.c.rest` gives `a`, `b`, `c` and then the fields of `rest`. */
  lemma SplitMoreFields(a: string, b: string, c: string, rest: string)
    requires '.' !in a && '.' !in b && '.' !in c
    ensures Split(a + ['.'] + (b + ['.'] + (c + ['.'] + rest)), '.') == [a, b, c] + Split(rest, '.')
  {
    var y := c + ['.'] + rest;
    var x := b + ['.'] + y;
    SplitAfterPiece(c, rest, '.');
    SplitAfterPiece(b, y, '.');
    SplitAfterPiece(a, x, '.');
    assert [a] + ([b] + ([c] + Split(rest, '.'))) == [a, b, c] + Split(rest, '.');
  }

  /** The date reads only the first three fields. */
  lemma DateOfLeadingFields(parts: seq<string>, fields: seq<string>)
    requires |fields| == 3 && |parts| >= 3 && parts[..3] == fields
    ensures DateOfFields(parts) == DateOfFields(fields)
  {
    assert parts[0] == fields[0] && parts[1] == fields[1] && parts[2] == fields[2];
  }

  // ---------------------------------------------------------------------------
  // transformData

  /** The transform of one record; `gender` is not used. The username is
      copied, the full name is the first name alone exactly when there is no
      last name, and the date is invalid unless the birth date has two dots. */
  function TransformItem(item: OriginalDataItem): (out: TransformedDataItem)
    ensures out.username == item.username
    ensures out.fullName == item.firstName <==> !HasLastName(item.lastName)
    ensures out.birthDate.Date? ==> Occurrences(item.birthDate, '.') >= 2
  {
    TransformedDataItem(
      FullName(item.firstName, item.lastName),
      item.username,
      ParseInt(item.power, 10),
      ParseBirthDate(item.birthDate))
  }

  /** `data.map(...)`: one output per input, in order. */
  function TransformData(data: seq<OriginalDataItem>): (out: seq<TransformedDataItem>)
    ensures |out| == |data|
    ensures forall i :: 0 <= i < |data| ==> out[i] == TransformItem(data[i])
  {
    seq(|data|, i requires 0 <= i < |data| => TransformItem(data[i]))
  }

  /** The `username` of output `i` is that of input `i`, verbatim; its
      `fullName`, `power` and `birthDate` come from input `i` alone. */
  lemma TransformDataFieldwise(data: seq<OriginalDataItem>, i: nat)
    requires i < |data|
    ensures TransformData(data)[i].username == data[i].username
    ensures TransformData(data)[i].fullName == FullName(data[i].firstName, data[i].lastName)
    ensures TransformData(data)[i].power == ParseInt(data[i].power, 10)
    ensures TransformData(data)[i].birthDate == ParseBirthDate(data[i].birthDate)
  {
  }

  /** `gender` never reaches the output. */
  lemma GenderDropped(item: OriginalDataItem, gender: string)
    ensures TransformItem(item.(gender := gender)) == TransformItem(item)
  {
  }

  /** The transform works element by element: on a concatenation it is the
      concatenation of the transforms. */
  lemma TransformDataConcat(a: seq<OriginalDataItem>, b: seq<OriginalDataItem>)
    ensures TransformData(a + b) == TransformData(a) + TransformData(b)
  {
    var l, r := TransformData(a + b), TransformData(a) + TransformData(b);
    assert |l| == |r|;
    forall i | 0 <= i < |l| ensures l[i] == r[i] {
      if i < |a| { assert (a + b)[i] == a[i]; } else { assert (a + b)[i] == b[i - |a|]; }
    }
  }

  function Reverse<T>(s: seq<T>): (r: seq<T>)
    ensures |r| == |s|
    ensures forall i :: 0 <= i < |s| ==> r[i] == s[|s| - 1 - i]
  {
    if s == [] then [] else Reverse(s[1..]) + [s[0]]
  }

  /** The transform does not reorder: reversing the input reverses the output. */
  lemma TransformDataReverse(data: seq<OriginalDataItem>)
    ensures TransformData(Reverse(data)) == Reverse(TransformData(data))
  {
  }

  // ---------------------------------------------------------------------------
  // calculateArithmeticMean

  /** One step of the `reduce`: `sum + Number.parseInt(item.power, 10)`, where
      `NaN` on either side gives `NaN`. */
  function AddPower(sum: Option<int>, power: Option<int>): (next: Option<int>)
    ensures next.Some? <==> sum.Some? && power.Some?
    ensures next.Some? ==> next.value == sum.value + power.value
  {
    if sum.Some? && power.Some? then Some(sum.value + power.value) else None
  }

  /** `data.reduce(..., acc)`: the fold from left to right. A `NaN` start
      stays `NaN`, whatever the records. */
  function SumPowers(acc: Option<int>, data: seq<OriginalDataItem>): (total: Option<int>)
    ensures acc == None ==> total == None
    decreases |data|
  {
    if data == [] then acc else SumPowers(AddPower(acc, ParseInt(data[0].power, 10)), data[1..])
  }

  /** `calculateArithmeticMean`: 0 for no records, otherwise the total of the
      parsed powers divided once by the number of records; `None` stands for
      the `NaN` a power that does not parse brings in. */
  function CalculateArithmeticMean(data: seq<OriginalDataItem>): (mean: Option<real>)
    ensures |data| == 0 ==> mean == Some(0.0)
  {
    if |data| == 0 then Some(0.0)
    else
      match SumPowers(Some(0), data)
      case None => None
      case Some(total) => Some(Quotient(total, |data|))
  }

  /** `total / count` in exact arithmetic. */
  function Quotient(total: int, count: nat): real
    requires count > 0
  {
    total as real / count as real
  }

  /** The parsed powers of the records, in order. */
  function ParsedPowers(data: seq<OriginalDataItem>): (powers: seq<Option<int>>)
    ensures |powers| == |data|
  {
    if data == [] then [] else [ParseInt(data[0].power, 10)] + ParsedPowers(data[1..])
  }

  /** The `i`-th parsed power is the parse of the `i`-th record's power. */
  lemma {:induction false} ParsedPowersAt(data: seq<OriginalDataItem>)
    ensures forall i :: 0 <= i < |data| ==> ParsedPowers(data)[i] == ParseInt(data[i].power, 10)
  {
    if data != [] {
      ParsedPowersAt(data[1..]);
      forall i | 1 <= i < |data|
        ensures ParsedPowers(data)[i] == ParseInt(data[i].power, 10)
      {
        assert data[1..][i - 1] == data[i];
      }
    }
  }

  /** The parsed powers are the `power` fields of the transformed records. */
  lemma ParsedPowersAreTransformedPowers(data: seq<OriginalDataItem>)
    ensures forall i :: 0 <= i < |data| ==> ParsedPowers(data)[i] == TransformData(data)[i].power
  {
    ParsedPowersAt(data);
  }

  /** The values of a sequence of options when none of them is `None`. */
  function AllValues(ps: seq<Option<int>>): (values: Option<seq<int>>)
    ensures values.Some? <==> forall i :: 0 <= i < |ps| ==> ps[i].Some?
    ensures values.Some? ==> |values.value| == |ps|
    ensures values.Some? ==> forall i :: 0 <= i < |ps| ==> ps[i] == Some(values.value[i])
  {
    if ps == [] then Some([])
    else
      var rest := AllValues(ps[1..]);
      if ps[0].Some? && rest.Some? then Some([ps[0].value] + rest.value)
      else
        assert rest.None? ==> exists i :: 0 <= i < |ps[1..]| && ps[1..][i].None?;
        None
  }

  function Sum(xs: seq<int>): int {
    if xs == [] then 0 else xs[0] + Sum(xs[1..])
  }

  /** The same left fold over already parsed powers. */
  function FoldPowers(acc: Option<int>, ps: seq<Option<int>>): Option<int>
    decreases |ps|
  {
    if ps == [] then acc else FoldPowers(AddPower(acc, ps[0]), ps[1..])
  }

  /** Folding over the records is folding over their parsed powers. */
  lemma {:induction false} SumPowersFoldsParsedPowers(acc: Option<int>, data: seq<OriginalDataItem>)
    ensures SumPowers(acc, data) == FoldPowers(acc, ParsedPowers(data))
    decreases |data|
  {
    if data != [] {
      var p := ParseInt(data[0].power, 10);
      var ps := ParsedPowers(data);
      assert ps[0] == p && ps[1..] == ParsedPowers(data[1..]);
      SumPowersFoldsParsedPowers(AddPower(acc, p), data[1..]);
    }
  }

  /** Once the running sum is `NaN` it stays `NaN`. */
  lemma {:induction false} FoldPowersOfNaN(ps: seq<Option<int>>)
    ensures FoldPowers(None, ps) == None
  {
    if ps != [] {
      FoldPowersOfNaN(ps[1..]);
    }
  }

  /** The fold is the sum of the values, and `NaN` as soon as any one of them
      is `NaN`. */
  lemma {:induction false} FoldPowersIsSum(acc: int, ps: seq<Option<int>>)
    ensures var values := AllValues(ps);
      FoldPowers(Some(acc), ps) == if values.Some? then Some(acc + Sum(values.value)) else None
    decreases |ps|
  {
    if ps != [] {
      var rest := AllValues(ps[1..]);
      if ps[0].None? {
        FoldPowersOfNaN(ps[1..]);
      } else {
        FoldPowersIsSum(acc + ps[0].value, ps[1..]);
        if rest.Some? {
          var vs := [ps[0].value] + rest.value;
          assert vs[0] == ps[0].value && vs[1..] == rest.value;
        }
      }
    }
  }

  /** The `reduce` over the records is the sum of their parsed powers, and
      `NaN` as soon as any one of them is `NaN`. */
  lemma SumPowersIsSum(acc: int, data: seq<OriginalDataItem>)
    ensures var values := AllValues(ParsedPowers(data));
      SumPowers(Some(acc), data) == if values.Some? then Some(acc + Sum(values.value)) else None
  {
    SumPowersFoldsParsedPowers(Some(acc), data);
    FoldPowersIsSum(acc, ParsedPowers(data));
  }

  /** On records whose powers all parse, the mean is their sum over their
      count, divided once; when some power is `NaN`, so is the mean. */
  lemma MeanIsTotalOverCount(data: seq<OriginalDataItem>)
    requires |data| > 0
    ensures var values := AllValues(ParsedPowers(data));
      CalculateArithmeticMean(data)
      == if values.Some? then Some(Quotient(Sum(values.value), |data|)) else None
  {
    var total, values := SumPowers(Some(0), data), AllValues(ParsedPowers(data));
    SumPowersIsSum(0, data);
    if values.Some? {
      assert total == Some(Sum(values.value));
      assert CalculateArithmeticMean(data) == Some(Quotient(total.value, |data|));
    } else {
      assert total == None;
    }
  }

  /** When every power parses to the matching entry of `values`, the mean is
      the sum of `values` divided once by the count. */
  lemma MeanOfPowers(data: seq<OriginalDataItem>, values: seq<int>)
    requires |data| == |values| > 0
    requires forall i :: 0 <= i < |data| ==> ParseInt(data[i].power, 10) == Some(values[i])
    ensures CalculateArithmeticMean(data) == Some(Quotient(Sum(values), |values|))
  {
    var ps := ParsedPowers(data);
    ParsedPowersAt(data);
    assert AllValues(ps).Some?;
    assert AllValues(ps).value == values;
    MeanIsTotalOverCount(data);
  }

  /** Bounds on a sum from bounds on its terms. */
  lemma {:induction false} SumBounds(xs: seq<int>, lo: int, hi: int)
    requires forall i :: 0 <= i < |xs| ==> lo <= xs[i] <= hi
    ensures |xs| * lo <= Sum(xs) <= |xs| * hi
  {
    if xs != [] {
      SumBounds(xs[1..], lo, hi);
      assert |xs| * lo == lo + (|xs| - 1) * lo;
      assert |xs| * hi == hi + (|xs| - 1) * hi;
    }
  }

  /** The mean lies between any lower and upper bound of the powers. */
  lemma MeanWithinBounds(data: seq<OriginalDataItem>, lo: int, hi: int)
    requires |data| > 0
    requires forall i :: 0 <= i < |data| ==>
      var p := ParsedPowers(data)[i]; p.Some? && lo <= p.value <= hi
    ensures CalculateArithmeticMean(data).Some?
    ensures lo as real <= CalculateArithmeticMean(data).value <= hi as real
  {
    var ps := ParsedPowers(data);
    var values := AllValues(ps);
    assert values.Some?;
    var vs := values.value;
    assert forall i :: 0 <= i < |vs| ==> lo <= vs[i] <= hi by {
      forall i | 0 <= i < |vs| ensures lo <= vs[i] <= hi {
        assert ps[i] == Some(vs[i]);
      }
    }
    SumBounds(vs, lo, hi);
    MeanIsTotalOverCount(data);
    assert CalculateArithmeticMean(data) == Some(Quotient(Sum(vs), |data|));
    QuotientBounds(Sum(vs), |data|, lo, hi);
  }

  /** Dividing by the count keeps a total of `count` terms within their bounds. */
  lemma QuotientBounds(total: int, count: nat, lo: int, hi: int)
    requires count > 0 && count * lo <= total <= count * hi
    ensures lo as real <= Quotient(total, count) <= hi as real
  {
    var n := count as real;
    assert n * lo as real <= total as real <= n * hi as real;
    assert (n * lo as real) / n == lo as real;
    assert (n * hi as real) / n == hi as real;
  }
}
