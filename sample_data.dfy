/** The ten records the demo screen transforms, and what the transform and
    the mean make of them. */
module SampleData {
  import opened Options
  import opened JsNumber
  import opened Records
  import opened DataTransform

  const OriginalData: seq<OriginalDataItem> := [
    OriginalDataItem("Stepha", Some("Quiddinton"), "squiddinton0", "481", "Female", "07.10.1996"),
    OriginalDataItem("Niki", Some("Benedick"), "nbenedick1", "578", "Female", "24.09.1996"),
    OriginalDataItem("Kenneth", None, "kbeavers2", "463", "Male", "18.10.1990"),
    OriginalDataItem("Nissy", Some("Juggins"), "njuggins3", "436", "Female", "09.01.2000"),
    OriginalDataItem("Jaymee", Some("Dotterill"), "jdotterill4", "687", "Female", "13.02.2000"),
    OriginalDataItem("Shell", Some("Shawe"), "sshawe5", "631", "Female", "08.06.1999"),
    OriginalDataItem("Ham", None, "hruslinge6", "659", "Male", "01.03.1991"),
    OriginalDataItem("Gabriell", Some("Lukins"), "glukins7", "500", "Female", "25.11.1998"),
    OriginalDataItem("Roddy", Some("Whates"), "rwhates8", "609", "Male", "06.03.1993"),
    OriginalDataItem("Iris", None, "ibolens9", "418", "Female", "13.04.1993")
  ]

  /** A three-digit power reads as hundreds, tens and units. */
  lemma ParseThreeDigits(s: string)
    requires |s| == 3 && AllDecimalDigits(s)
    ensures ParseInt(s, 10) == Some(100 * DigitValue(s[0]) + 10 * DigitValue(s[1]) + DigitValue(s[2]))
  {
    ParseIntOfDigits(s, 10);
    var t, u := s[1..], s[2..];
    assert t[0] == s[1] && t[1..] == u && u[0] == s[2] && u[1..] == [];
    assert Pow(10, 2) == 100 && Pow(10, 1) == 10 && Pow(10, 0) == 1;
    assert PositionalValue(u, 10) == DigitValue(s[2]);
    assert PositionalValue(t, 10) == DigitValue(s[1]) * 10 + DigitValue(s[2]);
    assert PositionalValue(s, 10) == DigitValue(s[0]) * 100 + PositionalValue(t, 10);
  }

  /** The powers of the sample records, as numbers. */
  const SamplePowerValues: seq<int> := [481, 578, 463, 436, 687, 631, 659, 500, 609, 418]

  /** The power strings of the sample records parse to the numbers they
      spell, one record at a time. Each string literal handed to `ParseInt`
      makes the solver evaluate the parse in full, and several in one proof
      grow expensive quickly, so every record gets its own small lemma and
      `SamplePowerAt` only dispatches to them. */
  lemma SamplePower0()
    ensures ParseInt(OriginalData[0].power, 10) == Some(481)
  {
    ParseThreeDigits("481");
  }

  lemma SamplePower1()
    ensures ParseInt(OriginalData[1].power, 10) == Some(578)
  {
    ParseThreeDigits("578");
  }

  lemma SamplePower2()
    ensures ParseInt(OriginalData[2].power, 10) == Some(463)
  {
    ParseThreeDigits("463");
  }

  lemma SamplePower3()
    ensures ParseInt(OriginalData[3].power, 10) == Some(436)
  {
    ParseThreeDigits("436");
  }

  lemma SamplePower4()
    ensures ParseInt(OriginalData[4].power, 10) == Some(687)
  {
    ParseThreeDigits("687");
  }

  lemma SamplePower5()
    ensures ParseInt(OriginalData[5].power, 10) == Some(631)
  {
    ParseThreeDigits("631");
  }

  lemma SamplePower6()
    ensures ParseInt(OriginalData[6].power, 10) == Some(659)
  {
    ParseThreeDigits("659");
  }

  lemma SamplePower7()
    ensures ParseInt(OriginalData[7].power, 10) == Some(500)
  {
    ParseThreeDigits("500");
  }

  lemma SamplePower8()
    ensures ParseInt(OriginalData[8].power, 10) == Some(609)
  {
    ParseThreeDigits("609");
  }

  lemma SamplePower9()
    ensures ParseInt(OriginalData[9].power, 10) == Some(418)
  {
    ParseThreeDigits("418");
  }

  lemma SamplePowerAt(i: nat)
    requires i < |OriginalData|
    ensures ParseInt(OriginalData[i].power, 10) == Some(SamplePowerValues[i])
  {
    if i == 0 {
      SamplePower0();
    } else if i == 1 {
      SamplePower1();
    } else if i == 2 {
      SamplePower2();
    } else if i == 3 {
      SamplePower3();
    } else if i == 4 {
      SamplePower4();
    } else if i == 5 {
      SamplePower5();
    } else if i == 6 {
      SamplePower6();
    } else if i == 7 {
      SamplePower7();
    } else if i == 8 {
      SamplePower8();
    } else {
      SamplePower9();
    }
  }

  /** Every sample power parses to the matching entry of `SamplePowerValues`. */
  lemma SamplePowersParse()
    ensures forall i :: 0 <= i < |OriginalData| ==> ParseInt(OriginalData[i].power, 10) == Some(SamplePowerValues[i])
  {
    forall i | 0 <= i < |OriginalData|
      ensures ParseInt(OriginalData[i].power, 10) == Some(SamplePowerValues[i])
    {
      SamplePowerAt(i);
    }
  }

  /** The ten sample powers add up to 5462. */
  lemma SampleTotal()
    ensures Sum(SamplePowerValues) == 5462
  {
  }

  /** The demo screen's mean of the ten sample powers: 5462 / 10 = 546.2. */
  lemma SampleMean()
    ensures CalculateArithmeticMean(OriginalData) == Some(546.2)
  {
    SamplePowersParse();
    MeanOfPowers(OriginalData, SamplePowerValues);
    SampleTotal();
    assert Quotient(5462, 10) == 546.2;
  }

  /** `07.10.1996` is three digit fields joined by dots. */
  lemma FirstBirthDateText()
    ensures "07.10.1996" == "07" + "." + "10" + "." + "1996"
  {
  }

  /** The fields of `07.10.1996` read as 7, 10 and 1996. */
  lemma FirstBirthDateFields()
    ensures PositionalValue("07", 10) == 7
    ensures PositionalValue("10", 10) == 10
    ensures PositionalValue("1996", 10) == 1996
  {
  }

  /** The first record's birth date, `07.10.1996`, becomes (1996, 10 - 1, 7). */
  lemma FirstBirthDate()
    ensures ParseBirthDate("07.10.1996") == Date(1996, 9, 7)
  {
    FirstBirthDateText();
    BirthDateFromFields("07", "10", "1996");
    FirstBirthDateFields();
  }

  /** The first record's `birth_date` field. */
  lemma FirstRecordBirthDate()
    ensures ParseBirthDate(OriginalData[0].birthDate) == Date(1996, 9, 7)
  {
    assert OriginalData[0].birthDate == "07.10.1996";
    FirstBirthDate();
  }

  /** The first record has a last name, so its names are joined by a space. */
  lemma FirstRecordFullName()
    ensures FullName(OriginalData[0].firstName, OriginalData[0].lastName) == "Stepha Quiddinton"
  {
  }

  /** The first record: both names joined by a space, the username copied,
      the power read in base 10, the date built from (1996, 10 - 1, 7). */
  lemma SampleFirstRecord()
    ensures TransformItem(OriginalData[0])
      == TransformedDataItem("Stepha Quiddinton", "squiddinton0", Some(481), Date(1996, 9, 7))
  {
    SamplePower0();
    FirstRecordBirthDate();
    FirstRecordFullName();
  }

  /** A record without a last name keeps its first name alone. */
  lemma SampleRecordWithoutLastName()
    ensures TransformItem(OriginalData[2]).fullName == "Kenneth"
  {
  }
}
