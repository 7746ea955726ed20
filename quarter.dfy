/** `_get_quarter`: a `dd/mm/yyyy` date string turned into a quarter label
    `Q<yy><q>`, with `datetime.strptime(s, '%d/%m/%Y')` modelled by the
    patterns Python's `_strptime` uses for the three directives, each `\d`
    read as an ASCII digit. */
module Quarter {
  import opened Wrappers
  import opened Numerals
  import opened Calendar

  /** The first position of c in s. */
  function IndexOf(s: string, c: char): (r: Option<nat>)
    ensures r.Some? ==> r.value < |s| && s[r.value] == c && c !in s[..r.value]
    ensures r.None? ==> c !in s
  {
    if s == [] then None
    else if s[0] == c then Some(0)
    else match IndexOf(s[1..], c)
      case None => None
      case Some(i) =>
        assert s[..i + 1] == [s[0]] + s[1..][..i];
        Some(i + 1)
  }

  /** Splitting `a + "/" + b` at its first '/' gives back a and b. */
  lemma SplitAtSlash(a: string, b: string)
    requires '/' !in a
    ensures IndexOf(a + "/" + b, '/') == Some(|a|)
    ensures (a + "/" + b)[..|a|] == a && (a + "/" + b)[|a| + 1..] == b
  {
    var s := a + "/" + b;
    var r := IndexOf(s, '/');
    assert s[|a|] == '/';
    assert r.Some?;
    assert s[..|a|] == a;
  }

  /** `%d` (`3[01]|[12]\d|0[1-9]|[1-9]| [1-9]`): one or two ASCII digits
      worth 1 to 31, or a space and a digit 1 to 9. */
  predicate DayToken(t: string) {
    || (1 <= |t| <= 2 && AllDigits(t) && 1 <= DigitsValue(t) <= 31)
    || (|t| == 2 && t[0] == ' ' && '1' <= t[1] <= '9')
  }

  function DayValue(t: string): int
    requires DayToken(t)
  {
    if t[0] == ' ' then DigitValue(t[1]) else DigitsValue(t)
  }

  /** `%m` (`1[0-2]|0[1-9]|[1-9]`): one or two ASCII digits worth 1 to 12. */
  predicate MonthToken(t: string) {
    1 <= |t| <= 2 && AllDigits(t) && 1 <= DigitsValue(t) <= 12
  }

  /** `%Y` (`\d\d\d\d`): exactly four ASCII digits. */
  predicate YearToken(t: string) {
    |t| == 4 && AllDigits(t)
  }

  /** `datetime.strptime(s, '%d/%m/%Y')`: the whole string must be the three
      fields joined by '/', and the date must exist (year 0 and 31/02 raise). */
  function ParseDate(s: string): (r: Option<Date>)
    ensures r.Some? ==> ValidDate(r.value)
  {
    match IndexOf(s, '/')
    case None => None
    case Some(i) =>
      var dayText, rest := s[..i], s[i + 1..];
      match IndexOf(rest, '/')
      case None => None
      case Some(j) =>
        var monthText, yearText := rest[..j], rest[j + 1..];
        if DayToken(dayText) && MonthToken(monthText) && YearToken(yearText) then
          var d := Date(DigitsValue(yearText), DigitsValue(monthText), DayValue(dayText));
          if ValidDate(d) then Some(d) else None
        else None
  }

  /** `(month - 1) // 3 + 1`. */
  function QuarterOf(month: int): (q: int)
    requires 1 <= month <= 12
    ensures 1 <= q <= 4
    ensures 3 * q - 2 <= month <= 3 * q
  {
    (month - 1) / 3 + 1
  }

  /** Python's `s[2:]`: the characters from index 2 on, and empty when s is
      shorter than two characters. */
  function DropTwo(s: string): (r: string)
    ensures |r| == if |s| >= 2 then |s| - 2 else 0
    ensures forall k :: 0 <= k < |r| ==> r[k] == s[k + 2]
  {
    if |s| >= 2 then s[2..] else []
  }

  /** `f"Q{str(year)[2:]}{quarter}"`: "Q", the year without its first two
      characters, then the quarter digit; for a four-digit year the middle
      is the year's last two digits, zero-padded. */
  function QuarterLabel(d: Date): (r: string)
    requires ValidDate(d)
    ensures |r| >= 2 && r[0] == 'Q' && r[|r| - 1] == DigitChar(QuarterOf(d.month))
    ensures 1000 <= d.year ==> r == "Q" + TwoDigits(d.year % 100) + [DigitChar(QuarterOf(d.month))]
  {
    assert 1000 <= d.year ==> DropTwo(Numeral(d.year)) == TwoDigits(d.year % 100) by {
      if 1000 <= d.year {
        YearSuffix(d.year);
      }
    }
    "Q" + DropTwo(Numeral(d.year)) + Numeral(QuarterOf(d.month))
  }

  /** `_get_quarter`: `None` for a string that does not parse or names a day
      that does not exist. */
  function GetQuarter(s: string): (r: Option<string>)
    ensures r.Some? <==> ParseDate(s).Some?
    ensures r.Some? ==> |r.value| >= 2 && r.value[0] == 'Q' && '1' <= r.value[|r.value| - 1] <= '4'
    ensures r.Some? ==> r.value[|r.value| - 1] == DigitChar(QuarterOf(ParseDate(s).value.month))
  {
    match ParseDate(s)
    case None => None
    case Some(d) => Some(QuarterLabel(d))
  }

  /** `dd/mm/yyyy` with zero padding. */
  function TwoDigits(n: nat): (r: string)
    requires n < 100
    ensures |r| == 2 && AllDigits(r) && DigitsValue(r) == n
  {
    var r := [DigitChar(n / 10), DigitChar(n % 10)];
    assert r[..1] == [DigitChar(n / 10)] && r[..1][..0] == [];
    assert DigitsValue(r[..1]) == n / 10;
    r
  }

  function FormatDate(d: Date): string
    requires ValidDate(d)
  {
    TwoDigits(d.day) + "/" + TwoDigits(d.month) + "/" + Numeral(d.year)
  }

  /** A string made of three '/'-free fields joined by '/' parses exactly
      when each field matches its directive and the date they name exists. */
  lemma ParseFields(dayText: string, monthText: string, yearText: string)
    requires '/' !in dayText && '/' !in monthText
    ensures ParseDate(dayText + "/" + monthText + "/" + yearText)
            == if DayToken(dayText) && MonthToken(monthText) && YearToken(yearText)
                  && ValidDate(Date(DigitsValue(yearText), DigitsValue(monthText), DayValue(dayText)))
               then Some(Date(DigitsValue(yearText), DigitsValue(monthText), DayValue(dayText)))
               else None
  {
    var rest := monthText + "/" + yearText;
    assert dayText + "/" + monthText + "/" + yearText == dayText + "/" + rest;
    SplitAtSlash(dayText, rest);
    SplitAtSlash(monthText, yearText);
  }

  lemma TwoDigitsNoSlash(n: nat)
    requires n < 100
    ensures '/' !in TwoDigits(n)
  {
    assert IsDigit(TwoDigits(n)[0]) && IsDigit(TwoDigits(n)[1]);
  }

  /** Every date from year 1000 on, written as `dd/mm/yyyy`, parses back to itself. */
  lemma ParseFormatted(d: Date)
    requires ValidDate(d) && d.year >= 1000
    ensures ParseDate(FormatDate(d)) == Some(d)
  {
    NumeralLengthFour(d.year);
    NumeralValue(d.year);
    TwoDigitsNoSlash(d.day);
    TwoDigitsNoSlash(d.month);
    ParseFields(TwoDigits(d.day), TwoDigits(d.month), Numeral(d.year));
  }

  /** On a `dd/mm/yyyy` date from year 1000 on, the label is "Q", then the
      last two characters of the year field, then the quarter digit. */
  lemma QuarterOfFormatted(d: Date)
    requires ValidDate(d) && d.year >= 1000
    ensures |FormatDate(d)| == 10
    ensures GetQuarter(FormatDate(d))
            == Some("Q" + FormatDate(d)[8..10] + [DigitChar(QuarterOf(d.month))])
  {
    ParseFormatted(d);
    NumeralLengthFour(d.year);
    var s := FormatDate(d);
    var year := Numeral(d.year);
    var prefix := TwoDigits(d.day) + "/" + TwoDigits(d.month) + "/";
    assert |prefix| == 6 && s == prefix + year;
    assert s[8..10] == year[2..4];
    assert DropTwo(year) == year[2..4];
  }

  /** A four-digit year field reads as its number. */
  lemma YearField(y: nat)
    requires 1000 <= y <= 9999
    ensures YearToken(Numeral(y)) && DigitsValue(Numeral(y)) == y
    ensures '/' !in Numeral(y)
  {
    NumeralLengthFour(y);
    NumeralValue(y);
  }

  /** A two-digit day and month field read as their numbers. */
  lemma DayMonthFields(day: nat, month: nat)
    requires 1 <= day <= 31 && 1 <= month <= 12
    ensures DayToken(TwoDigits(day)) && DayValue(TwoDigits(day)) == day
    ensures MonthToken(TwoDigits(month)) && DigitsValue(TwoDigits(month)) == month
    ensures '/' !in TwoDigits(day) && '/' !in TwoDigits(month)
  {
    TwoDigitsNoSlash(day);
    TwoDigitsNoSlash(month);
  }

  /** The three fields of a written date. */
  lemma DateText(day: nat, month: nat, year: nat, s: string)
    requires day < 100 && month < 100
    requires s == [DigitChar(day / 10), DigitChar(day % 10), '/', DigitChar(month / 10), DigitChar(month % 10), '/'] + Numeral(year)
    ensures s == TwoDigits(day) + "/" + TwoDigits(month) + "/" + Numeral(year)
  {
  }

  lemma ParseExample(s: string)
    requires s == "15/08/2022"
    ensures ParseDate(s) == Some(Date(2022, 8, 15))
  {
    DateText(15, 8, 2022, "15/08/2022");
    YearField(2022);
    DayMonthFields(15, 8);
    ParseFields(TwoDigits(15), TwoDigits(8), Numeral(2022));
  }

  /** August 2022 is in the third quarter of 2022. */
  lemma LabelExample()
    ensures QuarterLabel(Date(2022, 8, 15)) == "Q223"
  {
    assert DropTwo(Numeral(2022)) == "22" && Numeral(QuarterOf(8)) == "3";
  }

  lemma QuarterExample(s: string)
    requires s == "15/08/2022"
    ensures GetQuarter(s) == Some("Q223")
  {
    ParseExample(s);
    LabelExample();
  }

  /** A day that does not exist in its month is rejected: "31/02/<year>"
      gives no quarter, whatever the year field holds. */
  lemma ImpossibleDateExample(day: string, month: string, year: string)
    requires day == "31" && month == "02"
    ensures GetQuarter(day + "/" + month + "/" + year) == None
  {
    TwoDigitValue(day);
    TwoDigitValue(month);
    ParseFields(day, month, year);
    if YearToken(year) {
      assert !ValidDate(Date(DigitsValue(year), 2, 31));
    }
  }

  /** The value of a two-digit field. */
  lemma TwoDigitValue(t: string)
    requires |t| == 2 && AllDigits(t)
    ensures DigitsValue(t) == 10 * DigitValue(t[0]) + DigitValue(t[1])
  {
    var first := t[..1];
    assert first[..0] == [] && first[0] == t[0];
    assert DigitsValue(first) == DigitValue(t[0]);
  }

  /** A string without the '/' separators is rejected. */
  lemma WrongFormatExample(s: string)
    requires s == "2022-08-15"
    ensures GetQuarter(s) == None
  {
    assert forall i :: 0 <= i < |s| ==> s[i] != '/';
  }

  /** Dropping the first two characters of a four-digit year leaves its
      last two digits. */
  lemma YearSuffix(y: nat)
    requires 1000 <= y <= 9999
    ensures DropTwo(Numeral(y)) == TwoDigits(y % 100)
  {
    var h, t, u := y / 100, y / 10 % 10, y % 10;
    LastTwoDigits(y);
    var head := Numeral(h);
    assert |head| == 2 by {
      assert head == Numeral(h / 10) + [DigitChar(h % 10)];
    }
    assert Numeral(y / 10) == head + [DigitChar(t)];
    assert Numeral(y) == Numeral(y / 10) + [DigitChar(u)];
    assert Numeral(y)[2..] == [DigitChar(t), DigitChar(u)];
  }

  /** The digit arithmetic behind `YearSuffix`. */
  lemma LastTwoDigits(y: nat)
    ensures y / 10 / 10 == y / 100
    ensures y % 100 / 10 == y / 10 % 10 && y % 100 % 10 == y % 10
  {
    var q, r := y / 100, y % 100;
    assert y == 100 * q + r;
    assert y / 10 == 10 * q + r / 10;
    assert y % 10 == r % 10;
  }

  /** The last two digits of a four-digit field, as a number. */
  lemma FourDigitTail(t: string)
    requires |t| == 4 && AllDigits(t)
    ensures TwoDigits(DigitsValue(t) % 100) == t[2..]
  {
    var a, b := DigitValue(t[2]), DigitValue(t[3]);
    var front := t[..3];
    assert front[..2] == t[..2] && front[2] == t[2];
    var p := DigitsValue(t[..2]);
    assert DigitsValue(front) == p * 10 + a;
    assert DigitsValue(t) == DigitsValue(front) * 10 + b;
    var r := 10 * a + b;
    assert DigitsValue(t) == p * 100 + r;
    ModHundred(p, r);
    assert r / 10 == a && r % 10 == b;
    assert DigitChar(a) == t[2] && DigitChar(b) == t[3];
  }

  lemma ModHundred(p: nat, r: nat)
    requires r < 100
    ensures (p * 100 + r) % 100 == r
  {
  }

  /** The year field of a string that parses is its last four characters. */
  lemma ParsedYearField(s: string)
    requires ParseDate(s).Some?
    ensures |s| >= 4 && YearToken(s[|s| - 4..])
    ensures DigitsValue(s[|s| - 4..]) == ParseDate(s).value.year
  {
    var i := IndexOf(s, '/').value;
    var rest := s[i + 1..];
    var j := IndexOf(rest, '/').value;
    var yearText := rest[j + 1..];
    assert YearToken(yearText);
    assert yearText == s[|s| - 4..];
  }

  /** For every string `_get_quarter` accepts whose year is at least 1000,
      however the day and month are written (" 5/8/2022", "05/08/2022"),
      the label is "Q", the last two characters of the string, and the
      quarter of the parsed month. */
  lemma LabelOfParsed(s: string)
    requires ParseDate(s).Some? && ParseDate(s).value.year >= 1000
    ensures |s| >= 4
    ensures GetQuarter(s) == Some("Q" + s[|s| - 2..] + [DigitChar(QuarterOf(ParseDate(s).value.month))])
  {
    ParsedYearField(s);
    FourDigitTail(s[|s| - 4..]);
    assert s[|s| - 4..][2..] == s[|s| - 2..];
  }
}
