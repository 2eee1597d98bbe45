/** Normalising and sorting option expiries, blueprints/flow.py `_sorted_expiry_codes`. */
module ExpiryCodes {
  import opened Wrappers
  import opened Whitespace

  datatype Date = Date(year: int, month: int, day: int)

  // ---- Calendar -----------------------------------------------------------

  predicate Leap(year: int) { year % 4 == 0 && (year % 100 != 0 || year % 400 == 0) }

  function DaysIn(year: int, month: int): int {
    if month == 2 then (if Leap(year) then 29 else 28)
    else if month in [4, 6, 9, 11] then 30
    else 31
  }

  predicate IsDate(d: Date) {
    1 <= d.year <= 9999 && 1 <= d.month <= 12 && 1 <= d.day <= DaysIn(d.year, d.month)
  }

  /** The calendar, month by month. */
  lemma CalendarExact(d: Date)
    ensures IsDate(d) <==>
      && 1 <= d.year <= 9999 && 1 <= d.day
      && ((d.month in {1, 3, 5, 7, 8, 10, 12} && d.day <= 31) || (d.month in {4, 6, 9, 11} && d.day <= 30)
          || (d.month == 2 && d.day <= 28) || (d.month == 2 && d.day == 29 && Leap(d.year)))
  {}

  lemma LeapExamples()
    ensures Leap(2000) && Leap(2024) && !Leap(1900) && !Leap(2026)
  {}

  /** The century strptime gives a two-digit year. */
  function Pivot(yy: int): int { if yy <= 68 then 2000 + yy else 1900 + yy }

  /** The date a two-digit-year code of `d` stands for. */
  function Pivoted(d: Date): Date { d.(year := Pivot(d.year % 100)) }

  /** 29 February survives the truncation of its year to two digits. */
  lemma LeapDaySurvives(year: int)
    requires Leap(year)
    ensures Leap(Pivot(year % 100))
  {
    var c, yy := year / 100, year % 100;
    assert year == 100 * c + yy;
    assert year % 4 == (100 * c + yy) % 4 == yy % 4;
  }

  lemma PivotedIsDate(d: Date)
    requires IsDate(d)
    ensures IsDate(Pivoted(d)) && Pivoted(Pivoted(d)) == Pivoted(d)
  {
    if d.month == 2 && d.day == 29 {
      LeapDaySurvives(d.year);
    }
  }

  // ---- Text to date and back ----------------------------------------------

  predicate IsDigit(c: char) { '0' <= c <= '9' }

  function DigitOf(n: int): char
    requires 0 <= n <= 9
  {
    "0123456789"[n]
  }

  function ValueOf(c: char): int { if IsDigit(c) then c as int - '0' as int else 0 }

  function Number(s: string): int {
    if s == "" then 0 else 10 * Number(s[..|s| - 1]) + ValueOf(s[|s| - 1])
  }

  function TwoDigits(n: int): (s: string)
    requires 0 <= n <= 99
    ensures |s| == 2
  {
    [DigitOf(n / 10), DigitOf(n % 10)]
  }

  const MONTHS: seq<string> :=
    ["JAN", "FEB", "MAR", "APR", "MAY", "JUN", "JUL", "AUG", "SEP", "OCT", "NOV", "DEC"]

  /** 1 to 12, or 0 for no month name. */
  function MonthIndex(s: string): (m: int)
    ensures 0 <= m <= 12
    ensures m > 0 ==> MONTHS[m - 1] == s
  {
    if s == "JAN" then 1 else if s == "FEB" then 2 else if s == "MAR" then 3 else if s == "APR" then 4
    else if s == "MAY" then 5 else if s == "JUN" then 6 else if s == "JUL" then 7 else if s == "AUG" then 8
    else if s == "SEP" then 9 else if s == "OCT" then 10 else if s == "NOV" then 11 else if s == "DEC" then 12
    else 0
  }

  predicate AllDigits(s: string) { forall i | 0 <= i < |s| :: IsDigit(s[i]) }

  /** Leading digits taken as the day: two if there are two. */
  function DayDigits(text: string): (n: nat)
    ensures n <= |text|
  {
    if text == "" || !IsDigit(text[0]) then 0
    else if |text| >= 2 && IsDigit(text[1]) then 2
    else 1
  }

  /** strptime for day, month name and year, with or without dashes and with a
      year of two or four digits. */
  function ParseForm(text: string, dashed: bool, yearDigits: nat): Option<Date>
    requires yearDigits == 2 || yearDigits == 4
  {
    var n := DayDigits(text);
    var rest := text[n..];
    var dash := if dashed then 1 else 0;
    if n == 0 || |rest| != dash + 3 + dash + yearDigits then None
    else if dashed && (rest[0] != '-' || rest[4] != '-') then None
    else
      var month := MonthIndex(rest[dash..dash + 3]);
      var year := rest[dash + 3 + dash..];
      if month == 0 || !AllDigits(year) then None
      else
        var y := if yearDigits == 2 then Pivot(Number(year)) else Number(year);
        var d := Date(y, month, Number(text[..n]));
        if IsDate(d) then Some(d) else None
  }

  /** The four formats in the order they are tried. */
  function Parse(text: string): Option<Date> {
    var a, b, c := ParseForm(text, true, 2), ParseForm(text, true, 4), ParseForm(text, false, 2);
    if a.Some? then a else if b.Some? then b else if c.Some? then c else ParseForm(text, false, 4)
  }

  /** DDMMMYY */
  function Code(d: Date): string
    requires IsDate(d)
  {
    TwoDigits(d.day) + MONTHS[d.month - 1] + TwoDigits(d.year % 100)
  }

  /** How the sort key reads a code. */
  function Dated(code: string): Option<Date> { ParseForm(code, false, 2) }

  lemma TwoDigitsValue(n: int)
    requires 0 <= n <= 99
    ensures Number(TwoDigits(n)) == n && forall i | 0 <= i < 2 :: IsDigit(TwoDigits(n)[i])
  {
    var s := TwoDigits(n);
    DigitValue(n / 10);
    DigitValue(n % 10);
    assert s[..1] == [s[0]] && [s[0]][..0] == "";
    assert Number([s[0]]) == n / 10;
  }

  lemma DigitValue(n: int)
    requires 0 <= n <= 9
    ensures IsDigit(DigitOf(n)) && ValueOf(DigitOf(n)) == n
  {}

  lemma MonthNames(m: int)
    requires 1 <= m <= 12
    ensures |MONTHS[m - 1]| == 3 && MonthIndex(MONTHS[m - 1]) == m && !IsDigit(MONTHS[m - 1][0])
  {}

  lemma PivotKeepsDigits(yy: int)
    requires 0 <= yy <= 99
    ensures Pivot(yy) % 100 == yy
  {}

  /** A code reads back as the pivoted date. */
  lemma CodeReadsBack(d: Date)
    requires IsDate(d)
    ensures Dated(Code(d)) == Some(Pivoted(d)) && Code(Pivoted(d)) == Code(d)
  {
    hide MonthIndex, Number, TwoDigits, Leap, IsDigit, Pivot;
    var code, dd, mmm, yy := Code(d), TwoDigits(d.day), MONTHS[d.month - 1], TwoDigits(d.year % 100);
    TwoDigitsValue(d.day);
    TwoDigitsValue(d.year % 100);
    MonthNames(d.month);
    assert code[0] == dd[0] && code[1] == dd[1] && DayDigits(code) == 2;
    assert code[..2] == dd && code[2..] == mmm + yy;
    assert (mmm + yy)[0..3] == mmm && (mmm + yy)[3..] == yy;
    PivotedIsDate(d);
    assert Pivoted(d).year % 100 == d.year % 100 by { PivotKeepsDigits(d.year % 100); }
  }

  lemma CodeHasNoDash(d: Date)
    requires IsDate(d)
    ensures ParseForm(Code(d), true, 2).None? && ParseForm(Code(d), true, 4).None?
  {
    TwoDigitsValue(d.day);
    MonthNames(d.month);
    assert |Code(d)| == 7 && IsDigit(Code(d)[0]) && IsDigit(Code(d)[1]);
  }

  lemma ParsedIsDate(text: string)
    requires Parse(text).Some?
    ensures IsDate(Parse(text).value)
  {}

  /** What a raw, stripped and upper-cased entry becomes. */
  function Normal(text: string): string {
    if Parse(text).Some? then
      ParsedIsDate(text);
      Code(Parse(text).value)
    else text
  }

  lemma NormalFixed(text: string)
    ensures Normal(Normal(text)) == Normal(text)
    ensures Dated(Normal(text)).Some? <==> Parse(text).Some?
    ensures Dated(Normal(text)).Some? ==>
      IsDate(Dated(Normal(text)).value) && Code(Dated(Normal(text)).value) == Normal(text)
  {
    if Parse(text).Some? {
      ParsedIsDate(text);
      var d := Parse(text).value;
      CodeReadsBack(d);
      CodeHasNoDash(d);
      PivotedIsDate(d);
    }
  }

  // ---- The forms brokers send ---------------------------------------------

  function FourDigits(n: int): (s: string)
    requires 0 <= n <= 9999
    ensures |s| == 4
  {
    TwoDigits(n / 100) + TwoDigits(n % 100)
  }

  lemma FourDigitsValue(n: int)
    requires 0 <= n <= 9999
    ensures Number(FourDigits(n)) == n && forall i | 0 <= i < 4 :: IsDigit(FourDigits(n)[i])
  {
    hide IsDigit, ValueOf, DigitOf;
    var a, b, s := TwoDigits(n / 100), TwoDigits(n % 100), FourDigits(n);
    TwoDigitsValue(n / 100);
    TwoDigitsValue(n % 100);
    assert s[..3][..2] == a && s[..3][2] == b[0] && s[3] == b[1];
    assert Number(s[..3]) == 10 * (n / 100) + ValueOf(b[0]);
    assert b[..1] == [b[0]] && [b[0]][..0] == "";
    assert Number([b[0]]) == ValueOf(b[0]);
  }

  /** Day, month name and year, with a sign between them. */
  function Written(d: Date, sign: string, year: string): string
    requires IsDate(d)
  {
    TwoDigits(d.day) + sign + MONTHS[d.month - 1] + sign + year
  }

  /** Reading one form: the parts come out as they were written. */
  lemma WrittenReads(d: Date, dashed: bool, year: string)
    requires IsDate(d) && (|year| == 2 || |year| == 4) && forall i | 0 <= i < |year| :: IsDigit(year[i])
    ensures var y := if |year| == 2 then Pivot(Number(year)) else Number(year);
      var read := ParseForm(Written(d, if dashed then "-" else "", year), dashed, |year|);
      read == if IsDate(d.(year := y)) then Some(d.(year := y)) else None
  {
    hide MonthIndex, Number, TwoDigits, Leap, IsDigit, Pivot, DayDigits, ParseForm;
    var sign := if dashed then "-" else "";
    var dd, mmm := TwoDigits(d.day), MONTHS[d.month - 1];
    var text := Written(d, sign, year);
    DayRead(d, sign, year);
    var rest := text[2..];
    assert rest == sign + mmm + sign + year;
    assert rest[|sign|..|sign| + 3] == mmm && rest[|sign| + 3 + |sign|..] == year;
    assert dashed ==> rest[0] == '-' && rest[4] == '-';
    PartsRead(d, text, dashed, year);
  }

  lemma DayRead(d: Date, sign: string, year: string)
    requires IsDate(d)
    ensures var text := Written(d, sign, year);
      DayDigits(text) == 2 && text[..2] == TwoDigits(d.day) && |MONTHS[d.month - 1]| == 3
  {
    hide MonthIndex, Number, TwoDigits, Leap;
    TwoDigitsValue(d.day);
    MonthNames(d.month);
    var text := Written(d, sign, year);
    assert text[0] == TwoDigits(d.day)[0] && text[1] == TwoDigits(d.day)[1];
  }

  lemma PartsRead(d: Date, text: string, dashed: bool, year: string)
    requires IsDate(d) && (|year| == 2 || |year| == 4) && forall i | 0 <= i < |year| :: IsDigit(year[i])
    requires DayDigits(text) == 2 && text[..2] == TwoDigits(d.day)
    requires var dash, rest := if dashed then 1 else 0, text[2..];
      && |rest| == dash + 3 + dash + |year| && (dashed ==> rest[0] == '-' && rest[4] == '-')
      && rest[dash..dash + 3] == MONTHS[d.month - 1] && rest[dash + 3 + dash..] == year
    ensures var y := if |year| == 2 then Pivot(Number(year)) else Number(year);
      ParseForm(text, dashed, |year|) == if IsDate(d.(year := y)) then Some(d.(year := y)) else None
  {
    hide MonthIndex, Number, TwoDigits, Leap, IsDigit, Pivot, DayDigits;
    TwoDigitsValue(d.day);
    MonthNames(d.month);
  }

  /** A form of other length or punctuation is not taken for this one. */
  lemma OtherForms(d: Date, dashed: bool, year: string)
    requires IsDate(d) && (|year| == 2 || |year| == 4)
    ensures var text := Written(d, if dashed then "-" else "", year);
      && ParseForm(text, dashed, 6 - |year|).None?
      && (!dashed ==> ParseForm(text, true, 2).None? && ParseForm(text, true, 4).None?)
  {
    hide MonthIndex, Number, TwoDigits, Leap, Pivot;
    var sign := if dashed then "-" else "";
    var dd, mmm := TwoDigits(d.day), MONTHS[d.month - 1];
    var text := Written(d, sign, year);
    TwoDigitsValue(d.day);
    MonthNames(d.month);
    assert text[0] == dd[0] && text[1] == dd[1] && DayDigits(text) == 2;
    assert text[2..] == sign + mmm + sign + year;
    if !dashed {
      MonthHasNoDash(d.month);
      assert text[2..][0] == mmm[0];
    }
  }

  lemma MonthHasNoDash(m: int)
    requires 1 <= m <= 12
    ensures MONTHS[m - 1][0] != '-'
  {}

  /** What the four forms are read as.  Two digits of the year stand for 1969 to
      2068. */
  lemma FormsRead(d: Date)
    requires IsDate(d)
    ensures Parse(Written(d, "-", FourDigits(d.year))) == Some(d)
    ensures Parse(Written(d, "", FourDigits(d.year))) == Some(d)
    ensures 1969 <= d.year <= 2068 ==> Parse(Written(d, "-", TwoDigits(d.year % 100))) == Some(d)
    ensures 1969 <= d.year <= 2068 ==> Parse(Written(d, "", TwoDigits(d.year % 100))) == Some(d)
  {
    hide ParseForm, Written, Number, TwoDigits, FourDigits;
    FourDigitsValue(d.year);
    TwoDigitsValue(d.year % 100);
    WrittenReads(d, true, FourDigits(d.year));
    WrittenReads(d, false, FourDigits(d.year));
    WrittenReads(d, true, TwoDigits(d.year % 100));
    WrittenReads(d, false, TwoDigits(d.year % 100));
    OtherForms(d, true, FourDigits(d.year));
    OtherForms(d, false, FourDigits(d.year));
    OtherForms(d, true, TwoDigits(d.year % 100));
    OtherForms(d, false, TwoDigits(d.year % 100));
    assert d.(year := d.year) == d;
  }

  /** One expiry in its four forms becomes one code. */
  lemma FormsAgree(d: Date)
    requires IsDate(d) && 1969 <= d.year <= 2068
    ensures var code := TwoDigits(d.day) + MONTHS[d.month - 1] + TwoDigits(d.year % 100);
      && Normal(Written(d, "-", TwoDigits(d.year % 100))) == code
      && Normal(Written(d, "-", FourDigits(d.year))) == code
      && Normal(Written(d, "", TwoDigits(d.year % 100))) == code
      && Normal(Written(d, "", FourDigits(d.year))) == code
  {
    hide Parse, Written, TwoDigits, FourDigits, IsDate;
    FormsRead(d);
  }

  lemma FormsExample()
    ensures Normal("28-MAY-26") == "28MAY26" && Normal("28-MAY-2026") == "28MAY26"
    ensures Normal("28MAY26") == "28MAY26" && Normal("28MAY2026") == "28MAY26"
    ensures Parse("28-MAY-2026") == Some(Date(2026, 5, 28))
  {
    hide Parse, Normal, ParseForm, Written;
    var d := Date(2026, 5, 28);
    FormsRead(d);
    FormsAgree(d);
    assert TwoDigits(28) == "28" && TwoDigits(26) == "26" && TwoDigits(20) == "20" && MONTHS[4] == "MAY";
    assert FourDigits(2026) == "2026";
    WrittenExample();
  }

  /** Exactly what one form takes: one or two digits, the signs, a month name and the
      digits of the year, that make a date. */
  lemma ParseFormExact(text: string, dashed: bool, yearDigits: nat)
    requires yearDigits == 2 || yearDigits == 4
    requires ParseForm(text, dashed, yearDigits).Some?
    ensures var n, dash := DayDigits(text), if dashed then 1 else 0;
      && n > 0 && |text| == n + 2 * dash + 3 + yearDigits
      && (dashed ==> text[n] == '-' && text[n + 4] == '-')
      && text[n + dash..n + dash + 3] in MONTHS
      && forall i | n + 2 * dash + 3 <= i < |text| :: IsDigit(text[i])
  {
    hide Number, Pivot, Leap, IsDate, DayDigits, MonthIndex;
    var n, dash := DayDigits(text), if dashed then 1 else 0;
    var rest := text[n..];
    var month := MonthIndex(rest[dash..dash + 3]);
    assert rest[dash..dash + 3] == text[n + dash..n + dash + 3];
    assert MONTHS[month - 1] in MONTHS;
    var year := rest[dash + 3 + dash..];
    assert |year| == yearDigits && AllDigits(year);
    forall i | n + 2 * dash + 3 <= i < |text| ensures IsDigit(text[i]) {
      var j := i - (n + 2 * dash + 3);
      assert year[j] == text[i];
    }
  }

  /** The day takes two digits if there are two, else one. */
  lemma DayDigitsExact(text: string)
    ensures DayDigits(text) == 2 <==> |text| >= 2 && IsDigit(text[0]) && IsDigit(text[1])
    ensures DayDigits(text) == 0 <==> text == "" || !IsDigit(text[0])
  {}

  /** A day of one digit is read as well. */
  lemma OneDigitDay(d: Date)
    requires IsDate(d) && d.day <= 9
    ensures var month := MONTHS[d.month - 1];
      ParseForm([DigitOf(d.day)] + month + FourDigits(d.year), false, 4) == Some(d)
  {
    hide MonthIndex, Number, TwoDigits, FourDigits, Leap, IsDigit, Pivot;
    var first, month, year := [DigitOf(d.day)], MONTHS[d.month - 1], FourDigits(d.year);
    var text := first + month + year;
    MonthNames(d.month);
    DigitValue(d.day);
    FourDigitsValue(d.year);
    OneDigitNumber(d.day);
    assert text[1] == month[0] && DayDigits(text) == 1;
    assert text[..1] == first && text[1..] == month + year;
    assert text[1..][0..3] == month && text[1..][3..] == year;
    assert d.(year := d.year) == d;
  }

  lemma OneDigitNumber(n: int)
    requires 0 <= n <= 9
    ensures Number([DigitOf(n)]) == n
  {
    DigitValue(n);
    assert [DigitOf(n)][..0] == [];
  }

  lemma WrittenExample()
    ensures var d := Date(2026, 5, 28);
      && IsDate(d)
      && Written(d, "-", "26") == "28-MAY-26" && Written(d, "-", "2026") == "28-MAY-2026"
      && Written(d, "", "26") == "28MAY26" && Written(d, "", "2026") == "28MAY2026"
  {
    assert TwoDigits(28) == "28" && MONTHS[4] == "MAY";
  }

  // ---- Cleaning raw entries -----------------------------------------------

  datatype Raw = Text(s: string) | NotText

  function UpperChar(c: char): char { if 'a' <= c <= 'z' then c - 'a' + 'A' else c }

  function Upper(s: string): string {
    seq(|s|, i requires 0 <= i < |s| => UpperChar(s[i]))
  }

  function Clean(s: string): string { Upper(Strip(s)) }

  predicate NoLower(s: string) { forall i | 0 <= i < |s| :: UpperChar(s[i]) == s[i] }

  predicate Tidy(s: string) {
    s != "" && !IsSpace(s[0]) && !IsSpace(s[|s| - 1]) && NoLower(s)
  }

  lemma CleanIsTidy(s: string)
    requires Strip(s) != ""
    ensures Tidy(Clean(s))
  {
    StripEnds(s);
  }

  lemma TidyIsClean(s: string)
    requires Tidy(s)
    ensures Clean(s) == s && Strip(s) != ""
  {
    assert Strip(s) == s;
    assert Upper(s) == s;
  }

  lemma CodeIsTidy(d: Date)
    requires IsDate(d)
    ensures Tidy(Code(d))
  {
    hide Number;
    var code, dd, mmm, yy := Code(d), TwoDigits(d.day), MONTHS[d.month - 1], TwoDigits(d.year % 100);
    TwoDigitsValue(d.day);
    TwoDigitsValue(d.year % 100);
    MonthNames(d.month);
    MonthsAreUpper(d.month);
    assert code[0] == dd[0] && code[|code| - 1] == yy[1];
    forall i | 0 <= i < |code| ensures UpperChar(code[i]) == code[i] {
      if i < 2 {
        assert code[i] == dd[i];
      } else if i < 5 {
        assert code[i] == mmm[i - 2];
      } else {
        assert code[i] == yy[i - 5];
      }
    }
  }

  lemma MonthsAreUpper(m: int)
    requires 1 <= m <= 12
    ensures NoLower(MONTHS[m - 1])
  {}

  lemma NormalIsTidy(text: string)
    requires Tidy(text)
    ensures Tidy(Normal(text))
  {
    if Parse(text).Some? {
      ParsedIsDate(text);
      CodeIsTidy(Parse(text).value);
    }
  }

  /** The codes in the order their entries come. */
  function Codes(raw: seq<Raw>): seq<string> {
    if raw == [] then []
    else
      var rest, r := Codes(raw[..|raw| - 1]), raw[|raw| - 1];
      if r.Text? && Strip(r.s) != "" then rest + [Normal(Clean(r.s))] else rest
  }

  // ---- Sorting ------------------------------------------------------------

  const LAST := 1_0000_00_00

  /** (0, date) or (1, max), as one number: dates in calendar order, then the rest. */
  function Key(code: string): int {
    match Dated(code)
    case None => LAST
    case Some(d) => d.year * 10000 + d.month * 100 + d.day
  }

  /** dict.fromkeys: the first occurrence of each. */
  function Dedup(codes: seq<string>): seq<string> {
    if codes == [] then []
    else
      var rest, c := Dedup(codes[..|codes| - 1]), codes[|codes| - 1];
      if c in rest then rest else rest + [c]
  }

  function Insert(c: string, sorted: seq<string>): seq<string> {
    if sorted == [] || Key(c) <= Key(sorted[0]) then [c] + sorted
    else [sorted[0]] + Insert(c, sorted[1..])
  }

  /** sorted(codes, key=...), which is stable. */
  function StableSort(codes: seq<string>): seq<string> {
    if codes == [] then [] else Insert(codes[0], StableSort(codes[1..]))
  }

  function Result(raw: seq<Raw>): seq<string> { StableSort(Dedup(Codes(raw))) }

  predicate SortedByKey(s: seq<string>) {
    forall i, j | 0 <= i < j < |s| :: Key(s[i]) <= Key(s[j])
  }

  /** The entries with a given key, in order. */
  function WithKey(s: seq<string>, k: int): seq<string> {
    if s == [] then []
    else if Key(s[0]) == k then [s[0]] + WithKey(s[1..], k)
    else WithKey(s[1..], k)
  }

  lemma {:induction false} InsertAdds(c: string, s: seq<string>)
    ensures multiset(Insert(c, s)) == multiset(s) + multiset{c}
  {
    hide Key;
    if s != [] && Key(c) > Key(s[0]) {
      InsertAdds(c, s[1..]);
      assert s == [s[0]] + s[1..];
    }
  }

  lemma {:induction false} InsertSorts(c: string, s: seq<string>)
    requires SortedByKey(s)
    ensures SortedByKey(Insert(c, s))
  {
    hide Key;
    if s != [] && Key(c) > Key(s[0]) {
      var t := Insert(c, s[1..]);
      InsertSorts(c, s[1..]);
      InsertAdds(c, s[1..]);
      forall i | 0 <= i < |t| ensures Key(s[0]) <= Key(t[i]) {
        assert t[i] in multiset(t);
        assert t[i] == c || t[i] in s[1..];
      }
    }
  }

  lemma {:induction false} InsertStable(c: string, s: seq<string>, k: int)
    ensures SortedByKey(s) ==> WithKey(Insert(c, s), k) == if Key(c) == k then [c] + WithKey(s, k) else WithKey(s, k)
  {
    hide Key;
    if s != [] && Key(c) > Key(s[0]) {
      InsertStable(c, s[1..], k);
    } else {
      assert ([c] + s)[1..] == s;
    }
  }

  /** Sorted, nothing lost or added, and equal keys keep their order. */
  lemma {:induction false} SortIsStable(s: seq<string>, k: int)
    ensures SortedByKey(StableSort(s)) && multiset(StableSort(s)) == multiset(s)
    ensures WithKey(StableSort(s), k) == WithKey(s, k)
  {
    if s != [] {
      SortIsStable(s[1..], k);
      InsertSorts(s[0], StableSort(s[1..]));
      InsertAdds(s[0], StableSort(s[1..]));
      InsertStable(s[0], StableSort(s[1..]), k);
      assert s == [s[0]] + s[1..];
    }
  }

  lemma {:induction false} SortOfSorted(s: seq<string>)
    requires SortedByKey(s)
    ensures StableSort(s) == s
  {
    hide Key;
    if s != [] {
      SortOfSorted(s[1..]);
    }
  }

  lemma {:induction false} DedupFacts(codes: seq<string>)
    ensures Distinct(Dedup(codes)) && forall c :: c in Dedup(codes) <==> c in codes
  {
    if codes != [] {
      DedupFacts(codes[..|codes| - 1]);
      assert codes == codes[..|codes| - 1] + [codes[|codes| - 1]];
    }
  }

  lemma {:induction false} DedupOfDistinct(codes: seq<string>)
    requires Distinct(codes)
    ensures Dedup(codes) == codes
  {
    if codes != [] {
      DedupOfDistinct(codes[..|codes| - 1]);
    }
  }

  /** The sort key orders dates as the calendar does. */
  lemma KeyOrder(a: string, b: string)
    requires Dated(a).Some? && Dated(b).Some? && IsDate(Dated(a).value) && IsDate(Dated(b).value)
    ensures var d, e := Dated(a).value, Dated(b).value;
      Key(a) < Key(b) <==>
        d.year < e.year || (d.year == e.year && (d.month < e.month || (d.month == e.month && d.day < e.day)))
  {
    hide ParseForm;
  }

  /** Deduplication keeps the order in which codes are first seen: wherever the later
      of two codes occurs, the earlier one has occurred before. */
  lemma {:induction false} DedupKeepsOrder(codes: seq<string>, p: nat, q: nat, j: nat) returns (i: nat)
    requires p < q < |Dedup(codes)| && j < |codes| && codes[j] == Dedup(codes)[q]
    ensures i < j && codes[i] == Dedup(codes)[p]
  {
    var n := |codes| - 1;
    var init, rest := codes[..n], Dedup(codes[..n]);
    DedupFacts(init);
    assert forall k | 0 <= k < n :: codes[k] == init[k] && init[k] in init;
    if q < |rest| && j < n {
      i := DedupKeepsOrder(init, p, q, j);
    } else {
      assert rest[p] in rest && rest[p] in init;
      i :| 0 <= i < n && init[i] == rest[p];
    }
  }

  lemma {:induction false} WithKeyConcat(a: seq<string>, b: seq<string>, k: int)
    ensures WithKey(a + b, k) == WithKey(a, k) + WithKey(b, k)
  {
    hide Key;
    if a == [] {
      assert a + b == b;
    } else {
      assert (a + b)[1..] == a[1..] + b;
      WithKeyConcat(a[1..], b, k);
    }
  }

  lemma WithKeyOne(c: string, k: int)
    ensures WithKey([c], k) == if Key(c) == k then [c] else []
  {
    hide Key;
    assert [c][1..] == [];
  }

  lemma {:induction false} CodesConcat(a: seq<Raw>, b: seq<Raw>)
    ensures Codes(a + b) == Codes(a) + Codes(b)
  {
    hide Normal, Clean, Strip;
    if b == [] {
      assert a + b == a;
    } else {
      assert (a + b)[..|a + b| - 1] == a + b[..|b| - 1];
      CodesConcat(a, b[..|b| - 1]);
    }
  }

  lemma CodesOne(r: Raw)
    ensures Codes([r]) == if r.Text? && Strip(r.s) != "" then [Normal(Upper(Strip(r.s)))] else []
  {
    hide Normal, Strip, Upper;
    assert [r][..0] == [];
  }

  /** Upper case, letter by letter. */
  lemma UpperExact(s: string)
    ensures |Upper(s)| == |s|
    ensures forall i | 0 <= i < |s| :: Upper(s)[i] == if 'a' <= s[i] <= 'z' then s[i] - 'a' + 'A' else s[i]
  {}

  // ---- Main results -------------------------------------------------------

  /** What every code of a result is. */
  predicate Settled(c: string) {
    && Tidy(c) && Normal(c) == c
    && (Dated(c).Some? ==> IsDate(Dated(c).value) && Code(Dated(c).value) == c)
  }

  lemma EntrySettled(r: Raw)
    requires r.Text? && Strip(r.s) != ""
    ensures Settled(Normal(Clean(r.s)))
  {
    CleanIsTidy(r.s);
    NormalIsTidy(Clean(r.s));
    NormalFixed(Clean(r.s));
  }

  lemma {:induction false} CodesSettled(raw: seq<Raw>)
    ensures forall c | c in Codes(raw) :: Settled(c)
    ensures forall i | 0 <= i < |raw| && raw[i].Text? && Strip(raw[i].s) != "" :: Normal(Clean(raw[i].s)) in Codes(raw)
  {
    hide Settled, Normal, Clean, Strip;
    if raw != [] {
      CodesSettled(raw[..|raw| - 1]);
      var r := raw[|raw| - 1];
      if r.Text? && Strip(r.s) != "" {
        EntrySettled(r);
      }
    }
  }

  /** Different settled dates have different keys. */
  lemma KeyInjective(a: string, b: string)
    requires Settled(a) && Settled(b) && Dated(a).Some? && Key(a) == Key(b)
    ensures a == b
  {
    hide Tidy, Normal, Code, ParseForm;
    var d := Dated(a).value;
    assert Key(a) < LAST;
    assert Dated(b).Some?;
    var e := Dated(b).value;
    assert d.year == e.year && d.month == e.month && d.day == e.day;
  }

  /** The same members as the codes of the entries, each once. */
  lemma ResultMembers(raw: seq<Raw>)
    ensures Distinct(Result(raw)) && forall c :: c in Result(raw) <==> c in Codes(raw)
  {
    var codes := Dedup(Codes(raw));
    DedupFacts(Codes(raw));
    SortIsStable(codes, 0);
    SameMembers(Result(raw), codes);
  }

  lemma SameMembers(s: seq<string>, t: seq<string>)
    requires multiset(s) == multiset(t) && Distinct(t)
    ensures Distinct(s) && forall c :: c in s <==> c in t
  {
    forall c ensures c in s <==> c in t {
      assert c in s <==> c in multiset(s);
      assert c in t <==> c in multiset(t);
    }
    forall i, j | 0 <= i < j < |s| ensures s[i] != s[j] {
      if s[i] == s[j] {
        CountTwice(s, i, j);
        CountOnce(t, s[i]);
      }
    }
  }

  lemma CountTwice(s: seq<string>, i: nat, j: nat)
    requires i < j < |s| && s[i] == s[j]
    ensures multiset(s)[s[i]] >= 2
  {
    assert s == s[..j] + s[j..] && s[..j][i] == s[i] && s[j..][0] == s[j];
    assert multiset(s) == multiset(s[..j]) + multiset(s[j..]);
    assert s[i] in multiset(s[..j]) && s[j] in multiset(s[j..]);
  }

  lemma {:induction false} CountOnce(t: seq<string>, c: string)
    requires Distinct(t)
    ensures multiset(t)[c] <= 1
  {
    if t != [] {
      CountOnce(t[1..], c);
      assert t == [t[0]] + t[1..];
      assert t[0] !in t[1..];
    }
  }

  /** No nonblank entry is lost, nothing is invented, nothing is repeated. */
  lemma NothingLost(raw: seq<Raw>, i: nat)
    requires i < |raw| && raw[i].Text? && Strip(raw[i].s) != ""
    ensures Normal(Clean(raw[i].s)) in Result(raw) && Distinct(Result(raw))
  {
    hide Normal, Clean, Strip, Result;
    CodesSettled(raw);
    ResultMembers(raw);
  }

  lemma ResultSorted(raw: seq<Raw>)
    ensures SortedByKey(Result(raw)) && WithKey(Result(raw), LAST) == WithKey(Dedup(Codes(raw)), LAST)
  {
    SortIsStable(Dedup(Codes(raw)), LAST);
  }

  /** Dates come first and strictly in calendar order; the rest comes last, in
      the order it was first seen. */
  lemma Chronological(raw: seq<Raw>, i: nat, j: nat)
    requires i < j < |Result(raw)|
    ensures Dated(Result(raw)[j]).Some? ==>
      Dated(Result(raw)[i]).Some? && Key(Result(raw)[i]) < Key(Result(raw)[j])
    ensures WithKey(Result(raw), LAST) == WithKey(Dedup(Codes(raw)), LAST)
  {
    hide Result, Settled, Dated, Key, Codes, Dedup;
    var s := Result(raw);
    ResultSorted(raw);
    ResultMembers(raw);
    CodesSettled(raw);
    assert s[i] in s && s[j] in s && Key(s[i]) <= Key(s[j]);
    if Dated(s[j]).Some? {
      DatedBelowLast(s[j]);
      DatedBelowLast(s[i]);
      if Key(s[i]) == Key(s[j]) {
        KeyInjective(s[j], s[i]);
      }
    }
  }

  lemma DatedBelowLast(c: string)
    requires Settled(c)
    ensures Dated(c).Some? <==> Key(c) < LAST
  {}

  function DatedOnly(s: seq<string>): seq<string> {
    if s == [] then []
    else if Dated(s[0]).Some? then [s[0]] + DatedOnly(s[1..])
    else DatedOnly(s[1..])
  }

  predicate StrictDates(s: seq<string>) {
    && (forall i | 0 <= i < |s| :: Settled(s[i]) && Dated(s[i]).Some?)
    && (forall i, j | 0 <= i < j < |s| :: Key(s[i]) < Key(s[j]))
  }

  lemma {:induction false} DatedOnlyFacts(s: seq<string>)
    requires SortedByKey(s) && Distinct(s) && forall c | c in s :: Settled(c)
    ensures StrictDates(DatedOnly(s)) && forall c :: c in DatedOnly(s) <==> c in s && Dated(c).Some?
  {
    hide Key, Settled, Dated;
    if s != [] {
      DatedOnlyFacts(s[1..]);
      assert s == [s[0]] + s[1..];
      var t := DatedOnly(s[1..]);
      if Dated(s[0]).Some? {
        forall i | 0 <= i < |t| ensures Key(s[0]) < Key(t[i]) {
          assert t[i] in t;
          assert t[i] in s[1..];
          if Key(s[0]) == Key(t[i]) {
            KeyInjective(s[0], t[i]);
          }
        }
      }
    }
  }

  lemma TailMembers(s: seq<string>)
    requires s != [] && StrictDates(s)
    ensures forall c :: c in s[1..] <==> c in s && c != s[0]
  {
    hide Key, Settled, Dated;
    assert s == [s[0]] + s[1..];
    forall k | 1 <= k < |s| ensures s[k] != s[0] { assert Key(s[0]) < Key(s[k]); }
    forall c ensures c in s[1..] <==> c in s && c != s[0] {
      if c in s[1..] {
        var k :| 0 <= k < |s[1..]| && s[1..][k] == c;
        assert s[k + 1] == c;
      }
    }
  }

  /** Strictly sorted dates are determined by their members. */
  lemma {:induction false} StrictDatesUnique(s: seq<string>, t: seq<string>)
    requires StrictDates(s) && StrictDates(t) && forall c :: c in s <==> c in t
    ensures s == t
  {
    hide Key, Settled, Dated;
    assert t != [] ==> t[0] in t;
    if s != [] {
      assert s[0] in t && t != [] && t[0] in s;
      var j :| 0 <= j < |t| && t[j] == s[0];
      var i :| 0 <= i < |s| && s[i] == t[0];
      assert s[0] == t[0];
      TailMembers(s);
      TailMembers(t);
      StrictDatesUnique(s[1..], t[1..]);
    }
  }

  /** The codes are those of the nonblank text entries, whatever their order. */
  lemma {:induction false} CodesOf(raw: seq<Raw>, c: string)
    ensures c in Codes(raw) <==> exists r :: r in raw && HasCode(r, c)
  {
    hide Normal, Clean, Strip;
    if raw != [] {
      var init, last := raw[..|raw| - 1], raw[|raw| - 1];
      CodesOf(init, c);
      assert raw == init + [last];
      if HasCode(last, c) { assert last in raw; }
    }
  }

  predicate HasCode(r: Raw, c: string) {
    r.Text? && Strip(r.s) != "" && Normal(Clean(r.s)) == c
  }

  /** The dated part depends neither on the order the entries came in nor on how
      often each came. */
  lemma OrderIndependent(a: seq<Raw>, b: seq<Raw>)
    requires forall r :: r in a <==> r in b
    ensures DatedOnly(Result(a)) == DatedOnly(Result(b))
  {
    forall c ensures c in Codes(a) <==> c in Codes(b) {
      CodesOf(a, c);
      CodesOf(b, c);
    }
    hide HasCode, Codes, Dated, Key;
    SameCodesSameDates(a, b);
  }

  lemma SameCodesSameDates(a: seq<Raw>, b: seq<Raw>)
    requires forall c :: c in Codes(a) <==> c in Codes(b)
    ensures DatedOnly(Result(a)) == DatedOnly(Result(b))
  {
    ResultMembers(a);
    ResultMembers(b);
    CodesSettled(a);
    CodesSettled(b);
    SortIsStable(Dedup(Codes(a)), 0);
    SortIsStable(Dedup(Codes(b)), 0);
    hide Codes, Settled, Dedup, Dated, Key;
    DatedOnlyFacts(Result(a));
    DatedOnlyFacts(Result(b));
    StrictDatesUnique(DatedOnly(Result(a)), DatedOnly(Result(b)));
  }

  function AsRaw(s: seq<string>): seq<Raw> {
    if s == [] then [] else AsRaw(s[..|s| - 1]) + [Text(s[|s| - 1])]
  }

  lemma SettledFixed(c: string)
    requires Settled(c)
    ensures Strip(c) != "" && Normal(Clean(c)) == c
  {
    TidyIsClean(c);
  }

  lemma {:induction false} CodesOfSettled(s: seq<string>)
    requires forall c | c in s :: Settled(c)
    ensures Codes(AsRaw(s)) == s
  {
    hide Settled, Normal, Clean, Strip;
    if s != [] {
      var init, c := s[..|s| - 1], s[|s| - 1];
      CodesOfSettled(init);
      assert c in s;
      SettledFixed(c);
      assert AsRaw(s)[..|AsRaw(s)| - 1] == AsRaw(init);
    }
  }

  /** Running the result through again changes nothing. */
  lemma Idempotent(raw: seq<Raw>)
    ensures Result(AsRaw(Result(raw))) == Result(raw)
  {
    var s := Result(raw);
    ResultMembers(raw);
    CodesSettled(raw);
    SortIsStable(Dedup(Codes(raw)), 0);
    CodesOfSettled(s);
    DedupOfDistinct(s);
    SortOfSorted(s);
  }

  /** _sorted_expiry_codes */
  method SortedExpiryCodes(raw: seq<Raw>) returns (codes: seq<string>)
    ensures codes == Result(raw)
  {
    codes := [];
    for i := 0 to |raw|
      invariant codes == Codes(raw[..i])
    {
      assert raw[..i + 1][..i] == raw[..i];
      if raw[i].Text? && Strip(raw[i].s) != "" {
        codes := codes + [Normal(Clean(raw[i].s))];
      }
    }
    assert raw[..|raw|] == raw;
    codes := StableSort(Dedup(codes));
  }
}
