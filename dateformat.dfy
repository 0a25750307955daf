/**
 * The two date formats the scheduler uses, with CPython's `_strptime` rules
 * in the "C" locale:
 *   - `datetime.strptime(s, "%b %d, %Y, %I:%M:%S %p")`, which reads a stored
 *     match start such as "Nov 15, 2024, 03:30:00 PM";
 *   - `date.strftime("%b %d, %Y")`, which renders today's date for the query,
 *     and `datetime.strftime` of the full format, the inverse of the parse.
 *
 * `strptime` compiles the format to a regular expression: every run of
 * spaces in the format becomes `\s+`, `%b` and `%p` match case-insensitively,
 * `%d` and `%I` take one or two digits (1-31, 1-12), `%M` one or two (0-59),
 * `%S` one or two (0-61), `%Y` exactly four; the match must use up the whole
 * string. Then `datetime(...)` rejects year 0, a day past the month's end and
 * seconds 60 and 61.
 */
module DateFormat {
  import opened Common
  import opened Calendar

  /** Both are `ValueError` in Python. */
  datatype ParseError =
    | Mismatch    // "time data ... does not match format", or "unconverted data remains"
    | OutOfRange  // the fields match but name no `datetime`

  /** The layout fields `strptime` reads, before any range check of `datetime`. */
  datatype Fields = Fields(month: int, day: int, year: int, hour12: int, minute: int, second: int, pm: bool)

  predicate IsAsciiLetter(c: char) {
    'A' <= c <= 'Z' || 'a' <= c <= 'z'
  }

  predicate IsDigit(c: char) {
    '0' <= c <= '9'
  }

  /** The characters for which Python's `str.isspace()` holds, which `\s` matches. */
  predicate IsSpace(c: char) {
    if c <= ' ' then '\t' <= c <= '\r' || '\U{1C}' <= c
    else c >= '\U{85}' && IsWideSpace(c)
  }

  /** The white space characters beyond ASCII. */
  predicate IsWideSpace(c: char) {
    c == '\U{85}' || c == '\U{A0}' || c == '\U{1680}' || ('\U{2000}' <= c <= '\U{200A}')
    || c == '\U{2028}' || c == '\U{2029}' || c == '\U{202F}' || c == '\U{205F}' || c == '\U{3000}'
  }

  /** The code of `c` with ASCII capitals folded to small letters. */
  function Lower(c: char): int {
    if 'A' <= c <= 'Z' then c as int + 32 else c as int
  }

  /** Three characters equal up to ASCII case, as `re.IGNORECASE` compares a month abbreviation. */
  predicate SameLetters(a: string, b: string) {
    |a| == 3 && |b| == 3 && Lower(a[0]) == Lower(b[0]) && Lower(a[1]) == Lower(b[1]) && Lower(a[2]) == Lower(b[2])
  }

  function MonthAbbrev(m: int): (s: string)
    requires 1 <= m <= 12
    ensures |s| == 3 && IsAsciiLetter(s[0]) && IsAsciiLetter(s[1]) && IsAsciiLetter(s[2])
  {
    match m
    case 1 => "Jan" case 2 => "Feb" case 3 => "Mar" case 4 => "Apr" case 5 => "May" case 6 => "Jun"
    case 7 => "Jul" case 8 => "Aug" case 9 => "Sep" case 10 => "Oct" case 11 => "Nov" case 12 => "Dec"
  }

  /** The first month from `m` on whose abbreviation `s` spells, or 0. */
  function FindMonth(s: string, m: int): (r: int)
    requires 1 <= m <= 13
    ensures r == 0 || m <= r <= 12
    ensures r != 0 ==> SameLetters(s, MonthAbbrev(r))
    ensures forall k :: m <= k <= 12 && (r == 0 || k < r) ==> !SameLetters(s, MonthAbbrev(k))
    decreases 13 - m
  {
    if m == 13 then 0
    else if SameLetters(s, MonthAbbrev(m)) then m
    else FindMonth(s, m + 1)
  }

  /** The month `%b` names, or 0 where it names none. */
  function MonthNumber(s: string): (r: int)
    ensures 0 <= r <= 12
    ensures r != 0 ==> SameLetters(s, MonthAbbrev(r))
    ensures r == 0 ==> forall k :: 1 <= k <= 12 ==> !SameLetters(s, MonthAbbrev(k))
  {
    FindMonth(s, 1)
  }

  function DigitValue(c: char): int
    requires IsDigit(c)
  {
    c as int - '0' as int
  }

  function DigitChar(v: int): (c: char)
    requires 0 <= v <= 9
    ensures IsDigit(c) && DigitValue(c) == v
  {
    ('0' as int + v) as char
  }

  /** The end of the run of ASCII digits that starts at `i`. */
  function DigitsEnd(s: string, i: nat): (j: nat)
    requires i <= |s|
    ensures i <= j <= |s|
    ensures forall k :: i <= k < j ==> IsDigit(s[k])
    ensures j < |s| ==> !IsDigit(s[j])
    decreases |s| - i
  {
    if i < |s| && IsDigit(s[i]) then DigitsEnd(s, i + 1) else i
  }

  /** The end of the run of white space that starts at `i`. */
  function SpacesEnd(s: string, i: nat): (j: nat)
    requires i <= |s|
    ensures i <= j <= |s|
    ensures forall k :: i <= k < j ==> IsSpace(s[k])
    ensures j < |s| ==> !IsSpace(s[j])
    decreases |s| - i
  {
    if i < |s| && IsSpace(s[i]) then SpacesEnd(s, i + 1) else i
  }

  /** The decimal number the digits `s[i..j]` spell. */
  function NumberValue(s: string, i: nat, j: nat): nat
    requires i <= j <= |s|
    requires forall k :: i <= k < j ==> IsDigit(s[k])
    decreases j - i
  {
    if i == j then 0 else NumberValue(s, i, j - 1) * 10 + DigitValue(s[j - 1])
  }

  /** `%p` at the end of the string: `Some(true)` for PM. */
  function Meridiem(s: string): (r: Option<bool>)
    ensures r == Some(false) <==> |s| == 2 && Lower(s[0]) == 'a' as int && Lower(s[1]) == 'm' as int
    ensures r == Some(true) <==> |s| == 2 && Lower(s[0]) == 'p' as int && Lower(s[1]) == 'm' as int
  {
    if |s| != 2 || Lower(s[1]) != 'm' as int then None
    else if Lower(s[0]) == 'a' as int then Some(false)
    else if Lower(s[0]) == 'p' as int then Some(true)
    else None
  }

  /** 12-hour clock to 24-hour clock: 12 AM is hour 0, 12 PM is hour 12, other PM hours add 12. */
  function Hour24(hour12: int, pm: bool): (h: int)
    requires 1 <= hour12 <= 12
    ensures 0 <= h < 24 && (h >= 12 <==> pm)
  {
    if pm then (if hour12 == 12 then 12 else hour12 + 12)
    else (if hour12 == 12 then 0 else hour12)
  }

  /** 24-hour clock to the hour `%I` prints. */
  function Hour12(hour: int): int
    requires 0 <= hour < 24
  {
    if hour % 12 == 0 then 12 else hour % 12
  }

  /** No ASCII letter in `s[i..j]`. */
  predicate NoLetters(s: string, i: int, j: int) {
    forall k :: 0 <= i <= k < j <= |s| ==> !IsAsciiLetter(s[k])
  }

  /** The parts of the format after `%b`, in the order the match reads them. */
  datatype Part = DayPart | YearPart | HourPart | MinutePart | SecondPart | MeridiemPart

  /** The number of parts that follow `f`. */
  function Rest(f: Part): nat {
    match f
    case DayPart => 5
    case YearPart => 4
    case HourPart => 3
    case MinutePart => 2
    case SecondPart => 1
    case MeridiemPart => 0
  }

  /**
   * The match proceeds left to right through the format: `Read(s, i, x, f)`
   * matches part `f` at `s[i]`, records the field it reads in `x`, and goes
   * on with the next part:
   *   DayPart       `\s+%d,`
   *   YearPart      `\s+%Y,`
   *   HourPart      `\s+%I:`
   *   MinutePart    `%M:`
   *   SecondPart    `%S`
   *   MeridiemPart  `\s+%p` and then the end of the string.
   */
  function Read(s: string, i: nat, x: Fields, f: Part): (r: Option<Fields>)
    requires i <= |s|
    ensures r.Some? ==> r.value.month == x.month
    ensures r.Some? && f != DayPart ==> r.value.day == x.day
    ensures r.Some? && Rest(f) < 4 ==> r.value.year == x.year
    decreases Rest(f)
  {
    match Step(s, i, x, f)
    case None => None
    case Some(c) => if f == MeridiemPart then Some(c.fields) else Read(s, c.next, c.fields, NextPart(f))
  }

  /** Where the match goes on, and the fields read so far. */
  datatype Cursor = Cursor(next: nat, fields: Fields)

  /** Part `f` matched at `s[i]`, with its field read into `x`. */
  function Step(s: string, i: nat, x: Fields, f: Part): (r: Option<Cursor>)
    requires i <= |s|
    ensures r.Some? ==> r.value.next <= |s| && r.value.fields.month == x.month
    ensures r.Some? && f != DayPart ==> r.value.fields.day == x.day
    ensures r.Some? && f != YearPart ==> r.value.fields.year == x.year
  {
    match f
    case DayPart =>
      var a := SpacesEnd(s, i);
      var j := DigitsEnd(s, a);
      if a == i || !(1 <= j - a <= 2) || j == |s| || s[j] != ',' then None
      else Some(Cursor(j + 1, x.(day := NumberValue(s, a, j))))
    case YearPart =>
      var a := SpacesEnd(s, i);
      var j := DigitsEnd(s, a);
      if a == i || j - a != 4 || j == |s| || s[j] != ',' then None
      else Some(Cursor(j + 1, x.(year := NumberValue(s, a, j))))
    case HourPart =>
      var a := SpacesEnd(s, i);
      var j := DigitsEnd(s, a);
      if a == i || !(1 <= j - a <= 2) || j == |s| || s[j] != ':' then None
      else Some(Cursor(j + 1, x.(hour12 := NumberValue(s, a, j))))
    case MinutePart =>
      var j := DigitsEnd(s, i);
      if !(1 <= j - i <= 2) || j == |s| || s[j] != ':' then None
      else Some(Cursor(j + 1, x.(minute := NumberValue(s, i, j))))
    case SecondPart =>
      var j := DigitsEnd(s, i);
      if !(1 <= j - i <= 2) then None
      else Some(Cursor(j, x.(second := NumberValue(s, i, j))))
    case MeridiemPart =>
      var j := SpacesEnd(s, i);
      if j == i then None
      else
        match Meridiem(s[j..])
        case None => None
        case Some(pm) => Some(Cursor(|s|, x.(pm := pm)))
  }

  /** Matches the layout of "%b %d, %Y, %I:%M:%S %p" and reads its fields. */
  function Scan(s: string): (r: Option<Fields>)
    ensures r.Some? ==> |s| >= 3 && 1 <= r.value.month <= 12 && r.value.month == MonthNumber(s[..3])
  {
    if |s| < 3 || MonthNumber(s[..3]) == 0 then None
    else Read(s, 3, Fields(MonthNumber(s[..3]), 0, 0, 0, 0, 0, false), DayPart)
  }

  /** The fields name a `datetime`: each within its range, the day within its month. */
  predicate InRange(x: Fields)
    requires 1 <= x.month <= 12
  {
    MinYear <= x.year <= MaxYear && 1 <= x.day <= DaysInMonth(x.year, x.month)
    && 1 <= x.hour12 <= 12 && 0 <= x.minute <= 59 && 0 <= x.second <= 59
  }

  /** The range checks of the regular expression's alternatives, then those of `datetime`. */
  function FromFields(x: Fields): (r: Result<DateTime, ParseError>)
    requires 1 <= x.month <= 12
    ensures r.Ok? <==> InRange(x)
    ensures r.Ok? ==> ValidDateTime(r.value) && FieldsOf(r.value) == x
    ensures r == Err(Mismatch) <==>
      !(1 <= x.day <= 31 && 1 <= x.hour12 <= 12 && 0 <= x.minute <= 59 && 0 <= x.second <= 61)
  {
    if !(1 <= x.day <= 31 && 1 <= x.hour12 <= 12 && 0 <= x.minute <= 59 && 0 <= x.second <= 61) then
      Err(Mismatch)
    else if x.year < MinYear || x.year > MaxYear || x.day > DaysInMonth(x.year, x.month) || x.second > 59 then
      Err(OutOfRange)
    else
      Ok(DateTime(Date(x.year, x.month, x.day), Hour24(x.hour12, x.pm), x.minute, x.second))
  }

  /** `datetime.strptime(s, "%b %d, %Y, %I:%M:%S %p")`. */
  function Parse(s: string): (r: Result<DateTime, ParseError>)
    ensures r.Ok? ==> ValidDateTime(r.value)
  {
    match Scan(s)
    case None => Err(Mismatch)
    case Some(x) => FromFields(x)
  }

  function Pad2(v: int): (s: string)
    requires 0 <= v < 100
    ensures |s| == 2 && IsDigit(s[0]) && IsDigit(s[1])
  {
    [DigitChar(v / 10), DigitChar(v % 10)]
  }

  function Pad4(v: int): (s: string)
    requires 0 <= v < 10000
    ensures |s| == 4 && IsDigit(s[0]) && IsDigit(s[1]) && IsDigit(s[2]) && IsDigit(s[3])
  {
    Pad2(v / 100) + Pad2(v % 100)
  }

  /** `date.strftime("%b %d, %Y")`, e.g. "Nov 15, 2024". */
  function FormatDate(d: Date): (s: string)
    requires ValidDate(d)
    ensures |s| == 12
  {
    var m, dd, yy := MonthAbbrev(d.month), Pad2(d.day), Pad4(d.year);
    [m[0], m[1], m[2], ' ', dd[0], dd[1], ',', ' ', yy[0], yy[1], yy[2], yy[3]]
  }

  /** Field values narrow enough for the zero-padded layout. */
  predicate Printable(y: Fields) {
    1 <= y.month <= 12 && 0 <= y.day < 100 && 0 <= y.year < 10000
    && 0 <= y.hour12 < 100 && 0 <= y.minute < 100 && 0 <= y.second < 100
  }

  /** The fields `y` printed in the layout of "%b %d, %Y, %I:%M:%S %p". */
  function FormatFields(y: Fields): (s: string)
    requires Printable(y)
    ensures |s| == 25
  {
    var m, dd, yy := MonthAbbrev(y.month), Pad2(y.day), Pad4(y.year);
    var hh, mi, ss := Pad2(y.hour12), Pad2(y.minute), Pad2(y.second);
    [m[0], m[1], m[2], ' ', dd[0], dd[1], ',', ' ', yy[0], yy[1], yy[2], yy[3], ',', ' ',
     hh[0], hh[1], ':', mi[0], mi[1], ':', ss[0], ss[1], ' ', if y.pm then 'P' else 'A', 'M']
  }

  /** The fields `strftime` prints for `t`: `%I` is the 12-hour clock, `%p` says whether it is after noon. */
  function FieldsOf(t: DateTime): (y: Fields)
    requires ValidDateTime(t)
    ensures Printable(y)
  {
    Fields(t.date.month, t.date.day, t.date.year, Hour12(t.hour), t.minute, t.second, t.hour >= 12)
  }

  /** `datetime.strftime("%b %d, %Y, %I:%M:%S %p")`, e.g. "Nov 15, 2024, 03:30:00 PM". */
  function FormatDateTime(t: DateTime): (s: string)
    requires ValidDateTime(t)
    ensures |s| == 25
  {
    FormatFields(FieldsOf(t))
  }

  /** Reading the hour `%I` prints, with its AM/PM, gives back the 24-hour hour. */
  lemma HourRoundTrip(hour: int)
    requires 0 <= hour < 24
    ensures 1 <= Hour12(hour) <= 12 && Hour24(Hour12(hour), hour >= 12) == hour
  {
  }

  /** Every 12-hour reading names a distinct hour, PM exactly from noon on. */
  lemma Hour24RoundTrip(hour12: int, pm: bool)
    requires 1 <= hour12 <= 12
    ensures 0 <= Hour24(hour12, pm) < 24
    ensures Hour12(Hour24(hour12, pm)) == hour12 && (Hour24(hour12, pm) >= 12 <==> pm)
  {
  }

  /** `%b` reads back the abbreviation `strftime` prints for each month. */
  lemma MonthNumberOfAbbrev(m: int)
    requires 1 <= m <= 12
    ensures MonthNumber(MonthAbbrev(m)) == m
  {
    if m <= 6 {
      FirstHalfAbbrevs(m);
    } else if m <= 9 {
      ThirdQuarterAbbrevs(m);
    } else {
      LastQuarterAbbrevs(m);
    }
  }

  lemma FirstHalfAbbrevs(m: int)
    requires 1 <= m <= 6
    ensures MonthNumber(MonthAbbrev(m)) == m
  {
  }

  lemma ThirdQuarterAbbrevs(m: int)
    requires 7 <= m <= 9
    ensures MonthNumber(MonthAbbrev(m)) == m
  {
  }

  lemma LastQuarterAbbrevs(m: int)
    requires 10 <= m <= 12
    ensures MonthNumber(MonthAbbrev(m)) == m
  {
  }

  lemma DigitIsNoSpace(c: char)
    requires IsDigit(c)
    ensures !IsSpace(c) && !IsAsciiLetter(c)
  {
  }

  /** `Pad2(v)` sits at `s[i..i + 2]`. */
  predicate TwoAt(s: string, i: nat, v: int)
    requires 0 <= v < 100
  {
    i + 2 <= |s| && s[i] == Pad2(v)[0] && s[i + 1] == Pad2(v)[1]
  }

  /** `Pad4(v)` sits at `s[i..i + 4]`. */
  predicate FourAt(s: string, i: nat, v: int)
    requires 0 <= v < 10000
  {
    var p := Pad4(v);
    i + 4 <= |s| && s[i] == p[0] && s[i + 1] == p[1] && s[i + 2] == p[2] && s[i + 3] == p[3]
  }

  /** `s` begins with month `y.month`, day `y.day` and year `y.year` as "%b %d, %Y" prints them. */
  predicate ShowsDate(s: string, y: Fields)
    requires Printable(y)
  {
    |s| >= 12 && s[..3] == MonthAbbrev(y.month) && s[3] == ' ' && TwoAt(s, 4, y.day) && s[6] == ','
    && s[7] == ' ' && FourAt(s, 8, y.year)
  }

  /** `s[12..]` is ", %I:%M:%S %p" printed from the clock fields of `y`. */
  predicate ShowsClock(s: string, y: Fields)
    requires Printable(y)
  {
    |s| == 25 && s[12] == ',' && s[13] == ' ' && TwoAt(s, 14, y.hour12) && s[16] == ':'
    && TwoAt(s, 17, y.minute) && s[19] == ':' && TwoAt(s, 20, y.second) && s[22] == ' '
    && s[23] == (if y.pm then 'P' else 'A') && s[24] == 'M'
  }

  lemma OneSpace(s: string, i: nat)
    requires i + 1 < |s| && IsSpace(s[i]) && IsDigit(s[i + 1])
    ensures SpacesEnd(s, i) == i + 1
  {
    DigitIsNoSpace(s[i + 1]);
    assert SpacesEnd(s, i + 1) == i + 1;
  }

  /** Two digits spelling `v`, then a non-digit. */
  lemma TwoDigits(s: string, i: nat, v: int)
    requires 0 <= v < 100 && TwoAt(s, i, v) && i + 2 < |s| && !IsDigit(s[i + 2])
    ensures IsDigit(s[i]) && DigitsEnd(s, i) == i + 2 && NumberValue(s, i, i + 2) == v
  {
    Pad2Value(v);
    assert DigitsEnd(s, i + 2) == i + 2;
    assert DigitsEnd(s, i + 1) == i + 2;
    assert NumberValue(s, i, i + 1) == DigitValue(s[i]);
  }

  /** Four digits spelling `v`: the run of digits reaches at least their end. */
  lemma FourDigits(s: string, i: nat, v: int)
    requires 0 <= v < 10000 && FourAt(s, i, v)
    ensures IsDigit(s[i]) && DigitsEnd(s, i) >= i + 4 && NumberValue(s, i, i + 4) == v
  {
    Pad4Value(v);
    assert DigitsEnd(s, i) == DigitsEnd(s, i + 4);
    assert NumberValue(s, i, i + 1) == DigitValue(s[i]);
    assert NumberValue(s, i, i + 2) == DigitValue(s[i]) * 10 + DigitValue(s[i + 1]);
  }

  lemma Pad2Value(v: int)
    requires 0 <= v < 100
    ensures DigitValue(Pad2(v)[0]) * 10 + DigitValue(Pad2(v)[1]) == v
  {
  }

  lemma Pad4Value(v: int)
    requires 0 <= v < 10000
    ensures var p := Pad4(v);
      ((DigitValue(p[0]) * 10 + DigitValue(p[1])) * 10 + DigitValue(p[2])) * 10 + DigitValue(p[3]) == v
  {
    var hi, lo := Pad2(v / 100), Pad2(v % 100);
    Pad2Value(v / 100);
    Pad2Value(v % 100);
    assert Pad4(v) == hi + lo;
    assert v == v / 100 * 100 + v % 100;
  }

  /*
   * Each step below shows that, on the printed layout, one reader reads its
   * field and hands on to the next reader at the next fixed position.
   */

  lemma DayStep(s: string, x: Fields, y: Fields)
    requires Printable(y) && ShowsDate(s, y)
    ensures Read(s, 3, x, DayPart) == Read(s, 7, x.(day := y.day), YearPart)
  {
    TwoDigits(s, 4, y.day);
    OneSpace(s, 3);
  }

  lemma YearPartStep(s: string, x: Fields, y: Fields)
    requires Printable(y) && ShowsDate(s, y) && ShowsClock(s, y)
    ensures Read(s, 7, x, YearPart) == Read(s, 13, x.(year := y.year), HourPart)
  {
    FourDigits(s, 8, y.year);
    OneSpace(s, 7);
    assert DigitsEnd(s, 12) == 12;
  }

  lemma HourStep(s: string, x: Fields, y: Fields)
    requires Printable(y) && ShowsClock(s, y)
    ensures Read(s, 13, x, HourPart) == Read(s, 17, x.(hour12 := y.hour12), MinutePart)
  {
    TwoDigits(s, 14, y.hour12);
    OneSpace(s, 13);
  }

  lemma MinuteStep(s: string, x: Fields, y: Fields)
    requires Printable(y) && ShowsClock(s, y)
    ensures Read(s, 17, x, MinutePart) == Read(s, 20, x.(minute := y.minute), SecondPart)
  {
    TwoDigits(s, 17, y.minute);
  }

  lemma SecondStep(s: string, x: Fields, y: Fields)
    requires Printable(y) && ShowsClock(s, y)
    ensures Read(s, 20, x, SecondPart) == Read(s, 22, x.(second := y.second), MeridiemPart)
  {
    TwoDigits(s, 20, y.second);
  }

  lemma MeridiemStep(s: string, x: Fields, y: Fields)
    requires Printable(y) && ShowsClock(s, y)
    ensures Read(s, 22, x, MeridiemPart) == Some(x.(pm := y.pm))
  {
    assert SpacesEnd(s, 23) == 23;
    assert s[23..] == [s[23], 'M'];
  }

  /** From the hour on, the printed layout reads back the clock fields of `y`. */
  lemma ReadClock(s: string, x: Fields, y: Fields)
    requires Printable(y) && ShowsClock(s, y)
    ensures Read(s, 13, x, HourPart) == Some(x.(hour12 := y.hour12, minute := y.minute, second := y.second, pm := y.pm))
  {
    var x3 := x.(hour12 := y.hour12);
    var x4 := x3.(minute := y.minute);
    var x5 := x4.(second := y.second);
    HourStep(s, x, y);
    MinuteStep(s, x3, y);
    SecondStep(s, x4, y);
    MeridiemStep(s, x5, y);
  }

  lemma SpacesNoLetters(s: string, i: nat)
    requires i <= |s|
    ensures NoLetters(s, i, SpacesEnd(s, i))
  {
  }

  lemma DigitsNoLetters(s: string, i: nat)
    requires i <= |s|
    ensures NoLetters(s, i, DigitsEnd(s, i))
  {
  }

  /** Two adjacent letter-free runs make one. */
  lemma NoLettersJoin(s: string, i: nat, j: nat, e: nat)
    requires i <= j <= e <= |s| && NoLetters(s, i, j) && NoLetters(s, j, e)
    ensures NoLetters(s, i, e)
  {
    forall k | i <= k < e
      ensures !IsAsciiLetter(s[k])
    {
      if k < j {
      }
    }
  }

  /** Letter-free runs `s[i..a]`, `s[a..j]`, the delimiter `s[j]` and `s[j + 1..e]` make one letter-free run. */
  lemma NoLettersAcross(s: string, i: nat, a: nat, j: nat, e: nat)
    requires i <= a <= j < e <= |s| && NoLetters(s, i, a) && NoLetters(s, a, j)
    requires !IsAsciiLetter(s[j]) && NoLetters(s, j + 1, e)
    ensures NoLetters(s, i, e)
  {
    forall k | i <= k < e
      ensures !IsAsciiLetter(s[k])
    {
      if k < a {
      } else if k < j {
      } else if k > j {
      }
    }
  }

  lemma MeridiemLayout(s: string, i: nat, x: Fields)
    requires i <= |s| && Read(s, i, x, MeridiemPart).Some?
    ensures i + 2 < |s| && NoLetters(s, i, |s| - 2)
  {
    SpacesNoLetters(s, i);
  }

  lemma SecondLayout(s: string, i: nat, x: Fields)
    requires i <= |s| && Read(s, i, x, SecondPart).Some?
    ensures i + 2 < |s| && NoLetters(s, i, |s| - 2)
  {
    var j := DigitsEnd(s, i);
    DigitsNoLetters(s, i);
    MeridiemLayout(s, j, x.(second := NumberValue(s, i, j)));
    NoLettersJoin(s, i, j, |s| - 2);
  }

  lemma MinuteLayout(s: string, i: nat, x: Fields)
    requires i <= |s| && Read(s, i, x, MinutePart).Some?
    ensures i + 2 < |s| && NoLetters(s, i, |s| - 2)
  {
    var j := DigitsEnd(s, i);
    DigitsNoLetters(s, i);
    SecondLayout(s, j + 1, x.(minute := NumberValue(s, i, j)));
    NoLettersAcross(s, i, i, j, |s| - 2);
  }

  lemma HourLayout(s: string, i: nat, x: Fields)
    requires i <= |s| && Read(s, i, x, HourPart).Some?
    ensures i + 2 < |s| && NoLetters(s, i, |s| - 2)
  {
    var a := SpacesEnd(s, i);
    var j := DigitsEnd(s, a);
    SpacesNoLetters(s, i);
    DigitsNoLetters(s, a);
    MinuteLayout(s, j + 1, x.(hour12 := NumberValue(s, a, j)));
    NoLettersAcross(s, i, a, j, |s| - 2);
  }

  lemma YearLayout(s: string, i: nat, x: Fields)
    requires i <= |s| && Read(s, i, x, YearPart).Some?
    ensures i + 2 < |s| && NoLetters(s, i, |s| - 2)
  {
    var a := SpacesEnd(s, i);
    var j := DigitsEnd(s, a);
    SpacesNoLetters(s, i);
    DigitsNoLetters(s, a);
    HourLayout(s, j + 1, x.(year := NumberValue(s, a, j)));
    NoLettersAcross(s, i, a, j, |s| - 2);
  }

  lemma DayLayout(s: string, i: nat, x: Fields)
    requires i <= |s| && Read(s, i, x, DayPart).Some?
    ensures i + 2 < |s| && IsSpace(s[i]) && NoLetters(s, i, |s| - 2)
  {
    var a := SpacesEnd(s, i);
    var j := DigitsEnd(s, a);
    SpacesNoLetters(s, i);
    DigitsNoLetters(s, a);
    YearLayout(s, j + 1, x.(day := NumberValue(s, a, j)));
    NoLettersAcross(s, i, a, j, |s| - 2);
  }

  /** Outside the month and AM/PM a string that matches holds no letter, and white space follows the month. */
  lemma ScanLayout(s: string)
    requires Scan(s).Some?
    ensures |s| > 5 && IsSpace(s[3])
    ensures forall k :: 3 <= k < |s| - 2 ==> !IsAsciiLetter(s[k])
  {
    DayLayout(s, 3, Fields(MonthNumber(s[..3]), 0, 0, 0, 0, 0, false));
  }

  /** A matching string that begins with a printed date carries that date. */
  lemma ScanDatePrefix(s: string, y: Fields)
    requires Printable(y) && ShowsDate(s, y) && Scan(s).Some?
    ensures Scan(s).value.month == y.month && Scan(s).value.day == y.day && Scan(s).value.year == y.year
  {
    MonthNumberOfAbbrev(y.month);
    var x0 := Fields(y.month, 0, 0, 0, 0, 0, false);
    assert Scan(s) == Read(s, 3, x0, DayPart);
    DayStep(s, x0, y);
    YearPrefix(s, x0.(day := y.day), y);
  }

  /** Where the year part matches after a printed year, it reads that year. */
  lemma YearPrefix(s: string, x: Fields, y: Fields)
    requires Printable(y) && ShowsDate(s, y) && Read(s, 7, x, YearPart).Some?
    ensures Read(s, 7, x, YearPart).value.year == y.year
  {
    FourDigits(s, 8, y.year);
    OneSpace(s, 7);
    assert DigitsEnd(s, 8) == 12;
  }

  /** The fields of a date, with the clock fields left at zero. */
  function DateFields(d: Date): (y: Fields)
    requires ValidDate(d)
    ensures Printable(y)
  {
    Fields(d.month, d.day, d.year, 0, 0, 0, false)
  }

  /** What `Parse` returns for a string that begins with `FormatDate(d)` is on `d`. */
  lemma ParseDatePrefix(s: string, d: Date)
    requires ValidDate(d) && |s| >= 12 && s[..12] == FormatDate(d) && Parse(s).Ok?
    ensures Parse(s).value.date == d
  {
    FormatDateShows(s, d);
    ScanDatePrefix(s, DateFields(d));
  }

  /** A string that starts with `FormatDate(d)` shows the fields of `d`. */
  lemma FormatDateShows(s: string, d: Date)
    requires ValidDate(d) && |s| >= 12 && s[..12] == FormatDate(d)
    ensures ShowsDate(s, DateFields(d))
  {
    var p := FormatDate(d);
    assert forall k :: 0 <= k < 12 ==> s[k] == p[k];
    assert s[..3] == p[..3];
  }

  /** From the day on, the printed layout reads back every field after the month. */
  lemma ReadDate(s: string, x: Fields, y: Fields)
    requires Printable(y) && ShowsDate(s, y) && ShowsClock(s, y)
    ensures Read(s, 3, x, DayPart) == Some(x.(day := y.day, year := y.year, hour12 := y.hour12,
                                                minute := y.minute, second := y.second, pm := y.pm))
  {
    var x1 := x.(day := y.day);
    DayStep(s, x, y);
    YearPartStep(s, x1, y);
    ReadClock(s, x1.(year := y.year), y);
  }

  /** A string in the canonical layout matches, and `strptime` reads exactly the fields it shows. */
  lemma ScanShown(s: string, y: Fields)
    requires Printable(y) && ShowsDate(s, y) && ShowsClock(s, y)
    ensures Scan(s) == Some(y)
  {
    var x0 := Fields(y.month, 0, 0, 0, 0, 0, false);
    MonthNumberOfAbbrev(y.month);
    assert MonthNumber(s[..3]) == y.month;
    assert Scan(s) == Read(s, 3, x0, DayPart);
    ReadDate(s, x0, y);
  }

  /** The printed fields of `t` pass every range check and name `t` again. */
  lemma FromFieldsOf(t: DateTime)
    requires ValidDateTime(t)
    ensures FromFields(FieldsOf(t)) == Ok(t)
  {
    HourRoundTrip(t.hour);
  }

  lemma FormatShowsDate(y: Fields)
    requires Printable(y)
    ensures ShowsDate(FormatFields(y), y)
  {
    assert FormatFields(y)[..3] == MonthAbbrev(y.month);
  }

  lemma FormatShowsClock(y: Fields)
    requires Printable(y)
    ensures ShowsClock(FormatFields(y), y)
  {
  }

  /** `strptime` matches whatever fields are printed in its layout, and reads them back unchanged. */
  lemma ScanFormatFields(y: Fields)
    requires Printable(y)
    ensures Scan(FormatFields(y)) == Some(y)
  {
    FormatShowsDate(y);
    FormatShowsClock(y);
    ScanShown(FormatFields(y), y);
  }

  /** `strptime` reads back what `strftime` prints with the same format. */
  lemma ParseFormatRoundTrip(t: DateTime)
    requires ValidDateTime(t)
    ensures Parse(FormatDateTime(t)) == Ok(t)
  {
    ScanFormatFields(FieldsOf(t));
    FromFieldsOf(t);
  }

  /* Worked cases of the 12-hour clock and of the error paths. */

  lemma AfternoonExample()
    ensures Parse("Nov 15, 2024, 03:30:00 PM") == Ok(DateTime(Date(2024, 11, 15), 15, 30, 0))
  {
    var t := DateTime(Date(2024, 11, 15), 15, 30, 0);
    assert FormatDateTime(t) == "Nov 15, 2024, 03:30:00 PM";
    ParseFormatRoundTrip(t);
  }

  /** 12 AM is the first hour of the day. */
  lemma MidnightHourExample()
    ensures Parse("Nov 15, 2024, 12:05:00 AM") == Ok(DateTime(Date(2024, 11, 15), 0, 5, 0))
  {
    var t := DateTime(Date(2024, 11, 15), 0, 5, 0);
    assert FormatDateTime(t) == "Nov 15, 2024, 12:05:00 AM";
    ParseFormatRoundTrip(t);
  }

  /** Ten past midnight on a leap-year 1 March. */
  lemma EarlyMorningExample()
    ensures Parse("Mar 01, 2024, 12:10:00 AM") == Ok(DateTime(Date(2024, 3, 1), 0, 10, 0))
  {
    var t := DateTime(Date(2024, 3, 1), 0, 10, 0);
    assert FormatDateTime(t) == "Mar 01, 2024, 12:10:00 AM";
    ParseFormatRoundTrip(t);
  }

  /** 12 PM is noon. */
  lemma NoonExample()
    ensures Parse("Nov 15, 2024, 12:30:00 PM") == Ok(DateTime(Date(2024, 11, 15), 12, 30, 0))
  {
    var t := DateTime(Date(2024, 11, 15), 12, 30, 0);
    assert FormatDateTime(t) == "Nov 15, 2024, 12:30:00 PM";
    ParseFormatRoundTrip(t);
  }

  /** The layout matches, but February 2024 has no 30th. */
  lemma DayPastMonthEndExample()
    ensures Parse("Feb 30, 2024, 10:00:00 AM") == Err(OutOfRange)
  {
    var y := Fields(2, 30, 2024, 10, 0, 0, false);
    assert FormatFields(y) == "Feb 30, 2024, 10:00:00 AM";
    ScanFormatFields(y);
  }

  /** A string in the layout of the format parses exactly as far as its fields' ranges allow. */
  lemma ParseFormatFields(y: Fields)
    requires Printable(y)
    ensures Parse(FormatFields(y)) == FromFields(y)
  {
    ScanFormatFields(y);
  }

  /** `%I` matches only 01 to 12, so an hour such as 00 or 13 is a mismatch. */
  lemma HourOutsideClockRejected(y: Fields)
    requires Printable(y) && !(1 <= y.hour12 <= 12)
    ensures Parse(FormatFields(y)) == Err(Mismatch)
  {
    ScanFormatFields(y);
  }

  /** `%S` matches 60 and 61, which `datetime` then refuses. */
  lemma LeapSecondRejected(y: Fields)
    requires Printable(y) && 1 <= y.day <= 31 && 1 <= y.hour12 <= 12 && y.minute <= 59
    requires 60 <= y.second <= 61
    ensures Parse(FormatFields(y)) == Err(OutOfRange)
  {
    ScanFormatFields(y);
  }

  /** `%Y` matches 0000, which is before year 1. */
  lemma YearZeroRejected(y: Fields)
    requires Printable(y) && 1 <= y.day <= 31 && 1 <= y.hour12 <= 12 && y.minute <= 59 && y.second <= 61
    requires y.year == 0
    ensures Parse(FormatFields(y)) == Err(OutOfRange)
  {
    ScanFormatFields(y);
  }

  /** The month and the AM/PM marker are read without regard to case. */
  lemma MonthCaseExample()
    ensures MonthNumber("nOV") == 11
  {
  }

  /** One letter off is no month at all. */
  lemma NoSuchMonthExample()
    ensures MonthNumber("Now") == 0
  {
  }

  lemma MeridiemCaseExample()
    ensures Meridiem("pm") == Some(true) && Meridiem("Am") == Some(false) && Meridiem("PN") == None
  {
  }

  // ---------------------------------------------------------------------
  // The strings the format accepts, described without the matcher

  /**
   * One part of the format after `%b`: the white space in front of it (`\s+`,
   * nothing for `%M` and `%S`), then its digits or its AM/PM. The literal that
   * follows the part is fixed by the part, see `Separator`.
   */
  datatype Piece = Piece(lead: string, body: string)

  /** A string cut into the pieces of "%b %d, %Y, %I:%M:%S %p": the month name, then one piece per part. */
  datatype Layout = Layout(month: string, pieces: seq<Piece>)

  /** The part after `f`; `%p` is the last. */
  function NextPart(f: Part): (g: Part)
    requires f != MeridiemPart
    ensures Rest(g) + 1 == Rest(f)
  {
    match f
    case DayPart => YearPart
    case YearPart => HourPart
    case HourPart => MinutePart
    case MinutePart => SecondPart
    case SecondPart => MeridiemPart
  }

  /** The literal that follows part `f` in the format. */
  function Separator(f: Part): string {
    match f
    case DayPart => ","
    case YearPart => ","
    case HourPart => ":"
    case MinutePart => ":"
    case SecondPart => ""
    case MeridiemPart => ""
  }

  /** A non-empty run of white space, as `\s+` matches. */
  predicate Blank(w: string) {
    |w| >= 1 && forall k :: 0 <= k < |w| ==> IsSpace(w[k])
  }

  /** Between `lo` and `hi` ASCII digits. */
  predicate DigitRun(w: string, lo: nat, hi: nat) {
    lo <= |w| <= hi && forall k :: 0 <= k < |w| ==> IsDigit(w[k])
  }

  /** What part `f` admits: one or two digits, four for the year, and AM/PM in any case at the end. */
  predicate PieceFits(f: Part, p: Piece) {
    match f
    case DayPart => Blank(p.lead) && DigitRun(p.body, 1, 2)
    case YearPart => Blank(p.lead) && DigitRun(p.body, 4, 4)
    case HourPart => Blank(p.lead) && DigitRun(p.body, 1, 2)
    case MinutePart => p.lead == [] && DigitRun(p.body, 1, 2)
    case SecondPart => p.lead == [] && DigitRun(p.body, 1, 2)
    case MeridiemPart => Blank(p.lead) && Meridiem(p.body).Some?
  }

  /** `ps` holds one fitting piece for each part from `f` on. */
  predicate FitsFrom(ps: seq<Piece>, f: Part)
    decreases Rest(f)
  {
    |ps| == Rest(f) + 1 && PieceFits(f, ps[0]) && (f != MeridiemPart ==> FitsFrom(ps[1..], NextPart(f)))
  }

  /** The text of the parts from `f` on: each piece followed by its literal. */
  function TextFrom(ps: seq<Piece>, f: Part): string
    requires |ps| == Rest(f) + 1
    decreases Rest(f)
  {
    ps[0].lead + ps[0].body + Separator(f) + (if f == MeridiemPart then [] else TextFrom(ps[1..], NextPart(f)))
  }

  /** The number a run of decimal digits spells. */
  function DigitsValue(w: string): int
  {
    if w == [] then 0 else DigitsValue(w[..|w| - 1]) * 10 + (w[|w| - 1] as int - '0' as int)
  }

  /** The field part `f` reads from its piece. */
  function Assign(x: Fields, f: Part, p: Piece): Fields
  {
    match f
    case DayPart => x.(day := DigitsValue(p.body))
    case YearPart => x.(year := DigitsValue(p.body))
    case HourPart => x.(hour12 := DigitsValue(p.body))
    case MinutePart => x.(minute := DigitsValue(p.body))
    case SecondPart => x.(second := DigitsValue(p.body))
    case MeridiemPart => x.(pm := Meridiem(p.body) == Some(true))
  }

  /** The fields the parts from `f` on spell, on top of `x`. */
  function FieldsFrom(ps: seq<Piece>, f: Part, x: Fields): (y: Fields)
    requires |ps| == Rest(f) + 1
    ensures y.month == x.month
    decreases Rest(f)
  {
    var z := Assign(x, f, ps[0]);
    if f == MeridiemPart then z else FieldsFrom(ps[1..], NextPart(f), z)
  }

  /** The month name is one of the twelve, and every later part fits. */
  predicate Shaped(l: Layout) {
    |l.month| == 3 && MonthNumber(l.month) != 0 && FitsFrom(l.pieces, DayPart)
  }

  /** The string a layout spells. */
  function Render(l: Layout): string
    requires |l.pieces| == Rest(DayPart) + 1
  {
    l.month + TextFrom(l.pieces, DayPart)
  }

  /** The fields a layout spells: its month, then what each piece reads. */
  function LayoutFields(l: Layout): (x: Fields)
    requires |l.pieces| == Rest(DayPart) + 1 && MonthNumber(l.month) != 0
    ensures 1 <= x.month <= 12
  {
    FieldsFrom(l.pieces, DayPart, Fields(MonthNumber(l.month), 0, 0, 0, 0, 0, false))
  }

  /** Digits read in place spell what the same digits cut out spell. */
  lemma {:induction false} NumberValueOfRun(s: string, i: nat, j: nat)
    requires i <= j <= |s| && forall k :: i <= k < j ==> IsDigit(s[k])
    ensures NumberValue(s, i, j) == DigitsValue(s[i..j])
    decreases j - i
  {
    if i < j {
      NumberValueOfRun(s, i, j - 1);
      assert s[i..j][..j - i - 1] == s[i..j - 1];
    }
  }

  /** A piece in front of pieces that fit is one more part that fits. */
  lemma Cons(f: Part, p: Piece, rest: seq<Piece>, x: Fields)
    requires f != MeridiemPart && PieceFits(f, p) && FitsFrom(rest, NextPart(f))
    ensures FitsFrom([p] + rest, f)
    ensures FieldsFrom([p] + rest, f, x) == FieldsFrom(rest, NextPart(f), Assign(x, f, p))
    ensures TextFrom([p] + rest, f) == p.lead + p.body + Separator(f) + TextFrom(rest, NextPart(f))
  {
    assert ([p] + rest)[1..] == rest;
  }

  /** Cutting `s[i..]` at `a`, `j` and after the literal `sep`. */
  lemma Glue(s: string, i: nat, a: nat, j: nat, sep: string)
    requires i <= a <= j && j + |sep| <= |s| && s[j..j + |sep|] == sep
    ensures s[i..a] + s[a..j] + sep + s[j + |sep|..] == s[i..]
  {
    assert s[i..] == s[i..a] + s[a..j] + s[j..j + |sep|] + s[j + |sep|..];
  }

  /** The inverse cut: the pieces of a glued text sit at their offsets. */
  lemma Unglue(s: string, i: nat, p: Piece, sep: string, t: string)
    requires i <= |s| && s[i..] == p.lead + p.body + sep + t
    ensures i + |p.lead| + |p.body| + |sep| <= |s|
    ensures s[i..i + |p.lead|] == p.lead && s[i + |p.lead|..i + |p.lead| + |p.body|] == p.body
    ensures s[i + |p.lead| + |p.body|..i + |p.lead| + |p.body| + |sep|] == sep
    ensures s[i + |p.lead| + |p.body| + |sep|..] == t
  {
    var a, j := i + |p.lead|, i + |p.lead| + |p.body|;
    assert s[i..a] == s[i..][..|p.lead|];
    assert s[a..j] == s[i..][|p.lead|..|p.lead| + |p.body|];
    assert s[j..j + |sep|] == s[i..][|p.lead| + |p.body|..|p.lead| + |p.body| + |sep|];
    assert s[j + |sep|..] == s[i..][|p.lead| + |p.body| + |sep|..];
  }

  /** The run of white space from `i` is exactly `w` when `w` is white space and no white space follows it. */
  lemma {:induction false} SpacesEndAt(s: string, i: nat, w: string)
    requires i + |w| <= |s| && s[i..i + |w|] == w && forall k :: 0 <= k < |w| ==> IsSpace(w[k])
    requires i + |w| < |s| ==> !IsSpace(s[i + |w|])
    ensures SpacesEnd(s, i) == i + |w|
    decreases |w|
  {
    if w != [] {
      assert s[i] == w[0];
      assert s[i + 1..i + |w|] == w[1..];
      SpacesEndAt(s, i + 1, w[1..]);
    }
  }

  /** The run of digits from `i` is exactly `w` when `w` is digits and no digit follows it. */
  lemma {:induction false} DigitsEndAt(s: string, i: nat, w: string)
    requires i + |w| <= |s| && s[i..i + |w|] == w && forall k :: 0 <= k < |w| ==> IsDigit(w[k])
    requires i + |w| < |s| ==> !IsDigit(s[i + |w|])
    ensures DigitsEnd(s, i) == i + |w|
    decreases |w|
  {
    if w != [] {
      assert s[i] == w[0];
      assert s[i + 1..i + |w|] == w[1..];
      DigitsEndAt(s, i + 1, w[1..]);
    }
  }


  /** The steps for `%M` and `%S`: digits, then the literal, with no white space in front. */
  lemma DigitsOnly(s: string, i: nat, x: Fields, f: Part) returns (a: nat, j: nat)
    requires i <= |s| && (f == MinutePart || f == SecondPart) && Step(s, i, x, f).Some?
    ensures a == i <= j && j + |Separator(f)| <= |s| && s[j..j + |Separator(f)|] == Separator(f)
    ensures PieceFits(f, Piece(s[i..a], s[a..j]))
    ensures Step(s, i, x, f) == Some(Cursor(j + |Separator(f)|, Assign(x, f, Piece(s[i..a], s[a..j]))))
  {
    a, j := i, DigitsEnd(s, i);
    NumberValueOfRun(s, a, j);
    if f == MinutePart {
      assert s[j..j + 1] == [s[j]];
    }
  }

  /**
   * A successful step for `%d`, `%Y` or `%I`: the white space `s[i..a]`, the
   * digits `s[a..j]`, then the literal; the match goes on after it.
   */
  lemma LeadAndDigits(s: string, i: nat, x: Fields, f: Part) returns (a: nat, j: nat)
    requires i <= |s| && (f == DayPart || f == YearPart || f == HourPart) && Step(s, i, x, f).Some?
    ensures i <= a <= j && j + 1 <= |s| && s[j..j + 1] == Separator(f)
    ensures PieceFits(f, Piece(s[i..a], s[a..j]))
    ensures Step(s, i, x, f) == Some(Cursor(j + 1, Assign(x, f, Piece(s[i..a], s[a..j]))))
  {
    a := SpacesEnd(s, i);
    j := DigitsEnd(s, a);
    NumberValueOfRun(s, a, j);
    assert s[j..j + 1] == [s[j]];
  }

  /** `Read` succeeds only after a successful step. */
  lemma ReadNeedsStep(s: string, i: nat, x: Fields, f: Part)
    requires i <= |s| && Read(s, i, x, f).Some?
    ensures Step(s, i, x, f).Some?
  {
  }

  /** `Read` after a successful step before `%p` goes on with the next part. */
  lemma ReadAfterStep(s: string, i: nat, x: Fields, f: Part, c: Cursor)
    requires i <= |s| && f != MeridiemPart && Step(s, i, x, f) == Some(c)
    ensures c.next <= |s| && Read(s, i, x, f) == Read(s, c.next, c.fields, NextPart(f))
  {
  }

  /**
   * Soundness from `%p` on: what `Read` accepts is white space, then AM/PM in
   * any case, and nothing after. Each lemma of this chain takes its part as a
   * parameter fixed by the precondition.
   */
  lemma MeridiemSound(s: string, i: nat, x: Fields, f: Part) returns (ps: seq<Piece>)
    requires f == MeridiemPart && i <= |s| && Read(s, i, x, f).Some?
    ensures FitsFrom(ps, f) && TextFrom(ps, f) == s[i..] && Read(s, i, x, f) == Some(FieldsFrom(ps, f, x))
  {
    var j := SpacesEnd(s, i);
    ps := [Piece(s[i..j], s[j..])];
    assert s[i..] == s[i..j] + s[j..];
  }

  /** Soundness from `%S` on: one or two digits, then the pieces from `%p` on. */
  lemma SecondSound(s: string, i: nat, x: Fields, f: Part) returns (ps: seq<Piece>)
    requires f == SecondPart && i <= |s| && Read(s, i, x, f).Some?
    ensures FitsFrom(ps, f) && TextFrom(ps, f) == s[i..] && Read(s, i, x, f) == Some(FieldsFrom(ps, f, x))
  {
    ReadNeedsStep(s, i, x, f);
    var a, j := DigitsOnly(s, i, x, f);
    var p := Piece(s[i..a], s[a..j]);
    var y := Assign(x, f, p);
    ReadAfterStep(s, i, x, f, Cursor(j, y));
    var rest := MeridiemSound(s, j, y, NextPart(f));
    Cons(f, p, rest, x);
    Glue(s, i, a, j, Separator(f));
    ps := [p] + rest;
  }

  /** Soundness from `%M` on: one or two digits and `:`, then the pieces from `%S` on. */
  lemma MinuteSound(s: string, i: nat, x: Fields, f: Part) returns (ps: seq<Piece>)
    requires f == MinutePart && i <= |s| && Read(s, i, x, f).Some?
    ensures FitsFrom(ps, f) && TextFrom(ps, f) == s[i..] && Read(s, i, x, f) == Some(FieldsFrom(ps, f, x))
  {
    ReadNeedsStep(s, i, x, f);
    var a, j := DigitsOnly(s, i, x, f);
    var p := Piece(s[i..a], s[a..j]);
    var y := Assign(x, f, p);
    ReadAfterStep(s, i, x, f, Cursor(j + 1, y));
    var rest := SecondSound(s, j + 1, y, NextPart(f));
    Cons(f, p, rest, x);
    Glue(s, i, a, j, Separator(f));
    ps := [p] + rest;
  }

  /** Soundness from `%I` on: white space, one or two digits and `:`, then the pieces from `%M` on. */
  lemma HourSound(s: string, i: nat, x: Fields, f: Part) returns (ps: seq<Piece>)
    requires f == HourPart && i <= |s| && Read(s, i, x, f).Some?
    ensures FitsFrom(ps, f) && TextFrom(ps, f) == s[i..] && Read(s, i, x, f) == Some(FieldsFrom(ps, f, x))
  {
    ReadNeedsStep(s, i, x, f);
    var a, j := LeadAndDigits(s, i, x, f);
    var p := Piece(s[i..a], s[a..j]);
    var y := Assign(x, f, p);
    ReadAfterStep(s, i, x, f, Cursor(j + 1, y));
    var rest := MinuteSound(s, j + 1, y, NextPart(f));
    Cons(f, p, rest, x);
    Glue(s, i, a, j, Separator(f));
    ps := [p] + rest;
  }

  /** Soundness from `%Y` on: white space, four digits and `,`, then the pieces from `%I` on. */
  lemma YearSound(s: string, i: nat, x: Fields, f: Part) returns (ps: seq<Piece>)
    requires f == YearPart && i <= |s| && Read(s, i, x, f).Some?
    ensures FitsFrom(ps, f) && TextFrom(ps, f) == s[i..] && Read(s, i, x, f) == Some(FieldsFrom(ps, f, x))
  {
    ReadNeedsStep(s, i, x, f);
    var a, j := LeadAndDigits(s, i, x, f);
    var p := Piece(s[i..a], s[a..j]);
    var y := Assign(x, f, p);
    ReadAfterStep(s, i, x, f, Cursor(j + 1, y));
    var rest := HourSound(s, j + 1, y, NextPart(f));
    Cons(f, p, rest, x);
    Glue(s, i, a, j, Separator(f));
    ps := [p] + rest;
  }

  /** Soundness from `%d` on: white space, one or two digits and `,`, then the pieces from `%Y` on. */
  lemma DaySound(s: string, i: nat, x: Fields, f: Part) returns (ps: seq<Piece>)
    requires f == DayPart && i <= |s| && Read(s, i, x, f).Some?
    ensures FitsFrom(ps, f) && TextFrom(ps, f) == s[i..] && Read(s, i, x, f) == Some(FieldsFrom(ps, f, x))
  {
    ReadNeedsStep(s, i, x, f);
    var a, j := LeadAndDigits(s, i, x, f);
    var p := Piece(s[i..a], s[a..j]);
    var y := Assign(x, f, p);
    ReadAfterStep(s, i, x, f, Cursor(j + 1, y));
    var rest := YearSound(s, j + 1, y, NextPart(f));
    Cons(f, p, rest, x);
    Glue(s, i, a, j, Separator(f));
    ps := [p] + rest;
  }

  /**
   * Soundness of the matcher: a string `Scan` accepts is a month name followed
   * by fitting pieces and their literals, and `Scan` reads exactly their fields.
   */
  lemma ScanSound(s: string)
    ensures Scan(s).Some? ==> exists l :: Shaped(l) && Render(l) == s && LayoutFields(l) == Scan(s).value
  {
    if Scan(s).Some? {
      var l := ScanPieces(s);
    }
  }

  lemma ScanPieces(s: string) returns (l: Layout)
    requires Scan(s).Some?
    ensures Shaped(l) && Render(l) == s && LayoutFields(l) == Scan(s).value
  {
    var x := Fields(MonthNumber(s[..3]), 0, 0, 0, 0, 0, false);
    var ps := DaySound(s, 3, x, DayPart);
    l := Layout(s[..3], ps);
    assert s == s[..3] + s[3..];
  }

  /** `Step` for `%d`, `%Y` or `%I` when its white space ends at `a` and its digits at `j`, before the literal. */
  lemma LeadStepAt(s: string, i: nat, a: nat, j: nat, x: Fields, f: Part)
    requires (f == DayPart || f == YearPart || f == HourPart) && i < a <= j < |s|
    requires SpacesEnd(s, i) == a && DigitsEnd(s, a) == j && [s[j]] == Separator(f)
    requires if f == YearPart then j - a == 4 else 1 <= j - a <= 2
    ensures Step(s, i, x, f) == Some(Cursor(j + 1, Assign(x, f, Piece(s[i..a], s[a..j]))))
  {
    NumberValueOfRun(s, a, j);
  }

  /**
   * The step for `%d`, `%Y` or `%I` over a fitting piece and its literal: the
   * white space ends where the digits begin, the digits end at the literal.
   */
  lemma LeadAndDigitsAt(s: string, i: nat, x: Fields, f: Part, p: Piece, t: string)
    requires (f == DayPart || f == YearPart || f == HourPart) && PieceFits(f, p)
    requires i <= |s| && s[i..] == p.lead + p.body + Separator(f) + t
    ensures |t| <= |s| && s[|s| - |t|..] == t
    ensures Step(s, i, x, f) == Some(Cursor(|s| - |t|, Assign(x, f, p)))
  {
    Unglue(s, i, p, Separator(f), t);
    var a := i + |p.lead|;
    var j := a + |p.body|;
    assert s[a] == p.body[0];
    SpacesEndAt(s, i, p.lead);
    assert s[j] == Separator(f)[0];
    DigitsEndAt(s, a, p.body);
    assert p == Piece(s[i..a], s[a..j]) && |s| - |t| == j + 1;
    LeadStepAt(s, i, a, j, x, f);
  }

  /** `Step` for `%M` or `%S` when its digits end at `j`, before the literal of `%M`. */
  lemma DigitsStepAt(s: string, i: nat, j: nat, x: Fields, f: Part)
    requires (f == MinutePart || f == SecondPart) && i < j && j + |Separator(f)| <= |s|
    requires DigitsEnd(s, i) == j && s[j..j + |Separator(f)|] == Separator(f) && j - i <= 2
    ensures Step(s, i, x, f) == Some(Cursor(j + |Separator(f)|, Assign(x, f, Piece([], s[i..j]))))
  {
    NumberValueOfRun(s, i, j);
    if f == MinutePart {
      assert s[j] == s[j..j + 1][0];
    }
  }

  /** The step for `%M` or `%S` over a fitting piece, when no digit follows its literal. */
  lemma DigitsOnlyAt(s: string, i: nat, x: Fields, f: Part, p: Piece, t: string)
    requires (f == MinutePart || f == SecondPart) && PieceFits(f, p)
    requires f == SecondPart && t != [] ==> !IsDigit(t[0])
    requires i <= |s| && s[i..] == p.lead + p.body + Separator(f) + t
    ensures |t| <= |s| && s[|s| - |t|..] == t
    ensures Step(s, i, x, f) == Some(Cursor(|s| - |t|, Assign(x, f, p)))
  {
    Unglue(s, i, p, Separator(f), t);
    var j := i + |p.body|;
    if j < |s| {
      assert s[j] == (Separator(f) + t)[0];
    }
    DigitsEndAt(s, i, p.body);
    assert p == Piece([], s[i..j]) && |s| - |t| == j + |Separator(f)|;
    DigitsStepAt(s, i, j, x, f);
  }

  /** The first piece of a text that fits, its literal and the text after it. */
  lemma Uncons(s: string, i: nat, x: Fields, f: Part, ps: seq<Piece>) returns (p: Piece, rest: seq<Piece>, t: string)
    requires f != MeridiemPart && FitsFrom(ps, f) && i <= |s| && s[i..] == TextFrom(ps, f)
    ensures PieceFits(f, p) && FitsFrom(rest, NextPart(f)) && t == TextFrom(rest, NextPart(f))
    ensures s[i..] == p.lead + p.body + Separator(f) + t
    ensures FieldsFrom(ps, f, x) == FieldsFrom(rest, NextPart(f), Assign(x, f, p))
  {
    p, rest := ps[0], ps[1..];
    t := TextFrom(rest, NextPart(f));
  }

  /**
   * Completeness from `%p` on: white space, then AM/PM in any case at the end
   * is read. Like the soundness chain, each lemma takes its part as a
   * parameter fixed by the precondition.
   */
  lemma MeridiemComplete(s: string, i: nat, x: Fields, f: Part, ps: seq<Piece>)
    requires f == MeridiemPart && FitsFrom(ps, f) && i <= |s| && s[i..] == TextFrom(ps, f)
    ensures Read(s, i, x, f) == Some(FieldsFrom(ps, f, x))
  {
    var p := ps[0];
    Unglue(s, i, p, "", []);
    assert s[i + |p.lead|] == p.body[0];
    SpacesEndAt(s, i, p.lead);
  }

  /** Completeness from `%S` on. */
  lemma SecondComplete(s: string, i: nat, x: Fields, f: Part, ps: seq<Piece>)
    requires f == SecondPart && FitsFrom(ps, f) && i <= |s| && s[i..] == TextFrom(ps, f)
    ensures Read(s, i, x, f) == Some(FieldsFrom(ps, f, x))
  {
    var p, rest, t := Uncons(s, i, x, f, ps);
    assert t[0] == rest[0].lead[0];
    DigitsOnlyAt(s, i, x, f, p, t);
    ReadAfterStep(s, i, x, f, Cursor(|s| - |t|, Assign(x, f, p)));
    MeridiemComplete(s, |s| - |t|, Assign(x, f, p), NextPart(f), rest);
  }

  /** Completeness from `%M` on. */
  lemma MinuteComplete(s: string, i: nat, x: Fields, f: Part, ps: seq<Piece>)
    requires f == MinutePart && FitsFrom(ps, f) && i <= |s| && s[i..] == TextFrom(ps, f)
    ensures Read(s, i, x, f) == Some(FieldsFrom(ps, f, x))
  {
    var p, rest, t := Uncons(s, i, x, f, ps);
    DigitsOnlyAt(s, i, x, f, p, t);
    ReadAfterStep(s, i, x, f, Cursor(|s| - |t|, Assign(x, f, p)));
    SecondComplete(s, |s| - |t|, Assign(x, f, p), NextPart(f), rest);
  }

  /** Completeness from `%I` on. */
  lemma HourComplete(s: string, i: nat, x: Fields, f: Part, ps: seq<Piece>)
    requires f == HourPart && FitsFrom(ps, f) && i <= |s| && s[i..] == TextFrom(ps, f)
    ensures Read(s, i, x, f) == Some(FieldsFrom(ps, f, x))
  {
    var p, rest, t := Uncons(s, i, x, f, ps);
    LeadAndDigitsAt(s, i, x, f, p, t);
    ReadAfterStep(s, i, x, f, Cursor(|s| - |t|, Assign(x, f, p)));
    MinuteComplete(s, |s| - |t|, Assign(x, f, p), NextPart(f), rest);
  }

  /** Completeness from `%Y` on. */
  lemma YearComplete(s: string, i: nat, x: Fields, f: Part, ps: seq<Piece>)
    requires f == YearPart && FitsFrom(ps, f) && i <= |s| && s[i..] == TextFrom(ps, f)
    ensures Read(s, i, x, f) == Some(FieldsFrom(ps, f, x))
  {
    var p, rest, t := Uncons(s, i, x, f, ps);
    LeadAndDigitsAt(s, i, x, f, p, t);
    ReadAfterStep(s, i, x, f, Cursor(|s| - |t|, Assign(x, f, p)));
    HourComplete(s, |s| - |t|, Assign(x, f, p), NextPart(f), rest);
  }

  /** Completeness from `%d` on. */
  lemma DayComplete(s: string, i: nat, x: Fields, f: Part, ps: seq<Piece>)
    requires f == DayPart && FitsFrom(ps, f) && i <= |s| && s[i..] == TextFrom(ps, f)
    ensures Read(s, i, x, f) == Some(FieldsFrom(ps, f, x))
  {
    var p, rest, t := Uncons(s, i, x, f, ps);
    LeadAndDigitsAt(s, i, x, f, p, t);
    ReadAfterStep(s, i, x, f, Cursor(|s| - |t|, Assign(x, f, p)));
    YearComplete(s, |s| - |t|, Assign(x, f, p), NextPart(f), rest);
  }

  /** Completeness of the matcher: every string of the layout is accepted, with its own fields. */
  lemma ScanComplete(l: Layout)
    requires Shaped(l)
    ensures Scan(Render(l)) == Some(LayoutFields(l))
  {
    var s := Render(l);
    assert s[..3] == l.month && s[3..] == TextFrom(l.pieces, DayPart);
    DayComplete(s, 3, Fields(MonthNumber(l.month), 0, 0, 0, 0, 0, false), DayPart, l.pieces);
  }

  /**
   * `Parse` succeeds on exactly the strings laid out as the format says whose
   * fields name a `datetime`, and then yields those fields.
   */
  lemma ParseExactly(s: string)
    ensures Parse(s).Ok? ==>
      exists l :: Shaped(l) && Render(l) == s && InRange(LayoutFields(l)) && FieldsOf(Parse(s).value) == LayoutFields(l)
    ensures forall l :: Shaped(l) && Render(l) == s && InRange(LayoutFields(l)) ==>
      Parse(s).Ok? && FieldsOf(Parse(s).value) == LayoutFields(l)
  {
    if Parse(s).Ok? {
      var l := ScanPieces(s);
    }
    forall l | Shaped(l) && Render(l) == s && InRange(LayoutFields(l))
      ensures Parse(s).Ok? && FieldsOf(Parse(s).value) == LayoutFields(l)
    {
      ScanComplete(l);
    }
  }
}
