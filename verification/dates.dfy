/**
 * Dates as the dashboard reads them: epoch milliseconds from the feature
 * service, or date text parsed with `datetime.strptime` against a fixed list
 * of formats, and whole-day differences as `timedelta.days` gives them.
 *
 * The clock reading `now` is a parameter (epoch milliseconds), and local time
 * is taken to be UTC.  The calendar is the proleptic Gregorian one of
 * Python's `datetime` (ordinal 1 is 0001-01-01).
 */
module Dates {
  import opened PyValues
  import opened Records

  const MsPerDay: int := 86400000
  const UsPerDay: int := 86400000000

  /** `timedelta(milliseconds=ms).days`: the floor of the quotient. */
  function FloorDays(ms: int): (d: int)
    ensures d * MsPerDay <= ms < d * MsPerDay + MsPerDay
  {
    ms / MsPerDay
  }

  // -------------------------------------------------------------- calendar

  predicate IsLeap(y: int) {
    y % 4 == 0 && (y % 100 != 0 || y % 400 == 0)
  }

  function DaysInMonth(y: int, m: int): int
    requires 1 <= m <= 12
  {
    if m == 2 then (if IsLeap(y) then 29 else 28)
    else if m == 4 || m == 6 || m == 9 || m == 11 then 30
    else 31
  }

  /** Days in the months before `m` of year `y` (CPython's `_days_before_month`). */
  function DaysBeforeMonth(y: int, m: int): int
    requires 1 <= m <= 12
  {
    [0, 31, 59, 90, 120, 151, 181, 212, 243, 273, 304, 334][m - 1]
      + (if m > 2 && IsLeap(y) then 1 else 0)
  }

  /** Days in the years before `y` (CPython's `_days_before_year`). */
  function DaysBeforeYear(y: int): int {
    var p := y - 1;
    p * 365 + p / 4 - p / 100 + p / 400
  }

  /** Proleptic Gregorian ordinal of a date (CPython's `_ymd2ord`). */
  function Ordinal(y: int, m: int, d: int): int
    requires 1 <= m <= 12
  {
    DaysBeforeYear(y) + DaysBeforeMonth(y, m) + d
  }

  /** The month table agrees with the month lengths. */
  lemma {:induction false} NextMonth(y: int, m: int)
    requires 1 <= m < 12
    ensures Ordinal(y, m + 1, 1) == Ordinal(y, m, DaysInMonth(y, m)) + 1
  {
  }

  lemma DivStep(x: int, k: int)
    requires k == 4 || k == 100 || k == 400
    ensures x / k - (x - 1) / k == if x % k == 0 then 1 else 0
  {
    var q, r := (x - 1) / k, (x - 1) % k;
    assert x == q * k + r + 1;
    if r + 1 == k {
      assert x == (q + 1) * k;
    } else {
      assert x == q * k + (r + 1) && 0 <= r + 1 < k;
    }
  }

  /** Consecutive days of the calendar have consecutive ordinals, across years too. */
  lemma {:induction false} NextYear(y: int)
    ensures Ordinal(y + 1, 1, 1) == Ordinal(y, 12, 31) + 1
  {
    DivStep(y, 4);
    DivStep(y, 100);
    DivStep(y, 400);
    DivisorChain(y);
    assert DaysBeforeYear(y + 1) == y * 365 + y / 4 - y / 100 + y / 400;
    assert DaysBeforeYear(y) == (y - 1) * 365 + (y - 1) / 4 - (y - 1) / 100 + (y - 1) / 400;
    assert DaysBeforeMonth(y, 12) == 334 + (if IsLeap(y) then 1 else 0);
  }

  lemma DivisorChain(y: int)
    ensures y % 400 == 0 ==> y % 100 == 0
    ensures y % 100 == 0 ==> y % 4 == 0
  {
    CenturyOfQuad(y);
    QuadOfCentury(y);
  }

  lemma CenturyOfQuad(y: int)
    ensures y % 400 == 0 ==> y % 100 == 0
  {
    if y % 400 == 0 {
      var m := 4 * (y / 400);
      assert y == 100 * m;
    }
  }

  lemma QuadOfCentury(y: int)
    ensures y % 100 == 0 ==> y % 4 == 0
  {
    if y % 100 == 0 {
      var m := 25 * (y / 100);
      assert y == 4 * m;
    }
  }

  /** A point in time as `datetime` holds it, to the microsecond. */
  datatype DateTime = DateTime(year: int, month: int, day: int,
                               hour: int, minute: int, second: int, micro: int)

  /** The range checks `datetime`'s constructor applies. */
  predicate ValidDateTime(t: DateTime) {
    1 <= t.year <= 9999 && 1 <= t.month <= 12 && 1 <= t.day <= DaysInMonth(t.year, t.month)
    && 0 <= t.hour <= 23 && 0 <= t.minute <= 59 && 0 <= t.second <= 59
    && 0 <= t.micro <= 999999
  }

  const EpochOrdinal: int := 719163  // Ordinal(1970, 1, 1)

  /** Microseconds since the epoch. */
  function EpochMicros(t: DateTime): int
    requires ValidDateTime(t)
  {
    ((Ordinal(t.year, t.month, t.day) - EpochOrdinal) * 86400
      + t.hour * 3600 + t.minute * 60 + t.second) * 1000000 + t.micro
  }

  /** `(t - now).days` for a clock reading `now` in epoch milliseconds. */
  function DaysFromNow(t: DateTime, now: int): (d: int)
    requires ValidDateTime(t)
    ensures d * UsPerDay <= EpochMicros(t) - now * 1000 < d * UsPerDay + UsPerDay
  {
    (EpochMicros(t) - now * 1000) / UsPerDay
  }

  // ------------------------------------------------------------ timestamps

  /**
   * The first millisecond of 0001-01-01 and the last of 9999-12-31, the
   * range of `datetime`, in epoch milliseconds.
   */
  const MinTimestampMs: int := -62135596800000
  const MaxTimestampMs: int := 253402300799999

  /** Epoch milliseconds that `datetime.fromtimestamp` turns into a date rather than `ValueError`. */
  predicate InDatetimeRange(ms: int) {
    MinTimestampMs <= ms <= MaxTimestampMs
  }

  /**
   * The bounds are whole days from the epoch (ordinal 719163) back to
   * ordinal 1, and on to the end of 9999-12-31.
   */
  lemma TimestampBounds()
    ensures MinTimestampMs == (1 - EpochOrdinal) * MsPerDay
    ensures MaxTimestampMs == (Ordinal(9999, 12, 31) + 1 - 719163) * 86400000 - 1
  {
    LastOrdinal();
  }

  lemma LastOrdinal()
    ensures Ordinal(9999, 12, 31) == 3652059
  {
    assert DaysBeforeYear(9999) == 3651694;
  }

  /**
   * `datetime.fromtimestamp(v / 1000)` on a field value: the milliseconds
   * when they are in range, `ValueError` for a number outside it, and
   * `TypeError` for anything that is not a number.
   */
  function FromTimestamp(v: Value): (r: Outcome<int>)
    ensures r.Returns? <==> v.Int? && InDatetimeRange(v.i)
    ensures r.Returns? ==> r.value == v.i
    ensures r.Raises? ==> r.error == (if v.Int? then ValueError else TypeError)
  {
    match v
    case Int(ms) => if InDatetimeRange(ms) then Returns(ms) else Raises(ValueError)
    case _ => Raises(TypeError)
  }

  // ------------------------------------------------------------- strptime

  datatype Field = Year | Month | Day | Hour | Minute | Second | Fraction
  datatype Token = Literal(c: char) | Directive(field: Field)

  function FieldOf(c: char): Option<Field> {
    if c == 'Y' then Some(Year) else if c == 'm' then Some(Month)
    else if c == 'd' then Some(Day) else if c == 'H' then Some(Hour)
    else if c == 'M' then Some(Minute) else if c == 'S' then Some(Second)
    else if c == 'f' then Some(Fraction) else None
  }

  /** A format string as a sequence of directives and literal characters. */
  function Tokenize(fmt: string): seq<Token>
    decreases |fmt|
  {
    if fmt == [] then []
    else if fmt[0] == '%' && |fmt| >= 2 && FieldOf(fmt[1]).Some? then
      [Directive(FieldOf(fmt[1]).value)] + Tokenize(fmt[2..])
    else [Literal(fmt[0])] + Tokenize(fmt[1..])
  }

  /**
   * The alternatives of a directive's pattern, in the order the pattern
   * tries them: a run of `width` digits, or (for `%d`) a space and a digit.
   */
  datatype Alt = Digits(width: nat) | SpaceDigit

  function Alternatives(f: Field): seq<Alt> {
    match f
    case Year => [Digits(4)]
    case Day => [Digits(2), Digits(1), SpaceDigit]
    case Fraction => [Digits(6), Digits(5), Digits(4), Digits(3), Digits(2), Digits(1)]
    case _ => [Digits(2), Digits(1)]
  }

  /** The values a directive's pattern admits; `%S` admits leap seconds. */
  function Low(f: Field): int {
    if f == Month || f == Day then 1 else 0
  }

  function High(f: Field): int {
    match f
    case Year => 9999
    case Month => 12
    case Day => 31
    case Hour => 23
    case Minute => 59
    case Second => 61
    case Fraction => 999999
  }

  function Pow10(n: nat): nat {
    if n == 0 then 1 else 10 * Pow10(n - 1)
  }

  datatype Capture = Capture(field: Field, value: int)
  datatype Piece = Piece(value: int, len: nat)

  /** The text one alternative consumes at the start of `s`, and its value. */
  function Consume(f: Field, a: Alt, s: string): (r: Option<Piece>)
    ensures r.Some? ==> 0 < r.value.len <= |s|
    ensures r.Some? ==> Low(f) <= r.value.value <= High(f)
  {
    match a
    case Digits(w) =>
      if 0 < w <= |s| && AllDigits(s[..w]) && Low(f) <= ParseNat(s[..w]) <= High(f) then
        // `%f` pads its digits on the right to six places
        var v := if f == Fraction && w <= 6 then ParseNat(s[..w]) * Pow10(6 - w) else ParseNat(s[..w]);
        if v <= High(f) then Some(Piece(v, w)) else None
      else None
    case SpaceDigit =>
      if f == Day && |s| >= 2 && s[0] == ' ' && IsDigit(s[1]) && s[1] != '0' then
        Some(Piece(DigitValue(s[1]), 2))
      else None
  }

  /** What the pattern matched: the captured fields and the text left over. */
  datatype Matched = Matched(caps: seq<Capture>, rest: string)

  /**
   * The first way, in the pattern's own order of alternatives, to match the
   * tokens against a prefix of `s`.  Literal characters match regardless of
   * ASCII case, as the pattern is compiled case-insensitively.
   */
  function MatchFrom(toks: seq<Token>, s: string): (r: Option<Matched>)
    ensures r.Some? ==> |r.value.rest| <= |s|
    decreases |toks|, 1, 0
  {
    if toks == [] then Some(Matched([], s))
    else match toks[0]
      case Literal(c) =>
        if s != [] && LowerChar(s[0]) == LowerChar(c) then MatchFrom(toks[1..], s[1..]) else None
      case Directive(f) => MatchAlts(f, Alternatives(f), toks[1..], s)
  }

  function MatchAlts(f: Field, alts: seq<Alt>, rest: seq<Token>, s: string): (r: Option<Matched>)
    ensures r.Some? ==> |r.value.rest| <= |s|
    decreases |rest| + 1, 0, |alts|
  {
    if alts == [] then None
    else
      var first :=
        match Consume(f, alts[0], s)
        case None => None
        case Some(p) =>
          match MatchFrom(rest, s[p.len..])
          case None => None
          case Some(m) => Some(Matched([Capture(f, p.value)] + m.caps, m.rest));
      if first.Some? then first else MatchAlts(f, alts[1..], rest, s)
  }

  /** The value captured for a field, or `default` when the format has none. */
  function Captured(caps: seq<Capture>, f: Field, default: int): int {
    if caps == [] then default
    else if caps[0].field == f then caps[0].value
    else Captured(caps[1..], f, default)
  }

  /** `datetime.strptime(text, fmt)`: `None` where it raises `ValueError`. */
  function Strptime(text: string, fmt: string): (r: Option<DateTime>)
    ensures r.Some? ==> ValidDateTime(r.value)
  {
    match MatchFrom(Tokenize(fmt), text)
    case None => None
    case Some(m) =>
      if m.rest != [] then None  // unconverted data remains
      else
        var t := DateTime(Captured(m.caps, Year, 1900), Captured(m.caps, Month, 1),
                          Captured(m.caps, Day, 1), Captured(m.caps, Hour, 0),
                          Captured(m.caps, Minute, 0), Captured(m.caps, Second, 0),
                          Captured(m.caps, Fraction, 0));
        if ValidDateTime(t) then Some(t) else None
  }

  // ------------------------------------------------------------- due dates

  /** The formats `calculate_days_until_due` tries, in order. */
  const DueFormats: seq<string> :=
    ["%Y-%m-%d", "%m/%d/%Y", "%Y-%m-%d %H:%M:%S", "%Y-%m-%dT%H:%M:%S", "%Y-%m-%dT%H:%M:%S.%f"]

  /** One attempt of the format loop: the format cut at its first space. */
  function Attempt(text: string, fmt: string): Option<DateTime> {
    Strptime(text, BeforeFirst(fmt, ' '))
  }

  /** The first format (each cut at its first space) that parses `text`. */
  function FirstParse(text: string, fmts: seq<string>): (r: Option<DateTime>)
    ensures r.Some? ==> ValidDateTime(r.value)
  {
    if fmts == [] then None
    else
      var r := Attempt(text, fmts[0]);
      if r.Some? then r else FirstParse(text, fmts[1..])
  }

  /** The text the formats are tried on: up to the first 'T', then up to the first ' '. */
  function CutDue(s: string): string {
    BeforeFirst(BeforeFirst(s, 'T'), ' ')
  }

  /** `Date_Required or Required_Date`, each defaulting to the empty string. */
  function DueField(p: Project): Value {
    Or(Get(p.dateRequired, Str("")), Get(p.requiredDate, Str("")))
  }

  /**
   * `calculate_days_until_due`: whole days from `now` to the due date; an
   * epoch value out of `datetime`'s range raises inside the `try` and gives none.
   */
  function DaysUntilDue(p: Project, now: int): Option<int> {
    var due := DueField(p);
    if !Truthy(due) || due == Str("None") then None
    else match due
      case Int(ms) => if InDatetimeRange(ms) then Some(FloorDays(ms - now)) else None
      case Str(s) =>
        (match FirstParse(CutDue(s), DueFormats)
         case None => None
         case Some(t) => Some(DaysFromNow(t, now)))
      case Null => None
  }

  /** The loop of `calculate_days_until_due` over the date formats. */
  method CalculateDaysUntilDue(p: Project, now: int) returns (days: Option<int>)
    ensures days == DaysUntilDue(p, now)
  {
    var due := DueField(p);
    if !Truthy(due) || due == Str("None") {
      return None;
    }
    if due.Int? {
      if !InDatetimeRange(due.i) {
        return None;
      }
      return Some(FloorDays(due.i - now));
    }
    var text := CutDue(due.s);
    var parsed: Option<DateTime> := None;
    var i := 0;
    while i < |DueFormats|
      invariant 0 <= i <= |DueFormats|
      invariant parsed == None
      invariant FirstParse(text, DueFormats) == FirstParse(text, DueFormats[i..])
    {
      var attempt := Attempt(text, DueFormats[i]);
      assert DueFormats[i..][0] == DueFormats[i] && DueFormats[i..][1..] == DueFormats[i + 1..];
      if attempt.Some? {
        parsed := attempt;
        break;
      }
      i := i + 1;
    }
    assert parsed == FirstParse(text, DueFormats);
    if parsed.None? {
      return None;
    }
    days := Some(DaysFromNow(parsed.value, now));
  }

  // ------------------------------------------------------------ properties

  /** The first successful format wins: no earlier format parses the text. */
  lemma {:induction false} FirstParseIsFirst(text: string, fmts: seq<string>)
    requires FirstParse(text, fmts).Some?
    ensures exists k ::
      && 0 <= k < |fmts|
      && Attempt(text, fmts[k]) == FirstParse(text, fmts)
      && forall j :: 0 <= j < k ==> Attempt(text, fmts[j]).None?
  {
    if Attempt(text, fmts[0]).Some? {
      assert Attempt(text, fmts[0]) == FirstParse(text, fmts);
    } else {
      var rest := fmts[1..];
      assert FirstParse(text, fmts) == FirstParse(text, rest);
      FirstParseIsFirst(text, rest);
      var k :| 0 <= k < |rest| && Attempt(text, rest[k]) == FirstParse(text, rest)
        && forall j :: 0 <= j < k ==> Attempt(text, rest[j]).None?;
      assert fmts[k + 1] == rest[k];
      forall j | 0 <= j < k + 1
        ensures Attempt(text, fmts[j]).None?
      {
        if j > 0 {
          assert fmts[j] == rest[j - 1];
        }
      }
    }
  }

  /** No format parses the text exactly when the loop finds nothing. */
  lemma {:induction false} FirstParseNone(text: string, fmts: seq<string>)
    ensures FirstParse(text, fmts).None? <==>
      forall k :: 0 <= k < |fmts| ==> Attempt(text, fmts[k]).None?
  {
    if fmts != [] {
      var rest := fmts[1..];
      FirstParseNone(text, rest);
      if forall k :: 1 <= k < |fmts| ==> Attempt(text, fmts[k]).None? {
        forall k | 0 <= k < |rest|
          ensures Attempt(text, rest[k]).None?
        {
          assert rest[k] == fmts[k + 1];
        }
      }
      if forall k :: 0 <= k < |rest| ==> Attempt(text, rest[k]).None? {
        forall k | 1 <= k < |fmts|
          ensures Attempt(text, fmts[k]).None?
        {
          assert fmts[k] == rest[k - 1];
        }
      }
    }
  }

  /**
   * An epoch due date in `datetime`'s range gives the floor of the
   * millisecond difference in days; one outside it gives none.
   */
  lemma EpochDueDays(p: Project, now: int, ms: int)
    requires DueField(p) == Int(ms) && ms != 0
    ensures DaysUntilDue(p, now).Some? <==> InDatetimeRange(ms)
    ensures DaysUntilDue(p, now).Some? ==> var d := DaysUntilDue(p, now).value;
      d * MsPerDay <= ms - now < d * MsPerDay + MsPerDay
  {
  }

  /** A project with no due value, or the text 'None', has no due date. */
  lemma NoDueDate(p: Project, now: int)
    requires !Truthy(DueField(p)) || DueField(p) == Str("None")
    ensures DaysUntilDue(p, now) == None
  {
  }

  function Pad2(n: nat): (s: string)
    requires n < 100
    ensures |s| == 2 && AllDigits(s)
  {
    [DigitChar(n / 10), DigitChar(n % 10)]
  }

  function Pad4(n: nat): (s: string)
    requires n < 10000
    ensures |s| == 4 && AllDigits(s)
  {
    Pad2(n / 100) + Pad2(n % 100)
  }

  /** A date written `YYYY-MM-DD`. */
  function IsoDate(y: nat, m: nat, d: nat): (s: string)
    requires y < 10000 && m < 100 && d < 100
    ensures |s| == 10 && 'T' !in s && ' ' !in s
  {
    Pad4(y) + "-" + Pad2(m) + "-" + Pad2(d)
  }

  lemma Pad2Value(n: nat)
    requires n < 100
    ensures ParseNat(Pad2(n)) == n
  {
    var s := Pad2(n);
    assert s[..1] == [DigitChar(n / 10)];
    assert s[..1][..0] == [];
    assert ParseNat(s[..1]) == n / 10;
  }

  lemma ParseNatAppend2(a: string, b: string)
    requires AllDigits(a) && AllDigits(b) && |b| == 2
    ensures AllDigits(a + b) && ParseNat(a + b) == ParseNat(a) * 100 + ParseNat(b)
  {
    var s := a + b;
    var t := a + b[..1];
    assert s[..|s| - 1] == t;
    assert t[..|t| - 1] == a;
    assert b[..1][..0] == [];
    assert ParseNat(t) == ParseNat(a) * 10 + DigitValue(b[0]);
    assert ParseNat(b[..1]) == DigitValue(b[0]);
    assert ParseNat(b) == DigitValue(b[0]) * 10 + DigitValue(b[1]);
  }

  lemma Pad4Value(n: nat)
    requires n < 10000
    ensures ParseNat(Pad4(n)) == n
  {
    Pad2Value(n / 100);
    Pad2Value(n % 100);
    ParseNatAppend2(Pad2(n / 100), Pad2(n % 100));
  }

  lemma FirstAltMatches(f: Field, alts: seq<Alt>, rest: seq<Token>, s: string, p: Piece, m: Matched)
    requires alts != [] && Consume(f, alts[0], s) == Some(p) && MatchFrom(rest, s[p.len..]) == Some(m)
    ensures MatchAlts(f, alts, rest, s) == Some(Matched([Capture(f, p.value)] + m.caps, m.rest))
  {
  }

  lemma CapturedThree(caps: seq<Capture>, f: Field, default: int)
    requires |caps| == 3
    ensures Captured(caps, f, default) ==
      if caps[0].field == f then caps[0].value
      else if caps[1].field == f then caps[1].value
      else if caps[2].field == f then caps[2].value
      else default
  {
    var rest1 := caps[1..];
    var rest2 := rest1[1..];
    assert rest1[0] == caps[1] && rest2[0] == caps[2] && rest2[1..] == [];
    assert Captured(rest2, f, default) == if caps[2].field == f then caps[2].value else default;
    assert Captured(rest1, f, default) ==
      if caps[1].field == f then caps[1].value else Captured(rest2, f, default);
  }

  const IsoTokens: seq<Token> :=
    [Directive(Year), Literal('-'), Directive(Month), Literal('-'), Directive(Day)]

  lemma MatchIsoDay(t: string, d: nat)
    requires 1 <= d <= 31 && t == Pad2(d)
    ensures MatchFrom(IsoTokens[4..], t) == Some(Matched([Capture(Day, d)], []))
  {
    Pad2Value(d);
    assert t[..2] == t && t[2..] == [] && IsoTokens[4..] == [Directive(Day)];
    assert IsoTokens[4..][0] == Directive(Day) && IsoTokens[4..][1..] == [];
    assert MatchFrom([], t[2..]) == Some(Matched([], []));
    FirstAltMatches(Day, Alternatives(Day), [], t, Piece(d, 2), Matched([], []));
    assert [Capture(Day, d)] + [] == [Capture(Day, d)];
  }

  lemma MatchIsoMonthDay(t: string, m: nat, d: nat)
    requires 1 <= m <= 12 && 1 <= d <= 31 && t == Pad2(m) + "-" + Pad2(d)
    ensures MatchFrom(IsoTokens[2..], t) == Some(Matched([Capture(Month, m), Capture(Day, d)], []))
  {
    Pad2Value(m);
    MatchIsoDay(t[3..], d);
    assert t[..2] == Pad2(m) && t[2] == '-' && t[2..][1..] == t[3..];
    assert IsoTokens[3..][1..] == IsoTokens[4..] && IsoTokens[3..][0] == Literal('-');
    assert MatchFrom(IsoTokens[3..], t[2..]) == Some(Matched([Capture(Day, d)], []));
    assert IsoTokens[2..][1..] == IsoTokens[3..] && IsoTokens[2..][0] == Directive(Month);
    FirstAltMatches(Month, Alternatives(Month), IsoTokens[3..], t, Piece(m, 2), Matched([Capture(Day, d)], []));
    assert [Capture(Month, m)] + [Capture(Day, d)] == [Capture(Month, m), Capture(Day, d)];
  }

  lemma MatchIsoDate(y: nat, m: nat, d: nat)
    requires 1 <= y <= 9999 && 1 <= m <= 12 && 1 <= d <= 31
    ensures MatchFrom(IsoTokens, IsoDate(y, m, d))
      == Some(Matched([Capture(Year, y), Capture(Month, m), Capture(Day, d)], []))
  {
    var s := IsoDate(y, m, d);
    Pad4Value(y);
    MatchIsoMonthDay(s[5..], m, d);
    assert s[..4] == Pad4(y) && s[4] == '-' && s[4..][1..] == s[5..];
    assert IsoTokens[1..][1..] == IsoTokens[2..] && IsoTokens[1..][0] == Literal('-');
    assert MatchFrom(IsoTokens[1..], s[4..]) == Some(Matched([Capture(Month, m), Capture(Day, d)], []));
    FirstAltMatches(Year, Alternatives(Year), IsoTokens[1..], s, Piece(y, 4),
      Matched([Capture(Month, m), Capture(Day, d)], []));
    assert [Capture(Year, y)] + [Capture(Month, m), Capture(Day, d)]
      == [Capture(Year, y), Capture(Month, m), Capture(Day, d)];
  }

  /** A `YYYY-MM-DD` date parses back to itself, at midnight, with the first format. */
  lemma {:induction false} IsoDateRoundTrip(y: nat, m: nat, d: nat)
    requires ValidDateTime(DateTime(y, m, d, 0, 0, 0, 0))
    ensures Strptime(IsoDate(y, m, d), "%Y-%m-%d") == Some(DateTime(y, m, d, 0, 0, 0, 0))
  {
    assert Tokenize("%Y-%m-%d") == IsoTokens;
    MatchIsoDate(y, m, d);
    var caps := [Capture(Year, y), Capture(Month, m), Capture(Day, d)];
    CapturedThree(caps, Year, 1900);
    CapturedThree(caps, Month, 1);
    CapturedThree(caps, Day, 1);
    CapturedThree(caps, Hour, 0);
    CapturedThree(caps, Minute, 0);
    CapturedThree(caps, Second, 0);
    CapturedThree(caps, Fraction, 0);
  }

  /**
   * A due date written `YYYY-MM-DD`, followed by a time after a 'T' or a
   * space or by nothing, is due at midnight of that day.
   */
  lemma {:induction false} IsoDueDays(p: Project, now: int, y: nat, m: nat, d: nat, time: string)
    requires ValidDateTime(DateTime(y, m, d, 0, 0, 0, 0))
    requires time == [] || time[0] == 'T' || time[0] == ' '
    requires DueField(p) == Str(IsoDate(y, m, d) + time)
    ensures DaysUntilDue(p, now) == Some(DaysFromNow(DateTime(y, m, d, 0, 0, 0, 0), now))
  {
    CutAfterDate(IsoDate(y, m, d), time);
    IsoDateRoundTrip(y, m, d);
    FirstDueFormat();
  }

  /** The first due format has no space, so it is tried whole. */
  lemma FirstDueFormat()
    ensures BeforeFirst(DueFormats[0], ' ') == "%Y-%m-%d"
  {
    var f := "%Y-%m-%d";
    assert DueFormats[0] == f;
    assert ' ' !in f;
    BeforeFirstUpTo(f, f, ' ');
  }

  /** Cutting at the first 'T' and then the first ' ' leaves a date without either. */
  lemma {:induction false} CutAfterDate(date: string, time: string)
    requires 'T' !in date && ' ' !in date
    requires time == [] || time[0] == 'T' || time[0] == ' '
    ensures CutDue(date + time) == date
  {
    var s := date + time;
    if time == [] {
      assert s == date;
      BeforeFirstUpTo(date, date, 'T');
      BeforeFirstUpTo(date, date, ' ');
    } else if time[0] == 'T' {
      BeforeFirstUpTo(date, s, 'T');
      BeforeFirstUpTo(date, date, ' ');
    } else {
      var head := BeforeFirst(s, 'T');
      var tail := BeforeFirst(time, 'T');
      assert head == date + tail by {
        BeforeFirstUpTo(date + tail, s, 'T');
      }
      BeforeFirstUpTo(date, head, ' ');
    }
  }
}
