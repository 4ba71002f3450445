/** `datetime.datetime` values and the four fixed text formats the program
    writes and reads: `strftime('%Y-%m-%d')`, `strftime('%Y-%m-%dT%H:%M:%SZ')`,
    the `'YYYY-MM-DD HH:MM:SS'` form sqlite3 stores a datetime in, and the
    matching `strptime` calls. Microseconds are not modelled. */
module DateTimes {
  import opened Wrappers
  import opened PyStr

  datatype DateTime = DateTime(year: int, month: int, day: int, hour: int, minute: int, second: int)

  predicate IsLeapYear(y: int)
  {
    y % 4 == 0 && (y % 100 != 0 || y % 400 == 0)
  }

  function DaysInMonth(y: int, m: int): int
    requires 1 <= m <= 12
  {
    if m == 2 then (if IsLeapYear(y) then 29 else 28)
    else if m == 4 || m == 6 || m == 9 || m == 11 then 30
    else 31
  }

  /** What `datetime(year, month, day)` accepts; anything else raises ValueError. */
  predicate ValidDate(y: int, m: int, d: int)
  {
    1 <= y <= 9999 && 1 <= m <= 12 && 1 <= d <= DaysInMonth(y, m)
  }

  predicate Valid(t: DateTime)
  {
    ValidDate(t.year, t.month, t.day)
    && 0 <= t.hour < 24 && 0 <= t.minute < 60 && 0 <= t.second < 60
  }

  /** `datetime(year, month, day)`: midnight of that day, or None where it raises. */
  function MakeDate(y: int, m: int, d: int): (r: Option<DateTime>)
    ensures r.Some? <==> ValidDate(y, m, d)
    ensures r.Some? ==> Valid(r.value) && r.value == DateTime(y, m, d, 0, 0, 0)
  {
    if ValidDate(y, m, d) then Some(DateTime(y, m, d, 0, 0, 0)) else None
  }

  /** The date part of t at midnight, as `strptime` of its date string returns it. */
  function Midnight(t: DateTime): DateTime
  {
    DateTime(t.year, t.month, t.day, 0, 0, 0)
  }

  function Ymd(t: DateTime): string
    requires Valid(t)
  {
    FormatInt(t.year, 4) + "-" + FormatInt(t.month, 2) + "-" + FormatInt(t.day, 2)
  }

  function Hms(t: DateTime, sep: char): string
    requires Valid(t)
  {
    FormatInt(t.hour, 2) + [sep] + FormatInt(t.minute, 2) + [sep] + FormatInt(t.second, 2)
  }

  /** `t.strftime('%Y-%m-%d')`: Python 2 raises for years before 1900. */
  function StrftimeYmd(t: DateTime): Option<string>
    requires Valid(t)
  {
    if t.year < 1900 then None else Some(Ymd(t))
  }

  /** `t.strftime('%Y-%m-%dT%H:%M:%SZ')`, with the same restriction. */
  function StrftimeIso(t: DateTime): Option<string>
    requires Valid(t)
  {
    if t.year < 1900 then None else Some(Ymd(t) + "T" + Hms(t, ':') + "Z")
  }

  /** The text sqlite3 stores for a datetime parameter: `t.isoformat(' ')`. */
  function IsoFormat(t: DateTime): string
    requires Valid(t)
  {
    Ymd(t) + " " + Hms(t, ':')
  }

  function FieldValue(s: string, from: nat, to: nat): Option<nat>
    requires from <= to <= |s|
  {
    if AllDigits(s[from..to]) then Some(DigitsValue(s[from..to])) else None
  }

  /** `strptime(s, '%Y-%m-%d')` on fixed-width fields; raising is None. */
  function StrptimeYmd(s: string): (r: Option<DateTime>)
    ensures r.Some? ==> Valid(r.value)
  {
    if |s| != 10 || s[4] != '-' || s[7] != '-' then None
    else
      var y, m, d := FieldValue(s, 0, 4), FieldValue(s, 5, 7), FieldValue(s, 8, 10);
      if y.Some? && m.Some? && d.Some? && ValidDate(y.value, m.value, d.value)
      then Some(DateTime(y.value, m.value, d.value, 0, 0, 0))
      else None
  }

  /** `strptime(s, '%Y-%m-%d %H:%M:%S')` on fixed-width fields; raising is None. */
  function StrptimeTime(s: string): (r: Option<DateTime>)
    ensures r.Some? ==> Valid(r.value)
  {
    if |s| != 19 || s[4] != '-' || s[7] != '-' || s[10] != ' ' || s[13] != ':' || s[16] != ':' then None
    else
      var y, m, d := FieldValue(s, 0, 4), FieldValue(s, 5, 7), FieldValue(s, 8, 10);
      var hh, mm, ss := FieldValue(s, 11, 13), FieldValue(s, 14, 16), FieldValue(s, 17, 19);
      if y.Some? && m.Some? && d.Some? && hh.Some? && mm.Some? && ss.Some?
         && Valid(DateTime(y.value, m.value, d.value, hh.value, mm.value, ss.value))
      then Some(DateTime(y.value, m.value, d.value, hh.value, mm.value, ss.value))
      else None
  }

  lemma Field(v: nat, width: nat)
    requires v < Pow10(width) && width >= 1
    ensures |FormatInt(v, width)| == width && AllDigits(FormatInt(v, width))
    ensures DigitsValue(FormatInt(v, width)) == v
  {
    FormatNatPadded(v, width);
  }

  lemma YmdShape(t: DateTime)
    requires Valid(t)
    ensures var s := Ymd(t);
      |s| == 10 && s[4] == '-' && s[7] == '-'
      && FieldValue(s, 0, 4) == Some(t.year)
      && FieldValue(s, 5, 7) == Some(t.month)
      && FieldValue(s, 8, 10) == Some(t.day)
  {
    assert Pow10(4) == 10000 && Pow10(2) == 100;
    Field(t.year, 4);
    Field(t.month, 2);
    Field(t.day, 2);
    var s := Ymd(t);
    assert s[0..4] == FormatInt(t.year, 4);
    assert s[5..7] == FormatInt(t.month, 2);
    assert s[8..10] == FormatInt(t.day, 2);
  }

  /** The stored air-date text reads back as the same day, at midnight. */
  lemma StrptimeStrftimeYmd(t: DateTime)
    requires Valid(t) && t.year >= 1900
    ensures StrftimeYmd(t).Some?
    ensures StrptimeYmd(StrftimeYmd(t).value) == Some(Midnight(t))
  {
    YmdShape(t);
  }

  /** Two valid days with the same `'%Y-%m-%d'` text are the same day. */
  lemma StrftimeYmdInjective(a: DateTime, b: DateTime)
    requires Valid(a) && Valid(b) && a.year >= 1900 && b.year >= 1900
    requires StrftimeYmd(a) == StrftimeYmd(b)
    ensures Midnight(a) == Midnight(b)
  {
    StrptimeStrftimeYmd(a);
    StrptimeStrftimeYmd(b);
  }

  /** A stored datetime reads back unchanged. */
  lemma StrptimeIsoFormat(t: DateTime)
    requires Valid(t)
    ensures StrptimeTime(IsoFormat(t)) == Some(t)
  {
    IsoShape(t);
    StrptimeOfFields(IsoFormat(t), t);
  }

  /** A text with the separators of `'%Y-%m-%d %H:%M:%S'` whose fields hold
      the parts of a valid instant parses as that instant. */
  lemma StrptimeOfFields(s: string, t: DateTime)
    requires Valid(t) && |s| == 19
    requires s[4] == '-' && s[7] == '-' && s[10] == ' ' && s[13] == ':' && s[16] == ':'
    requires FieldValue(s, 0, 4) == Some(t.year) && FieldValue(s, 5, 7) == Some(t.month) && FieldValue(s, 8, 10) == Some(t.day)
    requires FieldValue(s, 11, 13) == Some(t.hour) && FieldValue(s, 14, 16) == Some(t.minute) && FieldValue(s, 17, 19) == Some(t.second)
    ensures StrptimeTime(s) == Some(t)
  {
  }

  /** The stored text of an instant has the separators and the fields that
      `StrptimeTime` reads. */
  lemma IsoShape(t: DateTime)
    requires Valid(t)
    ensures var s := IsoFormat(t);
      && |s| == 19 && s[4] == '-' && s[7] == '-' && s[10] == ' ' && s[13] == ':' && s[16] == ':'
      && FieldValue(s, 0, 4) == Some(t.year) && FieldValue(s, 5, 7) == Some(t.month) && FieldValue(s, 8, 10) == Some(t.day)
      && FieldValue(s, 11, 13) == Some(t.hour) && FieldValue(s, 14, 16) == Some(t.minute) && FieldValue(s, 17, 19) == Some(t.second)
  {
    YmdShape(t);
    SpacedHms(t);
    var ymd, h := Ymd(t), " " + Hms(t, ':');
    assert IsoFormat(t) == ymd + h;
    FieldsOfJoin(ymd, h, 0, 4);
    FieldsOfJoin(ymd, h, 5, 7);
    FieldsOfJoin(ymd, h, 8, 10);
    FieldsOfJoin(ymd, h, 1, 3);
    FieldsOfJoin(ymd, h, 4, 6);
    FieldsOfJoin(ymd, h, 7, 9);
  }

  /** The time part of the stored text, with the space before it. */
  lemma SpacedHms(t: DateTime)
    requires Valid(t)
    ensures var h := " " + Hms(t, ':');
      |h| == 9 && h[0] == ' ' && h[3] == ':' && h[6] == ':'
      && FieldValue(h, 1, 3) == Some(t.hour)
      && FieldValue(h, 4, 6) == Some(t.minute)
      && FieldValue(h, 7, 9) == Some(t.second)
  {
    HmsShape(t);
    var hms := Hms(t, ':');
    FieldsOfJoin(" ", hms, 0, 2);
    FieldsOfJoin(" ", hms, 3, 5);
    FieldsOfJoin(" ", hms, 6, 8);
  }

  /** The `'%H:%M:%S'` text is eight characters with its three fields. */
  lemma HmsShape(t: DateTime)
    requires Valid(t)
    ensures var s := Hms(t, ':');
      |s| == 8 && s[2] == ':' && s[5] == ':'
      && FieldValue(s, 0, 2) == Some(t.hour)
      && FieldValue(s, 3, 5) == Some(t.minute)
      && FieldValue(s, 6, 8) == Some(t.second)
  {
    assert Pow10(2) == 100;
    Field(t.hour, 2);
    Field(t.minute, 2);
    Field(t.second, 2);
    var s := Hms(t, ':');
    assert s[0..2] == FormatInt(t.hour, 2);
    assert s[3..5] == FormatInt(t.minute, 2);
    assert s[6..8] == FormatInt(t.second, 2);
  }

  /** A field of either part of a joined text is that field of the join. */
  lemma FieldsOfJoin(a: string, b: string, from: nat, to: nat)
    requires from <= to
    ensures to <= |a| ==> FieldValue(a + b, from, to) == FieldValue(a, from, to)
    ensures to <= |b| ==> FieldValue(a + b, |a| + from, |a| + to) == FieldValue(b, from, to)
  {
    if to <= |a| {
      assert (a + b)[from..to] == a[from..to];
    }
    if to <= |b| {
      assert (a + b)[|a| + from..|a| + to] == b[from..to];
    }
  }
}
