/**
 * Timestamps: the ISO-8601 text the pipeline posts to the backend, the
 * `'%Y-%m-%dT%H:%M:%SZ'` text it reads back, and the calendar-day keys the
 * incremental sync compares.
 */
module Times {
  import opened Values

  predicate IsLeap(y: int)
  {
    y % 4 == 0 && (y % 100 != 0 || y % 400 == 0)
  }

  function DaysInMonth(y: int, m: int): int
    requires 1 <= m <= 12
  {
    if m == 2 then (if IsLeap(y) then 29 else 28)
    else if m == 4 || m == 6 || m == 9 || m == 11 then 30
    else 31
  }

  /** A calendar date `datetime.date` accepts. */
  predicate ValidDate(t: Time)
  {
    1 <= t.year <= 9999 && 1 <= t.month <= 12 && 1 <= t.day <= DaysInMonth(t.year, t.month)
  }

  /** The six fields `datetime.datetime(*t[:6])` accepts. */
  predicate ValidDateTime(t: Time)
  {
    ValidDate(t) && 0 <= t.hour <= 23 && 0 <= t.minute <= 59 && 0 <= t.second <= 59
  }

  /** The fields `time.strptime` accepts (it allows leap seconds 60 and 61). */
  predicate ValidParsed(t: Time)
  {
    ValidDate(t) && 0 <= t.hour <= 23 && 0 <= t.minute <= 59 && 0 <= t.second <= 61
  }

  function Pad2(n: nat): (r: string)
    requires n < 100
    ensures |r| == 2
  {
    [DigitChar(n / 10), DigitChar(n % 10)]
  }

  function Pad4(n: nat): (r: string)
    requires n < 10000
    ensures |r| == 4
  {
    Pad2(n / 100) + Pad2(n % 100)
  }

  /** `datetime.datetime(*t[:6]).isoformat()`: "YYYY-MM-DDTHH:MM:SS". */
  function IsoFormat(t: Time): (r: string)
    requires ValidDateTime(t)
    ensures |r| == 19
    ensures r[4] == '-' && r[7] == '-' && r[10] == 'T' && r[13] == ':' && r[16] == ':'
  {
    Pad4(t.year) + "-" + Pad2(t.month) + "-" + Pad2(t.day) + "T"
    + Pad2(t.hour) + ":" + Pad2(t.minute) + ":" + Pad2(t.second)
  }

  predicate AllDigits(s: string)
  {
    forall i :: 0 <= i < |s| ==> IsDigit(s[i])
  }

  /** A fixed-width run of digits. */
  function Field(s: string, lo: nat, hi: nat): Option<nat>
    requires lo <= hi <= |s|
  {
    if AllDigits(s[lo..hi]) then Some(DigitsValue(s[lo..hi])) else None
  }

  /**
   * `time.strptime(s, '%Y-%m-%dT%H:%M:%SZ')` on the zero-padded form, with
   * strptime's range checks and its rejection of impossible calendar dates.
   */
  function ParseDbTime(s: string): (r: Option<Time>)
    ensures r.Some? ==> ValidParsed(r.value)
    ensures r.Some? ==> |s| == 20 && s[4] == '-' && s[7] == '-' && s[10] == 'T'
                        && s[13] == ':' && s[16] == ':' && s[19] == 'Z'
  {
    if |s| != 20 || s[4] != '-' || s[7] != '-' || s[10] != 'T' || s[13] != ':'
       || s[16] != ':' || s[19] != 'Z' then None
    else
      match (Field(s, 0, 4), Field(s, 5, 7), Field(s, 8, 10), Field(s, 11, 13), Field(s, 14, 16), Field(s, 17, 19))
      case (Some(y), Some(mo), Some(d), Some(h), Some(mi), Some(se)) =>
        var t := Time(y, mo, d, h, mi, se);
        if ValidParsed(t) then Some(t) else None
      case _ => None
  }

  lemma Pad2Digits(n: nat)
    requires n < 100
    ensures AllDigits(Pad2(n)) && DigitsValue(Pad2(n)) == n
  {
    var hi, lo := n / 10, n % 10;
    var s := Pad2(n);
    assert s[..1] == [DigitChar(hi)];
    assert [DigitChar(hi)][..0] == [];
    assert DigitsValue([DigitChar(hi)]) == hi;
    assert DigitsValue(s) == 10 * hi + lo;
  }

  lemma DigitsValueAppend2(a: string, b: string)
    requires AllDigits(a) && AllDigits(b) && |b| == 2
    ensures AllDigits(a + b)
    ensures DigitsValue(a + b) == 100 * DigitsValue(a) + DigitsValue(b)
  {
    var ab := a + b;
    assert ab[..|ab| - 1] == a + [b[0]];
    assert (a + [b[0]])[..|a|] == a;
    assert b[..1] == [b[0]];
    assert [b[0]][..0] == [];
    assert DigitsValue(a + [b[0]]) == 10 * DigitsValue(a) + DigitValue(b[0]);
    assert DigitsValue([b[0]]) == DigitValue(b[0]);
    assert DigitsValue(b) == 10 * DigitValue(b[0]) + DigitValue(b[1]);
    assert DigitsValue(ab) == 10 * DigitsValue(a + [b[0]]) + DigitValue(b[1]);
  }

  lemma Pad4Digits(n: nat)
    requires n < 10000
    ensures AllDigits(Pad4(n)) && DigitsValue(Pad4(n)) == n
  {
    Pad2Digits(n / 100);
    Pad2Digits(n % 100);
    DigitsValueAppend2(Pad2(n / 100), Pad2(n % 100));
  }

  /** What the persist stage posts comes back, with the backend's `Z`, as the same six fields. */
  lemma IsoParseRoundTrip(t: Time)
    requires ValidDateTime(t)
    ensures ParseDbTime(IsoFormat(t) + "Z") == Some(t)
  {
    var s := IsoFormat(t) + "Z";
    assert s[0..4] == Pad4(t.year);
    assert s[5..7] == Pad2(t.month);
    assert s[8..10] == Pad2(t.day);
    assert s[11..13] == Pad2(t.hour);
    assert s[14..16] == Pad2(t.minute);
    assert s[17..19] == Pad2(t.second);
    Pad4Digits(t.year);
    Pad2Digits(t.month);
    Pad2Digits(t.day);
    Pad2Digits(t.hour);
    Pad2Digits(t.minute);
    Pad2Digits(t.second);
  }

  /** The `(tm_year, tm_mon, tm_mday)` triple the sync resolver compares. */
  datatype Day = Day(year: int, month: int, day: int)

  function DayOf(t: Time): Day
  {
    Day(t.year, t.month, t.day)
  }

  /** Python's `<` on the triples: lexicographic. */
  predicate DayBefore(a: Day, b: Day)
  {
    a.year < b.year
    || (a.year == b.year && a.month < b.month)
    || (a.year == b.year && a.month == b.month && a.day < b.day)
  }

  lemma DayBeforeStrictTotalOrder(a: Day, b: Day, c: Day)
    ensures !DayBefore(a, a)
    ensures DayBefore(a, b) && DayBefore(b, c) ==> DayBefore(a, c)
    ensures a != b ==> DayBefore(a, b) || DayBefore(b, a)
    ensures !(DayBefore(a, b) && DayBefore(b, a))
  {
  }

  /** Two instants on the same calendar day have the same key, whatever their clock time. */
  lemma SameDaySameKey(t: Time, u: Time)
    requires t.year == u.year && t.month == u.month && t.day == u.day
    ensures !DayBefore(DayOf(t), DayOf(u)) && !DayBefore(DayOf(u), DayOf(t))
  {
  }
}
