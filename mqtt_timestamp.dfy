/** The device client's timestamp rewrite with its default formats: a
    measurement's own timestamp is read with `%Y-%m-%d %H:%M:%S` and written
    back with `%Y-%m-%dT%H:%M:%S` (platform/iot/mqtt_client/client.py:30-31,
    140-144). Only the zero-padded form of the input is modelled; `%Y` is
    written the way the C library of the Linux host writes it, without
    padding. */
module MqttTimestamp {
  import opened Common

  datatype DateTime = DateTime(year: nat, month: nat, day: nat, hour: nat, minute: nat, second: nat)

  predicate IsDigit(c: char) { '0' <= c <= '9' }

  predicate AllDigits(d: string) { forall i :: 0 <= i < |d| ==> IsDigit(d[i]) }

  /** The value of a run of decimal digits. */
  function DigitsValue(d: string): (n: nat)
    requires AllDigits(d)
    ensures n < Pow10(|d|)
  {
    if |d| == 0 then 0
    else DigitsValue(d[..|d| - 1]) * 10 + (d[|d| - 1] as int - 48)
  }

  predicate IsLeapYear(y: int) {
    y % 4 == 0 && (y % 100 != 0 || y % 400 == 0)
  }

  function DaysInMonth(y: int, m: int): (d: nat)
    requires 1 <= m <= 12
    ensures 28 <= d <= 31
  {
    if m == 2 then (if IsLeapYear(y) then 29 else 28)
    else if m == 4 || m == 6 || m == 9 || m == 11 then 30
    else 31
  }

  /** What `strptime` accepts after matching the digits: a date that exists
      (years 1 to 9999) and a time of day whose seconds may reach 61. */
  predicate ValidDateTime(t: DateTime) {
    && 1 <= t.year <= 9999
    && 1 <= t.month <= 12
    && 1 <= t.day <= DaysInMonth(t.year, t.month)
    && t.hour <= 23 && t.minute <= 59 && t.second <= 61
  }

  /** The zero-padded shape of `%Y-%m-%d %H:%M:%S`. */
  predicate InputShape(s: string) {
    && |s| == 19
    && s[4] == '-' && s[7] == '-' && s[10] == ' ' && s[13] == ':' && s[16] == ':'
    && AllDigits(s[0..4]) && AllDigits(s[5..7]) && AllDigits(s[8..10])
    && AllDigits(s[11..13]) && AllDigits(s[14..16]) && AllDigits(s[17..19])
  }

  /** `time.strptime(s, '%Y-%m-%d %H:%M:%S')`; `None` is the ValueError it raises. */
  function ParseInput(s: string): (r: Option<DateTime>)
    ensures r.Some? ==> InputShape(s) && ValidDateTime(r.value)
  {
    if !InputShape(s) then None
    else ParseFields(s[0..4], s[5..7], s[8..10], s[11..13], s[14..16], s[17..19])
  }

  /** The fields' values, kept when they name an existing date and time. */
  function ParseFields(y: string, mo: string, d: string, h: string, mi: string, se: string): (r: Option<DateTime>)
    requires AllDigits(y) && AllDigits(mo) && AllDigits(d) && AllDigits(h) && AllDigits(mi) && AllDigits(se)
    ensures r.Some? ==> ValidDateTime(r.value)
  {
    var t := DateTime(DigitsValue(y), DigitsValue(mo), DigitsValue(d),
                      DigitsValue(h), DigitsValue(mi), DigitsValue(se));
    if ValidDateTime(t) then Some(t) else None
  }

  /** `time.strftime('%Y-%m-%dT%H:%M:%S', t)`. */
  function FormatOutput(t: DateTime): string {
    NatText(t.year) + "-" + FixedDigits(t.month, 2) + "-" + FixedDigits(t.day, 2)
      + "T" + FixedDigits(t.hour, 2) + ":" + FixedDigits(t.minute, 2)
      + ":" + FixedDigits(t.second, 2)
  }

  /** The rewrite `get_payload` applies when it uses the input timestamp. */
  function RewriteTimestamp(s: string): Option<string> {
    match ParseInput(s)
    case None => None
    case Some(t) => Some(FormatOutput(t))
  }

  // ---------------------------------------------------------------------
  // Properties

  lemma {:induction false} DigitsRoundTrip(d: string)
    requires AllDigits(d)
    ensures FixedDigits(DigitsValue(d), |d|) == d
    decreases |d|
  {
    if |d| > 0 {
      var p := d[..|d| - 1];
      assert AllDigits(p);
      DigitsRoundTrip(p);
      var n := DigitsValue(d);
      assert n / 10 == DigitsValue(p);
      assert n % 10 == d[|d| - 1] as int - 48;
      assert d == p + [d[|d| - 1]];
    }
  }

  lemma {:induction false} NatTextLength(n: nat, w: nat)
    requires w >= 1 && n >= Pow10(w - 1)
    ensures |NatText(n)| >= w
    decreases w
  {
    if w > 1 {
      assert n / 10 >= Pow10(w - 2);
      NatTextLength(n / 10, w - 1);
    }
  }

  lemma Value2(d: string)
    requires |d| == 2 && AllDigits(d)
    ensures DigitsValue(d) == (d[0] as int - 48) * 10 + (d[1] as int - 48)
  {
    assert d[..1][..0] == [];
  }

  lemma Value4(d: string)
    requires |d| == 4 && AllDigits(d)
    ensures DigitsValue(d) == (d[0] as int - 48) * 1000 + (d[1] as int - 48) * 100
                              + (d[2] as int - 48) * 10 + (d[3] as int - 48)
  {
    assert d[..3][..2] == d[..2];
    assert AllDigits(d[..3]) && AllDigits(d[..2]);
    Value2(d[..2]);
  }

  /** A four-digit year without a leading zero is written back as it was read. */
  lemma YearRoundTrip(d: string)
    requires |d| == 4 && AllDigits(d) && d[0] != '0'
    ensures NatText(DigitsValue(d)) == d
  {
    var n := DigitsValue(d);
    DigitsRoundTrip(d);
    Value4(d);
    assert n >= 1000 == Pow10(3);
    NatTextLength(n, 4);
    PaddedIsFixed(n, 4);
  }

  /** With the default formats, an accepted timestamp whose year has no
      leading zero keeps every character except the date/time separator,
      which becomes 'T'. */
  lemma RewriteReplacesSeparator(s: string)
    requires ParseInput(s).Some? && s[0] != '0'
    ensures RewriteTimestamp(s) == Some(s[..10] + "T" + s[11..])
  {
    var y, mo, d, h, mi, se := s[0..4], s[5..7], s[8..10], s[11..13], s[14..16], s[17..19];
    SeparatorShape(s);
    RewriteParts(y, mo, d, h, mi, se);
  }

  /** The rewrite of a timestamp given by its six fields. */
  lemma RewriteParts(y: string, mo: string, d: string, h: string, mi: string, se: string)
    requires |y| == 4 && |mo| == 2 && |d| == 2 && |h| == 2 && |mi| == 2 && |se| == 2
    requires ParseInput(y + "-" + mo + "-" + d + " " + h + ":" + mi + ":" + se).Some? && y[0] != '0'
    ensures RewriteTimestamp(y + "-" + mo + "-" + d + " " + h + ":" + mi + ":" + se)
      == Some(y + "-" + mo + "-" + d + "T" + h + ":" + mi + ":" + se)
  {
    var s := y + "-" + mo + "-" + d + " " + h + ":" + mi + ":" + se;
    InputFields(y, mo, d, h, mi, se);
    var t := ParseInput(s).value;
    assert t == DateTime(DigitsValue(y), DigitsValue(mo), DigitsValue(d),
                         DigitsValue(h), DigitsValue(mi), DigitsValue(se));
    YearRoundTrip(y);
    DigitsRoundTrip(mo);
    DigitsRoundTrip(d);
    DigitsRoundTrip(h);
    DigitsRoundTrip(mi);
    DigitsRoundTrip(se);
  }

  /** A string of the input's shape is its fields and separators, and
      putting 'T' in place of the blank joins the same fields. */
  lemma SeparatorShape(s: string)
    requires |s| == 19 && s[4] == '-' && s[7] == '-' && s[10] == ' ' && s[13] == ':' && s[16] == ':'
    ensures s == s[0..4] + "-" + s[5..7] + "-" + s[8..10] + " " + s[11..13] + ":" + s[14..16] + ":" + s[17..19]
    ensures s[..10] + "T" + s[11..]
      == s[0..4] + "-" + s[5..7] + "-" + s[8..10] + "T" + s[11..13] + ":" + s[14..16] + ":" + s[17..19]
  {
    assert s[..10] == s[0..4] + "-" + s[5..7] + "-" + s[8..10];
    assert s[11..] == s[11..13] + ":" + s[14..16] + ":" + s[17..19];
    assert s == s[..10] + " " + s[11..];
  }

  /** The fields of a timestamp assembled from its parts. */
  lemma InputFields(y: string, mo: string, d: string, h: string, mi: string, se: string)
    requires |y| == 4 && |mo| == 2 && |d| == 2 && |h| == 2 && |mi| == 2 && |se| == 2
    ensures var s := y + "-" + mo + "-" + d + " " + h + ":" + mi + ":" + se;
      && |s| == 19 && s[4] == '-' && s[7] == '-' && s[10] == ' ' && s[13] == ':' && s[16] == ':'
      && s[0..4] == y && s[5..7] == mo && s[8..10] == d
      && s[11..13] == h && s[14..16] == mi && s[17..19] == se
  {
    var date := y + "-" + mo + "-" + d;
    var time := h + ":" + mi + ":" + se;
    var s := y + "-" + mo + "-" + d + " " + h + ":" + mi + ":" + se;
    assert s == date + " " + time;
    DateFields(y, mo, d);
    TimeFields(h, mi, se);
    assert s[..10] == date && s[11..] == time;
    assert s[0..4] == date[0..4] && s[5..7] == date[5..7] && s[8..10] == date[8..10];
    assert s[11..13] == time[0..2] && s[14..16] == time[3..5] && s[17..19] == time[6..8];
  }

  lemma DateFields(y: string, mo: string, d: string)
    requires |y| == 4 && |mo| == 2 && |d| == 2
    ensures var date := y + "-" + mo + "-" + d;
      && |date| == 10 && date[4] == '-' && date[7] == '-'
      && date[0..4] == y && date[5..7] == mo && date[8..10] == d
  {
  }

  lemma TimeFields(h: string, mi: string, se: string)
    requires |h| == 2 && |mi| == 2 && |se| == 2
    ensures var time := h + ":" + mi + ":" + se;
      && |time| == 8 && time[2] == ':' && time[5] == ':'
      && time[0..2] == h && time[3..5] == mi && time[6..8] == se
  {
  }

  lemma ExampleText()
    ensures "2021-01-01 10:00:00" == "2021" + "-" + "01" + "-" + "01" + " " + "10" + ":" + "00" + ":" + "00"
    ensures "2021-01-01T10:00:00" == "2021" + "-" + "01" + "-" + "01" + "T" + "10" + ":" + "00" + ":" + "00"
    ensures "2021-02-30 10:00:00" == "2021" + "-" + "02" + "-" + "30" + " " + "10" + ":" + "00" + ":" + "00"
  {
  }

  lemma ExampleDigits()
    ensures AllDigits("2021") && DigitsValue("2021") == 2021
    ensures AllDigits("01") && DigitsValue("01") == 1
    ensures AllDigits("02") && DigitsValue("02") == 2
    ensures AllDigits("10") && DigitsValue("10") == 10
    ensures AllDigits("30") && DigitsValue("30") == 30
    ensures AllDigits("00") && DigitsValue("00") == 0
  {
    assert AllDigits("2021") && AllDigits("01") && AllDigits("02");
    assert AllDigits("10") && AllDigits("30") && AllDigits("00");
    Value4("2021");
    Value2("01");
    Value2("02");
    Value2("10");
    Value2("30");
    Value2("00");
  }

  lemma ExampleParses()
    ensures ParseInput("2021-01-01 10:00:00") == Some(DateTime(2021, 1, 1, 10, 0, 0))
  {
    ExampleDigits();
    ParseParts("2021", "01", "01", "10", "00", "00");
    ExampleText();
  }

  /** `strptime` on a timestamp given by its six fields of digits. */
  lemma ParseParts(y: string, mo: string, d: string, h: string, mi: string, se: string)
    requires |y| == 4 && |mo| == 2 && |d| == 2 && |h| == 2 && |mi| == 2 && |se| == 2
    requires AllDigits(y) && AllDigits(mo) && AllDigits(d) && AllDigits(h) && AllDigits(mi) && AllDigits(se)
    ensures ParseInput(y + "-" + mo + "-" + d + " " + h + ":" + mi + ":" + se) == ParseFields(y, mo, d, h, mi, se)
  {
    var s := y + "-" + mo + "-" + d + " " + h + ":" + mi + ":" + se;
    InputFields(y, mo, d, h, mi, se);
    assert InputShape(s);
  }

  /** `%Y-%m-%d %H:%M:%S` with every field zero-padded: the input format
      written out. */
  function FormatInput(t: DateTime): string
    requires t.year < 10000 && t.month < 100 && t.day < 100
    requires t.hour < 100 && t.minute < 100 && t.second < 100
  {
    FixedDigits(t.year, 4) + "-" + FixedDigits(t.month, 2) + "-" + FixedDigits(t.day, 2)
      + " " + FixedDigits(t.hour, 2) + ":" + FixedDigits(t.minute, 2) + ":" + FixedDigits(t.second, 2)
  }

  /** Reading back the digits of a value that fits its width. */
  lemma {:induction false} FixedDigitsValue(n: nat, w: nat)
    requires n < Pow10(w)
    ensures AllDigits(FixedDigits(n, w)) && DigitsValue(FixedDigits(n, w)) == n
    decreases w
  {
    if w > 0 {
      var d := FixedDigits(n, w);
      FixedDigitsValue(n / 10, w - 1);
      assert d[..w - 1] == FixedDigits(n / 10, w - 1);
      assert d[w - 1] as int - 48 == n % 10;
    }
  }

  /** Every date and time `strptime` accepts is read back from its
      zero-padded text. */
  lemma ParseFormatted(t: DateTime)
    requires ValidDateTime(t)
    ensures ParseInput(FormatInput(t)) == Some(t)
  {
    assert Pow10(2) == 100 && Pow10(4) == 10000;
    var y, mo, d := FixedDigits(t.year, 4), FixedDigits(t.month, 2), FixedDigits(t.day, 2);
    var h, mi, se := FixedDigits(t.hour, 2), FixedDigits(t.minute, 2), FixedDigits(t.second, 2);
    FixedDigitsValue(t.year, 4);
    FixedDigitsValue(t.month, 2);
    FixedDigitsValue(t.day, 2);
    FixedDigitsValue(t.hour, 2);
    FixedDigitsValue(t.minute, 2);
    FixedDigitsValue(t.second, 2);
    ParseParts(y, mo, d, h, mi, se);
  }

  /** Conversely, an accepted input is the zero-padded text of what it
      parses to: `strptime` accepts exactly the texts of valid dates. */
  lemma ParsedIsFormatted(s: string)
    requires ParseInput(s).Some?
    ensures var t := ParseInput(s).value;
      ValidDateTime(t) && s == FormatInput(t)
  {
    var y, mo, d, h, mi, se := s[0..4], s[5..7], s[8..10], s[11..13], s[14..16], s[17..19];
    SeparatorShape(s);
    DigitsRoundTrip(y);
    DigitsRoundTrip(mo);
    DigitsRoundTrip(d);
    DigitsRoundTrip(h);
    DigitsRoundTrip(mi);
    DigitsRoundTrip(se);
  }

  lemma RewriteExample()
    ensures RewriteTimestamp("2021-01-01 10:00:00") == Some("2021-01-01T10:00:00")
  {
    ExampleParses();
    ExampleText();
    RewriteParts("2021", "01", "01", "10", "00", "00");
  }

  /** `strptime` rejects dates that do not exist, such as 30 February. */
  lemma RewriteRejectsMissingDay()
    ensures RewriteTimestamp("2021-02-30 10:00:00") == None
  {
    ExampleDigits();
    ParseParts("2021", "02", "30", "10", "00", "00");
    ExampleText();
  }
}
