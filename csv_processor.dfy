/**
 * `CSVProcessor.format_date`: the date normaliser of the CSV pipeline. It
 * turns the three date spellings of the source data (`YYYYMM`, `YYYY-MM-DD`,
 * `YYYY`) into the Brazilian `DD/MM/YYYY`, and passes everything else through.
 */
module CsvProcessor {
  import Text

  /** The placeholders the pipeline writes for a missing date. */
  predicate Placeholder(s: string) {
    s == "Desconhecido" || s == "N/A" || s == "Erro"
  }

  /** `^\d{6}$` */
  predicate IsYearMonth(t: string) {
    |t| == 6 && Text.AllDigits(t)
  }

  /** `^\d{4}-\d{2}-\d{2}$` */
  predicate IsIsoDate(t: string) {
    && |t| == 10
    && Text.AllDigits(t[..4]) && t[4] == '-'
    && Text.AllDigits(t[5..7]) && t[7] == '-'
    && Text.AllDigits(t[8..])
  }

  /** `^\d{4}$` */
  predicate IsYear(t: string) {
    |t| == 4 && Text.AllDigits(t)
  }

  /** The output shape `DD/MM/YYYY`: ten characters, digits around two slashes. */
  predicate IsDisplayDate(r: string) {
    && |r| == 10
    && Text.AllDigits(r[..2]) && r[2] == '/'
    && Text.AllDigits(r[3..5]) && r[5] == '/'
    && Text.AllDigits(r[6..])
  }

  /** Day, month and year of a display date, put back in ISO order `YYYY-MM-DD`. */
  function DisplayToIso(r: string): (iso: string)
    requires IsDisplayDate(r)
    ensures IsIsoDate(iso)
  {
    r[6..] + "-" + r[3..5] + "-" + r[..2]
  }

  /** The display date with day `d`, month `m` and year `y`; the parts can be read back. */
  function Display(d: string, m: string, y: string): (r: string)
    requires |d| == 2 && |m| == 2 && |y| == 4
    requires Text.AllDigits(d) && Text.AllDigits(m) && Text.AllDigits(y)
    ensures IsDisplayDate(r)
    ensures r[..2] == d && r[3..5] == m && r[6..] == y
  {
    var r := d + "/" + m + "/" + y;
    assert r[..2] == d;
    assert r[3..5] == m;
    assert r[6..] == y;
    r
  }

  /** `format_date` */
  function FormatDate(s: string): (r: string)
    ensures s == "" || Placeholder(s) ==> r == s
    ensures r == s || r == Text.Strip(s) || IsDisplayDate(r)
  {
    if s == "" || Placeholder(s) then s
    else
      var t := Text.Strip(s);
      if IsYearMonth(t) then FromYearMonth(t)
      else if IsIsoDate(t) then FromIso(t)
      else if IsYear(t) then FromYear(t)
      else t
  }

  /** `01/MM/YYYY` from `YYYYMM`. */
  function FromYearMonth(t: string): (r: string)
    requires IsYearMonth(t)
    ensures IsDisplayDate(r) && r[..2] == "01" && r[3..5] == t[4..6] && r[6..] == t[..4]
  {
    DigitsSlice(t, 4, 6);
    DigitsSlice(t, 0, 4);
    Display("01", t[4..6], t[..4])
  }

  /** `01/01/YYYY` from `YYYY`. */
  function FromYear(t: string): (r: string)
    requires IsYear(t)
    ensures IsDisplayDate(r) && r[..6] == "01/01/" && r[6..] == t
  {
    var r := Display("01", "01", t);
    assert r[..6] == r[..2] + [r[2]] + r[3..5] + [r[5]];
    r
  }

  /** `DD/MM/YYYY` from `YYYY-MM-DD`. */
  function FromIso(t: string): (r: string)
    requires IsIsoDate(t)
    ensures IsDisplayDate(r) && r[..2] == t[8..] && r[3..5] == t[5..7] && r[6..] == t[..4]
  {
    Display(t[8..], t[5..7], t[..4])
  }

  /** A slice of a string of digits is a string of digits. */
  lemma DigitsSlice(t: string, i: nat, j: nat)
    requires i <= j <= |t| && Text.AllDigits(t)
    ensures Text.AllDigits(t[i..j])
  {
  }

  /** `YYYYMM` becomes the first day of that month: the output holds the same year and month digits. */
  lemma YearMonthRearranged(s: string)
    requires s != "" && !Placeholder(s) && IsYearMonth(Text.Strip(s))
    ensures IsDisplayDate(FormatDate(s))
    ensures FormatDate(s)[..2] == "01"
    ensures FormatDate(s)[6..] + FormatDate(s)[3..5] == Text.Strip(s)
  {
    var t := Text.Strip(s);
    assert FormatDate(s) == FromYearMonth(t);
    assert t == t[..4] + t[4..6];
  }

  /** `YYYY-MM-DD` is reordered without any range check: reading the output back gives the input. */
  lemma IsoDateRoundTrip(s: string)
    requires s != "" && !Placeholder(s) && IsIsoDate(Text.Strip(s))
    ensures IsDisplayDate(FormatDate(s))
    ensures DisplayToIso(FormatDate(s)) == Text.Strip(s)
  {
    var t := Text.Strip(s);
    assert !IsYearMonth(t);
    assert FormatDate(s) == FromIso(t);
    FromIsoRoundTrip(t);
  }

  /** Reading an ISO date's display form back gives the ISO date. */
  lemma FromIsoRoundTrip(t: string)
    requires IsIsoDate(t)
    ensures DisplayToIso(FromIso(t)) == t
  {
    var r := FromIso(t);
    assert DisplayToIso(r) == t[..4] + "-" + t[5..7] + "-" + t[8..];
    assert t == t[..4] + "-" + t[5..7] + "-" + t[8..];
  }

  /** Every display date comes back from its ISO spelling. */
  lemma DisplayRoundTrip(r: string)
    requires IsDisplayDate(r)
    ensures FormatDate(DisplayToIso(r)) == r
  {
    var iso := DisplayToIso(r);
    assert Text.IsDigit(iso[0]) && Text.IsDigit(iso[9]);
    StripKeepsTrimmed(iso);
    assert iso[..4] == r[6..] && iso[5..7] == r[3..5] && iso[8..10] == r[..2];
    assert r == r[..2] + "/" + r[3..5] + "/" + r[6..];
  }

  /** `YYYY` becomes the first of January of that year. */
  lemma YearPadded(s: string)
    requires s != "" && !Placeholder(s) && IsYear(Text.Strip(s))
    ensures IsDisplayDate(FormatDate(s))
    ensures FormatDate(s)[..6] == "01/01/"
    ensures FormatDate(s)[6..] == Text.Strip(s)
  {
    var t := Text.Strip(s);
    assert !IsYearMonth(t) && !IsIsoDate(t);
    assert FormatDate(s) == FromYear(t);
  }

  /** Anything that is not a placeholder and matches none of the patterns is only stripped. */
  lemma OtherStripped(s: string)
    requires s != "" && !Placeholder(s)
    requires var t := Text.Strip(s); !IsYearMonth(t) && !IsIsoDate(t) && !IsYear(t)
    ensures FormatDate(s) == Text.Strip(s)
  {
  }

  /** A stripped display date is its own strip. */
  lemma DisplayIsStripped(r: string)
    requires IsDisplayDate(r)
    ensures Text.Strip(r) == r
  {
    assert r[..2][0] == r[0] && r[6..][3] == r[9];
    assert Text.IsDigit(r[0]) && Text.IsDigit(r[9]);
    StripKeepsTrimmed(r);
  }

  /** A display date matches none of the input patterns and is no placeholder. */
  lemma DisplayIsFinal(r: string)
    requires IsDisplayDate(r)
    ensures r != "" && !Placeholder(r)
    ensures !IsYearMonth(r) && !IsIsoDate(r) && !IsYear(r)
  {
    assert r[2] == '/';
    assert !Text.IsDigit(r[2]);
  }

  /** Normalising twice is normalising once. */
  lemma FormatDateIdempotent(s: string)
    ensures FormatDate(FormatDate(s)) == FormatDate(s)
  {
    var r := FormatDate(s);
    if s == "" || Placeholder(s) {
    } else if IsDisplayDate(r) {
      DisplayIsStripped(r);
      DisplayIsFinal(r);
    } else {
      var t := Text.Strip(s);
      assert r == t;
      Text.StripIdempotent(s);
    }
  }

  /** A string with non-space ends is its own strip. */
  lemma StripKeepsTrimmed(s: string)
    requires s != [] && !Text.IsSpace(s[0]) && !Text.IsSpace(s[|s| - 1])
    ensures Text.Strip(s) == s
  {
    assert Text.RStrip(s) == s;
  }

  /** An ISO date assembled from its parts is displayed with the parts reversed. */
  lemma IsoParts(y: string, m: string, d: string)
    requires |y| == 4 && |m| == 2 && |d| == 2
    requires Text.AllDigits(y) && Text.AllDigits(m) && Text.AllDigits(d)
    ensures FormatDate(y + "-" + m + "-" + d) == d + "/" + m + "/" + y
  {
    var s := y + "-" + m + "-" + d;
    assert s[..4] == y && s[5..7] == m && s[8..] == d;
    assert IsIsoDate(s);
    StripKeepsTrimmed(s);
    assert !IsYearMonth(s);
    assert s[8..10] == d;
  }

  /** The ISO date of the test suite, spelled out from its parts. */
  lemma IsoExampleSpelling()
    ensures "2023-01-15" == "2023" + "-" + "01" + "-" + "15"
    ensures "15/01/2023" == "15" + "/" + "01" + "/" + "2023"
  {
  }

  /** The ISO date of the test suite. */
  lemma IsoExample()
    ensures FormatDate("2023-01-15") == "15/01/2023"
  {
    IsoExampleSpelling();
    IsoParts("2023", "01", "15");
  }

  /** The year-and-month date of the test suite. */
  lemma YearMonthExample()
    ensures FormatDate("202301") == "01/01/2023"
  {
    var s := "202301";
    StripKeepsTrimmed(s);
    assert IsYearMonth(s);
    var r := FromYearMonth(s);
    assert FormatDate(s) == r;
    assert s[4..6] == "01" && s[..4] == "2023";
    assert r == r[..2] + "/" + r[3..5] + "/" + r[6..];
  }

  /** The bare year of the test suite. */
  lemma YearExample()
    ensures FormatDate("2023") == "01/01/2023"
  {
    var s := "2023";
    StripKeepsTrimmed(s);
    assert IsYear(s);
    YearPadded(s);
    var r := FormatDate(s);
    assert r == r[..6] + r[6..];
  }
}
