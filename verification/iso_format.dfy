/** The `YYYY-MM-DD` key a reminder date is compared by: the date part of
    `Date.prototype.toISOString()`. Years 0 to 9999 print as four digits;
    other years print in the expanded form, a sign followed by at least six
    digits. `ParseIso` reads such a key back. */
module IsoFormat {
  import opened Wrappers
  import opened Digits
  import opened CivilDate

  function Abs(x: int): nat {
    if x < 0 then -x else x
  }

  function YearText(y: int): string {
    if 0 <= y <= 9999 then PadLeft(y, 4)
    else (if y < 0 then "-" else "+") + PadLeft(Abs(y), 6)
  }

  /** The date part of `toISOString()`: year, month and day separated by
      dashes, month and day as two zero-padded digits each; the four-digit
      years 0 to 9999 give the 10-character `YYYY-MM-DD`. */
  function FormatIso(d: Date): (s: string)
    requires Valid(d)
    ensures |s| >= 10 && s[|s| - 6] == '-' && s[|s| - 3] == '-'
    ensures AllDigits(s[|s| - 5..|s| - 3]) && AllDigits(s[|s| - 2..])
    ensures 0 <= d.year <= 9999 <==> |s| == 10
  {
    var y := YearText(d.year);
    var m := PadLeft(d.month, 2);
    var dd := PadLeft(d.day, 2);
    YearTextLength(d.year);
    TwoDigits(d.month);
    TwoDigits(d.day);
    KeyLayout(y, m, dd);
    y + "-" + m + "-" + dd
  }

  function ParseYear(p: string): Option<int> {
    if |p| == 4 && AllDigits(p) then Some(DigitsValue(p))
    else if |p| >= 7 && (p[0] == '+' || p[0] == '-') && AllDigits(p[1..]) then
      var v: int := DigitsValue(p[1..]);
      Some(if p[0] == '-' then -v else v)
    else None
  }

  /** Reads a key of the shape FormatIso produces; anything else, including a
      well-shaped string naming a day the calendar does not have, gives None. */
  function ParseIso(s: string): (r: Option<Date>)
    ensures r.Some? ==> Valid(r.value)
  {
    if |s| < 10 || s[|s| - 6] != '-' || s[|s| - 3] != '-' then None
    else
      var mm := s[|s| - 5..|s| - 3];
      var dd := s[|s| - 2..];
      if !AllDigits(mm) || !AllDigits(dd) then None
      else
        match ParseYear(s[..|s| - 6])
        case None => None
        case Some(y) =>
          var d := Date(y, DigitsValue(mm), DigitsValue(dd));
          if Valid(d) then Some(d) else None
  }

  lemma TwoDigits(n: nat)
    requires 1 <= n <= 31
    ensures |PadLeft(n, 2)| == 2
  {
    DigitsLength(n, 2);
  }

  lemma FourDigitYear(y: int)
    requires 0 <= y <= 9999
    ensures |YearText(y)| == 4 && ParseYear(YearText(y)) == Some(y)
  {
    DigitsLength(y, 4);
  }

  lemma ExpandedYear(y: int)
    requires !(0 <= y <= 9999)
    ensures |YearText(y)| >= 7 && ParseYear(YearText(y)) == Some(y)
  {
    var p := YearText(y);
    assert p[1..] == PadLeft(Abs(y), 6);
  }

  /** Only the years 0 to 9999 print as four characters; the expanded form
      is longer. */
  lemma YearTextLength(y: int)
    ensures |YearText(y)| >= 4
    ensures 0 <= y <= 9999 <==> |YearText(y)| == 4
  {
    if 0 <= y <= 9999 {
      DigitsLength(y, 4);
    }
  }

  lemma YearTextShape(y: int)
    ensures 0 <= y <= 9999 ==> |YearText(y)| == 4 && ParseYear(YearText(y)) == Some(y)
    ensures !(0 <= y <= 9999) ==> |YearText(y)| >= 7 && ParseYear(YearText(y)) == Some(y)
  {
    if 0 <= y <= 9999 {
      FourDigitYear(y);
    } else {
      ExpandedYear(y);
    }
  }

  /** The pieces of a key sit at fixed distances from its end. */
  lemma KeyPieces(y: string, m: string, dd: string)
    requires |m| == 2 && |dd| == 2
    ensures var s := y + "-" + m + "-" + dd;
      && |s| == |y| + 6
      && s[|s| - 6] == '-' && s[|s| - 3] == '-'
      && s[..|s| - 6] == y
      && s[|s| - 5..|s| - 3] == m
      && s[|s| - 2..] == dd
  {
  }

  /** A key built from two-digit month and day fields has its dashes and
      digit fields at fixed distances from its end. */
  lemma KeyLayout(y: string, m: string, dd: string)
    requires |m| == 2 && |dd| == 2 && AllDigits(m) && AllDigits(dd)
    ensures var s := y + "-" + m + "-" + dd;
      && |s| == |y| + 6
      && s[|s| - 6] == '-' && s[|s| - 3] == '-'
      && AllDigits(s[|s| - 5..|s| - 3]) && AllDigits(s[|s| - 2..])
  {
    KeyPieces(y, m, dd);
  }

  /** Reading a formatted key back gives the date it was made from. */
  lemma FormatParseRoundTrip(d: Date)
    requires Valid(d)
    ensures ParseIso(FormatIso(d)) == Some(d)
  {
    var y := YearText(d.year);
    var m := PadLeft(d.month, 2);
    var dd := PadLeft(d.day, 2);
    YearTextShape(d.year);
    TwoDigits(d.month);
    TwoDigits(d.day);
    KeyPieces(y, m, dd);
    assert FormatIso(d) == y + "-" + m + "-" + dd;
  }

  /** Two dates share a key exactly when they are the same date, so comparing
      keys as strings compares calendar dates. */
  lemma FormatInjective(a: Date, b: Date)
    requires Valid(a) && Valid(b)
    ensures FormatIso(a) == FormatIso(b) <==> a == b
  {
    FormatParseRoundTrip(a);
    FormatParseRoundTrip(b);
  }

  /** For four-digit years the key is the 10-character `YYYY-MM-DD` with
      zero-padded month and day. */
  lemma FormatShape(d: Date)
    requires Valid(d) && 0 <= d.year <= 9999
    ensures |FormatIso(d)| == 10
    ensures FormatIso(d)[4] == '-' && FormatIso(d)[7] == '-'
    ensures AllDigits(FormatIso(d)[..4]) && DigitsValue(FormatIso(d)[..4]) == d.year
    ensures AllDigits(FormatIso(d)[5..7]) && DigitsValue(FormatIso(d)[5..7]) == d.month
    ensures AllDigits(FormatIso(d)[8..]) && DigitsValue(FormatIso(d)[8..]) == d.day
  {
    var y, m, dd := YearText(d.year), PadLeft(d.month, 2), PadLeft(d.day, 2);
    FourDigitYear(d.year);
    TwoDigits(d.month);
    TwoDigits(d.day);
    KeyPieces(y, m, dd);
    var s := FormatIso(d);
    assert s == y + "-" + m + "-" + dd;
    assert s[..4] == y;
    assert s[5..7] == m;
    assert s[8..] == dd;
  }
}
