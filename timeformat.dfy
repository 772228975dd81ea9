/**
 * Go's `time.Time.Format` for the one layout the save-cache step uses,
 * "20060102-150405" (four-digit year, two-digit month, day, hour, minute
 * and second, with a dash between date and time), and a parser for the
 * produced text so that the formatting can be shown to lose nothing.
 */
module TimeFormat {
  import opened Wrappers

  /** A UTC wall-clock reading, as `time.Now().UTC()` breaks it into fields. */
  datatype Timestamp = Timestamp(year: nat, month: nat, day: nat, hour: nat, minute: nat, second: nat)
  {
    predicate Valid()
    {
      1 <= month <= 12 && 1 <= day <= 31 && hour < 24 && minute < 60 && second < 60
    }
  }

  function Pow10(n: nat): (p: nat)
    ensures p >= 1
  {
    if n == 0 then 1 else 10 * Pow10(n - 1)
  }

  predicate IsDigit(c: char)
  {
    '0' <= c <= '9'
  }

  predicate AllDigits(s: string)
  {
    forall i :: 0 <= i < |s| ==> IsDigit(s[i])
  }

  function DigitChar(d: nat): (c: char)
    requires d < 10
    ensures IsDigit(c)
  {
    ('0' as int + d) as char
  }

  function DigitValue(c: char): (d: nat)
    requires IsDigit(c)
    ensures d < 10
  {
    (c as int - '0' as int) as nat
  }

  /**
   * The decimal digits of `n`, padded with leading zeros to at least
   * `width` characters (Go's `appendInt(b, n, width)` for a non-negative `n`).
   */
  function PadDecimal(n: nat, width: nat): (s: string)
    ensures |s| >= 1 && |s| >= width
    ensures AllDigits(s)
    ensures 1 <= width && n < Pow10(width) ==> |s| == width
    decreases n + width
  {
    if n < 10 && width <= 1 then [DigitChar(n)]
    else PadDecimal(n / 10, if width == 0 then 0 else width - 1) + [DigitChar(n % 10)]
  }

  /** The number a string of decimal digits denotes. */
  function DecimalValue(s: string): nat
    requires AllDigits(s)
  {
    if s == [] then 0 else DecimalValue(s[..|s| - 1]) * 10 + DigitValue(s[|s| - 1])
  }

  /** Reading back a padded decimal gives the number that was written. */
  lemma {:induction false} PadDecimalValue(n: nat, width: nat)
    ensures DecimalValue(PadDecimal(n, width)) == n
    decreases n + width
  {
    var s := PadDecimal(n, width);
    if n < 10 && width <= 1 {
      assert s[..0] == [];
      assert DigitValue(DigitChar(n)) == n;
    } else {
      var w := if width == 0 then 0 else width - 1;
      var d := n % 10;
      PadDecimalValue(n / 10, w);
      assert s[..|s| - 1] == PadDecimal(n / 10, w);
      assert DigitValue(s[|s| - 1]) == d by {
        assert s[|s| - 1] == DigitChar(d);
      }
      assert DecimalValue(s) == (n / 10) * 10 + d;
      assert (n / 10) * 10 + d == n;
    }
  }

  /**
   * The text of `t` in the layout "20060102-150405": digits only, except the
   * dash that separates the six time digits from the date, which is
   * exactly eight digits long for a four-digit year.
   */
  function FormatStamp(t: Timestamp): (r: string)
    ensures t.Valid() ==> |r| >= 15 && r[|r| - 7] == '-'
    ensures t.Valid() ==> forall i :: 0 <= i < |r| && i != |r| - 7 ==> IsDigit(r[i])
    ensures t.Valid() && t.year < 10000 ==> |r| == 15
  {
    StampShape(t);
    FormatFields(t.year, 4, t.month, t.day) + "-" + FormatFields(t.hour, 2, t.minute, t.second)
  }

  lemma StampShape(t: Timestamp)
    ensures var r := FormatFields(t.year, 4, t.month, t.day) + "-" + FormatFields(t.hour, 2, t.minute, t.second);
            (t.Valid() ==> |r| >= 15 && r[|r| - 7] == '-') &&
            (t.Valid() ==> forall i :: 0 <= i < |r| && i != |r| - 7 ==> IsDigit(r[i])) &&
            (t.Valid() && t.year < 10000 ==> |r| == 15)
  {
    var date, clock := FormatFields(t.year, 4, t.month, t.day), FormatFields(t.hour, 2, t.minute, t.second);
    var r := date + "-" + clock;
    if t.Valid() {
      assert Pow10(4) == 10000;
      FieldsLength(t.hour, 2, t.minute, t.second);
      FieldsLength(t.year, 4, t.month, t.day);
      assert forall i :: 0 <= i < |date| ==> r[i] == date[i];
      assert forall i :: |date| < i < |r| ==> r[i] == clock[i - |date| - 1];
    }
  }

  /** Three zero-padded numbers side by side: the first `width` wide, the other two two wide. */
  function FormatFields(a: nat, width: nat, b: nat, c: nat): (r: string)
    ensures AllDigits(r)
  {
    var x, y, z := PadDecimal(a, width), PadDecimal(b, 2), PadDecimal(c, 2);
    assert forall i :: 0 <= i < |x| ==> (x + y + z)[i] == x[i];
    assert forall i :: |x| <= i < |x| + |y| ==> (x + y + z)[i] == y[i - |x|];
    assert forall i :: |x| + |y| <= i < |x| + |y| + |z| ==> (x + y + z)[i] == z[i - |x| - |y|];
    x + y + z
  }

  lemma FieldsLength(a: nat, width: nat, b: nat, c: nat)
    requires 1 <= width
    ensures |FormatFields(a, width, b, c)| >= width + 4
    ensures a < Pow10(width) && b < 100 && c < 100 ==> |FormatFields(a, width, b, c)| == width + 4
  {
    assert Pow10(2) == 100;
  }

  /** Reads back what FormatFields writes: the first `width` digits, then two and two. */
  function ParseFields(s: string, width: nat): (nat, nat, nat)
    requires AllDigits(s) && |s| == width + 4
  {
    (DecimalValue(s[..width]), DecimalValue(s[width..width + 2]), DecimalValue(s[width + 2..]))
  }

  lemma FieldsRoundTrip(a: nat, width: nat, b: nat, c: nat)
    requires 1 <= width && a < Pow10(width) && b < 100 && c < 100
    ensures |FormatFields(a, width, b, c)| == width + 4
    ensures ParseFields(FormatFields(a, width, b, c), width) == (a, b, c)
  {
    var x, y, z := PadDecimal(a, width), PadDecimal(b, 2), PadDecimal(c, 2);
    assert Pow10(2) == 100;
    var s := x + y + z;
    assert s[..width] == x && s[width..width + 2] == y && s[width + 2..] == z;
    PadDecimalValue(a, width);
    PadDecimalValue(b, 2);
    PadDecimalValue(c, 2);
  }

  /** Reads a 15-character "YYYYMMDD-HHMMSS" stamp; anything else is rejected. */
  function ParseStamp(s: string): Option<Timestamp>
  {
    if |s| == 15 && s[8] == '-' && AllDigits(s[..8]) && AllDigits(s[9..]) then
      var (year, month, day) := ParseFields(s[..8], 4);
      var (hour, minute, second) := ParseFields(s[9..], 2);
      Some(Timestamp(year, month, day, hour, minute, second))
    else None
  }

  /** A valid timestamp with a four-digit year formats to a stamp that parses back to it. */
  lemma StampRoundTrip(t: Timestamp)
    requires t.Valid() && t.year < 10000
    ensures |FormatStamp(t)| == 15
    ensures ParseStamp(FormatStamp(t)) == Some(t)
  {
    var date, clock := FormatFields(t.year, 4, t.month, t.day), FormatFields(t.hour, 2, t.minute, t.second);
    assert Pow10(4) == 10000 && Pow10(2) == 100;
    FieldsRoundTrip(t.year, 4, t.month, t.day);
    FieldsRoundTrip(t.hour, 2, t.minute, t.second);
    var s := FormatStamp(t);
    assert s[..8] == date && s[8] == '-' && s[9..] == clock;
  }
}
