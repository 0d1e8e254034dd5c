/** `formatTime` and `parseTime` of the renderer's utility module: seconds to
    `hh:mm:ss` and back. */
module TimeFormat {
  import opened Wrappers
  import opened Strings

  /** `Math.trunc`: rounds toward zero. */
  function Trunc(x: real): (r: int)
    ensures x >= 0.0 ==> r == x.Floor
  {
    if x >= 0.0 then x.Floor else -((-x).Floor)
  }

  /** JavaScript's `a % b` on numbers: the remainder of the division truncated
      toward zero, so it has the sign of `a` (unlike Dafny's Euclidean `%`). */
  function JsRem(a: real, b: real): real
    requires b != 0.0
  {
    a - b * (Trunc(a / b) as real)
  }

  /** `Math.floor(seconds / 3600)` */
  function Hours(seconds: real): int {
    (seconds / 3600.0).Floor
  }

  /** `Math.floor((seconds % 3600) / 60)` */
  function Minutes(seconds: real): int {
    (JsRem(seconds, 3600.0) / 60.0).Floor
  }

  /** `Math.floor(seconds % 60)` */
  function Secs(seconds: real): int {
    JsRem(seconds, 60.0).Floor
  }

  /** `v.toString().padStart(2, '0')` */
  function Field(v: int): string {
    PadStart(IntToString(v), 2, '0')
  }

  function FormatTime(seconds: real): string {
    Join([Field(Hours(seconds)), Field(Minutes(seconds)), Field(Secs(seconds))], ':')
  }

  /** The result of `Number(...)` arithmetic: a number, or NaN. */
  datatype JsNumber = Num(value: int) | NaN

  /** `Number(field)` for the field shapes this model covers: the empty string
      is 0, an optionally signed run of decimal digits is its value, and
      anything else is NaN. */
  function NumberOf(field: string): Option<int> {
    if field == "" then Some(0)
    else if AllDigits(field) then Some(DecimalValue(field))
    else if |field| > 1 && field[0] == '-' && AllDigits(field[1..]) then Some(-(DecimalValue(field[1..]) as int))
    else if |field| > 1 && field[0] == '+' && AllDigits(field[1..]) then Some(DecimalValue(field[1..]))
    else None
  }

  function ParseTime(timeString: string): JsNumber {
    var parts := Split(timeString, ':');
    if |parts| == 3 then
      match (NumberOf(parts[0]), NumberOf(parts[1]), NumberOf(parts[2]))
      case (Some(h), Some(m), Some(s)) => Num(h * 3600 + m * 60 + s)
      case _ => NaN
    else Num(0)
  }

  // ---------------------------------------------------------------------------
  // Properties of formatTime

  lemma FieldHasNoColon(v: int)
    ensures ':' !in Field(v)
    ensures |Field(v)| >= 2
  {
    var digits := if v < 0 then NatToString(-v) else NatToString(v);
    var s := IntToString(v);
    assert forall i :: 0 <= i < |s| ==> s[i] != ':' by {
      forall i | 0 <= i < |s| ensures s[i] != ':' {
        if v < 0 && i > 0 {
          assert s[i] == digits[i - 1];
        }
      }
    }
    var r := Field(v);
    forall i | 0 <= i < |r| ensures r[i] != ':' {
      if i >= |r| - |s| {
        assert r[i] == r[|r| - |s|..][i - (|r| - |s|)];
      }
    }
  }

  /** Every result has exactly three `:`-separated fields: hours, minutes and
      seconds, each at least two characters wide. */
  lemma FormatTimeShape(seconds: real)
    ensures Split(FormatTime(seconds), ':')
         == [Field(Hours(seconds)), Field(Minutes(seconds)), Field(Secs(seconds))]
    ensures forall i :: 0 <= i < 3 ==> |Split(FormatTime(seconds), ':')[i]| >= 2
  {
    var h, m, s := Hours(seconds), Minutes(seconds), Secs(seconds);
    FieldHasNoColon(h);
    FieldHasNoColon(m);
    FieldHasNoColon(s);
    SplitOfFields(Field(h), Field(m), Field(s));
  }

  /** Three colon-free fields, each two or more wide, joined with `:` split
      back into themselves. */
  lemma SplitOfFields(a: string, b: string, c: string)
    requires ':' !in a && ':' !in b && ':' !in c
    requires |a| >= 2 && |b| >= 2 && |c| >= 2
    ensures Split(Join([a, b, c], ':'), ':') == [a, b, c]
    ensures forall i :: 0 <= i < 3 ==> |Split(Join([a, b, c], ':'), ':')[i]| >= 2
  {
    SplitOfJoin3(a, b, c, ':');
  }

  /** For a non-negative time the remainder by 60 or 3600 is the Euclidean one. */
  lemma JsRemNonNegative(a: real, b: real)
    requires a >= 0.0 && (b == 60.0 || b == 3600.0)
    ensures 0.0 <= JsRem(a, b) < b
    ensures JsRem(a, b) == a - b * ((a / b).Floor as real)
  {
    var q := (a / b).Floor;
    assert q as real <= a / b < q as real + 1.0;
    if b == 60.0 {
      assert 60.0 * (q as real) <= a < 60.0 * (q as real) + 60.0;
    } else {
      assert 3600.0 * (q as real) <= a < 3600.0 * (q as real) + 3600.0;
    }
  }

  /** Minutes and seconds of a non-negative time lie in [0, 59]; hours are
      the whole number of hours and are never capped. */
  lemma FormatTimeRanges(seconds: real)
    requires seconds >= 0.0
    ensures Hours(seconds) >= 0
    ensures 0 <= Minutes(seconds) <= 59
    ensures 0 <= Secs(seconds) <= 59
  {
    JsRemNonNegative(seconds, 3600.0);
    JsRemNonNegative(seconds, 60.0);
  }

  lemma FloorOfQuotient(x: real, k: real)
    requires x >= 0.0 && (k == 60.0 || k == 3600.0)
    ensures (x / k).Floor == (x.Floor as real / k).Floor
  {
    var q := (x / k).Floor;
    var n := x.Floor;
    if k == 60.0 {
      assert (q * 60) as real <= x < (q * 60 + 60) as real;
      assert q * 60 <= n < q * 60 + 60;
    } else {
      assert (q * 3600) as real <= x < (q * 3600 + 3600) as real;
      assert q * 3600 <= n < q * 3600 + 3600;
    }
  }

  lemma FloorMinusWhole(x: real, m: int)
    ensures (x - m as real).Floor == x.Floor - m
  {
  }

  /** Fractions of a second are dropped: a non-negative time prints as its
      whole number of seconds. */
  lemma FormatTimeTruncates(seconds: real)
    requires seconds >= 0.0
    ensures FormatTime(seconds) == FormatTime(seconds.Floor as real)
  {
    var n := seconds.Floor as real;
    FloorOfQuotient(seconds, 3600.0);
    FloorOfQuotient(seconds, 60.0);
    assert (n as real).Floor == seconds.Floor;
    var q1 := (seconds / 3600.0).Floor;
    var q2 := (seconds / 60.0).Floor;
    JsRemNonNegative(seconds, 3600.0);
    JsRemNonNegative(n, 3600.0);
    JsRemNonNegative(seconds, 60.0);
    JsRemNonNegative(n, 60.0);
    assert Hours(seconds) == Hours(n);
    FloorMinusWhole(seconds, 3600 * q1);
    FloorOfQuotient(seconds - (3600 * q1) as real, 60.0);
    assert (n - (3600 * q1) as real) == (seconds - (3600 * q1) as real).Floor as real;
    assert Minutes(seconds) == Minutes(n);
    FloorMinusWhole(seconds, 60 * q2);
    assert Secs(seconds) == Secs(n);
  }

  /** Hours are not capped and padding never truncates: from 100 hours on the
      hours field has three or more digits. */
  lemma FormatTimeHoursUncapped(seconds: real)
    requires seconds >= 360000.0
    ensures Split(FormatTime(seconds), ':')[0] == NatToString(Hours(seconds))
    ensures |Split(FormatTime(seconds), ':')[0]| >= 3
  {
    FormatTimeShape(seconds);
    assert Hours(seconds) >= 100;
  }

  // ---------------------------------------------------------------------------
  // Properties of parseTime

  lemma NumberOfPadded(v: nat)
    ensures NumberOf(Field(v)) == Some(v)
  {
    PaddedValue(NatToString(v), 2);
  }

  /** Three fields of digits parse to `h·3600 + m·60 + s`. */
  lemma ParseTimeOfFields(h: nat, m: nat, s: nat)
    ensures ParseTime(Join([Field(h), Field(m), Field(s)], ':')) == Num(h * 3600 + m * 60 + s)
  {
    FieldHasNoColon(h);
    FieldHasNoColon(m);
    FieldHasNoColon(s);
    SplitOfJoin3(Field(h), Field(m), Field(s), ':');
    NumberOfPadded(h);
    NumberOfPadded(m);
    NumberOfPadded(s);
  }

  /** Anything that does not split into exactly three fields parses to 0. */
  lemma ParseTimeNotThreeFields(timeString: string)
    requires |Split(timeString, ':')| != 3
    ensures ParseTime(timeString) == Num(0)
  {
  }

  /** Hours, minutes and seconds of a whole number of seconds add back up to it. */
  lemma WholeSecondsSplit(n: nat)
    ensures Hours(n as real) >= 0 && Minutes(n as real) >= 0 && Secs(n as real) >= 0
    ensures Hours(n as real) * 3600 + Minutes(n as real) * 60 + Secs(n as real) == n
  {
    var x := n as real;
    FormatTimeRanges(x);
    JsRemNonNegative(x, 3600.0);
    JsRemNonNegative(x, 60.0);
    var q1, m := Hours(x), Minutes(x);
    var q2 := (x / 60.0).Floor;
    var r1 := JsRem(x, 3600.0);
    assert r1 == x - 3600.0 * q1 as real;
    assert 60 * m <= n - 3600 * q1 < 60 * m + 60 by {
      assert (60 * m) as real <= r1 < (60 * m + 60) as real;
    }
    assert 60 * q2 <= n < 60 * q2 + 60 by {
      assert (60 * q2) as real <= x < (60 * q2 + 60) as real;
    }
    assert q2 == 60 * q1 + m;
    assert Secs(x) == n - 60 * q2 by {
      FloorMinusWhole(x, 60 * q2);
    }
  }

  /** Printing a whole number of seconds and parsing it back gives the same number. */
  lemma ParseFormatRoundTrip(n: nat)
    ensures ParseTime(FormatTime(n as real)) == Num(n)
  {
    var x := n as real;
    WholeSecondsSplit(n);
    ParseTimeOfFields(Hours(x), Minutes(x), Secs(x));
  }
}
