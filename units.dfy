/**
 * `size_abr`: scales a counter and reports it raw, in KB, MB or GB, or as "N/A".
 * Every caller passes integer counters (libvirt's memory, interface and block
 * statistics) and an integer factor, so the scaled value is an integer here; the
 * text of a rounded quotient is floating-point formatting and is taken as a
 * parameter.
 */
module Units {
  import opened Text

  datatype Band = Raw | Kilo | Mega | Giga

  /** What `size_abr` reports: a band together with the scaled value, or the sentinel. */
  datatype Abbrev = Banded(band: Band, value: int) | Unavailable

  /** Values at or above this limit are reported as "N/A". */
  const Limit: int := 1_000_000_000_000

  const Sentinel: string := "N/A"

  function Divisor(b: Band): nat
  {
    match b
    case Raw => 1
    case Kilo => 1_000
    case Mega => 1_000_000
    case Giga => 1_000_000_000
  }

  function Suffix(b: Band): string
  {
    match b
    case Raw => ""
    case Kilo => " KB"
    case Mega => " MB"
    case Giga => " GB"
  }

  /** The bands in increasing order of size. */
  function Rank(b: Band): nat
  {
    match b
    case Raw => 0
    case Kilo => 1
    case Mega => 2
    case Giga => 3
  }

  /**
   * The band `size_abr` picks for `num * shiftBy`: the value lies below a thousand
   * of the band's unit and, outside the raw band, at or above one unit.
   */
  function Abbreviate(num: int, shiftBy: int): (r: Abbrev)
    ensures r.Unavailable? <==> num * shiftBy >= Limit
    ensures r.Banded? ==> r.value == num * shiftBy && r.value < 1000 * Divisor(r.band)
    ensures r.Banded? && r.band != Raw ==> Divisor(r.band) <= r.value
  {
    var x := num * shiftBy;
    if x < 1000 then Banded(Raw, x)
    else if x < 1_000_000 then Banded(Kilo, x)
    else if x < 1_000_000_000 then Banded(Mega, x)
    else if x < Limit then Banded(Giga, x)
    else Unavailable
  }

  /** `repr` of a Python integer. */
  function IntText(n: int): (r: string)
    ensures |r| > 0
  {
    if n < 0 then "-" + Decimal(-n) else Decimal(n)
  }

  /** Reads back the text of `IntText`. */
  function IntValue(s: string): int
    requires |s| > 0
    requires s[0] == '-' ==> forall i :: 1 <= i < |s| ==> IsDigit(s[i])
    requires s[0] != '-' ==> forall i :: 0 <= i < |s| ==> IsDigit(s[i])
  {
    if s[0] == '-' then 0 - DecimalValue(s[1..]) as int else DecimalValue(s)
  }

  /** The text of an int from the digits of its magnitude: the digits, after a minus sign when negative. */
  lemma {:induction false} SignedDigits(n: int, d: string)
    requires |d| > 0 && forall i :: 0 <= i < |d| ==> IsDigit(d[i])
    requires DecimalValue(d) as int == if n < 0 then -n else n
    ensures var s := if n < 0 then "-" + d else d;
      && (s[0] == '-' ==> forall i :: 1 <= i < |s| ==> IsDigit(s[i]))
      && (s[0] != '-' ==> forall i :: 0 <= i < |s| ==> IsDigit(s[i]))
      && IntValue(s) == n
  {
    if n < 0 {
      assert ("-" + d)[1..] == d;
    } else {
      assert IsDigit(d[0]);
    }
  }

  lemma IntTextRoundTrip(n: int)
    ensures var s := IntText(n);
      && (s[0] == '-' ==> forall i :: 1 <= i < |s| ==> IsDigit(s[i]))
      && (s[0] != '-' ==> forall i :: 0 <= i < |s| ==> IsDigit(s[i]))
      && IntValue(s) == n
  {
    var m := if n < 0 then -n else n;
    DecimalRoundTrip(m);
    SignedDigits(n, Decimal(m));
  }

  /**
   * `size_abr(num, shiftBy)`; `twoPlaces(q)` stands for `repr(round(q, 2))` of the
   * quotient in the chosen unit.
   */
  function SizeAbr(num: int, shiftBy: int, twoPlaces: real -> string): (r: string)
    ensures |r| > 0
    ensures num * shiftBy >= Limit ==> r == Sentinel
  {
    match Abbreviate(num, shiftBy)
    case Unavailable => Sentinel
    case Banded(Raw, x) => IntText(x)
    case Banded(b, x) => twoPlaces(x as real / Divisor(b) as real) + Suffix(b)
  }

  /**
   * The shape of the text: the sentinel exactly when the scaled value reaches the limit;
   * the integer itself, readable back, below a thousand; otherwise the quotient in the
   * band's unit, which lies in [1, 1000), followed by the band's suffix.
   */
  lemma SizeAbrShape(num: int, shiftBy: int, twoPlaces: real -> string)
    ensures num * shiftBy >= Limit ==> SizeAbr(num, shiftBy, twoPlaces) == Sentinel
    ensures num * shiftBy < 1000 ==>
      var s := SizeAbr(num, shiftBy, twoPlaces);
      |s| > 0 && (s[0] == '-' || IsDigit(s[0])) &&
      (s[0] == '-' ==> forall i :: 1 <= i < |s| ==> IsDigit(s[i])) &&
      (s[0] != '-' ==> forall i :: 0 <= i < |s| ==> IsDigit(s[i])) &&
      IntValue(s) == num * shiftBy
    ensures 1000 <= num * shiftBy < Limit ==>
      var a := Abbreviate(num, shiftBy);
      && a.Banded? && a.band != Raw
      && var q := (num * shiftBy) as real / Divisor(a.band) as real;
      && 1.0 <= q < 1000.0
      && SizeAbr(num, shiftBy, twoPlaces) == twoPlaces(q) + Suffix(a.band)
  {
    var x := num * shiftBy;
    if x < 1000 {
      IntTextRoundTrip(x);
      var s := IntText(x);
      if x >= 0 {
        assert IsDigit(s[0]);
      }
    } else if x < Limit {
      var a := Abbreviate(num, shiftBy);
      var d := Divisor(a.band) as real;
      assert d > 0.0;
      assert d <= x as real < 1000.0 * d;
    }
  }

  /** A larger counter never lands in a smaller band, and the sentinel is upward closed. */
  lemma BandsMonotone(x: int, y: int)
    requires x <= y
    ensures Abbreviate(y, 1).Banded? ==> Abbreviate(x, 1).Banded?
    ensures Abbreviate(x, 1).Banded? && Abbreviate(y, 1).Banded? ==>
      Rank(Abbreviate(x, 1).band) <= Rank(Abbreviate(y, 1).band)
  {
  }

  /** The band is the only one whose range holds the value. */
  lemma BandUnique(num: int, shiftBy: int, b: Band)
    requires b != Raw && Divisor(b) <= num * shiftBy < 1000 * Divisor(b)
    ensures Abbreviate(num, shiftBy) == Banded(b, num * shiftBy)
  {
  }
}
