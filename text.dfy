/**
 * String and number helpers shared by the layout engine and the sampler:
 * `str.ljust`, `"".join`, `repr` of a non-negative int, the length of `repr`
 * of a str, and the maxima and sums used for column widths.
 */
module Text {

  function Max(a: int, b: int): int { if a < b then b else a }

  function Min(a: int, b: int): int { if a < b then a else b }

  /** Python's `max(xs)` over a non-empty sequence. */
  function MaxOf(xs: seq<int>): (m: int)
    requires |xs| > 0
    ensures forall i :: 0 <= i < |xs| ==> xs[i] <= m
    ensures exists i :: 0 <= i < |xs| && xs[i] == m
  {
    if |xs| == 1 then xs[0]
    else
      var rest := MaxOf(xs[..|xs| - 1]);
      assert forall i :: 0 <= i < |xs| - 1 ==> xs[..|xs| - 1][i] == xs[i];
      Max(rest, xs[|xs| - 1])
  }

  function Sum(xs: seq<int>): int
  {
    if xs == [] then 0 else Sum(xs[..|xs| - 1]) + xs[|xs| - 1]
  }

  /** `n` blanks; none when `n` is not positive. */
  function Spaces(n: int): (r: string)
    ensures |r| == Max(n, 0)
    ensures forall i :: 0 <= i < |r| ==> r[i] == ' '
  {
    if n <= 0 then "" else Spaces(n - 1) + " "
  }

  /** `s.ljust(width)`: `s` padded on the right with blanks up to `width` characters. */
  function LJust(s: string, width: int): (r: string)
    ensures |r| == Max(|s|, width)
    ensures r[..|s|] == s
    ensures forall i :: |s| <= i < |r| ==> r[i] == ' '
  {
    s + Spaces(width - |s|)
  }

  /** `"".join(parts)`, and more generally the parts laid end to end. */
  function Concat<T>(parts: seq<seq<T>>): seq<T>
  {
    if parts == [] then [] else Concat(parts[..|parts| - 1]) + parts[|parts| - 1]
  }

  function Lengths<T>(parts: seq<seq<T>>): (r: seq<int>)
    ensures |r| == |parts|
    ensures forall i :: 0 <= i < |parts| ==> r[i] == |parts[i]|
  {
    seq(|parts|, i requires 0 <= i < |parts| => |parts[i]|)
  }

  /** The length of a joined sequence is the sum of the parts' lengths. */
  lemma {:induction false} ConcatLength<T>(parts: seq<seq<T>>)
    ensures |Concat(parts)| == Sum(Lengths(parts))
  {
    if parts != [] {
      var init := parts[..|parts| - 1];
      ConcatLength(init);
      assert Lengths(parts)[..|parts| - 1] == Lengths(init);
    }
  }

  /** Joining splits at any index into the joined prefix, the part, and the joined suffix. */
  lemma {:induction false} ConcatSplit<T>(parts: seq<seq<T>>, j: nat)
    requires j < |parts|
    ensures Concat(parts) == Concat(parts[..j]) + parts[j] + Concat(parts[j + 1..])
  {
    if j < |parts| - 1 {
      var init := parts[..|parts| - 1];
      ConcatSplit(init, j);
      assert init[..j] == parts[..j];
      assert init[j + 1..] == parts[j + 1..|parts| - 1];
      assert parts[j + 1..][..|parts[j + 1..]| - 1] == parts[j + 1..|parts| - 1];
    } else {
      assert parts[..j] == parts[..|parts| - 1];
      assert parts[j + 1..] == [];
    }
  }

  /** Joining a cell in front of other cells. */
  lemma {:induction false} ConcatCons<T>(head: seq<T>, parts: seq<seq<T>>)
    ensures Concat([head] + parts) == head + Concat(parts)
  {
    if parts != [] {
      ConcatCons(head, parts[..|parts| - 1]);
      assert ([head] + parts)[..|parts|] == [head] + parts[..|parts| - 1];
    }
  }

  /** One more part after a prefix. */
  lemma ConcatSnoc<T>(parts: seq<seq<T>>, i: nat)
    requires i < |parts|
    ensures Concat(parts[..i + 1]) == Concat(parts[..i]) + parts[i]
  {
    assert parts[..i + 1][..i] == parts[..i];
  }

  /** An element of the joined sequence comes from one of the parts, and every element of a part is in it. */
  lemma {:induction false} ConcatMember<T>(parts: seq<seq<T>>, x: T)
    ensures x in Concat(parts) <==> exists i :: 0 <= i < |parts| && x in parts[i]
  {
    if parts != [] {
      var init := parts[..|parts| - 1];
      ConcatMember(init, x);
      if exists i :: 0 <= i < |parts| && x in parts[i] {
        var i :| 0 <= i < |parts| && x in parts[i];
        if i < |parts| - 1 {
          assert x in init[i];
        }
      }
    }
  }

  /** Sum of a prefix extended by one element. */
  lemma SumSnoc(xs: seq<int>, j: nat)
    requires j < |xs|
    ensures Sum(xs[..j + 1]) == Sum(xs[..j]) + xs[j]
  {
    assert xs[..j + 1][..j] == xs[..j];
  }

  function DigitChar(d: nat): char
    requires d < 10
  {
    "0123456789"[d]
  }

  predicate IsDigit(c: char) { '0' <= c <= '9' }

  /** `repr(n)` for a non-negative int: its decimal digits, no leading zeros. */
  function Decimal(n: nat): (r: string)
    ensures |r| > 0
    ensures forall i :: 0 <= i < |r| ==> IsDigit(r[i])
    ensures r[0] == '0' ==> n == 0
  {
    if n < 10 then [DigitChar(n)] else Decimal(n / 10) + [DigitChar(n % 10)]
  }

  /** Reads a string of decimal digits back as a number. */
  function DecimalValue(s: string): nat
    requires forall i :: 0 <= i < |s| ==> IsDigit(s[i])
  {
    if s == [] then 0
    else
      assert IsDigit(s[|s| - 1]);
      10 * DecimalValue(s[..|s| - 1]) + ((s[|s| - 1] as int) - ('0' as int))
  }

  /** `repr` of a non-negative int reads back as that int. */
  lemma {:induction false} DecimalRoundTrip(n: nat)
    ensures DecimalValue(Decimal(n)) == n
  {
    if n >= 10 {
      DecimalRoundTrip(n / 10);
      var s := Decimal(n);
      assert s[..|s| - 1] == Decimal(n / 10);
    }
  }

  /** Larger numbers never have fewer digits. */
  lemma {:induction false} DecimalLengthMonotone(a: nat, b: nat)
    requires a <= b
    ensures |Decimal(a)| <= |Decimal(b)|
  {
    if a >= 10 {
      DecimalLengthMonotone(a / 10, b / 10);
    }
  }

  /**
   * The quote character Python's `repr` of a str chooses: a double quote when
   * the text holds a single quote and no double quote, a single quote otherwise.
   */
  function ReprQuote(s: string): char
  {
    if '\'' in s && '"' !in s then '"' else '\''
  }

  /** Number of characters `repr` writes for one character of the text. */
  function ReprCharLen(c: char, quote: char): nat
  {
    if c == quote || c == '\\' || c == '\n' || c == '\r' || c == '\t' then 2
    else if (c as int) < 0x20 || 0x7f <= (c as int) < 0xa0 then 4
    else 1
  }

  function ReprBodyLen(s: string, quote: char): nat
  {
    if s == [] then 0 else ReprBodyLen(s[..|s| - 1], quote) + ReprCharLen(s[|s| - 1], quote)
  }

  /** `len(repr(s))` for a str: two quotes around the escaped characters. */
  function ReprLen(s: string): nat
  {
    2 + ReprBodyLen(s, ReprQuote(s))
  }

  /** Plain text: printable, no quote and no backslash, so `repr` only adds the quotes. */
  predicate Plain(s: string)
  {
    forall i :: 0 <= i < |s| ==>
      s[i] != '\'' && s[i] != '"' && s[i] != '\\' && 0x20 <= (s[i] as int) && !(0x7f <= (s[i] as int) < 0xa0)
  }

  lemma {:induction false} ReprBodyBounds(s: string, quote: char)
    ensures |s| <= ReprBodyLen(s, quote)
    ensures (forall i :: 0 <= i < |s| ==> s[i] != quote) && Plain(s) ==> ReprBodyLen(s, quote) == |s|
  {
    if s != [] {
      ReprBodyBounds(s[..|s| - 1], quote);
      assert forall i :: 0 <= i < |s| - 1 ==> s[..|s| - 1][i] == s[i];
    }
  }

  /** `repr` of a str is at least two characters longer than the str, exactly two for plain text. */
  lemma ReprLenBounds(s: string)
    ensures |s| + 2 <= ReprLen(s)
    ensures Plain(s) ==> ReprLen(s) == |s| + 2
  {
    ReprBodyBounds(s, ReprQuote(s));
  }
}
