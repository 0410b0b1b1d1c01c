/** Values shared by every part of the sorter: optional values, pixel and
    workspace points, the three colour classes and decimal formatting of
    integers (the digits that appear inside object identities and status
    lines). */
module Common {

  datatype Option<+T> = None | Some(value: T)

  /** A pixel position (x, y) in the camera frame. */
  datatype Pixel = Pixel(x: int, y: int)

  /** A point (x, y, z) in the robot workspace. */
  datatype Point3 = Point3(x: int, y: int, z: int)

  /** The colour classes of the segmentation table, in table order. */
  datatype Colour = Red | Green | Blue

  /** The name under which a colour appears in the tables, identities and messages. */
  function ColourName(c: Colour): string
  {
    match c
    case Red => "Red"
    case Green => "Green"
    case Blue => "Blue"
  }

  /** The colour a table name stands for; None for a name the table does not hold. */
  function ColourNamed(name: string): (r: Option<Colour>)
    ensures r.Some? ==> ColourName(r.value) == name
    ensures r.None? ==> forall c: Colour :: ColourName(c) != name
  {
    if name == "Red" then Some(Red)
    else if name == "Green" then Some(Green)
    else if name == "Blue" then Some(Blue)
    else None
  }

  lemma ColourNameRoundTrip(c: Colour)
    ensures ColourNamed(ColourName(c)) == Some(c)
  {
  }

  predicate IsDigit(ch: char)
  {
    '0' <= ch <= '9'
  }

  predicate AllDigits(s: string)
  {
    forall i | 0 <= i < |s| :: IsDigit(s[i])
  }

  function DigitChar(d: int): (ch: char)
    requires 0 <= d < 10
    ensures IsDigit(ch) && ch as int - '0' as int == d
  {
    ('0' as int + d) as char
  }

  /** Decimal digits of a natural number, most significant first, without leading zeros. */
  function NatToString(n: nat): (s: string)
    ensures |s| >= 1 && AllDigits(s)
    ensures n >= 10 ==> |s| >= 2
    decreases n
  {
    if n < 10 then [DigitChar(n)] else NatToString(n / 10) + [DigitChar(n % 10)]
  }

  /** Python's str() of an int: a minus sign followed by the digits of the magnitude. */
  function IntToString(i: int): (s: string)
    ensures |s| >= 1 && forall k | 0 <= k < |s| :: IsDigit(s[k]) || (k == 0 && s[k] == '-')
  {
    if i < 0 then "-" + NatToString(-i) else NatToString(i)
  }

  /** The value of a string of decimal digits (0 for the empty string). */
  function DigitsValue(s: string): nat
    requires AllDigits(s)
  {
    if s == [] then 0
    else DigitsValue(s[..|s| - 1]) * 10 + (s[|s| - 1] as int - '0' as int)
  }

  /** Reads an integer written as by IntToString; None for anything else. */
  function ParseInt(s: string): Option<int>
  {
    if |s| >= 2 && s[0] == '-' && AllDigits(s[1..]) then Some(-(DigitsValue(s[1..]) as int))
    else if |s| >= 1 && AllDigits(s) then Some(DigitsValue(s))
    else None
  }

  lemma {:induction false} NatToStringRoundTrip(n: nat)
    ensures DigitsValue(NatToString(n)) == n
    decreases n
  {
    if n >= 10 {
      var s := NatToString(n);
      NatToStringRoundTrip(n / 10);
      assert s[..|s| - 1] == NatToString(n / 10);
    }
  }

  /** Formatting an integer and reading it back gives the integer. */
  lemma IntToStringRoundTrip(i: int)
    ensures ParseInt(IntToString(i)) == Some(i)
  {
    if i < 0 {
      NatToStringRoundTrip(-i);
      assert IntToString(i)[1..] == NatToString(-i);
    } else {
      NatToStringRoundTrip(i);
    }
  }

  /** Distinct integers are formatted differently. */
  lemma IntToStringInjective(i: int, j: int)
    requires IntToString(i) == IntToString(j)
    ensures i == j
  {
    IntToStringRoundTrip(i);
    IntToStringRoundTrip(j);
  }

  /** Extending a prefix by one element. */
  lemma TakeSnoc<T>(s: seq<T>, i: nat)
    requires i < |s|
    ensures s[..i + 1] == s[..i] + [s[i]]
  {
  }
}
