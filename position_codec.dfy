/** The stored form of the button position under the key
    `API_KEY_FAB_POS`: `JSON.stringify({x, y})` of a whole-pixel point,
    `{"x":<int>,"y":<int>}`, and the decoder that restores it. */
module PositionCodec {
  import opened Wrappers
  import opened Geometry

  predicate IsDigit(c: char)
  {
    '0' <= c <= '9'
  }

  function DigitValue(c: char): (d: int)
    requires IsDigit(c)
    ensures 0 <= d < 10
  {
    c as int - '0' as int
  }

  function DigitChar(d: int): (c: char)
    requires 0 <= d < 10
    ensures IsDigit(c) && DigitValue(c) == d
  {
    (d + '0' as int) as char
  }

  predicate AllDigits(s: string)
  {
    forall k :: 0 <= k < |s| ==> IsDigit(s[k])
  }

  /** A decimal numeral as JSON writes one: at least one digit, and a
      leading zero only in "0" itself. */
  predicate CanonicalDigits(s: string)
  {
    |s| >= 1 && AllDigits(s) && (s[0] == '0' ==> |s| == 1)
  }

  /** Value of a string of decimal digits, most significant first. */
  function DigitsValue(s: string): (n: nat)
    requires AllDigits(s)
  {
    if s == [] then 0 else DigitsValue(s[..|s| - 1]) * 10 + DigitValue(s[|s| - 1])
  }

  /** Decimal numeral of a natural number. */
  function NatToString(n: nat): (s: string)
    ensures CanonicalDigits(s)
    ensures s[0] == '0' <==> n == 0
  {
    if n < 10 then [DigitChar(n)] else NatToString(n / 10) + [DigitChar(n % 10)]
  }

  /** Decimal numeral of an integer, with a leading '-' when negative. */
  function IntToString(i: int): (s: string)
    ensures s != [] && (s[0] == '-' <==> i < 0)
    ensures AllDigits(if i < 0 then s[1..] else s)
  {
    if i < 0 then "-" + NatToString(-i) else NatToString(i)
  }

  /** Reads back exactly the numerals IntToString writes; anything else
      (empty text, a sign alone, "-0", leading zeros, other characters)
      gives None. */
  function ParseInt(s: string): (r: Option<int>)
    ensures r.Some? ==> s != [] && AllDigits(if s[0] == '-' then s[1..] else s)
  {
    if |s| >= 2 && s[0] == '-' && s[1] != '0' && CanonicalDigits(s[1..]) then Some(0 - DigitsValue(s[1..]) as int)
    else if CanonicalDigits(s) then Some(DigitsValue(s))
    else None
  }

  lemma {:induction false} NatToStringValue(n: nat)
    ensures DigitsValue(NatToString(n)) == n
  {
    var s := NatToString(n);
    if n >= 10 {
      NatToStringValue(n / 10);
      assert s[..|s| - 1] == NatToString(n / 10);
    }
  }

  /** A numeral whose first digit is not '0' denotes a positive number. */
  lemma {:induction false} LeadingDigitPositive(s: string)
    requires AllDigits(s) && s != [] && s[0] != '0'
    ensures DigitsValue(s) > 0
    decreases |s|
  {
    if |s| > 1 {
      LeadingDigitPositive(s[..|s| - 1]);
    }
  }

  lemma {:induction false} CanonicalDigitsValue(s: string)
    requires CanonicalDigits(s)
    ensures NatToString(DigitsValue(s)) == s
    decreases |s|
  {
    if |s| > 1 {
      var t := s[..|s| - 1];
      assert t[0] == s[0] != '0';
      LeadingDigitPositive(t);
      CanonicalDigitsValue(t);
      var n := DigitsValue(s);
      assert n / 10 == DigitsValue(t) && n % 10 == DigitValue(s[|s| - 1]);
      assert DigitChar(n % 10) == s[|s| - 1];
      assert s == t + [s[|s| - 1]];
    } else {
      assert DigitChar(DigitValue(s[0])) == s[0];
    }
  }

  /** Printing then parsing an integer gives it back. */
  lemma IntRoundTrip(i: int)
    ensures ParseInt(IntToString(i)) == Some(i)
  {
    var s := IntToString(i);
    if i < 0 {
      assert s[1..] == NatToString(-i);
      NatToStringValue(-i);
    } else {
      NatToStringValue(i);
    }
  }

  /** Parsing succeeds only on a numeral IntToString would have written. */
  lemma ParseIntCanonical(s: string)
    requires ParseInt(s).Some?
    ensures IntToString(ParseInt(s).value) == s
  {
    if |s| >= 2 && s[0] == '-' && s[1] != '0' && CanonicalDigits(s[1..]) {
      CanonicalDigitsValue(s[1..]);
      LeadingDigitPositive(s[1..]);
      assert s == "-" + s[1..];
    } else {
      CanonicalDigitsValue(s);
    }
  }

  /** No numeral contains a comma. */
  lemma IntToStringNoComma(i: int)
    ensures forall k :: 0 <= k < |IntToString(i)| ==> IntToString(i)[k] != ','
  {
    var s := IntToString(i);
    forall k | 0 <= k < |s| ensures s[k] != ',' {
      if i < 0 && k > 0 {
        assert s[k] == s[1..][k - 1];
      }
    }
  }

  const Open: string := "{\"x\":"
  const Sep: string := ",\"y\":"
  const Close: string := "}"

  /** `JSON.stringify({x: p.x, y: p.y})`. */
  function EncodePoint(p: Point): (s: string)
    ensures |s| >= |Open| + |Close| && s[..|Open|] == Open && s[|s| - 1] == '}'
  {
    Open + IntToString(p.x) + Sep + IntToString(p.y) + Close
  }

  /** Index of the first `c` in `s`, or |s| when there is none. */
  function IndexOf(s: string, c: char): (i: nat)
    ensures i <= |s|
    ensures i < |s| ==> s[i] == c
    ensures forall k :: 0 <= k < i ==> s[k] != c
  {
    if s == [] then 0 else if s[0] == c then 0 else 1 + IndexOf(s[1..], c)
  }

  /** Splits `{"x":X,"y":Y}` into the texts X and Y, cutting at the first
      comma; None when the frame around them is not exactly that. */
  function SplitFields(s: string): (r: Option<(string, string)>)
  {
    if |s| < |Open| + |Close| || s[..|Open|] != Open || s[|s| - 1] != '}' then None
    else
      var body := s[|Open|..|s| - 1];
      var i := IndexOf(body, ',');
      var rest := body[i..];
      if |rest| < |Sep| || rest[..|Sep|] != Sep then None
      else Some((body[..i], rest[|Sep|..]))
  }

  /** A text that opens with Open and ends in '}' is Open, its inside and
      Close. */
  lemma Framed(s: string)
    requires |s| >= |Open| + |Close| && s[..|Open|] == Open && s[|s| - 1] == '}'
    ensures s == Open + s[|Open|..|s| - 1] + Close
  {
    assert s == s[..|Open|] + s[|Open|..|s| - 1] + s[|s| - 1..];
    assert s[|s| - 1..] == Close;
  }

  /** A successful split has cut the text into frame and numerals. */
  lemma SplitFieldsSound(s: string)
    requires SplitFields(s).Some?
    ensures s == Open + SplitFields(s).value.0 + Sep + SplitFields(s).value.1 + Close
  {
    var body := s[|Open|..|s| - 1];
    var i := IndexOf(body, ',');
    var rest := body[i..];
    var xs, ys := body[..i], rest[|Sep|..];
    assert SplitFields(s).value == (xs, ys);
    assert body == xs + (Sep + ys) by {
      assert rest == Sep + ys;
      assert body == xs + rest;
    }
    Framed(s);
    assert Open + (xs + (Sep + ys)) + Close == Open + xs + Sep + ys + Close;
  }

  /** Restores a stored position: Some(p) only for the text `{"x":X,"y":Y}`
      with integer numerals X and Y; None for missing, empty, malformed or
      non-numeric text. */
  function DecodePoint(s: string): (r: Option<Point>)
  {
    match SplitFields(s)
    case None => None
    case Some((xs, ys)) =>
      match (ParseInt(xs), ParseInt(ys))
      case (Some(x), Some(y)) => Some(Point(x, y))
      case _ => None
  }

  /** The frame of an encoding splits back into the two numerals. */
  lemma SplitEncoding(a: string, b: string)
    requires forall k :: 0 <= k < |a| ==> a[k] != ','
    ensures SplitFields(Open + a + Sep + b + Close) == Some((a, b))
  {
    var s := Open + a + Sep + b + Close;
    var body := s[|Open|..|s| - 1];
    assert body == a + Sep + b;
    assert body[|a|] == ',';
    assert IndexOf(body, ',') == |a|;
    assert body[..|a|] == a;
    assert body[|a|..][..|Sep|] == Sep;
    assert body[|a|..][|Sep|..] == b;
  }

  /** What the release handler stores is restored unchanged. */
  lemma DecodeEncode(p: Point)
    ensures DecodePoint(EncodePoint(p)) == Some(p)
  {
    IntToStringNoComma(p.x);
    SplitEncoding(IntToString(p.x), IntToString(p.y));
    IntRoundTrip(p.x);
    IntRoundTrip(p.y);
  }

  /** The decoder accepts nothing but encodings: a text that decodes to `p`
      is exactly EncodePoint(p). */
  lemma DecodeOnlyEncodings(s: string)
    requires DecodePoint(s).Some?
    ensures EncodePoint(DecodePoint(s).value) == s
  {
    var (xs, ys) := SplitFields(s).value;
    SplitFieldsSound(s);
    ParseIntCanonical(xs);
    ParseIntCanonical(ys);
  }

  /** Missing or malformed stored text is rejected. */
  lemma DecodeRejects()
    ensures DecodePoint("") == None
    ensures DecodePoint("garbage") == None
    ensures DecodePoint("{\"x\":\"a\",\"y\":1}") == None
  {
    var s := "{\"x\":\"a\",\"y\":1}";
    var r := SplitFields(s);
    if r.Some? {
      var xs := r.value.0;
      assert s[5] == '"';
      assert xs != [] && xs[0] == '"';
      assert ParseInt(xs) == None;
    }
  }
}
