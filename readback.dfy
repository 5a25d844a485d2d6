/**
 * Readers that invert the printed lines. They are not part of the program;
 * they are the partner definitions against which the formatter's output is
 * shown to be unambiguous: every line gives back the value it was printed
 * from.
 */
module Readback {
  import opened Options
  import opened Decimal
  import opened Dotted
  import opened Bytes
  import opened PrintIp

  /** The text before the line's final newline; a line without one is rejected. */
  function Body(line: string): Option<string> {
    if |line| > 0 && line[|line| - 1] == '\n' then Some(line[..|line| - 1]) else None
  }

  /** Reads each field as an integer; fails if any field is not one. */
  function ParseFields(fields: seq<string>): Option<seq<int>>
    decreases |fields|
  {
    if fields == [] then Some([])
    else
      match ParseInt(fields[0])
      case None => None
      case Some(x) =>
        match ParseFields(fields[1..])
        case None => None
        case Some(rest) => Some([x] + rest)
  }

  /** Reads back the line of a container or tuple: no fields for an empty line. */
  function ReadElements(line: string): Option<seq<int>> {
    match Body(line)
    case None => None
    case Some(body) => if body == "" then Some([]) else ParseFields(Split(body))
  }

  predicate AllBytes(xs: seq<int>) {
    forall k | 0 <= k < |xs| :: 0 <= xs[k] < 256
  }

  /**
   * Reads back the line of a `w`-byte integer: exactly `w` fields, each a
   * byte, read as base-256 digits, most significant first, then as a signed
   * or unsigned number.
   */
  function ReadIntegral(w: Width, signed: bool, line: string): Option<int> {
    match ReadElements(line)
    case None => None
    case Some(bytes) =>
      if |bytes| == w && AllBytes(bytes) then
        var u := ValueMsbFirst(bytes);
        Some(if signed then ToSigned(w, u) else u)
      else None
  }

  lemma {:induction false} ParseFieldsDecimals(xs: seq<int>)
    ensures ParseFields(Decimals(xs)) == Some(xs)
    decreases |xs|
  {
    if xs != [] {
      assert Decimals(xs)[1..] == Decimals(xs[1..]);
      ParseIntToString(xs[0]);
      ParseFieldsDecimals(xs[1..]);
      assert [xs[0]] + xs[1..] == xs;
    }
  }

  /** The fields of any dotted line of integers read back as those integers. */
  lemma DottedLineRoundTrip(xs: seq<int>)
    ensures ReadElements(DottedLine(xs)) == Some(xs)
  {
    var line := DottedLine(xs);
    var body := Join(Decimals(xs));
    assert Body(line) == Some(body);
    if xs == [] {
      assert body == "";
    } else {
      DottedLineTerminated(xs);
      assert body != "";
      DecimalsClean(xs);
      SplitJoin(Decimals(xs));
      ParseFieldsDecimals(xs);
    }
  }

  /** Container and tuple lines read back as the elements, in order. */
  lemma ElementsRoundTrip(v: Value, xs: seq<int>)
    requires v == Container(xs) || v == Tuple(xs)
    ensures ReadElements(Line(v)) == Some(xs)
  {
    DottedLineRoundTrip(xs);
  }

  /** A string's line reads back as the string. */
  lemma TextRoundTrip(s: string)
    ensures Body(Line(Text(s))) == Some(s)
  {
    assert (s + "\n")[..|s|] == s;
  }

  /**
   * The fields of an integer's line, read as unsigned base-256 digits, give
   * the value modulo 2^(8w): the two's-complement bit pattern, for negative
   * values too.
   */
  lemma IntegralReadsPattern(w: Width, signed: bool, value: int)
    ensures ReadIntegral(w, false, Line(Integral(w, signed, value))) == Some(value % Pow256(w))
  {
    var msb := Reverse(Storage(w, value));
    assert Line(Integral(w, signed, value)) == DottedLine(msb);
    DottedLineRoundTrip(msb);
    ReadBackStorage(w, value);
  }

  /** An integer of its type's range reads back as itself, given the type. */
  lemma IntegralRoundTrip(w: Width, signed: bool, value: int)
    requires Representable(w, signed, value)
    ensures ReadIntegral(w, signed, Line(Integral(w, signed, value))) == Some(value)
  {
    var msb := Reverse(Storage(w, value));
    assert Line(Integral(w, signed, value)) == DottedLine(msb);
    DottedLineRoundTrip(msb);
    ReadBackStorage(w, value);
    PatternRecovers(w, signed, value);
  }

  /** Two values of one integral type print the same line only if they are equal. */
  lemma IntegralLineInjective(w: Width, signed: bool, a: int, b: int)
    requires Representable(w, signed, a) && Representable(w, signed, b)
    requires Line(Integral(w, signed, a)) == Line(Integral(w, signed, b))
    ensures a == b
  {
    IntegralRoundTrip(w, signed, a);
    IntegralRoundTrip(w, signed, b);
  }

  /**
   * Signedness plays no part in the integer rule: two integers of width `w`
   * print the same line exactly when they agree modulo 2^(8w), so `int8_t{-1}`
   * and `uint8_t{255}` print alike.
   */
  lemma IntegralLinesEqualIff(w: Width, signed1: bool, a: int, signed2: bool, b: int)
    ensures Line(Integral(w, signed1, a)) == Line(Integral(w, signed2, b))
      <==> a % Pow256(w) == b % Pow256(w)
  {
    IntegralReadsPattern(w, signed1, a);
    IntegralReadsPattern(w, signed2, b);
  }
}
