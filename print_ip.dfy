/**
 * The overloaded formatter `print_ip`. Each overload writes one line to the
 * standard output stream; which one applies is decided by the static type of
 * the argument, modelled here as the variant of `Value`.
 */
module PrintIp {
  import opened Options
  import opened Decimal
  import opened Dotted
  import opened Bytes

  /** The argument of one call, tagged by the overload that accepts it. */
  datatype Value =
    | Integral(width: Width, signed: bool, value: int)  // any integral type T, width = sizeof(T)
    | Text(text: string)                                // std::string
    | Container(elems: seq<int>)                        // std::vector or std::list of integers
    | Tuple(items: seq<int>)                            // std::tuple whose elements share one integer type

  /** The output stream: everything written so far. */
  class Stream {
    var text: string

    constructor ()
      ensures text == ""
    {
      text := "";
    }

    method Write(s: string)
      modifies this
      ensures text == old(text) + s
    {
      text := text + s;
    }
  }

  /** Each element as `operator<<` renders it. */
  function Decimals(xs: seq<int>): seq<string> {
    seq(|xs|, k requires 0 <= k < |xs| => IntToString(xs[k]))
  }

  /** The line the dotted rules write for the integers `xs`: their decimals joined, then a newline. */
  function DottedLine(xs: seq<int>): string {
    Join(Decimals(xs)) + "\n"
  }

  /** The line `print_ip` writes for `v`: every overload ends it with one newline. */
  function Line(v: Value): (line: string)
    ensures |line| >= 1 && line[|line| - 1] == '\n'
  {
    match v
    case Integral(w, _, x) => DottedLine(Reverse(Storage(w, x)))
    case Text(s) => s + "\n"
    case Container(xs) => DottedLine(xs)
    case Tuple(xs) => DottedLine(xs)
  }

  /** Integer overload: byte `i` of the storage for `i` from `sizeof(T) - 1` down to 0. */
  method PrintIntegral(out: Stream, w: Width, value: int)
    modifies out
    ensures out.text == old(out.text) + Join(Decimals(Reverse(Storage(w, value)))) + "\n"
  {
    var bytes := Storage(w, value);
    ghost var fields := Decimals(Reverse(bytes));
    ghost var done := 0;  // fields written so far
    var i: int := w - 1;
    while i >= 0
      invariant -1 <= i < w && done == w - 1 - i
      invariant out.text == old(out.text) + Emit(fields, done)
    {
      EmitNext(old(out.text), fields, done);
      HighestFirst(bytes, i);
      out.Write(IntToString(bytes[i]));
      if i > 0 {
        out.Write(".");
      }
      i := i - 1;
      done := done + 1;
    }
    EmitAll(fields);
    out.Write("\n");
  }

  /** Field `|bytes| - 1 - i` of the most-significant-first fields is byte `i`. */
  lemma HighestFirst(bytes: seq<int>, i: nat)
    requires i < |bytes|
    ensures Decimals(Reverse(bytes))[|bytes| - 1 - i] == IntToString(bytes[i])
  {
    var r := Reverse(bytes);
    var j := |bytes| - 1 - i;
    assert r[j] == bytes[i];
    DecimalsAt(r, j);
  }

  lemma DecimalsAt(xs: seq<int>, k: nat)
    requires k < |xs|
    ensures |Decimals(xs)| == |xs| && Decimals(xs)[k] == IntToString(xs[k])
  {
  }

  /** String overload: the text itself. */
  method PrintText(out: Stream, s: string)
    modifies out
    ensures out.text == old(out.text) + s + "\n"
  {
    out.Write(s);
    out.Write("\n");
  }

  /** Container overload: iterate from `begin()`; a dot unless `std::next(it)` is `end()`. */
  method PrintContainer(out: Stream, c: seq<int>)
    modifies out
    ensures out.text == old(out.text) + Join(Decimals(c)) + "\n"
  {
    ghost var fields := Decimals(c);
    var it := 0;
    while it != |c|
      invariant 0 <= it <= |c|
      invariant out.text == old(out.text) + Emit(fields, it)
    {
      EmitNext(old(out.text), fields, it);
      out.Write(IntToString(c[it]));
      if it + 1 != |c| {
        out.Write(".");
      }
      it := it + 1;
    }
    EmitAll(fields);
    out.Write("\n");
  }

  /**
   * Tuple overload: the fold over the elements in position order; after each
   * element the counter `n` is incremented and a dot follows unless it has
   * reached the arity. An empty tuple writes only the newline.
   */
  method PrintTuple(out: Stream, t: seq<int>)
    modifies out
    ensures out.text == old(out.text) + Join(Decimals(t)) + "\n"
  {
    ghost var fields := Decimals(t);
    var n := 0;
    for k := 0 to |t|
      invariant n == k
      invariant out.text == old(out.text) + Emit(fields, k)
    {
      EmitNext(old(out.text), fields, k);
      out.Write(IntToString(t[k]));
      n := n + 1;
      out.Write(if n == |t| then "" else ".");
    }
    EmitAll(fields);
    out.Write("\n");
  }

  /** The overload set: exactly one rule applies to each argument. */
  method Print(out: Stream, v: Value)
    modifies out
    ensures out.text == old(out.text) + Line(v)
  {
    match v
    case Integral(w, _, x) => PrintIntegral(out, w, x);
    case Text(s) => PrintText(out, s);
    case Container(xs) => PrintContainer(out, xs);
    case Tuple(xs) => PrintTuple(out, xs);
  }

  /**
   * A dotted line of integers is one line: a single newline, at the end,
   * and one dot fewer than there are fields (none for no fields).
   */
  lemma DottedLineTerminated(xs: seq<int>)
    ensures var line := DottedLine(xs);
      && |line| >= 1 && line[|line| - 1] == '\n' && '\n' !in line[..|line| - 1]
      && CountDots(line) == (if |xs| == 0 then 0 else |xs| - 1)
      && (|xs| == 0 <==> line == "\n")
  {
    var fs := Decimals(xs);
    var body := Join(fs);
    var line := DottedLine(xs);
    DecimalsClean(xs);
    assert line[..|line| - 1] == body;
    NoNewlineInJoin(fs);
    CountDotsJoin(fs);
    CountDotsAppend(body, "\n");
    if |xs| > 0 {
      JoinEnds(fs);
      assert |body| > 0;
    }
  }

  /**
   * A dotted line of at least one integer neither starts nor ends with a dot,
   * and splitting it at its dots gives one field per integer, in order, each
   * reading back as that integer.
   */
  lemma DottedLineFields(xs: seq<int>)
    requires |xs| >= 1
    ensures var line := DottedLine(xs);
      var fields := Split(line[..|line| - 1]);
      && |line| >= 2 && line[0] != '.' && line[|line| - 2] != '.'
      && |fields| == |xs|
      && forall k | 0 <= k < |xs| :: ParseInt(fields[k]) == Some(xs[k])
  {
    var fs := Decimals(xs);
    var body := Join(fs);
    var line := DottedLine(xs);
    var n := |fs|;
    DecimalsClean(xs);
    assert line[..|line| - 1] == body;
    JoinEnds(fs);
    IntToStringShape(xs[0]);
    IntToStringShape(xs[n - 1]);
    assert line[0] == fs[0][0];
    assert line[|line| - 2] == fs[n - 1][|fs[n - 1]| - 1];
    SplitJoin(fs);
    forall k | 0 <= k < |xs|
      ensures ParseInt(fs[k]) == Some(xs[k])
    {
      ParseIntToString(xs[k]);
    }
  }

  /**
   * An integer's line holds exactly `w` fields and `w - 1` dots and ends in
   * one newline; field `k` is the decimal value, in 0..255, of storage byte
   * `w - 1 - k`; it neither starts nor ends with a dot.
   */
  lemma IntegralLineShape(w: Width, signed: bool, value: int)
    ensures var line := Line(Integral(w, signed, value));
      var fields := Split(line[..|line| - 1]);
      && |line| >= 2 && line[|line| - 1] == '\n' && '\n' !in line[..|line| - 1]
      && CountDots(line) == w - 1
      && line[0] != '.' && line[|line| - 2] != '.'
      && |fields| == w
      && forall k | 0 <= k < w ::
           0 <= Storage(w, value)[w - 1 - k] < 256 && ParseInt(fields[k]) == Some(Storage(w, value)[w - 1 - k])
  {
    var msb := Reverse(Storage(w, value));
    assert Line(Integral(w, signed, value)) == DottedLine(msb);
    DottedLineTerminated(msb);
    DottedLineFields(msb);
  }

  /**
   * A container's or tuple's line holds one field per element, in order, and
   * one dot fewer than there are elements; an empty container gives only the
   * newline.
   */
  lemma ElementsLineShape(v: Value, xs: seq<int>)
    requires v == Container(xs) || v == Tuple(xs)
    ensures var line := Line(v);
      && |line| >= 1 && line[|line| - 1] == '\n' && '\n' !in line[..|line| - 1]
      && CountDots(line) == (if |xs| == 0 then 0 else |xs| - 1)
      && (|xs| == 0 <==> line == "\n")
      && (|xs| > 0 ==>
            var fields := Split(line[..|line| - 1]);
            && line[0] != '.' && line[|line| - 2] != '.'
            && |fields| == |xs|
            && forall k | 0 <= k < |fields| :: ParseInt(fields[k]) == Some(xs[k]))
  {
    assert Line(v) == DottedLine(xs);
    DottedLineTerminated(xs);
    if |xs| > 0 {
      DottedLineFields(xs);
    }
  }

  /** The empty tuple prints an empty line, as the empty container does. */
  lemma EmptyTupleLine()
    ensures Line(Tuple([])) == Line(Container([])) == "\n"
  {
    ElementsLineShape(Tuple([]), []);
    ElementsLineShape(Container([]), []);
  }

  /** The string overload inserts no dots: the line is the text and one newline. */
  lemma TextLineShape(s: string)
    ensures var line := Line(Text(s));
      && |line| == |s| + 1 && line[..|s|] == s && line[|s|] == '\n'
      && CountDots(line) == CountDots(s)
  {
    CountDotsAppend(s, "\n");
  }

  /** The decimal fields of integers hold no dot and no newline. */
  lemma DecimalsClean(xs: seq<int>)
    ensures DotFree(Decimals(xs))
    ensures forall k | 0 <= k < |xs| :: '\n' !in Decimals(xs)[k]
  {
    forall k | 0 <= k < |xs|
      ensures '.' !in Decimals(xs)[k] && '\n' !in Decimals(xs)[k]
    {
      IntToStringShape(xs[k]);
    }
  }

  lemma {:induction false} NoNewlineInJoin(fields: seq<string>)
    requires forall k | 0 <= k < |fields| :: '\n' !in fields[k]
    ensures '\n' !in Join(fields)
    decreases |fields|
  {
    if |fields| > 1 {
      NoNewlineInJoin(fields[1..]);
      assert Join(fields) == fields[0] + "." + Join(fields[1..]);
    }
  }
}
