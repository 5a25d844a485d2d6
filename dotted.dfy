/**
 * The dotted format: fields joined by `.`, with no separator after the last.
 *
 * `Join` is the reference definition (a separator BETWEEN fields). The three
 * loops of the formatter produce it another way: each field is written and
 * then followed by a `.` unless it is the last one; `Emit` is the text such a
 * loop has written after its first `n` fields. `Split` and `CountDots` read a
 * dotted line back.
 */
module Dotted {

  function Join(fields: seq<string>): string {
    if |fields| == 0 then ""
    else if |fields| == 1 then fields[0]
    else fields[0] + "." + Join(fields[1..])
  }

  /** Field `k` as a loop writes it: followed by `.` unless it is the last. */
  function Piece(fields: seq<string>, k: nat): string
    requires k < |fields|
  {
    fields[k] + (if k + 1 < |fields| then "." else "")
  }

  /** What a separator-after-each-but-the-last loop has written after `n` fields. */
  function Emit(fields: seq<string>, n: nat): string
    requires n <= |fields|
  {
    if n == 0 then "" else Emit(fields, n - 1) + Piece(fields, n - 1)
  }

  /** The fields of `s` between its dots (one field more than there are dots). */
  function Split(s: string): (r: seq<string>)
    ensures |r| >= 1
  {
    if s == [] then [""]
    else if s[0] == '.' then [""] + Split(s[1..])
    else
      var rest := Split(s[1..]);
      [[s[0]] + rest[0]] + rest[1..]
  }

  function CountDots(s: string): nat {
    if s == [] then 0 else (if s[0] == '.' then 1 else 0) + CountDots(s[1..])
  }

  predicate DotFree(fields: seq<string>) {
    forall k | 0 <= k < |fields| :: '.' !in fields[k]
  }

  lemma {:induction false} JoinSnoc(fields: seq<string>, last: string)
    requires |fields| >= 1
    ensures Join(fields + [last]) == Join(fields) + "." + last
    decreases |fields|
  {
    if |fields| == 1 {
      assert (fields + [last])[1..] == [last];
    } else {
      assert (fields + [last])[1..] == fields[1..] + [last];
      JoinSnoc(fields[1..], last);
    }
  }

  /** Joining two non-empty runs of fields puts one dot between their joins. */
  lemma {:induction false} JoinAppend(xs: seq<string>, ys: seq<string>)
    requires |xs| >= 1 && |ys| >= 1
    ensures Join(xs + ys) == Join(xs) + "." + Join(ys)
    decreases |xs|
  {
    if |xs| == 1 {
      assert (xs + ys)[1..] == ys;
    } else {
      assert (xs + ys)[1..] == xs[1..] + ys;
      JoinAppend(xs[1..], ys);
    }
  }

  /**
   * After `n` fields a separator-after-each-but-the-last loop has written the
   * first `n` fields joined, plus a dot when more fields follow.
   */
  lemma {:induction false} EmitPrefix(fields: seq<string>, n: nat)
    requires 0 < n <= |fields|
    ensures Emit(fields, n) == Join(fields[..n]) + (if n < |fields| then "." else "")
    decreases n
  {
    if n == 1 {
      assert fields[..1] == [fields[0]];
    } else {
      EmitPrefix(fields, n - 1);
      assert fields[..n] == fields[..n - 1] + [fields[n - 1]];
      JoinSnoc(fields[..n - 1], fields[n - 1]);
    }
  }

  /**
   * One step of such a loop on a stream that already holds `prefix`: writing
   * field `n` and then the separator (a dot, or nothing after the last field)
   * extends the text by the next piece.
   */
  lemma EmitNext(prefix: string, fields: seq<string>, n: nat)
    requires n < |fields|
    ensures n + 1 < |fields| ==> prefix + Emit(fields, n) + fields[n] + "." == prefix + Emit(fields, n + 1)
    ensures n + 1 == |fields| ==> prefix + Emit(fields, n) + fields[n] == prefix + Emit(fields, n + 1)
  {
  }

  /** Having written every field, the loop has written exactly the joined fields. */
  lemma EmitAll(fields: seq<string>)
    ensures Emit(fields, |fields|) == Join(fields)
  {
    if |fields| > 0 {
      EmitPrefix(fields, |fields|);
      assert fields[..|fields|] == fields;
    }
  }

  lemma {:induction false} SplitDotFree(f: string)
    requires '.' !in f
    ensures Split(f) == [f]
    decreases |f|
  {
    if f != [] {
      assert '.' !in f[1..] by {
        forall i | 0 <= i < |f[1..]| ensures f[1..][i] != '.' {
          assert f[1..][i] == f[i + 1];
        }
      }
      SplitDotFree(f[1..]);
      assert [f[0]] + f[1..] == f;
    }
  }

  lemma {:induction false} SplitAppend(f: string, rest: string)
    requires '.' !in f
    ensures Split(f + "." + rest) == [f] + Split(rest)
    decreases |f|
  {
    var s := f + "." + rest;
    if f == [] {
      assert s == "." + rest;
      assert s[1..] == rest;
    } else {
      assert s[0] == f[0];
      assert s[1..] == f[1..] + "." + rest;
      assert '.' !in f[1..] by {
        forall i | 0 <= i < |f[1..]| ensures f[1..][i] != '.' {
          assert f[1..][i] == f[i + 1];
        }
      }
      SplitAppend(f[1..], rest);
      assert [f[0]] + f[1..] == f;
    }
  }

  /** Splitting a join of dot-free fields at its dots gives the fields back. */
  lemma {:induction false} SplitJoin(fields: seq<string>)
    requires |fields| >= 1 && DotFree(fields)
    ensures Split(Join(fields)) == fields
    decreases |fields|
  {
    if |fields| == 1 {
      SplitDotFree(fields[0]);
    } else {
      assert DotFree(fields[1..]) by {
        forall k | 0 <= k < |fields[1..]| ensures '.' !in fields[1..][k] {
          assert fields[1..][k] == fields[k + 1];
        }
      }
      SplitJoin(fields[1..]);
      SplitAppend(fields[0], Join(fields[1..]));
      assert [fields[0]] + fields[1..] == fields;
    }
  }

  lemma {:induction false} CountDotsAppend(a: string, b: string)
    ensures CountDots(a + b) == CountDots(a) + CountDots(b)
    decreases |a|
  {
    if a == [] {
      assert a + b == b;
    } else {
      assert (a + b)[1..] == a[1..] + b;
      CountDotsAppend(a[1..], b);
    }
  }

  lemma {:induction false} CountDotsFree(f: string)
    requires '.' !in f
    ensures CountDots(f) == 0
    decreases |f|
  {
    if f != [] {
      assert f[0] in f;
      assert '.' !in f[1..] by {
        forall i | 0 <= i < |f[1..]| ensures f[1..][i] != '.' {
          assert f[1..][i] == f[i + 1];
        }
      }
      CountDotsFree(f[1..]);
    }
  }

  /** N dot-free fields joined hold exactly N - 1 dots (none when N is 0). */
  lemma {:induction false} CountDotsJoin(fields: seq<string>)
    requires DotFree(fields)
    ensures CountDots(Join(fields)) == if |fields| == 0 then 0 else |fields| - 1
    decreases |fields|
  {
    if |fields| == 1 {
      CountDotsFree(fields[0]);
    } else if |fields| > 1 {
      assert DotFree(fields[1..]) by {
        forall k | 0 <= k < |fields[1..]| ensures '.' !in fields[1..][k] {
          assert fields[1..][k] == fields[k + 1];
        }
      }
      CountDotsJoin(fields[1..]);
      CountDotsFree(fields[0]);
      CountDotsAppend(fields[0], ".");
      CountDotsAppend(fields[0] + ".", Join(fields[1..]));
    }
  }

  /** A join of fields starts with the first field and ends with the last: no leading or trailing dot. */
  lemma {:induction false} JoinEnds(fields: seq<string>)
    requires |fields| >= 1
    ensures |Join(fields)| >= |fields[0]| && |Join(fields)| >= |fields[|fields| - 1]|
    ensures Join(fields)[..|fields[0]|] == fields[0]
    ensures Join(fields)[|Join(fields)| - |fields[|fields| - 1]|..] == fields[|fields| - 1]
    decreases |fields|
  {
    if |fields| > 1 {
      JoinEnds(fields[1..]);
      var rest := Join(fields[1..]);
      assert Join(fields) == fields[0] + "." + rest;
      assert fields[1..][|fields[1..]| - 1] == fields[|fields| - 1];
    }
  }
}
