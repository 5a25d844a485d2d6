/**
 * The object representation of a fixed-width integer on a little-endian
 * host: `sizeof(T)` bytes, byte 0 the least significant. Integers are
 * unbounded here, so the two's-complement bit pattern is written out as
 * `value % 256^width` (Dafny's `%` never yields a negative remainder, which
 * is exactly the unsigned reading of the pattern).
 */
module Bytes {

  /** `sizeof(T)` of an integral type: never zero. */
  type Width = w: nat | 1 <= w witness 1

  function Pow256(n: nat): (p: nat)
    ensures p >= 1
  {
    if n == 0 then 1 else 256 * Pow256(n - 1)
  }

  /**
   * The `w`-byte two's-complement bit pattern of `value`, read as unsigned:
   * the one number below 256^w congruent to `value`. A non-negative value that
   * fits is its own pattern; a negative one that fits is offset by 256^w.
   */
  function Pattern(w: nat, value: int): (u: nat)
    ensures u < Pow256(w)
  {
    value % Pow256(w)
  }

  /** The `n` low bytes of `u`, least significant first. */
  function LittleEndian(u: nat, n: nat): (bytes: seq<int>)
    ensures |bytes| == n
    ensures forall i | 0 <= i < n :: 0 <= bytes[i] < 256
  {
    if n == 0 then [] else [u % 256] + LittleEndian(u / 256, n - 1)
  }

  /** What `std::bit_cast<const std::byte*>(&value)` exposes: byte `i` at index `i`. */
  function Storage(w: Width, value: int): (bytes: seq<int>)
    ensures |bytes| == w
    ensures forall i | 0 <= i < w :: 0 <= bytes[i] < 256
  {
    LittleEndian(Pattern(w, value), w)
  }

  function Reverse(s: seq<int>): (r: seq<int>)
    ensures |r| == |s|
    ensures forall k | 0 <= k < |s| :: r[k] == s[|s| - 1 - k]
  {
    if s == [] then [] else Reverse(s[1..]) + [s[0]]
  }

  /** The number whose base-256 digits, most significant first, are `digits`. */
  function ValueMsbFirst(digits: seq<int>): int {
    if digits == [] then 0
    else 256 * ValueMsbFirst(digits[..|digits| - 1]) + digits[|digits| - 1]
  }

  /** Reads a `w`-byte pattern as a signed two's-complement number. */
  function ToSigned(w: Width, u: int): int {
    if u >= Pow256(w) / 2 then u - Pow256(w) else u
  }

  /** `value` fits a `w`-byte integer type of the given signedness. */
  predicate Representable(w: Width, signed: bool, value: int) {
    if signed then -(Pow256(w) / 2) <= value < Pow256(w) / 2
    else 0 <= value < Pow256(w)
  }

  lemma ModUnique(u: int, m: int, q: int, r: int)
    requires m > 0 && 0 <= r < m && u == m * q + r
    ensures u % m == r && u / m == q
  {
    var q', r' := u / m, u % m;
    var k := q - q';
    assert m * k == r' - r by {
      assert m * q + r == m * q' + r';
      assert m * q - m * q' == m * (q - q');
    }
    if k >= 1 {
      MulAtLeast(m, k);
    } else if k <= -1 {
      MulAtLeast(m, -k);
    }
  }

  lemma MulAtLeast(m: int, k: int)
    requires m > 0 && k >= 1
    ensures m * k >= m
  {
    assert m * k == m + m * (k - 1);
  }

  /** Peeling the lowest byte off a number and its remaining high part. */
  lemma ModSplit(u: nat, p: nat)
    requires p >= 1
    ensures 256 * ((u / 256) % p) + u % 256 == u % (256 * p)
  {
    var q, r := u / 256, u % 256;
    var a, b := q / p, q % p;
    assert u == 256 * q + r;
    assert q == p * a + b;
    assert u == (256 * p) * a + (256 * b + r) by {
      calc {
        u;
        256 * (p * a + b) + r;
        (256 * p) * a + (256 * b + r);
      }
    }
    assert 256 * b + r < 256 * p by {
      assert b <= p - 1;
      assert 256 * b <= 256 * (p - 1);
    }
    ModUnique(u, 256 * p, a, 256 * b + r);
  }

  lemma DivSplit(u: nat, p: nat)
    requires p >= 1
    ensures (u / 256) / p == u / (256 * p)
  {
    var q, r := u / 256, u % 256;
    var a, b := q / p, q % p;
    assert u == (256 * p) * a + (256 * b + r) by {
      calc {
        u;
        256 * (p * a + b) + r;
        (256 * p) * a + (256 * b + r);
      }
    }
    assert 256 * b + r < 256 * p by {
      assert 256 * b <= 256 * (p - 1);
    }
    ModUnique(u, 256 * p, a, 256 * b + r);
  }

  /** Byte `i` of the little-endian storage is bits 8i..8i+7 of the pattern. */
  lemma {:induction false} LittleEndianByte(u: nat, n: nat, i: nat)
    requires i < n
    ensures LittleEndian(u, n)[i] == (u / Pow256(i)) % 256
    decreases i
  {
    if i > 0 {
      LittleEndianByte(u / 256, n - 1, i - 1);
      DivSplit(u, Pow256(i - 1));
    }
  }

  /** The storage holds byte `i` of the two's-complement pattern at index `i` (a little-endian host). */
  lemma StorageByte(w: Width, value: int, i: nat)
    requires i < w
    ensures Storage(w, value)[i] == (Pattern(w, value) / Pow256(i)) % 256
  {
    LittleEndianByte(Pattern(w, value), w, i);
  }

  /**
   * Reading the bytes of a `w`-byte storage from the highest index down, as
   * base-256 digits, gives back the stored bit pattern.
   */
  lemma {:induction false} ReadBackLittleEndian(u: nat, n: nat)
    ensures ValueMsbFirst(Reverse(LittleEndian(u, n))) == u % Pow256(n)
    decreases n
  {
    if n > 0 {
      var le := LittleEndian(u, n);
      var high := LittleEndian(u / 256, n - 1);
      assert le[1..] == high;
      var r := Reverse(le);
      assert r == Reverse(high) + [u % 256];
      assert r[..|r| - 1] == Reverse(high);
      ReadBackLittleEndian(u / 256, n - 1);
      ModSplit(u, Pow256(n - 1));
    }
  }

  lemma ReadBackStorage(w: Width, value: int)
    ensures ValueMsbFirst(Reverse(Storage(w, value))) == Pattern(w, value)
  {
    var u := Pattern(w, value);
    ReadBackLittleEndian(u, w);
    ModUnique(u, Pow256(w), 0, u);
  }

  /**
   * Two's complement on values that fit: a non-negative value below 256^w is
   * its own pattern, and a negative value of at least -256^w is stored as
   * `value + 256^w`.
   */
  lemma PatternInRange(w: Width, value: int)
    ensures 0 <= value < Pow256(w) ==> Pattern(w, value) == value
    ensures -(Pow256(w) as int) <= value < 0 ==> Pattern(w, value) == value + Pow256(w)
  {
    var p: int := Pow256(w);
    if 0 <= value < p {
      ModUnique(value, p, 0, value);
    } else if -p <= value < 0 {
      ModUnique(value, p, -1, value + p);
    }
  }

  /** A representable value is recovered from its bit pattern given its signedness. */
  lemma PatternRecovers(w: Width, signed: bool, value: int)
    requires Representable(w, signed, value)
    ensures value == if signed then ToSigned(w, Pattern(w, value)) else Pattern(w, value)
  {
    var p := Pow256(w);
    if value >= 0 {
      ModUnique(value, p, 0, value);
    } else {
      ModUnique(value, p, -1, value + p);
    }
  }
}
