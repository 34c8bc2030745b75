/**
 * `RequestCode`: derives a request code from a string tag (or a class name) by folding
 * the tag's Java hash into [0, MAX). Java `int` arithmetic is written out: wrap-around,
 * the truncating `%` and `Math.abs`.
 */
module RequestCode {
  import opened Android

  const MIN_INT: int := -0x8000_0000
  const MAX_INT: int := 0x7FFF_FFFF
  const TWO_32: int := 0x1_0000_0000

  /** A Java `int`. */
  type Int32 = x: int | MIN_INT <= x <= MAX_INT

  /** The largest request code Android accepts. */
  const MAX: Int32 := 0xFFFF

  function Abs(x: int): nat {
    if x < 0 then -x else x
  }

  /** Two's-complement wrap-around of a mathematical integer into a Java `int`. */
  function Wrap32(x: int): Int32 {
    (x - MIN_INT) % TWO_32 + MIN_INT
  }

  /** Java's `a / b` on integers: the quotient rounded toward zero. */
  function JavaDiv(a: int, b: int): int
    requires b != 0
  {
    var q := Abs(a) / Abs(b);
    if (a < 0) == (b < 0) then q else -q
  }

  /**
   * Java's `a % b`, defined by section 15.17.3 of the Java Language Specification through
   * `(a / b) * b + a % b == a`: the remainder is smaller than `b` in magnitude and never of
   * the opposite sign to `a`.
   */
  function JavaRem(a: Int32, b: Int32): (r: Int32)
    requires b != 0
    ensures JavaDiv(a, b) * b + r == a
    ensures Abs(r) < Abs(b)
    ensures a >= 0 ==> r >= 0
    ensures a < 0 ==> r <= 0
  {
    var m := Abs(a) % Abs(b);
    TruncatedDivision(a, b);
    if a < 0 then -m else m
  }

  lemma TruncatedDivision(a: int, b: int)
    requires b != 0
    ensures JavaDiv(a, b) * b + (if a < 0 then -(Abs(a) % Abs(b)) else Abs(a) % Abs(b)) == a
  {
    var q, m := Abs(a) / Abs(b), Abs(a) % Abs(b);
    assert Abs(a) == q * Abs(b) + m;
    if a < 0 && b < 0 {
      assert q * b == -(q * Abs(b));
    } else if a < 0 {
      assert (-q) * b == -(q * Abs(b));
    } else if b < 0 {
      assert (-q) * b == q * Abs(b);
    }
  }

  /** Java's `Math.abs(int)`: negating MIN_VALUE overflows back to MIN_VALUE. */
  function JavaAbs(a: Int32): Int32 {
    if a == MIN_INT then MIN_INT else if a < 0 then -a else a
  }

  /** The UTF-16 code units a Java string stores for one character. */
  function Utf16Units(c: char): (units: seq<int>)
    ensures 1 <= |units| <= 2
    ensures forall i :: 0 <= i < |units| ==> 0 <= units[i] < 0x1_0000
  {
    var v := c as int;
    if v < 0x1_0000 then [v]
    else [0xD800 + (v - 0x1_0000) / 0x400, 0xDC00 + (v - 0x1_0000) % 0x400]
  }

  function Utf16(s: string): seq<int> {
    if s == [] then [] else Utf16(s[..|s| - 1]) + Utf16Units(s[|s| - 1])
  }

  /** `String.hashCode` over code units: `h = 31 * h + unit`, left to right, in `int` arithmetic. */
  function HashUnits(units: seq<int>): Int32 {
    if units == [] then 0
    else Wrap32(31 * HashUnits(units[..|units| - 1]) + units[|units| - 1])
  }

  function HashCode(s: string): Int32 {
    HashUnits(Utf16(s))
  }

  /** 31 to the power n. */
  function Pow31(n: nat): nat {
    if n == 0 then 1 else 31 * Pow31(n - 1)
  }

  /** The documented formula `u[0]*31^(n-1) + u[1]*31^(n-2) + ... + u[n-1]`, in unbounded integers. */
  function Polynomial(units: seq<int>): int {
    if units == [] then 0 else units[0] * Pow31(|units| - 1) + Polynomial(units[1..])
  }

  /** `createRequestCode(String)`: `Math.abs(tag.hashCode() % MAX)`. */
  function CreateRequestCode(tag: string): (code: Int32)
    ensures 0 <= code < MAX
    ensures code == Abs(HashCode(tag)) % MAX
  {
    CodeOfHash(HashCode(tag))
  }

  /** The folding step of `createRequestCode`, for any hash value. */
  function CodeOfHash(h: Int32): (code: Int32)
    ensures 0 <= code < MAX
    ensures code == Abs(h) % MAX
  {
    JavaAbs(JavaRem(h, MAX))
  }

  /** `createRequestCode(Class)`: the code of the class's name. */
  function CreateRequestCodeForClass(type_: JavaClass): (code: Int32)
    ensures 0 <= code < MAX
    ensures code == CreateRequestCode(type_.name)
  {
    CreateRequestCode(type_.name)
  }

  /** Wrapping depends only on the value modulo 2^32. */
  lemma WrapCongruent(a: int, b: int, k: int)
    requires a == b + k * TWO_32
    ensures Wrap32(a) == Wrap32(b)
  {
    assert (a - MIN_INT) == (b - MIN_INT) + k * TWO_32;
  }

  lemma {:induction false} PolynomialSnoc(units: seq<int>, u: int)
    ensures Polynomial(units + [u]) == 31 * Polynomial(units) + u
  {
    if units == [] {
      assert [u][1..] == [];
    } else {
      var rest := units[1..];
      assert (units + [u])[1..] == rest + [u];
      PolynomialSnoc(rest, u);
      assert Pow31(|units|) == 31 * Pow31(|units| - 1);
      calc {
        Polynomial(units + [u]);
        units[0] * Pow31(|units|) + Polynomial(rest + [u]);
        units[0] * (31 * Pow31(|units| - 1)) + 31 * Polynomial(rest) + u;
        31 * (units[0] * Pow31(|units| - 1) + Polynomial(rest)) + u;
      }
    }
  }

  /** The hash fold computes the documented polynomial, wrapped once into a Java `int`. */
  lemma {:induction false} HashUnitsIsWrappedPolynomial(units: seq<int>)
    ensures HashUnits(units) == Wrap32(Polynomial(units))
  {
    if units != [] {
      var init, u := units[..|units| - 1], units[|units| - 1];
      assert units == init + [u];
      HashUnitsIsWrappedPolynomial(init);
      PolynomialSnoc(init, u);
      var h := HashUnits(init);
      var p := Polynomial(init);
      var k := (p - MIN_INT) / TWO_32;
      assert h == p - k * TWO_32;
      WrapCongruent(31 * h + u, 31 * p + u, -31 * k);
    }
  }
}
