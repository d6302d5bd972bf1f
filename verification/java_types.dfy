/** Java's fixed-width integer types, the wrap-around of its narrowing casts,
    its truncating division, and the unchecked exceptions that escape
    from the modelled code. */
module JavaTypes {

  newtype i8 = x: int | -0x80 <= x < 0x80
  type i16 = x: int | -0x8000 <= x < 0x8000
  type i32 = x: int | -0x8000_0000 <= x < 0x8000_0000
  type i64 = x: int | -0x8000_0000_0000_0000 <= x < 0x8000_0000_0000_0000

  datatype Option<T> = None | Some(value: T)

  /** An exception that a modelled Java method lets escape. */
  datatype Exception = NullPointerException | ArrayIndexOutOfBoundsException | NegativeArraySizeException

  /** The completion of a Java call that returns a value or throws. */
  datatype Result<T> = Returned(value: T) | Threw(exception: Exception)

  /** The completion of a Java call that returns nothing or throws. */
  datatype Completion = Normal | Raised(exception: Exception)

  /** Auto-unboxing of a boxed value that may be null. */
  function Unbox<T>(o: Option<T>): (r: Result<T>)
    ensures r.Returned? <==> o.Some?
    ensures r.Returned? ==> r.value == o.value
    ensures r.Threw? ==> r.exception == NullPointerException
  {
    match o
    case Some(v) => Returned(v)
    case None => Threw(NullPointerException)
  }

  /** 256^n, the number of bit patterns n bytes can hold. */
  function Pow256(n: nat): (r: int)
    ensures r > 0
  {
    if n == 0 then 1 else 256 * Pow256(n - 1)
  }

  /** Narrowing casts: keep the low bits, read them as two's complement. */
  function ToI8(x: int): (r: i8)
    ensures (r as int - x) % 0x100 == 0
  {
    var m := x % 0x100;
    (if m < 0x80 then m else m - 0x100) as i8
  }

  function ToI16(x: int): (r: i16)
    ensures (r - x) % 0x1_0000 == 0
  {
    var m := x % 0x1_0000;
    if m < 0x8000 then m else m - 0x1_0000
  }

  function ToI32(x: int): (r: i32)
    ensures (r - x) % 0x1_0000_0000 == 0
  {
    var m := x % 0x1_0000_0000;
    if m < 0x8000_0000 then m else m - 0x1_0000_0000
  }

  function ToI64(x: int): (r: i64)
    ensures (r - x) % 0x1_0000_0000_0000_0000 == 0
  {
    var m := x % 0x1_0000_0000_0000_0000;
    if m < 0x8000_0000_0000_0000 then m else m - 0x1_0000_0000_0000_0000
  }

  /** `b & 0xff`: the byte's bit pattern as an unsigned number. */
  function Unsigned8(b: i8): (r: int)
    ensures 0 <= r < 0x100
    ensures (r - b as int) % 0x100 == 0
  {
    b as int % 0x100
  }

  /** `(byte) ((x >> (8 * k)) & 0xff)`: byte k (counting from the least
      significant) of x's two's-complement representation. */
  function ByteOf(x: int, k: nat): i8
  {
    ToI8((x / Pow256(k)) % 0x100)
  }

  /** Java's `/` on integers rounds toward zero (Dafny's rounds down). */
  function JavaDiv(a: int, b: int): (q: int)
    requires b != 0
    ensures a >= 0 && b > 0 ==> q == a / b
    ensures a < 0 && b > 0 ==> q == -((-a) / b)
  {
    if a >= 0 then (if b > 0 then a / b else -(a / -b))
    else (if b > 0 then -((-a) / b) else (-a) / (-b))
  }

  /** Java's `%` on integers takes the sign of the dividend. */
  function JavaRem(a: int, b: int): (r: int)
    requires b != 0
    ensures a >= 0 && b > 0 ==> r == a % b
    ensures a < 0 && b > 0 ==> r == -((-a) % b)
  {
    a - b * JavaDiv(a, b)
  }

  /** Java's `Math.abs` on an int: the one value without a positive
      counterpart is returned unchanged. */
  function JavaAbs(x: i32): (r: i32)
    ensures x != -0x8000_0000 ==> r >= 0 && (r == x || r == -x)
    ensures x == -0x8000_0000 ==> r == x
  {
    if x >= 0 || x == -0x8000_0000 then x else -x
  }

  /** Helper arithmetic: Euclidean division by a product splits into two
      divisions, and the remainder splits into the two remainders. */
  lemma DivMulSplit(x: int, a: int, b: int)
    requires a > 0 && b > 0
    ensures x / (a * b) == (x / a) / b
    ensures x % (a * b) == x % a + a * ((x / a) % b)
  {
    var q, r := x / a, x % a;
    var q2, r2 := q / b, q % b;
    MulRegroup(a, b, q2, r2);
    MulBelow(a, r2, b);
    DivModUnique(x, a * b, q2, a * r2 + r);
  }

  lemma MulRegroup(a: int, b: int, q: int, r: int)
    ensures a * (b * q + r) == (a * b) * q + a * r
  {
  }

  /** a * r + s stays below a * b when r < b and s < a. */
  lemma MulBelow(a: int, r: int, b: int)
    requires a > 0 && 0 <= r < b
    ensures 0 <= a * r <= a * b - a
  {
    assert a * (b - 1) == a * b - a;
    assert a * r <= a * (b - 1) by {
      assert a * (b - 1) - a * r == a * (b - 1 - r);
    }
  }

  lemma DivModUnique(x: int, d: int, q: int, r: int)
    requires d > 0 && 0 <= r < d && x == d * q + r
    ensures x / d == q && x % d == r
  {
    var q', r' := x / d, x % d;
    assert d * q + r == d * q' + r';
    if q < q' {
      var k := q' - q;
      assert d * q' == d * q + d * k;
      MulAtLeast(d, k);
    } else if q > q' {
      var k := q - q';
      assert d * q == d * q' + d * k;
      MulAtLeast(d, k);
    }
  }

  /** A number congruent to x, for x in [0, m), leaves remainder x. */
  lemma WrapResidue(r: int, x: int, m: int)
    requires m > 0 && 0 <= x < m && (r - x) % m == 0
    ensures r % m == x
  {
    var k := (r - x) / m;
    assert r - x == m * k;
    DivModUnique(r, m, k, x);
  }

  lemma MulAtLeast(d: int, k: int)
    requires d > 0 && k >= 1
    ensures d * k >= d
  {
    assert d * k == d + d * (k - 1);
  }
}
