/** Java `int` arithmetic: values are 32-bit two's complement and `+`, `-`
    and `IntStream.sum` wrap around silently. */
module Int32 {

  const MinInt32: int := -0x8000_0000
  const MaxInt32: int := 0x7fff_ffff
  const Modulus: int := 0x1_0000_0000

  predicate IsInt32(x: int) {
    MinInt32 <= x <= MaxInt32
  }

  /** The Java `int` that the mathematical value `x` wraps to. */
  function Wrap32(x: int): (r: int)
    ensures IsInt32(r)
    ensures (x - r) % Modulus == 0
    ensures IsInt32(x) ==> r == x
  {
    (x - MinInt32) % Modulus + MinInt32
  }

  /** `Integer.MAX_VALUE + 1` is `Integer.MIN_VALUE`. */
  lemma MaxPlusOneWraps()
    ensures Wrap32(MaxInt32 + 1) == MinInt32
  {
  }

  /** Two Java ints that agree modulo 2^32 are equal. */
  lemma Int32Unique(a: int, b: int)
    requires IsInt32(a) && IsInt32(b) && (a - b) % Modulus == 0
    ensures a == b
  {
  }

  /** Wrapping part-way through a sum does not change the wrapped total. */
  lemma WrapAbsorbs(a: int, x: int)
    ensures Wrap32(Wrap32(a) + x) == Wrap32(a + x)
  {
    var w := Wrap32(a);
    var k := (a - w) / Modulus;
    assert a - w == k * Modulus;
    var u := Wrap32(w + x);
    var v := Wrap32(a + x);
    var j := (w + x - u) / Modulus;
    assert w + x - u == j * Modulus;
    var i := (a + x - v) / Modulus;
    assert a + x - v == i * Modulus;
    assert u - v == (i - j - k) * Modulus;
    Int32Unique(u, v);
  }
}
