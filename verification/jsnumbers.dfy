/** The JavaScript numeric operations the browser filters rely on, with
    numbers modelled as exact reals: `Math.round`, `Math.max`/`Math.min`
    clamping, the conversion a `Uint8ClampedArray` applies on every store,
    and the transcendental functions `Math.exp` and `Math.sqrt`, which are
    passed in as a `MathLib` value of which only a few facts are known. */
module JsNumbers {

  function MinR(a: real, b: real): real { if a <= b then a else b }
  function MaxR(a: real, b: real): real { if a >= b then a else b }
  function AbsR(a: real): real { if a < 0.0 then -a else a }
  function MinI(a: int, b: int): int { if a <= b then a else b }
  function MaxI(a: int, b: int): int { if a >= b then a else b }

  /** `Math.round(x)`: the nearest integer, a half rounded towards +infinity. */
  function Round(x: real): (r: int)
    ensures x - 0.5 < r as real <= x + 0.5
  {
    (x + 0.5).Floor
  }

  /** `Math.floor(x)`. */
  function Floor(x: real): (r: int)
    ensures r as real <= x < r as real + 1.0
  {
    x.Floor
  }

  /** `Math.max(0, Math.min(255, x))`. */
  function Clamp255(x: real): (r: real)
    ensures 0.0 <= r <= 255.0
    ensures 0.0 <= x <= 255.0 ==> r == x
    ensures x < 0.0 ==> r == 0.0
    ensures x > 255.0 ==> r == 255.0
  {
    MaxR(0.0, MinR(255.0, x))
  }

  lemma {:induction false} ClampMonotone(a: real, b: real)
    requires a <= b
    ensures Clamp255(a) <= Clamp255(b)
  {
  }

  /** Multiplying by a non-negative number keeps the order. */
  lemma {:induction false} ScaleMonotone(a: real, b: real, f: real)
    requires a <= b && f >= 0.0
    ensures a * f <= b * f
  {
    assert b * f - a * f == (b - a) * f;
  }

  /** Multiplying by a positive number keeps the strict order. */
  lemma {:induction false} ScaleStrict(a: real, b: real, f: real)
    requires a < b && f > 0.0
    ensures a * f < b * f
  {
    assert b * f - a * f == (b - a) * f;
    assert (b - a) * f > 0.0;
  }

  /** The ToUint8Clamp conversion a `Uint8ClampedArray` applies to a stored
      number: clamp to [0, 255], then round to nearest with ties to even. */
  function ToUint8Clamp(v: real): (r: int)
    ensures 0 <= r <= 255
    ensures v <= 0.0 ==> r == 0
    ensures v >= 255.0 ==> r == 255
    ensures 0.0 <= v <= 255.0 ==> -0.5 <= r as real - v <= 0.5
    ensures 0.0 < v < 255.0 && r as real - v == 0.5 ==> r % 2 == 0
    ensures 0.0 < v < 255.0 && v - r as real == 0.5 ==> r % 2 == 0
  {
    if v <= 0.0 then 0
    else if v >= 255.0 then 255
    else
      var f := v.Floor;
      if f as real + 0.5 < v then f + 1
      else if v < f as real + 0.5 then f
      else if f % 2 == 0 then f
      else f + 1
  }

  /** `data[i] = Math.round(x)` on a `Uint8ClampedArray`: the rounded value, clamped to a byte. */
  function RoundStore(x: real): (r: int)
    ensures 0 <= r <= 255
    ensures 0.0 <= x <= 255.0 ==> r == Round(x)
  {
    ToUint8Clamp(Round(x) as real)
  }

  /** Storing a byte value that is already an integer stores it unchanged. */
  lemma {:induction false} StoreByte(n: int)
    requires 0 <= n <= 255
    ensures ToUint8Clamp(n as real) == n
  {
  }

  /** The store conversion is monotone: a larger number never stores a smaller byte. */
  lemma {:induction false} StoreMonotone(a: real, b: real)
    requires a <= b
    ensures ToUint8Clamp(a) <= ToUint8Clamp(b)
  {
    if 0.0 < a && b < 255.0 {
      var fa, fb := a.Floor, b.Floor;
      if fa == fb {
        if ToUint8Clamp(a) == fa + 1 {
          assert fa as real + 0.5 <= a;
          assert fb as real + 0.5 <= b;
          if b == fb as real + 0.5 {
            assert a == b;
          }
        }
      } else {
        assert fa < fb;
        assert ToUint8Clamp(a) <= fa + 1 <= fb <= ToUint8Clamp(b);
      }
    }
  }

  /** Rounding and storing a byte value gives that byte back. */
  lemma {:induction false} RoundStoreByte(n: int)
    requires 0 <= n <= 255
    ensures RoundStore(n as real) == n
  {
    RoundInt(n);
  }

  /** Rounding and storing a number between two bytes gives a byte between them. */
  lemma {:induction false} RoundStoreBetween(lo: int, hi: int, x: real)
    requires 0 <= lo <= hi <= 255 && lo as real <= x <= hi as real
    ensures lo <= RoundStore(x) <= hi
  {
    RoundMonotone(lo as real, x);
    RoundMonotone(x, hi as real);
    RoundInt(lo);
    RoundInt(hi);
  }

  /** `Math.round` is monotone. */
  lemma {:induction false} RoundMonotone(a: real, b: real)
    requires a <= b
    ensures Round(a) <= Round(b)
  {
  }

  /** `Math.round` of an integer is that integer. */
  lemma {:induction false} RoundInt(n: int)
    ensures Round(n as real) == n
  {
  }

  /** The transcendental functions of `Math` that the filters call. */
  datatype MathLib = MathLib(exp: real -> real, sqrt: real -> real)

  /** The only facts the model uses about them: `Math.exp` is never negative
      (it may underflow to 0), `Math.sqrt` of a non-negative number is
      non-negative, and `Math.sqrt(0)` is 0. */
  ghost predicate Sound(m: MathLib)
  {
    && (forall x: real :: m.exp(x) >= 0.0)
    && (forall x: real :: x >= 0.0 ==> m.sqrt(x) >= 0.0)
    && m.sqrt(0.0) == 0.0
  }
}
