/** The few pieces of JavaScript number semantics the model relies on.
    A finite IEEE-754 double is taken as an exact `real`; infinities and NaN
    are kept apart (`Num`) only where the source can produce them. */
module Js {

  /** A JavaScript number that may have left the finite range. */
  datatype Num = Finite(v: real) | PosInf | NegInf | NaN {
    /** `Number.isFinite` */
    predicate IsFinite() { Finite? }
  }

  /** A value, or JavaScript's `null` / `undefined`. */
  datatype Option<T> = None | Some(value: T)

  /** What an `<input type="number">` hands over: its `valueAsNumber`,
      or NaN when the field is blank. */
  datatype InputNumber = Value(v: real) | NotANumber

  /** `a / b` for finite operands: a zero divisor gives a signed infinity,
      or NaN for `0 / 0` (signed zeros are not modelled). */
  function Div(a: real, b: real): (r: Num)
    ensures b != 0.0 ==> r == Finite(a / b)
    ensures b == 0.0 ==> !r.IsFinite() && (r == NaN <==> a == 0.0) && (r == PosInf <==> a > 0.0)
  {
    if b != 0.0 then Finite(a / b)
    else if a > 0.0 then PosInf
    else if a < 0.0 then NegInf
    else NaN
  }

  /** `x * c` for a positive constant `c`: the infinities and NaN pass through. */
  function ScaleNum(x: Num, c: real): (r: Num)
    requires c > 0.0
    ensures r.IsFinite() <==> x.IsFinite()
  {
    match x
    case Finite(v) => Finite(v * c)
    case _ => x
  }

  /** `Math.floor` on a finite value. */
  function Floor(x: real): (r: int)
    ensures r as real <= x < r as real + 1.0
  {
    x.Floor
  }

  /** `Math.ceil` on a finite value. */
  function Ceil(x: real): (r: int)
    ensures x <= r as real < x + 1.0
    ensures r == Floor(x) <==> x == Floor(x) as real
  {
    if x.Floor as real == x then x.Floor else x.Floor + 1
  }

  /** `Math.round`: halves are rounded towards +infinity. */
  function Round(x: real): (r: int)
    ensures x - 0.5 < r as real <= x + 0.5
  {
    (x + 0.5).Floor
  }

  /** `Math.round(x * 100) / 100`, the source's two-decimal rounding. */
  function Round2(x: real): (r: real)
    ensures x - 0.005 < r <= x + 0.005
  {
    Round(x * 100.0) as real / 100.0
  }

  /** `Math.round(x * 100) / 100` on a number that may be infinite or NaN. */
  function Round2Num(x: Num): (r: Num)
    ensures r.IsFinite() <==> x.IsFinite()
    ensures x.IsFinite() ==> r == Finite(Round2(x.v))
  {
    match x
    case Finite(v) => Finite(Round2(v))
    case _ => x
  }

  /** Truncation towards zero (`Math.trunc`). */
  function Trunc(x: real): (r: int)
    ensures 0.0 <= x ==> r as real <= x < r as real + 1.0
    ensures x < 0.0 ==> r as real - 1.0 < x <= r as real
  {
    if x >= 0.0 then x.Floor else -((-x).Floor)
  }

  const TwoTo32: int := 0x1_0000_0000

  /** `x >>> 0` (ToUint32) on a finite number: truncate, then reduce modulo 2^32. */
  function ToUint32(x: real): bv32
  {
    (Trunc(x) % TwoTo32) as bv32
  }

  /** An integral number is its own truncation. */
  lemma {:induction false} TruncOfInt(n: int)
    ensures Trunc(n as real) == n
  {
    if n < 0 {
      assert (-(n as real)) == (-n) as real;
    }
  }

  /** A number already in [0, 2^32) keeps its value under `>>> 0`. */
  lemma {:induction false} ToUint32OfUint32(n: int)
    requires 0 <= n < TwoTo32
    ensures ToUint32(n as real) == n as bv32
  {
    TruncOfInt(n);
    assert n % TwoTo32 == n;
  }

  lemma {:induction false} Round2OfZero()
    ensures Round2(0.0) == 0.0
  {
    assert (0.0 * 100.0 + 0.5).Floor == 0;
  }

  lemma {:induction false} Round2Monotone(x: real, y: real)
    requires x <= y
    ensures Round2(x) <= Round2(y)
  {
    assert x * 100.0 + 0.5 <= y * 100.0 + 0.5;
    assert (x * 100.0 + 0.5).Floor <= (y * 100.0 + 0.5).Floor;
  }

  /** `String(n)` for a whole number: its decimal digits, most significant first. */
  function Decimal(n: nat): (s: string)
    ensures |s| > 0 && forall i :: 0 <= i < |s| ==> '0' <= s[i] <= '9'
  {
    var d := ['0' + (n % 10) as char];
    if n < 10 then d else Decimal(n / 10) + d
  }
}
