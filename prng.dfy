/** The seeded generator behind reproducible simulations: a mulberry32
    generator over a 32-bit unsigned state, seeded from a number or, through
    an order-sensitive `31 * h + c` hash, from a string.

    Every JavaScript step is exact 32-bit arithmetic: `Math.imul` is the low
    32 bits of the product, `t + Math.imul(...)` is a sum of two 32-bit
    integers that `^` reduces modulo 2^32 again, and `>>> 0` reinterprets the
    bits as unsigned; so the state and the mix are `bv32` values here. */
module Prng {
  import Js

  /** The odd increment added to the state on every call. */
  const Gamma: bv32 := 0x6d2b79f5

  /** `Math.imul(a, b)`: the low 32 bits of the product. */
  function Imul(a: bv32, b: bv32): bv32 { a * b }

  /** `t = Math.imul(t ^ (t >>> 15), t | 1)` */
  function MixMultiply(t: bv32): bv32 { Imul(t ^ (t >> 15), t | 1) }

  /** `t ^= t + Math.imul(t ^ (t >>> 7), t | 61)` */
  function MixAdd(t: bv32): bv32 { t ^ (t + Imul(t ^ (t >> 7), t | 61)) }

  /** `(t ^ (t >>> 14)) >>> 0` */
  function MixFinish(t: bv32): bv32 { t ^ (t >> 14) }

  /** The output mix applied to the freshly advanced state. */
  function Mix(state: bv32): bv32
  {
    MixFinish(MixAdd(MixMultiply(state)))
  }

  /** Division of a 32-bit unsigned value by 2^32. */
  function ToUnit(x: bv32): (r: real)
    ensures 0.0 <= r < 1.0
  {
    (x as int) as real / 4294967296.0
  }

  /** A seed is a (finite) number or a string. */
  datatype Seed = NumSeed(n: real) | StrSeed(s: string)

  /** The UTF-16 code units of one character, as `charCodeAt` sees them. */
  function CodeUnits(c: char): (r: seq<bv16>)
    ensures |r| == if c as int < 0x10000 then 1 else 2
  {
    var n := c as int;
    if n < 0x10000 then [n as bv16]
    else
      var v := n - 0x10000;
      [(0xD800 + v / 0x400) as bv16, (0xDC00 + v % 0x400) as bv16]
  }

  /** A string as the sequence of UTF-16 code units that `s.length` counts. */
  function Utf16(s: string): seq<bv16>
  {
    if s == [] then [] else Utf16(s[..|s| - 1]) + CodeUnits(s[|s| - 1])
  }

  /** `(Math.imul(31, h) + unit) >>> 0` */
  function HashStep(h: bv32, unit: bv16): bv32 { 31 * h + unit as bv32 }

  /** The string hash, folded over the code units from the left. */
  function Hash(units: seq<bv16>): bv32
  {
    if units == [] then 0
    else HashStep(Hash(units[..|units| - 1]), units[|units| - 1])
  }

  /** `hashSeed` */
  method HashSeed(s: string) returns (h: bv32)
    ensures h == Hash(Utf16(s))
  {
    var units := Utf16(s);
    h := 0;
    var i := 0;
    while i < |units|
      invariant 0 <= i <= |units|
      invariant h == Hash(units[..i])
    {
      assert units[..i + 1][..i] == units[..i];
      h := HashStep(h, units[i]);
      i := i + 1;
    }
    assert units[..i] == units;
  }

  /** The state a generator starts from. */
  function InitialState(seed: Seed): bv32
  {
    match seed
    case NumSeed(n) => Js.ToUint32(n)
    case StrSeed(s) => Hash(Utf16(s))
  }

  /** The state after `k` calls. */
  function StateAfter(s0: bv32, k: nat): bv32
  {
    if k == 0 then s0 else StateAfter(s0, k - 1) + Gamma
  }

  /** What `next` returns once the state has been advanced to `state`. */
  function Output(state: bv32): (r: real)
    ensures 0.0 <= r < 1.0
  {
    ToUnit(Mix(state))
  }

  /** The value returned by call number `k` (counting from 0). */
  function NthOutput(s0: bv32, k: nat): (r: real)
    ensures 0.0 <= r < 1.0
  {
    Output(StateAfter(s0, k + 1))
  }

  /** Advancing `k + 1` times is advancing once, then `k` times. */
  lemma {:induction false} StateAfterShift(s0: bv32, k: nat)
    ensures StateAfter(s0, k + 1) == StateAfter(s0 + Gamma, k)
    decreases k
  {
    if k > 0 {
      StateAfterShift(s0, k - 1);
    }
  }

  /** After one call the generator goes on with the rest of the same stream. */
  lemma NthOutputShift(s0: bv32, k: nat)
    ensures NthOutput(s0, k + 1) == NthOutput(s0 + Gamma, k)
  {
    StateAfterShift(s0, k + 1);
  }

  /** `makeRng(seed)`: the closure's captured `state` is this object's field. */
  class Rng {
    var state: bv32

    constructor (seed: Seed)
      ensures state == InitialState(seed)
    {
      match seed
      case NumSeed(n) =>
        state := Js.ToUint32(n);
      case StrSeed(s) =>
        var h := HashSeed(s);
        state := h;
    }

    /** One call of the returned `next` function. */
    method Next() returns (r: real)
      modifies this
      ensures state == old(state) + Gamma
      ensures r == Output(state)
      ensures 0.0 <= r < 1.0
    {
      state := state + Gamma;
      var t := state;
      r := Output(t);
    }
  }

  /** Appending a character of the Basic Multilingual Plane folds its code
      into the hash as `31 * h + code`. */
  lemma HashAppendChar(s: string, c: char)
    requires c as int < 0x10000
    ensures Hash(Utf16(s + [c])) == HashStep(Hash(Utf16(s)), (c as int) as bv16)
  {
    var sc := s + [c];
    assert sc[..|sc| - 1] == s;
    var units := Utf16(sc);
    assert units == Utf16(s) + [(c as int) as bv16];
    assert units[..|units| - 1] == Utf16(s);
  }

  /** Numeric seeds congruent modulo 2^32 start the same stream. */
  lemma {:induction false} CongruentSeedsSameState(n: int, j: int)
    ensures InitialState(NumSeed(n as real)) == InitialState(NumSeed((n + j * Js.TwoTo32) as real))
  {
    assert Js.Trunc(n as real) == n;
    assert Js.Trunc((n + j * Js.TwoTo32) as real) == n + j * Js.TwoTo32;
    assert (n + j * Js.TwoTo32) % Js.TwoTo32 == n % Js.TwoTo32;
  }

  /** A number that already is a 32-bit unsigned value is its own state. */
  lemma {:induction false} Uint32SeedIsItself(h: bv32)
    ensures Js.ToUint32((h as int) as real) == h
  {
    Js.ToUint32OfUint32(h as int);
  }

  /** A string seed and its numeric hash start the same stream. */
  lemma StringSeedIsItsHash(s: string)
    ensures InitialState(StrSeed(s)) == InitialState(NumSeed((Hash(Utf16(s)) as int) as real))
  {
    Uint32SeedIsItself(Hash(Utf16(s)));
  }
}
