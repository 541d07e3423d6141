/** The per-thread xorshift128+ random series (tracer_random.h). */
module Random {
  import opened Vectors

  /** `ULLONG_MAX`, the divisor that maps a raw 64-bit output into [0, 1]. */
  const ULongMax: int := 0xFFFF_FFFF_FFFF_FFFF

  /** The two slots of `ShuffleTable`. */
  datatype State = State(s0: bv64, s1: bv64)

  /** `RandomSeries()`: each slot holds its own clock reading, slot 0 the first call's
      and slot 1 the second's, so the slots agree exactly when no second boundary fell
      between the two calls. */
  function Seeded(first: bv64, second: bv64): (r: State)
    ensures r.s0 == first && r.s1 == second
    ensures r.s0 == r.s1 <==> first == second
  {
    State(first, second)
  }

  /** The raw 64-bit output of one step: the wrapping sum of the two slots, read as
      an unsigned integer. */
  function Raw(st: State): (r: nat)
    ensures r <= ULongMax
  {
    (st.s1 + st.s0) as int
  }

  /** The state after one call of `RandomCanonical`. */
  function Next(st: State): (r: State)
    ensures r.s0 == st.s1
  {
    var seed0 := st.s1;
    var seed1 := st.s0 ^ (st.s0 << 23);
    State(seed0, seed1 ^ seed0 ^ (seed1 >> 18) ^ (seed0 >> 5))
  }

  /** A nonzero old slot 0 cannot be mixed to zero when old slot 1 is zero. */
  lemma MixKeepsNonZero(a: bv64, b: bv64)
    ensures b == 0 && (a ^ (a << 23)) ^ b ^ ((a ^ (a << 23)) >> 18) ^ (b >> 5) == 0 ==> a == 0
  {
  }

  /** The all-zero state steps to itself and always yields 0. */
  lemma ZeroIsFixedPoint()
    ensures Next(State(0, 0)) == State(0, 0)
    ensures Raw(State(0, 0)) == 0
  {
  }

  /** A state that is not all zero never steps to the all-zero state. */
  lemma NonZeroStaysNonZero(st: State)
    requires st != State(0, 0)
    ensures Next(st) != State(0, 0)
  {
    MixKeepsNonZero(st.s0, st.s1);
  }

  /** `f64(Result) / f64(ULLONG_MAX)`, over reals. */
  function Canonical(raw: nat): (r: real)
    requires raw <= ULongMax
    ensures 0.0 <= r <= 1.0
    ensures raw == 0 <==> r == 0.0
    ensures raw == ULongMax <==> r == 1.0
  {
    var r := raw as real / ULongMax as real;
    assert r * ULongMax as real == raw as real;
    r
  }

  /** The value drawn from `st` by one `RandomCanonical`. */
  function Draw(st: State): (r: real)
    ensures 0.0 <= r <= 1.0
  {
    Canonical(Raw(st))
  }

  /** `MinValue + (MaxValue - MinValue) * RandomValue`. */
  function Between(minValue: real, maxValue: real, value: real): (r: real)
    ensures 0.0 <= value <= 1.0 && minValue <= maxValue ==> minValue <= r <= maxValue
    ensures value == 0.0 ==> r == minValue
    ensures value == 1.0 ==> r == maxValue
  {
    var r := minValue + (maxValue - minValue) * value;
    BetweenWithin(minValue, maxValue, value, r);
    r
  }

  lemma BetweenWithin(minValue: real, maxValue: real, value: real, r: real)
    requires r == minValue + (maxValue - minValue) * value
    ensures 0.0 <= value <= 1.0 && minValue <= maxValue ==> minValue <= r <= maxValue
    ensures value == 0.0 ==> r == minValue
    ensures value == 1.0 ==> r == maxValue
  {
    if value == 0.0 || value == 1.0 {
    } else if 0.0 <= value <= 1.0 && minValue <= maxValue {
      var span := maxValue - minValue;
      ProductNonNegative(span, value);
      ProductNonNegative(span, 1.0 - value);
      Sandwich(r, minValue, maxValue, span * value, span * (1.0 - value));
    }
  }

  /** The vector `RandomV3` draws from `st`: X, Y and Z from three successive draws. */
  function DrawV3(st: State, minValue: real, maxValue: real): (v: V3)
    ensures minValue <= maxValue ==>
              minValue <= v.x <= maxValue && minValue <= v.y <= maxValue && minValue <= v.z <= maxValue
  {
    V3(Between(minValue, maxValue, Draw(st)),
       Between(minValue, maxValue, Draw(Next(st))),
       Between(minValue, maxValue, Draw(Next(Next(st)))))
  }

  /** The state the `random_series` struct holds, updated in place by each draw. */
  class RandomSeries {
    var shuffleTable: State

    constructor (first: bv64, second: bv64)
      ensures shuffleTable == Seeded(first, second)
    {
      shuffleTable := Seeded(first, second);
    }

    method RandomCanonical() returns (r: real)
      modifies this
      ensures shuffleTable == Next(old(shuffleTable))
      ensures r == Draw(old(shuffleTable))
      ensures 0.0 <= r <= 1.0
    {
      var result := Raw(shuffleTable);
      shuffleTable := Next(shuffleTable);
      r := Canonical(result);
    }

    method RandomBetween(minValue: real, maxValue: real) returns (r: real)
      modifies this
      ensures shuffleTable == Next(old(shuffleTable))
      ensures r == Between(minValue, maxValue, Draw(old(shuffleTable)))
      ensures minValue <= maxValue ==> minValue <= r <= maxValue
    {
      var value := RandomCanonical();
      r := Between(minValue, maxValue, value);
    }

    /** Three draws, used for X, Y and Z in that order. */
    method RandomV3(minValue: real, maxValue: real) returns (v: V3)
      modifies this
      ensures shuffleTable == Next(Next(Next(old(shuffleTable))))
      ensures v.x == Between(minValue, maxValue, Draw(old(shuffleTable)))
      ensures v.y == Between(minValue, maxValue, Draw(Next(old(shuffleTable))))
      ensures v.z == Between(minValue, maxValue, Draw(Next(Next(old(shuffleTable)))))
      ensures v == DrawV3(old(shuffleTable), minValue, maxValue)
    {
      var x := RandomBetween(minValue, maxValue);
      var y := RandomBetween(minValue, maxValue);
      var z := RandomBetween(minValue, maxValue);
      v := V3(x, y, z);
    }
  }
}
