/** `System.Random`, shared by the filter step and the car picker, and
    `HandlePickRandomCar` (Helpers/HandlePickRandomCar.cs). The generator is an
    oracle: `sample(k)` is what it yields on its k-th draw; nothing is said about
    the distribution. */
module Randomness {

  /** `int.MaxValue`: `Random.Next()` stays below it. */
  const Int32Max: nat := 0x7FFF_FFFF

  /** `Random.Next(bound)` for a draw `x`: a value below `bound`, and 0 when
      `bound` is 0. */
  function Below(x: nat, bound: nat): (v: nat)
    ensures bound > 0 ==> v < bound
    ensures bound == 0 ==> v == 0
  {
    if bound == 0 then 0 else x % bound
  }

  /** No index is out of reach: some draw yields each value below the bound. */
  lemma BelowReachesAll(bound: nat, k: nat)
    requires k < bound
    ensures exists x: nat :: Below(x, bound) == k
  {
    assert Below(k, bound) == k;
  }

  class Rng {
    const sample: nat -> nat
    var drawn: nat

    constructor (sample: nat -> nat)
      ensures this.sample == sample && drawn == 0
    {
      this.sample := sample;
      drawn := 0;
    }

    /** `Next()`: a non-negative value below `int.MaxValue`. */
    method Next() returns (v: nat)
      modifies this
      ensures v == sample(old(drawn)) % Int32Max && v < Int32Max
      ensures drawn == old(drawn) + 1
    {
      v := sample(drawn) % Int32Max;
      drawn := drawn + 1;
    }

    /** `Next(bound)`. */
    method NextBelow(bound: nat) returns (v: nat)
      modifies this
      ensures v == Below(sample(old(drawn)), bound)
      ensures drawn == old(drawn) + 1
    {
      v := Below(sample(drawn), bound);
      drawn := drawn + 1;
    }
  }
}

module PickRandomCar {
  import opened Dto
  import opened Randomness

  /** `CarList[_rnd.Next(CarList.Count)]` for the draw `x`. The list must not be
      empty: `Next(0)` is 0 and indexing an empty list throws. */
  function PickedCar(carList: seq<CarMinimized>, x: nat): (car: CarMinimized)
    requires |carList| > 0
    ensures car in carList
  {
    carList[Below(x, |carList|)]
  }

  /** Every car of the list is the pick of some draw. */
  lemma EveryCarCanBePicked(carList: seq<CarMinimized>, r: nat)
    requires r < |carList|
    ensures exists x: nat :: PickedCar(carList, x) == carList[r]
  {
    assert PickedCar(carList, r) == carList[r];
  }

  /** `HandlePickRandomCar`: its static `_rnd`, set by `SetRandom`. */
  class CarPicker {
    var rnd: Rng

    constructor (rnd: Rng)
      ensures this.rnd == rnd
    {
      this.rnd := rnd;
    }

    method SetRandom(rnd: Rng)
      modifies this
      ensures this.rnd == rnd
    {
      this.rnd := rnd;
    }

    /** `PickRandomCar`: one draw, and the car at the drawn index; the list is a
        value and stays as it was. */
    method PickRandomCar(carList: seq<CarMinimized>) returns (car: CarMinimized)
      requires |carList| > 0
      modifies rnd
      ensures car == PickedCar(carList, rnd.sample(old(rnd.drawn)))
      ensures rnd.drawn == old(rnd.drawn) + 1
    {
      var r := rnd.NextBelow(|carList|);
      car := carList[r];
    }
  }
}
