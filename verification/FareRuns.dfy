/** Sequences of edits to a trip whose amounts are whole cents. */
module FareRuns {
  import opened Base
  import opened Fare

  ghost predicate Money(x: real) {
    Whole(x) && x >= 0.0
  }

  ghost predicate WholeTrip(t: Trip) {
    Money(t.distance) && Money(t.fare) && Money(t.tip) && Money(t.total)
  }

  /** The edits that recalculate the total. */
  predicate RecalculatesTotal(t: Trip, field: Field) {
    || field == Distance || field == FareAmount || field == TipAmount || field == TotalAmount
    || (field == Pickup && t.dropoff.Some?)
    || (field == Dropoff && t.pickup.Some?)
  }

  predicate RecalculatesDistance(t: Trip, field: Field) {
    RecalculatesTotal(t, field) && field != TipAmount
  }

  // ---------------------------------------------------------------- one edit

  /** A whole-cent trip with the given surcharge. */
  ghost predicate SurchargeKept(t: Trip, fixed: real) {
    WholeTrip(t) && Surcharge(t) == fixed
  }

  /** What setting the total to `v` leaves of the surcharge: it goes last, after fare and tip. */
  function Remaining(v: real, fixed: real): real {
    var left := Round(AtLeast(v, 3.3)) - 2.5;
    if left < fixed then left else fixed
  }

  lemma TotalIsExact(fare: real, tip: real, fixed: real)
    requires Money(fare) && Money(tip) && Money(fixed)
    ensures Round(fare + tip + fixed) == fare + tip + fixed && Money(fare + tip + fixed)
  {
    WholeSum(fare, tip);
    WholeSum(fare + tip, fixed);
    RoundWhole(fare + tip + fixed);
  }

  lemma RoundAtLeast(v: real, least: real)
    requires Money(least)
    ensures Money(Round(AtLeast(v, least))) && Round(AtLeast(v, least)) >= least
  {
    RoundIsWhole(AtLeast(v, least));
    RoundMonotone(least, AtLeast(v, least));
    RoundWhole(least);
  }

  lemma DistanceEdit(t: Trip, rate: real, fixed: real, v: real)
    requires WholeTrip(t) && 1.0 <= rate <= 20.0 && Money(fixed) && fixed >= 0.8
    ensures SurchargeKept(EditDistance(t, rate, fixed, v), fixed)
    ensures EditDistance(t, rate, fixed, v).distance >= 0.1
  {
    Constants();
    var d := AtLeast(v, 0.1);
    RoundAtLeast(v, 0.1);
    ProductBetween(d, rate);
    var fare := AtLeast(Scaled(d, rate), 2.5);
    RoundIsWhole(d * rate);
    TipAgain(fare, t.tip);
    TotalIsExact(fare, TipFor(fare, t.tip), fixed);
  }

  lemma FareEdit(t: Trip, rate: real, fixed: real, v: real)
    requires WholeTrip(t) && 1.0 <= rate <= 20.0 && Money(fixed) && fixed >= 0.8
    ensures SurchargeKept(EditFare(t, rate, fixed, v), fixed)
    ensures EditFare(t, rate, fixed, v).distance >= 0.1
  {
    Constants();
    RoundAtLeast(v, 2.5);
    RoundIsWhole(AtLeast(v, 2.5) / rate);
    TotalIsExact(Round(AtLeast(v, 2.5)), t.tip, fixed);
  }

  lemma TipEdit(t: Trip, fixed: real, v: real)
    requires WholeTrip(t) && Money(fixed) && fixed >= 0.8
    ensures SurchargeKept(EditTip(t, fixed, v), fixed)
  {
    Constants();
    RoundAtLeast(v, 0.0);
    TotalIsExact(t.fare, Round(AtLeast(v, 0.0)), fixed);
  }

  /** Setting the total back-calculates the fare, then the tip, and last eats into the surcharge. */
  lemma TotalEdit(t: Trip, rate: real, fixed: real, v: real)
    requires WholeTrip(t) && 1.0 <= rate <= 20.0 && Money(fixed) && fixed >= 0.8
    ensures SurchargeKept(EditTotal(t, rate, fixed, v), Remaining(v, fixed))
    ensures 0.8 <= Remaining(v, fixed) <= fixed
    ensures EditTotal(t, rate, fixed, v).distance >= 0.1 && EditTotal(t, rate, fixed, v).fare >= 2.5
  {
    Constants();
    RoundAtLeast(v, 3.3);
    var total := Round(AtLeast(v, 3.3));
    var available := total - (t.tip + fixed);
    WholeSum(t.tip, fixed);
    WholeSum(total, t.tip + fixed);
    WholeSum(total, 2.5);
    WholeSum(total - 2.5, fixed);
    var fare := AtLeast(available, 2.5);
    RoundWhole(fare);
    DistanceFromFare(fare, rate);
  }

  lemma RouteEdit(t: Trip, rate: real, fixed: real)
    requires WholeTrip(t) && 1.0 <= rate <= 20.0 && Money(fixed) && fixed >= 0.8
    requires t.pickup.Some? && t.dropoff.Some?
    ensures SurchargeKept(EditRoute(t, rate, fixed), fixed)
    ensures EditRoute(t, rate, fixed).distance >= 1.2
  {
    var d := EstimatedDistance(t.pickup.value, t.dropoff.value);
    EstimateAtLeast(t.pickup.value, t.dropoff.value);
    FareFromDistance(d, rate);
    TotalIsExact(Scaled(d, rate), t.tip, fixed);
  }

  lemma EstimateAtLeast(pickup: real, dropoff: real)
    ensures Money(EstimatedDistance(pickup, dropoff)) && EstimatedDistance(pickup, dropoff) >= 1.2
  {
  }

  lemma FixedIsMoney(t: Trip)
    requires WholeTrip(t)
    ensures Money(AtLeast(Surcharge(t), 0.8)) && AtLeast(Surcharge(t), 0.8) >= 0.8
  {
    Constants();
    WholeSum(t.fare, t.tip);
    WholeSum(t.total, t.fare + t.tip);
  }

  /** The surcharge after an edit. */
  function SurchargeAfter(t: Trip, field: Field, v: real): real {
    if !RecalculatesTotal(t, field) then Surcharge(t)
    else if field == TotalAmount then Remaining(v, AtLeast(Surcharge(t), 0.8))
    else AtLeast(Surcharge(t), 0.8)
  }

  /** Any edit of a whole-cent trip gives a whole-cent trip. An edit that recalculates the total keeps the
      surcharge, raised to 0.80, except that a low total cuts into it; other edits leave it alone. */
  lemma SurchargeStep(t: Trip, field: Field, v: real)
    requires WholeTrip(t)
    ensures WholeTrip(Cascade(t, field, v))
    ensures Surcharge(Cascade(t, field, v)) == SurchargeAfter(t, field, v)
    ensures RecalculatesTotal(t, field) ==> 0.8 <= SurchargeAfter(t, field, v) <= AtLeast(Surcharge(t), 0.8)
    ensures RecalculatesDistance(t, field) ==> Cascade(t, field, v).distance >= 0.1
  {
    var rate := Rate(t.distance, t.fare);
    var fixed := AtLeast(Surcharge(t), 0.8);
    FixedIsMoney(t);
    match field
    case Distance => DistanceEdit(t, rate, fixed, v);
    case FareAmount => FareEdit(t, rate, fixed, v);
    case TipAmount => TipEdit(t, fixed, v);
    case TotalAmount => TotalEdit(t, rate, fixed, v);
    case Passengers =>
    case Pickup =>
      if t.dropoff.Some? {
        RouteEdit(t.(pickup := Some(v)), rate, fixed);
      }
    case Dropoff =>
      if t.pickup.Some? {
        RouteEdit(t.(dropoff := Some(v)), rate, fixed);
      }
    case Unknown =>
  }

  // ---------------------------------------------------------------- sequences of edits

  datatype Edit = Edit(field: Field, value: real)

  function Apply(t: Trip, edits: seq<Edit>): Trip {
    if edits == [] then
      t
    else
      var last := edits[|edits| - 1];
      Cascade(Apply(t, edits[..|edits| - 1]), last.field, last.value)
  }

  /** Once the surcharge is at least 0.80, it stays so and never rises, whatever is edited. */
  lemma {:induction false} SurchargeNeverRises(t: Trip, edits: seq<Edit>)
    requires WholeTrip(t) && Surcharge(t) >= 0.8
    ensures WholeTrip(Apply(t, edits))
    ensures 0.8 <= Surcharge(Apply(t, edits)) <= Surcharge(t)
  {
    if edits == [] {
    } else {
      var before, last := edits[..|edits| - 1], edits[|edits| - 1];
      SurchargeNeverRises(t, before);
      SurchargeStep(Apply(t, before), last.field, last.value);
    }
  }

  lemma {:induction false} TripStaysWhole(t: Trip, edits: seq<Edit>)
    requires WholeTrip(t)
    ensures WholeTrip(Apply(t, edits))
  {
    if edits == [] {
    } else {
      TripStaysWhole(t, edits[..|edits| - 1]);
      SurchargeStep(Apply(t, edits[..|edits| - 1]), edits[|edits| - 1].field, edits[|edits| - 1].value);
    }
  }

  ghost predicate Covered(t: Trip) {
    Surcharge(t) >= 0.8
  }

  lemma CoveredStep(t: Trip, edits: seq<Edit>)
    requires edits != []
    requires var before, e := Apply(t, edits[..|edits| - 1]), edits[|edits| - 1];
             WholeTrip(before) && (Covered(before) || RecalculatesTotal(before, e.field))
    ensures Covered(Apply(t, edits))
  {
    SurchargeStep(Apply(t, edits[..|edits| - 1]), edits[|edits| - 1].field, edits[|edits| - 1].value);
  }

  /** From the first edit that recalculates the total on, the surcharge is at least 0.80. */
  lemma {:induction false} SurchargeEstablished(t: Trip, edits: seq<Edit>, i: nat)
    requires WholeTrip(t) && i < |edits| && RecalculatesTotal(Apply(t, edits[..i]), edits[i].field)
    ensures Covered(Apply(t, edits))
  {
    var before := edits[..|edits| - 1];
    if i < |edits| - 1 {
      assert before[..i] == edits[..i];
      SurchargeEstablished(t, before, i);
    }
    TripStaysWhole(t, before);
    CoveredStep(t, edits);
  }

  // ---------------------------------------------------------------- the same edit twice

  lemma TipTwice(t: Trip, v: real)
    requires WholeTrip(t)
    ensures var once := Cascade(t, TipAmount, v); Cascade(once, TipAmount, v) == once
  {
    Constants();
    FixedIsMoney(t);
    RoundAtLeast(v, 0.0);
    TotalIsExact(t.fare, Round(AtLeast(v, 0.0)), AtLeast(Surcharge(t), 0.8));
  }

  lemma TotalTwice(t: Trip, v: real)
    requires WholeTrip(t)
    ensures var once := Cascade(t, TotalAmount, v); Cascade(once, TotalAmount, v) == once
  {
    Constants();
    var rate, fixed := Rate(t.distance, t.fare), AtLeast(Surcharge(t), 0.8);
    FixedIsMoney(t);
    RoundAtLeast(v, 3.3);
    var total := Round(AtLeast(v, 3.3));
    WholeSum(t.tip, fixed);
    WholeSum(total, t.tip + fixed);
    var fare := AtLeast(total - (t.tip + fixed), 2.5);
    RoundWhole(fare);
    DistanceFromFare(fare, rate);
    DistanceAgain(fare, rate);
    var once := Cascade(t, TotalAmount, v);
    assert once.fare == fare && once.total == total && once.total - (once.tip + Surcharge(once)) == fare;
    assert Surcharge(once) >= 0.8 by {
      TotalEdit(t, rate, fixed, v);
    }
  }

  lemma FloorCompare(y: real, n: int)
    ensures y.Floor <= n <==> y < n as real + 1.0
    ensures y.Floor >= n <==> y >= n as real
  {
  }

  /** A value rounds to at most, or at least, a whole exactly when it is less than half a cent away. */
  lemma RoundCompare(w: real, x: real)
    requires Money(w) && 0.0 <= x
    ensures Round(x) <= w <==> x < w + 0.005
    ensures Round(x) >= w <==> x >= w - 0.005
  {
    FloorCompare(x * 100.0 + 0.5, (w * 100.0).Floor);
  }

  lemma RoundError(x: real)
    requires x >= 0.0
    ensures -0.005 <= x - Round(x) < 0.005 && Money(Round(x))
  {
    RoundIsWhole(x);
    RoundCompare(Round(x), x);
  }

  // ---------------------------------------------------------------- the fare twice

  /** The distance read back from a fare that was off by `e` before rounding is off by less than `e`. */
  lemma ReadBack(g: real, e: real, d: real)
    requires 0.0 < d <= g && -0.005 <= e < 0.005 && Money(d) && d >= 0.1
    ensures Divided(g + e, g / d) == d
  {
    var k := d / g;
    Quotient(d, g, 1.0);
    SameQuotient(g, e, d, k);
    Shrinks(e, k);
    var x := (g + e) / (g / d);
    RoundNearby(d, x - d);
  }

  lemma RoundNearby(w: real, e: real)
    requires Money(w) && w >= 0.1 && -0.005 <= e < 0.005
    ensures Round(w + e) == w
  {
    RoundCompare(w, w + e);
  }

  lemma SameQuotient(g: real, e: real, d: real, k: real)
    requires g > 0.0 && d > 0.0 && g * k == d
    ensures (g + e) / (g / d) == d + e * k
  {
    var q := g / d;
    assert q * d == g;
    assert k * q == 1.0 by {
      assert g * (k * q) == (g * k) * q == d * q == g;
    }
    assert (d + e * k) * q == d * q + e * (k * q) == g + e;
  }

  lemma Shrinks(e: real, k: real)
    requires -0.005 <= e < 0.005 && 0.0 <= k <= 1.0
    ensures -0.005 <= e * k < 0.005
  {
    if k == 1.0 {
      assert e * k == e;
    } else {
      Product(k, -0.005, e);
      Product(k, e, 0.005);
    }
  }

  /** A fare, and a distance `q` that follows from it at some rate up to 20. */
  lemma ReadBackRounded(f: real, fifth: real, q: real)
    requires f >= 2.5 && 0.125 <= fifth <= q <= f && fifth == f / 20.0
    ensures Round(q) >= 0.1 && Divided(f, Rate(Round(q), Round(f))) == Round(q)
  {
    var g, d := Round(f), Round(q);
    Constants();
    RoundError(f);
    RoundError(q);
    RoundCompare(2.5, f);
    RoundCompare(0.1, q);
    RoundMonotone(q, f);
    RateOf(d, g);
    if g <= 20.0 * d {
      ReadBack(g, f - g, d);
    } else {
      RoundMonotone(fifth, q);
      RoundCompare(d, fifth);
    }
  }

  lemma FareReadBack(f: real, rate: real)
    requires f >= 2.5 && 1.0 <= rate <= 20.0
    ensures var d := Divided(f, rate); d >= 0.1 && Divided(f, Rate(d, Round(f))) == d
  {
    var fifth, q := f / 20.0, f / rate;
    assert 0.125 <= fifth <= q <= f by { QuotientBounds(f, rate); }
    ReadBackRounded(f, fifth, q);
  }

  lemma QuotientBounds(f: real, rate: real)
    requires f >= 2.5 && 1.0 <= rate <= 20.0
    ensures 0.125 <= f / 20.0 <= f / rate <= f
  {
    Quotient(f, rate, f);
    Product(f, 1.0, rate);
    Product(f / 20.0, rate, 20.0);
    Quotient(f, rate, f / 20.0);
  }

  lemma FareTwice(t: Trip, v: real)
    requires WholeTrip(t)
    ensures var once := Cascade(t, FareAmount, v); Cascade(once, FareAmount, v) == once
  {
    Constants();
    var rate, fixed, f := Rate(t.distance, t.fare), AtLeast(Surcharge(t), 0.8), AtLeast(v, 2.5);
    FixedIsMoney(t);
    RoundAtLeast(v, 2.5);
    FareReadBack(f, rate);
    TotalIsExact(Round(f), t.tip, fixed);
  }

  // ---------------------------------------------------------------- the distance twice

  /** The fare that follows from a distance. */
  function FareFor(d: real, rate: real): real {
    FareOf(d * rate)
  }

  function FareOf(x: real): real {
    AtLeast(Round(x), 2.5)
  }

  /** The distance `d`, stored as `miles`, leads to `fare` again at the rate read back from these two:
      the fraction that `miles` lost is worth less than half a cent. At the highest rate the fare
      follows from `d` alone, and a fare at the minimum cannot fall. */
  predicate Settles(d: real, miles: real, fare: real) {
    if fare <= 20.0 * miles then
      fare * (d - miles) < 0.005 * miles && (fare > 2.5 ==> fare * (miles - d) <= 0.005 * miles)
    else
      d * 20.0 < fare + 0.005
  }

  predicate DistanceSettles(t: Trip, v: real) {
    var d := AtLeast(v, 0.1);
    Settles(d, Round(d), FareFor(d, Rate(t.distance, t.fare)))
  }

  /** A distance, its rounding and its fare at some rate up to 20. */
  ghost predicate Derived(d: real, miles: real, fare: real) {
    && d >= 0.1 && miles > 0.0 && Money(miles) && miles <= fare && Money(fare) && fare >= 2.5
    && (fare > 2.5 ==> d * 20.0 >= fare - 0.005)
  }

  lemma RoundedFare(d: real, x: real)
    requires 0.1 <= d <= x <= d * 20.0
    ensures Derived(d, Round(d), FareOf(x))
  {
    Constants();
    RoundError(d);
    RoundCompare(0.1, d);
    RoundMonotone(d, x);
    RoundError(x);
  }

  lemma FirstFare(d: real, rate: real)
    requires d >= 0.1 && 1.0 <= rate <= 20.0
    ensures Derived(d, Round(d), FareFor(d, rate))
  {
    var x := d * rate;
    assert d <= x <= d * 20.0 by { ProductBetween(d, rate); }
    RoundedFare(d, x);
  }

  lemma RateOf(miles: real, fare: real)
    requires 0.0 < miles <= fare
    ensures fare <= 20.0 * miles ==> Rate(miles, fare) == fare / miles && miles * Rate(miles, fare) == fare
    ensures fare > 20.0 * miles ==> Rate(miles, fare) == 20.0
  {
    Quotient(fare, miles, 1.0);
    Quotient(fare, miles, 20.0);
  }

  lemma FareIs(x: real, fare: real)
    requires x >= 0.0 && Money(fare) && fare >= 2.5
    ensures FareOf(x) == fare <==> x < fare + 0.005 && (fare > 2.5 ==> x >= fare - 0.005)
  {
    RoundCompare(fare, x);
  }

  lemma Scale(x: real, y: real, m: real)
    requires m > 0.0
    ensures x < y <==> x * m < y * m
  {
    if x < y {
      assert (y - x) * m > 0.0;
    } else {
      Product(m, y, x);
    }
  }

  /** `x` is the fare before rounding when the rate is the quotient `fare / miles`. */
  lemma DriftOf(d: real, miles: real, fare: real, x: real)
    requires miles > 0.0 && x * miles == d * fare
    ensures x < fare + 0.005 <==> fare * (d - miles) < 0.005 * miles
    ensures x >= fare - 0.005 <==> fare * (miles - d) <= 0.005 * miles
  {
    var above, below := x - fare, fare - x;
    assert above * miles == fare * (d - miles) && below * miles == fare * (miles - d) by {
      assert above * miles == x * miles - fare * miles && below * miles == fare * miles - x * miles;
    }
    Scale(above, 0.005, miles);
    Scale(0.005, below, miles);
  }

  lemma SettlesBelow(d: real, miles: real, fare: real, x: real)
    requires Derived(d, miles, fare) && fare <= 20.0 * miles && x * miles == d * fare && x >= 0.0
    ensures FareOf(x) == fare <==> Settles(d, miles, fare)
  {
    FareIs(x, fare);
    DriftOf(d, miles, fare, x);
  }

  lemma SettlesAbove(d: real, miles: real, fare: real)
    requires Derived(d, miles, fare) && fare > 20.0 * miles
    ensures FareOf(d * 20.0) == fare <==> Settles(d, miles, fare)
  {
    FareIs(d * 20.0, fare);
  }

  lemma Regroup(d: real, miles: real, fare: real, q: real)
    requires miles * q == fare && miles > 0.0 && d >= 0.0 && q >= 0.0
    ensures (d * q) * miles == d * fare && d * q >= 0.0
  {
    assert (d * q) * miles == d * (miles * q);
  }

  lemma AtQuotient(d: real, miles: real, fare: real, q: real)
    requires Derived(d, miles, fare) && fare <= 20.0 * miles && miles * q == fare && q >= 0.0
    ensures FareFor(d, q) == fare <==> Settles(d, miles, fare)
  {
    Regroup(d, miles, fare, q);
    SettlesBelow(d, miles, fare, d * q);
  }

  lemma SecondFare(d: real, miles: real, fare: real)
    requires Derived(d, miles, fare)
    ensures FareFor(d, Rate(miles, fare)) == fare <==> Settles(d, miles, fare)
  {
    RateOf(miles, fare);
    if fare <= 20.0 * miles {
      AtQuotient(d, miles, fare, Rate(miles, fare));
    } else {
      SettlesAbove(d, miles, fare);
    }
  }

  /** What a second edit of the distance gives, from the fare it leads to. */
  lemma EditedAgain(t: Trip, rate: real, fixed: real, v: real, rate': real)
    requires WholeTrip(t) && Money(fixed) && fixed >= 0.8
    requires Money(FareFor(AtLeast(v, 0.1), rate)) && FareFor(AtLeast(v, 0.1), rate) >= 2.5
    ensures var once := EditDistance(t, rate, fixed, v);
            && Surcharge(once) == fixed
            && (EditDistance(once, rate', fixed, v) == once <==>
                FareFor(AtLeast(v, 0.1), rate') == FareFor(AtLeast(v, 0.1), rate))
  {
    var fare := FareFor(AtLeast(v, 0.1), rate);
    TipAgain(fare, t.tip);
    TotalIsExact(fare, TipFor(fare, t.tip), fixed);
  }

  /** Entering a distance twice changes nothing exactly when its fare settles. */
  lemma DistanceTwice(t: Trip, v: real)
    requires WholeTrip(t)
    ensures var once := Cascade(t, Distance, v); Cascade(once, Distance, v) == once <==> DistanceSettles(t, v)
  {
    var rate, fixed, d := Rate(t.distance, t.fare), AtLeast(Surcharge(t), 0.8), AtLeast(v, 0.1);
    FixedIsMoney(t);
    FirstFare(d, rate);
    SecondFare(d, Round(d), FareFor(d, rate));
    EditedAgain(t, rate, fixed, v, Rate(Round(d), FareFor(d, rate)));
  }

  lemma WholeDistanceSettles(t: Trip, v: real)
    requires Whole(v)
    ensures DistanceSettles(t, v)
  {
    Constants();
    var d, rate := AtLeast(v, 0.1), Rate(t.distance, t.fare);
    RoundWhole(d);
    FareFromDistance(d, rate);
  }

  // ---------------------------------------------------------------- every field twice

  lemma RouteTwice(t: Trip, rate: real, fixed: real)
    requires WholeTrip(t) && 1.0 <= rate <= 20.0 && Money(fixed) && fixed >= 0.8
    requires t.pickup.Some? && t.dropoff.Some?
    ensures var once := EditRoute(t, rate, fixed);
            EditRoute(once, Rate(once.distance, once.fare), AtLeast(Surcharge(once), 0.8)) == once
  {
    var d := EstimatedDistance(t.pickup.value, t.dropoff.value);
    EstimateAtLeast(t.pickup.value, t.dropoff.value);
    FareFromDistance(d, rate);
    FareAgain(d, Scaled(d, rate));
    TotalIsExact(Scaled(d, rate), t.tip, fixed);
  }

  /** Entering the same value again changes nothing, for every value and every field, except a distance
      whose fare does not settle. */
  lemma EditTwice(t: Trip, field: Field, v: real)
    requires WholeTrip(t)
    ensures var once := Cascade(t, field, v);
            Cascade(once, field, v) == once <==> (field == Distance ==> DistanceSettles(t, v))
  {
    FixedIsMoney(t);
    var rate, fixed := Rate(t.distance, t.fare), AtLeast(Surcharge(t), 0.8);
    match field
    case Distance => DistanceTwice(t, v);
    case FareAmount => FareTwice(t, v);
    case TipAmount => TipTwice(t, v);
    case TotalAmount => TotalTwice(t, v);
    case Passengers =>
    case Pickup =>
      if t.dropoff.Some? {
        RouteTwice(t.(pickup := Some(v)), rate, fixed);
      }
    case Dropoff =>
      if t.pickup.Some? {
        RouteTwice(t.(dropoff := Some(v)), rate, fixed);
      }
    case Unknown =>
  }

  /** In particular, every edit with a value in whole cents. */
  lemma WholeEditTwice(t: Trip, field: Field, v: real)
    requires WholeTrip(t) && Whole(v)
    ensures var once := Cascade(t, field, v); Cascade(once, field, v) == once
  {
    WholeDistanceSettles(t, v);
    EditTwice(t, field, v);
  }

  /** A distance that does not settle: 10.004 miles entered twice charges one cent more. */
  lemma FractionsDrift()
    ensures var t := Trip(1.0, 3.5, 0.0, 4.3, None, None, None);
            var once := Cascade(t, Distance, 10.004);
            && !DistanceSettles(t, 10.004)
            && once.fare == 35.01 && Cascade(once, Distance, 10.004).fare == 35.02
  {
    FloorOf(1000, 0.9);
    assert Round(10.004) == 10.0;
    FloorOf(3501, 0.9);
    assert Scaled(10.004, 3.5) == 35.01;
    assert 35.01 / 10.0 == 3.501;
    FloorOf(3502, 0.9004);
    assert Scaled(10.004, 3.501) == 35.02;
  }
}
