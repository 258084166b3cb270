/** The fare cascade: editing one field of a taxi trip recalculates the others.

Amounts are exact reals; the program uses 64-bit floats, whose rounding is idealised away here.
*/
module Fare {
  import opened Base

  datatype Trip = Trip(
    distance: real, fare: real, tip: real, total: real,
    passengers: Option<real>, pickup: Option<real>, dropoff: Option<real>)

  datatype Field = Distance | FareAmount | TipAmount | TotalAmount | Passengers | Pickup | Dropoff | Unknown

  function FieldOf(name: string): Field {
    if name == "trip_distance" then Distance
    else if name == "fare_amount" then FareAmount
    else if name == "tip_amount" then TipAmount
    else if name == "total_amount" then TotalAmount
    else if name == "passenger_count" then Passengers
    else if name == "pu_location_id" || name == "pulocationid" then Pickup
    else if name == "do_location_id" || name == "dolocationid" then Dropoff
    else Unknown
  }

  // ---------------------------------------------------------------- rounding

  /** Conversion to an integer drops the fraction. */
  function Trunc(x: real): int {
    if x >= 0.0 then x.Floor else -((-x).Floor)
  }

  /** Rounds to whole cents, or to hundredths of a mile. */
  function Round(x: real): real {
    Trunc(x * 100.0 + 0.5) as real / 100.0
  }

  function AtLeast(x: real, least: real): real {
    if x < least then least else x
  }

  predicate Whole(x: real) {
    (x * 100.0).Floor as real == x * 100.0
  }

  // ---------------------------------------------------------------- the cascade

  function Clamp(x: real, lo: real, hi: real): real {
    if x < lo then lo else if x > hi then hi else x
  }

  /** Dollars per mile. */
  function Rate(distance: real, fare: real): (r: real)
    ensures 1.0 <= r <= 20.0
  {
    if distance > 0.0 && fare > 0.0 then Clamp(fare / distance, 1.0, 20.0) else 3.5
  }

  function Surcharge(t: Trip): real {
    t.total - (t.fare + t.tip)
  }

  /** A product, rounded: a fare from a distance and a rate, a tip from a fare and a ratio. */
  function Scaled(x: real, factor: real): real {
    Round(x * factor)
  }

  /** A quotient, rounded: a distance from a fare and a rate. */
  function Divided(x: real, divisor: real): real
    requires divisor > 0.0
  {
    Round(x / divisor)
  }

  function TipRatio(fare: real, tip: real): real {
    if fare > 0.0 && tip > 0.0 && !(tip / fare <= 0.0 || tip / fare > 0.5) then tip / fare else 0.18
  }

  function TipFor(fare: real, tip: real): real {
    Scaled(fare, TipRatio(fare, tip))
  }

  function Abs(x: real): real {
    if x < 0.0 then -x else x
  }

  function EditDistance(t: Trip, rate: real, fixed: real, v: real): Trip {
    WithFare(t, AtLeast(v, 0.1), AtLeast(Scaled(AtLeast(v, 0.1), rate), 2.5), fixed)
  }

  /** The new distance and fare, with the tip and the total that follow from them. */
  function WithFare(t: Trip, d: real, fare: real, fixed: real): Trip {
    var tip := TipFor(fare, t.tip);
    t.(distance := Round(d), fare := fare, tip := tip, total := Round(fare + tip + fixed))
  }

  function EditFare(t: Trip, rate: real, fixed: real, v: real): Trip
    requires rate > 0.0
  {
    var f := AtLeast(v, 2.5);
    t.(fare := Round(f), distance := AtLeast(Divided(f, rate), 0.1), total := Round(Round(f) + t.tip + fixed))
  }

  function EditTip(t: Trip, fixed: real, v: real): Trip {
    var tip := Round(AtLeast(v, 0.0));
    t.(tip := tip, total := Round(t.fare + tip + fixed))
  }

  function EditTotal(t: Trip, rate: real, fixed: real, v: real): Trip
    requires rate > 0.0
  {
    var total := Round(AtLeast(v, 3.3));
    var available := total - (t.tip + fixed);
    var tip := if available < 2.5 then AtLeast(total - 2.5 - fixed, 0.0) else t.tip;
    var fare := Round(AtLeast(available, 2.5));
    t.(total := total, tip := tip, fare := fare, distance := Divided(fare, rate))
  }

  function DistanceBetween(diff: real): real {
    Round(diff * 0.06 + 1.2)
  }

  function EstimatedDistance(pickup: real, dropoff: real): real {
    DistanceBetween(Abs(pickup - dropoff))
  }

  function EditRoute(t: Trip, rate: real, fixed: real): Trip {
    if t.pickup.None? || t.dropoff.None? then
      t
    else
      var d := EstimatedDistance(t.pickup.value, t.dropoff.value);
      WithRoute(t, d, Scaled(d, rate), fixed)
  }

  function WithRoute(t: Trip, d: real, fare: real, fixed: real): Trip {
    t.(distance := d, fare := fare, total := Round(fare + t.tip + fixed))
  }

  function Cascade(t: Trip, field: Field, v: real): Trip {
    var rate := Rate(t.distance, t.fare);
    var fixed := AtLeast(Surcharge(t), 0.8);
    match field
    case Distance => EditDistance(t, rate, fixed, v)
    case FareAmount => EditFare(t, rate, fixed, v)
    case TipAmount => EditTip(t, fixed, v)
    case TotalAmount => EditTotal(t, rate, fixed, v)
    case Passengers => t.(passengers := Some(Clamp(v, 1.0, 6.0)))
    case Pickup => EditRoute(t.(pickup := Some(v)), rate, fixed)
    case Dropoff => EditRoute(t.(dropoff := Some(v)), rate, fixed)
    case Unknown => t
  }

  // ---------------------------------------------------------------- the trip as the program keeps it

  class TaxiTrip {
    var tripDistance: real
    var fareAmount: real
    var tipAmount: real
    var totalAmount: real
    var passengerCount: Option<real>
    var puLocationId: Option<real>
    var doLocationId: Option<real>

    ghost function View(): Trip
      reads this
    {
      Trip(tripDistance, fareAmount, tipAmount, totalAmount, passengerCount, puLocationId, doLocationId)
    }
  }

  method CalculateTripCascade(t: TaxiTrip?, name: string, val: real)
    modifies t
    ensures t != null ==> t.View() == Cascade(old(t.View()), FieldOf(name), val)
  {
    if t == null {
      return;
    }
    var ratePerMile := 3.5;
    if t.tripDistance > 0.0 && t.fareAmount > 0.0 {
      ratePerMile := t.fareAmount / t.tripDistance;
      if ratePerMile < 1.0 {
        ratePerMile := 1.0;
      } else if ratePerMile > 20.0 {
        ratePerMile := 20.0;
      }
    }
    var fixedSurcharges := t.totalAmount - (t.fareAmount + t.tipAmount);
    if fixedSurcharges < 0.8 {
      fixedSurcharges := 0.8;
    }
    match FieldOf(name)
    case Distance => ChangeDistance(t, ratePerMile, fixedSurcharges, val);
    case FareAmount => ChangeFare(t, ratePerMile, fixedSurcharges, val);
    case TipAmount => ChangeTip(t, fixedSurcharges, val);
    case TotalAmount => ChangeTotal(t, ratePerMile, fixedSurcharges, val);
    case Passengers =>
      var newPass := val;
      if newPass < 1.0 {
        newPass := 1.0;
      } else if newPass > 6.0 {
        newPass := 6.0;
      }
      t.passengerCount := Some(newPass);
    case Pickup =>
      t.puLocationId := Some(val);
      ChangeRoute(t, ratePerMile, fixedSurcharges);
    case Dropoff =>
      t.doLocationId := Some(val);
      ChangeRoute(t, ratePerMile, fixedSurcharges);
    case Unknown =>
  }

  method ChangeDistance(t: TaxiTrip, rate: real, fixed: real, val: real)
    modifies t
    ensures t.View() == EditDistance(old(t.View()), rate, fixed, val)
  {
    var newDist := val;
    if newDist < 0.1 {
      newDist := 0.1;
    }
    var newFare := Scaled(newDist, rate);
    if newFare < 2.5 {
      newFare := 2.5;
    }
    assert newDist == AtLeast(val, 0.1) && newFare == AtLeast(Scaled(newDist, rate), 2.5);
    ChangeFareAndTip(t, newDist, newFare, fixed);
  }

  method ChangeFareAndTip(t: TaxiTrip, newDist: real, newFare: real, fixed: real)
    modifies t
    ensures t.View() == WithFare(old(t.View()), newDist, newFare, fixed)
  {
    t.tripDistance := Round(newDist);
    t.fareAmount := newFare;
    var tipRatio := 0.18;
    if t.fareAmount > 0.0 && t.tipAmount > 0.0 {
      tipRatio := t.tipAmount / t.fareAmount;
      if tipRatio <= 0.0 || tipRatio > 0.5 {
        tipRatio := 0.18;
      }
    }
    t.tipAmount := Scaled(t.fareAmount, tipRatio);
    t.totalAmount := Round(t.fareAmount + t.tipAmount + fixed);
  }

  method ChangeFare(t: TaxiTrip, rate: real, fixed: real, val: real)
    requires rate > 0.0
    modifies t
    ensures t.View() == EditFare(old(t.View()), rate, fixed, val)
  {
    var newFare := val;
    if newFare < 2.5 {
      newFare := 2.5;
    }
    t.fareAmount := Round(newFare);
    t.tripDistance := Divided(newFare, rate);
    if t.tripDistance < 0.1 {
      t.tripDistance := 0.1;
    }
    t.totalAmount := Round(t.fareAmount + t.tipAmount + fixed);
  }

  method ChangeTip(t: TaxiTrip, fixed: real, val: real)
    modifies t
    ensures t.View() == EditTip(old(t.View()), fixed, val)
  {
    var newTip := val;
    if newTip < 0.0 {
      newTip := 0.0;
    }
    t.tipAmount := Round(newTip);
    t.totalAmount := Round(t.fareAmount + t.tipAmount + fixed);
  }

  method ChangeTotal(t: TaxiTrip, rate: real, fixed: real, val: real)
    requires rate > 0.0
    modifies t
    ensures t.View() == EditTotal(old(t.View()), rate, fixed, val)
  {
    var newTotal := val;
    if newTotal < 3.3 {
      newTotal := 3.3;
    }
    t.totalAmount := Round(newTotal);
    var availableFare := t.totalAmount - (t.tipAmount + fixed);
    if availableFare < 2.5 {
      availableFare := 2.5;
      t.tipAmount := t.totalAmount - availableFare - fixed;
      if t.tipAmount < 0.0 {
        t.tipAmount := 0.0;
      }
    }
    t.fareAmount := Round(availableFare);
    t.tripDistance := Divided(t.fareAmount, rate);
  }

  method ChangeRoute(t: TaxiTrip, rate: real, fixed: real)
    modifies t
    ensures t.View() == EditRoute(old(t.View()), rate, fixed)
  {
    if t.puLocationId.Some? && t.doLocationId.Some? {
      var diff := t.puLocationId.value - t.doLocationId.value;
      if diff < 0.0 {
        diff := -diff;
      }
      var estimatedDist := DistanceBetween(diff);
      var newFare := Scaled(estimatedDist, rate);
      assert estimatedDist == EstimatedDistance(t.puLocationId.value, t.doLocationId.value);
      SetRoute(t, estimatedDist, newFare, fixed);
    }
  }

  method SetRoute(t: TaxiTrip, estimatedDist: real, newFare: real, fixed: real)
    modifies t
    ensures t.View() == WithRoute(old(t.View()), estimatedDist, newFare, fixed)
  {
    t.tripDistance := estimatedDist;
    t.fareAmount := newFare;
    t.totalAmount := Round(t.fareAmount + t.tipAmount + fixed);
  }

  // ---------------------------------------------------------------- arithmetic of rounding

  lemma FloorOf(n: int, f: real)
    requires 0.0 <= f < 1.0
    ensures (n as real + f).Floor == n
  {
  }

  lemma WholeNumber(x: real, n: int)
    requires x * 100.0 == n as real
    ensures Whole(x)
  {
  }

  lemma RoundWhole(x: real)
    requires Whole(x) && x >= 0.0
    ensures Round(x) == x
  {
    var n := (x * 100.0).Floor;
    FloorOf(n, 0.5);
    assert x * 100.0 + 0.5 == n as real + 0.5;
  }

  lemma RoundIsWhole(x: real)
    ensures Whole(Round(x))
  {
  }

  lemma RoundMonotone(x: real, y: real)
    requires 0.0 <= x <= y
    ensures Round(x) <= Round(y)
  {
    FloorMonotone(x * 100.0 + 0.5, y * 100.0 + 0.5);
  }

  lemma FloorMonotone(x: real, y: real)
    requires x <= y
    ensures x.Floor <= y.Floor
  {
  }

  lemma WholeSum(x: real, y: real)
    requires Whole(x) && Whole(y)
    ensures Whole(x + y) && Whole(x - y)
  {
    var a, b := (x * 100.0).Floor, (y * 100.0).Floor;
    WholeNumber(x + y, a + b);
    WholeNumber(x - y, a - b);
  }

  lemma WholeTimesTwenty(x: real)
    requires Whole(x)
    ensures Whole(x * 20.0)
  {
    WholeNumber(x * 20.0, (x * 100.0).Floor * 20);
  }

  lemma Constants()
    ensures Whole(0.0) && Whole(0.1) && Whole(0.8) && Whole(2.5) && Whole(3.3)
  {
  }

  lemma Product(d: real, a: real, b: real)
    requires d >= 0.0 && a <= b
    ensures d * a <= d * b
  {
  }

  lemma ProductBetween(d: real, rate: real)
    requires d >= 0.0 && 1.0 <= rate <= 20.0
    ensures d <= d * rate <= d * 20.0
  {
  }

  lemma Quotient(a: real, b: real, c: real)
    requires b > 0.0
    ensures b * (a / b) == a
    ensures a / b <= c <==> a <= c * b
    ensures a / b < c <==> a < c * b
  {
  }

  // ---------------------------------------------------------------- fare from distance and back

  /** At a rate between 1 and 20 the rounded fare stays between the distance and 20 times it. */
  lemma FareFromDistance(d: real, rate: real)
    requires Whole(d) && d > 0.0 && 1.0 <= rate <= 20.0
    ensures Whole(Scaled(d, rate)) && d <= Scaled(d, rate) <= d * 20.0
  {
    ProductBetween(d, rate);
    WholeTimesTwenty(d);
    RoundBetween(d, d * rate, d * 20.0);
  }

  lemma RoundBetween(lo: real, x: real, hi: real)
    requires 0.0 <= lo <= x <= hi && Whole(lo) && Whole(hi)
    ensures lo <= Round(x) <= hi && Whole(Round(x))
  {
    RoundMonotone(lo, x);
    RoundMonotone(x, hi);
    RoundWhole(lo);
    RoundWhole(hi);
    RoundIsWhole(x);
  }

  lemma ScaledBack(x: real, y: real)
    requires x > 0.0 && Whole(y) && y >= 0.0
    ensures Scaled(x, y / x) == y
  {
    var q := y / x;
    assert x * q == y;
    ScaledProduct(x, q, y);
  }

  lemma ScaledProduct(x: real, q: real, y: real)
    requires x * q == y && Whole(y) && y >= 0.0
    ensures Scaled(x, q) == y
  {
    RoundWhole(y);
  }

  /** The rate read back from such a fare gives the fare again. */
  lemma FareAgain(d: real, fare: real)
    requires Whole(fare) && 0.0 < d <= fare <= d * 20.0
    ensures Scaled(d, Rate(d, fare)) == fare
  {
    Quotient(fare, d, 1.0);
    Quotient(fare, d, 20.0);
    ScaledBack(d, fare);
  }

  /** A distance derived from a fare is at least an eighth of a mile, rounded, and at most the fare. */
  lemma DistanceFromFare(fare: real, rate: real)
    requires Whole(fare) && fare >= 2.5 && 1.0 <= rate <= 20.0
    ensures Whole(Divided(fare, rate)) && 0.1 <= Divided(fare, rate) <= fare
    ensures Divided(fare, 20.0) <= Divided(fare, rate)
  {
    var q := fare / rate;
    Quotient(fare, rate, fare);
    Product(fare, 1.0, rate);
    Product(fare / 20.0, rate, 20.0);
    Quotient(fare, rate, fare / 20.0);
    assert 0.125 <= fare / 20.0 <= q <= fare;
    FloorOf(13, 0.0);
    assert Round(0.125) == 0.13;
    RoundMonotone(0.125, q);
    RoundMonotone(fare / 20.0, q);
    RoundMonotone(q, fare);
    RoundWhole(fare);
    RoundIsWhole(q);
  }

  lemma RateBack(fare: real, d: real)
    requires Whole(fare) && fare >= 2.5 && Whole(d) && 0.1 <= d <= fare && Round(fare / 20.0) <= d
    ensures Divided(fare, Rate(d, fare)) == d
  {
    Quotient(fare, d, 1.0);
    Quotient(fare, d, 20.0);
    RoundWhole(d);
    if fare <= d * 20.0 {
      QuotientTwice(fare, d);
    } else {
      RoundMonotone(d, fare / 20.0);
    }
  }

  lemma DistanceAgain(fare: real, rate: real)
    requires Whole(fare) && fare >= 2.5 && 1.0 <= rate <= 20.0
    ensures var d := Divided(fare, rate); Divided(fare, Rate(d, fare)) == d
  {
    DistanceFromFare(fare, rate);
    RateBack(fare, Divided(fare, rate));
  }

  lemma QuotientTwice(a: real, b: real)
    requires a > 0.0 && b > 0.0
    ensures a / (a / b) == b
  {
  }

  lemma TipAgain(fare: real, tip: real)
    requires Whole(fare) && fare >= 2.5 && Whole(tip) && tip >= 0.0
    ensures TipFor(fare, TipFor(fare, tip)) == TipFor(fare, tip)
    ensures Whole(TipFor(fare, tip)) && TipFor(fare, tip) >= 0.0
  {
    TipKept(fare, tip);
    var usual := Scaled(fare, 0.18);
    RoundIsWhole(fare * 0.18);
    RoundNear(fare * 0.18);
    TipKept(fare, usual);
  }

  lemma RoundNear(x: real)
    requires x >= 0.0
    ensures x - 0.005 <= Round(x) <= x + 0.005
  {
  }

  /** A tip of at most half the fare is kept; any other tip becomes 18 percent. */
  lemma TipKept(fare: real, tip: real)
    requires fare >= 2.5 && Whole(tip) && tip >= 0.0
    ensures TipFor(fare, tip) == if 0.0 < tip <= 0.5 * fare then tip else Scaled(fare, 0.18)
  {
    Quotient(tip, fare, 0.5);
    Quotient(tip, fare, 0.0);
    ScaledBack(fare, tip);
  }
}
