/** What an edit of one field promises, as relations between the record before and the record after.

The relations name neither the rounding nor the steps of the cascade: a rounded amount is a whole number of
cents within half a cent, and the rate is the old record's dollars per mile. They determine the record after
the edit.
*/
module FareLaws {
  import opened Base
  import opened Fare

  // ---------------------------------------------------------------- amounts

  /** `r` is `x` rounded to whole hundredths, halves going up; below zero the fraction is dropped instead. */
  predicate RoundsTo(x: real, r: real) {
    Whole(r) && if x >= -0.005 then r - 0.005 <= x < r + 0.005 else r - 0.015 < x <= r - 0.005
  }

  function Higher(x: real, y: real): real {
    if x >= y then x else y
  }

  /** How far apart two location numbers are. */
  function Apart(a: real, b: real): real {
    Higher(a - b, b - a)
  }

  /** The dollars per mile of a record, kept within 1 and 20; 3.50 when it has no distance or no fare. */
  function OldRate(t: Trip): (rate: real)
    ensures 1.0 <= rate <= 20.0
  {
    if t.distance <= 0.0 || t.fare <= 0.0 then 3.5
    else if t.fare < t.distance then 1.0
    else if t.fare > 20.0 * t.distance then 20.0
    else
      InRange(t);
      t.fare / t.distance
  }

  lemma InRange(t: Trip)
    requires 0.0 < t.distance <= t.fare <= 20.0 * t.distance
    ensures 1.0 <= t.fare / t.distance <= 20.0
  {
    Quotient(t.fare, t.distance, 1.0);
    Quotient(t.fare, t.distance, 20.0);
  }

  /** What a record charges beyond fare and tip, at least the standard 0.80. */
  function OldSurcharge(t: Trip): real {
    Higher(t.total - t.fare - t.tip, 0.8)
  }

  /** The tip after a new fare: an old tip of at most half the new fare stays, any other becomes 18 percent. */
  predicate TipFollows(oldTip: real, fare: real, tip: real) {
    if 0.0 < oldTip && 2.0 * oldTip <= fare then RoundsTo(oldTip, tip) else RoundsTo(0.18 * fare, tip)
  }

  /** A fare that follows from an exact amount is at least 2.50. */
  predicate FareFollows(amount: real, fare: real) {
    if amount < 2.505 then fare == 2.5 else RoundsTo(amount, fare)
  }

  predicate TotalAddsUp(u: Trip, fixed: real) {
    RoundsTo(u.fare + u.tip + fixed, u.total)
  }

  predicate SameRest(t: Trip, u: Trip) {
    u.passengers == t.passengers && u.pickup == t.pickup && u.dropoff == t.dropoff
  }

  // ---------------------------------------------------------------- one law for each field

  /** The record after a new distance that is worth `amount`. */
  predicate Recharged(t: Trip, u: Trip, distance: real, amount: real, fixed: real) {
    && RoundsTo(distance, u.distance) && FareFollows(amount, u.fare)
    && TipFollows(t.tip, u.fare, u.tip) && TotalAddsUp(u, fixed) && SameRest(t, u)
  }

  /** Of `t` at the given rate and surcharge, an entered distance makes `u`. */
  predicate DistanceEntered(t: Trip, u: Trip, v: real, rate: real, fixed: real) {
    Recharged(t, u, Higher(v, 0.1), Higher(v, 0.1) * rate, fixed)
  }

  predicate FareEntered(t: Trip, u: Trip, v: real, rate: real, fixed: real)
    requires rate > 0.0
  {
    && RoundsTo(Higher(v, 2.5), u.fare)
    && RoundsTo(Higher(v, 2.5) / rate, u.distance)
    && u.tip == t.tip && TotalAddsUp(u, fixed) && SameRest(t, u)
  }

  predicate TipEntered(t: Trip, u: Trip, v: real, fixed: real) {
    && RoundsTo(Higher(v, 0.0), u.tip)
    && u.distance == t.distance && u.fare == t.fare && TotalAddsUp(u, fixed) && SameRest(t, u)
  }

  /** The fare is what the total leaves, at least 2.50; when it leaves less, the tip is cut. */
  predicate TotalEntered(t: Trip, u: Trip, v: real, rate: real, fixed: real)
    requires rate > 0.0
  {
    && RoundsTo(Higher(v, 3.3), u.total)
    && (var left := u.total - t.tip - fixed;
        if left >= 2.5 then RoundsTo(left, u.fare) && u.tip == t.tip
        else u.fare == 2.5 && u.tip == Higher(u.total - 2.5 - fixed, 0.0))
    && RoundsTo(u.fare / rate, u.distance) && SameRest(t, u)
  }

  predicate PassengersEntered(t: Trip, u: Trip, v: real) {
    && u == t.(passengers := u.passengers) && u.passengers.Some? && 1.0 <= u.passengers.value <= 6.0
    && (if v < 1.0 then u.passengers.value == 1.0
        else if v > 6.0 then u.passengers.value == 6.0
        else u.passengers.value == v)
  }

  /** Fare and total of a distance that is worth `amount`. */
  predicate Priced(u: Trip, amount: real, fixed: real) {
    RoundsTo(amount, u.fare) && TotalAddsUp(u, fixed)
  }

  /** What two known locations say about distance, fare and total: the distance is 1.2 miles, and 0.06 for each step
      that their numbers are apart. */
  predicate Estimated(u: Trip, pickup: real, dropoff: real, rate: real, fixed: real) {
    RoundsTo(0.06 * Apart(pickup, dropoff) + 1.2, u.distance) && Priced(u, u.distance * rate, fixed)
  }

  /** The estimate is made once both locations are known. */
  predicate RouteEntered(t: Trip, u: Trip, pickup: Option<real>, dropoff: Option<real>, rate: real, fixed: real) {
    && u.pickup == pickup && u.dropoff == dropoff && u.tip == t.tip && u.passengers == t.passengers
    && (if pickup.Some? && dropoff.Some? then Estimated(u, pickup.value, dropoff.value, rate, fixed)
        else u.distance == t.distance && u.fare == t.fare && u.total == t.total)
  }

  /** What entering `v` for the field `name` makes of the record `t`. */
  predicate Entered(t: Trip, u: Trip, name: string, v: real, rate: real, fixed: real)
    requires rate > 0.0
  {
    if name == "trip_distance" then DistanceEntered(t, u, v, rate, fixed)
    else if name == "fare_amount" then FareEntered(t, u, v, rate, fixed)
    else if name == "tip_amount" then TipEntered(t, u, v, fixed)
    else if name == "total_amount" then TotalEntered(t, u, v, rate, fixed)
    else if name == "passenger_count" then PassengersEntered(t, u, v)
    else if name == "pu_location_id" || name == "pulocationid" then
      RouteEntered(t, u, Some(v), t.dropoff, rate, fixed)
    else if name == "do_location_id" || name == "dolocationid" then
      RouteEntered(t, u, t.pickup, Some(v), rate, fixed)
    else u == t
  }

  /** The same at the rate and the surcharge of the record before the edit. */
  predicate Edited(t: Trip, u: Trip, name: string, v: real) {
    Entered(t, u, name, v, OldRate(t), OldSurcharge(t))
  }

  // ---------------------------------------------------------------- the program obeys the laws

  lemma RoundedRounds(x: real)
    ensures RoundsTo(x, Round(x))
  {
    var y := x * 100.0 + 0.5;
    if y >= 0.0 {
      WholeNumber(Round(x), y.Floor);
    } else {
      WholeNumber(Round(x), -((-y).Floor));
    }
  }

  lemma RateIsOld(t: Trip)
    ensures Rate(t.distance, t.fare) == OldRate(t)
  {
    if t.distance > 0.0 && t.fare > 0.0 {
      Quotient(t.fare, t.distance, 1.0);
      Quotient(t.fare, t.distance, 20.0);
    }
  }

  /** Keeping the ratio of a tip to its fare keeps the tip. */
  lemma TipRuleHolds(oldTip: real, fare: real)
    requires fare >= 2.5
    ensures TipFollows(oldTip, fare, TipFor(fare, oldTip))
  {
    Quotient(oldTip, fare, 0.5);
    Quotient(oldTip, fare, 0.0);
    RoundedRounds(oldTip);
    RoundedRounds(0.18 * fare);
  }

  lemma NonNegative(d: real, rate: real)
    requires d >= 0.0 && rate >= 0.0
    ensures d * rate >= 0.0
  {
  }

  lemma FareRuleHolds(x: real)
    requires x >= 0.0
    ensures FareFollows(x, AtLeast(Round(x), 2.5)) && AtLeast(Round(x), 2.5) >= 2.5
  {
    RoundedRounds(x);
    RoundTwoFifty(x);
  }

  /** A value rounds to at most 2.50 exactly when it is below 2.505. */
  lemma RoundTwoFifty(x: real)
    requires x >= 0.0
    ensures Round(x) <= 2.5 <==> x < 2.505
  {
    var y := x * 100.0 + 0.5;
    assert y < 251.0 <==> y.Floor <= 250;
  }

  lemma TotalRuleHolds(u: Trip, fixed: real)
    requires u.total == Round(u.fare + u.tip + fixed)
    ensures TotalAddsUp(u, fixed)
  {
    RoundedRounds(u.fare + u.tip + fixed);
  }

  lemma Recharge(t: Trip, d: real, amount: real, fare: real, fixed: real)
    requires amount >= 0.0 && fare == AtLeast(Round(amount), 2.5)
    ensures Recharged(t, WithFare(t, d, fare, fixed), d, amount, fixed)
  {
    RoundedRounds(d);
    FareRuleHolds(amount);
    TipRuleHolds(t.tip, fare);
    TotalRuleHolds(WithFare(t, d, fare, fixed), fixed);
  }

  lemma EditIsRecharge(t: Trip, d: real, v: real, rate: real, fixed: real, fare: real)
    requires d == AtLeast(v, 0.1) && fare == AtLeast(Scaled(d, rate), 2.5)
    ensures EditDistance(t, rate, fixed, v) == WithFare(t, d, fare, fixed)
  {
  }

  lemma ScaledIs(d: real, rate: real, amount: real)
    requires amount == d * rate
    ensures Scaled(d, rate) == Round(amount)
  {
  }

  lemma DistanceLaw(t: Trip, v: real, rate: real, fixed: real)
    requires rate >= 1.0
    ensures DistanceEntered(t, EditDistance(t, rate, fixed, v), v, rate, fixed)
  {
    var d := Higher(v, 0.1);
    var amount := d * rate;
    ScaledIs(d, rate, amount);
    var fare := AtLeast(Scaled(d, rate), 2.5);
    assert amount >= 0.0 by { NonNegative(d, rate); }
    EditIsRecharge(t, d, v, rate, fixed, fare);
    Recharge(t, d, amount, fare, fixed);
  }

  lemma AtLeastAnEighth(f: real, rate: real)
    requires f >= 2.5 && 1.0 <= rate <= 20.0
    ensures f / rate >= 0.125 && Round(f / rate) >= 0.12
  {
    Product(0.125, rate, 20.0);
    Quotient(f, rate, 0.125);
    RoundedRounds(f / rate);
  }

  lemma FareLaw(t: Trip, v: real, rate: real, fixed: real)
    requires 1.0 <= rate <= 20.0
    ensures FareEntered(t, EditFare(t, rate, fixed, v), v, rate, fixed)
  {
    var f := AtLeast(v, 2.5);
    RoundedRounds(f);
    RoundedRounds(f / rate);
    AtLeastAnEighth(f, rate);
    TotalRuleHolds(EditFare(t, rate, fixed, v), fixed);
  }

  lemma TipLaw(t: Trip, v: real, fixed: real)
    ensures TipEntered(t, EditTip(t, fixed, v), v, fixed)
  {
    RoundedRounds(AtLeast(v, 0.0));
    TotalRuleHolds(EditTip(t, fixed, v), fixed);
  }

  lemma TotalLaw(t: Trip, v: real, rate: real, fixed: real)
    requires rate >= 1.0
    ensures TotalEntered(t, EditTotal(t, rate, fixed, v), v, rate, fixed)
  {
    var u, total := EditTotal(t, rate, fixed, v), Round(AtLeast(v, 3.3));
    RoundedRounds(AtLeast(v, 3.3));
    RoundedRounds(total - (t.tip + fixed));
    Constants();
    RoundWhole(2.5);
    RoundedRounds(u.fare / rate);
  }

  lemma EstimateHolds(t: Trip, pickup: real, dropoff: real, rate: real, fixed: real)
    ensures var d := EstimatedDistance(pickup, dropoff);
            Estimated(WithRoute(t, d, Scaled(d, rate), fixed), pickup, dropoff, rate, fixed)
  {
    var d := EstimatedDistance(pickup, dropoff);
    var amount := d * rate;
    RoundedRounds(Abs(pickup - dropoff) * 0.06 + 1.2);
    ScaledIs(d, rate, amount);
    RoundedRounds(amount);
    TotalRuleHolds(WithRoute(t, d, Scaled(d, rate), fixed), fixed);
  }

  lemma RouteLaw(t: Trip, t': Trip, rate: real, fixed: real)
    requires t' == t.(pickup := t'.pickup, dropoff := t'.dropoff)
    ensures RouteEntered(t, EditRoute(t', rate, fixed), t'.pickup, t'.dropoff, rate, fixed)
  {
    if t'.pickup.Some? && t'.dropoff.Some? {
      EstimateHolds(t', t'.pickup.value, t'.dropoff.value, rate, fixed);
    }
  }

  /** For every record, every field name and every value, the edited record obeys the law of the field. */
  lemma CascadeObeysLaws(t: Trip, name: string, v: real)
    ensures Edited(t, Cascade(t, FieldOf(name), v), name, v)
  {
    var rate, fixed := OldRate(t), OldSurcharge(t);
    RateIsOld(t);
    assert AtLeast(Surcharge(t), 0.8) == fixed;
    match FieldOf(name)
    case Distance => DistanceLaw(t, v, rate, fixed);
    case FareAmount => FareLaw(t, v, rate, fixed);
    case TipAmount => TipLaw(t, v, fixed);
    case TotalAmount => TotalLaw(t, v, rate, fixed);
    case Passengers =>
    case Pickup => RouteLaw(t, t.(pickup := Some(v)), rate, fixed);
    case Dropoff => RouteLaw(t, t.(dropoff := Some(v)), rate, fixed);
    case Unknown =>
  }

  // ---------------------------------------------------------------- the laws leave nothing open

  lemma RoundsToOne(x: real, r: real, r': real)
    requires RoundsTo(x, r) && RoundsTo(x, r')
    ensures r == r'
  {
    var n, n' := (r * 100.0).Floor, (r' * 100.0).Floor;
    OneHundredth(r * 100.0 - r' * 100.0, n - n');
  }

  lemma OneHundredth(x: real, n: int)
    requires x == n as real && -1.0 < x < 1.0
    ensures x == 0.0
  {
  }

  lemma OneTip(oldTip: real, fare: real, tip: real, tip': real)
    requires TipFollows(oldTip, fare, tip) && TipFollows(oldTip, fare, tip')
    ensures tip == tip'
  {
    RoundsToOne(if 0.0 < oldTip && 2.0 * oldTip <= fare then oldTip else 0.18 * fare, tip, tip');
  }

  lemma OneFare(amount: real, fare: real, fare': real)
    requires FareFollows(amount, fare) && FareFollows(amount, fare')
    ensures fare == fare'
  {
    if amount >= 2.505 {
      RoundsToOne(amount, fare, fare');
    }
  }

  lemma OneTotal(u: Trip, u': Trip, fixed: real)
    requires TotalAddsUp(u, fixed) && TotalAddsUp(u', fixed) && u.fare == u'.fare && u.tip == u'.tip
    ensures u.total == u'.total
  {
    RoundsToOne(u.fare + u.tip + fixed, u.total, u'.total);
  }

  lemma OneDistanceEdit(t: Trip, u: Trip, u': Trip, v: real, rate: real, fixed: real)
    requires DistanceEntered(t, u, v, rate, fixed) && DistanceEntered(t, u', v, rate, fixed)
    ensures u == u'
  {
    var amount := Higher(v, 0.1) * rate;
    RoundsToOne(Higher(v, 0.1), u.distance, u'.distance);
    OneFare(amount, u.fare, u'.fare);
    OneTip(t.tip, u.fare, u.tip, u'.tip);
    OneTotal(u, u', fixed);
  }

  lemma OneFareEdit(t: Trip, u: Trip, u': Trip, v: real, rate: real, fixed: real)
    requires rate > 0.0 && FareEntered(t, u, v, rate, fixed) && FareEntered(t, u', v, rate, fixed)
    ensures u == u'
  {
    RoundsToOne(Higher(v, 2.5), u.fare, u'.fare);
    RoundsToOne(Higher(v, 2.5) / rate, u.distance, u'.distance);
    OneTotal(u, u', fixed);
  }

  lemma OneTipEdit(t: Trip, u: Trip, u': Trip, v: real, fixed: real)
    requires TipEntered(t, u, v, fixed) && TipEntered(t, u', v, fixed)
    ensures u == u'
  {
    RoundsToOne(Higher(v, 0.0), u.tip, u'.tip);
    OneTotal(u, u', fixed);
  }

  lemma OneTotalEdit(t: Trip, u: Trip, u': Trip, v: real, rate: real, fixed: real)
    requires rate > 0.0 && TotalEntered(t, u, v, rate, fixed) && TotalEntered(t, u', v, rate, fixed)
    ensures u == u'
  {
    RoundsToOne(Higher(v, 3.3), u.total, u'.total);
    var left := u.total - t.tip - fixed;
    if left >= 2.5 {
      RoundsToOne(left, u.fare, u'.fare);
    }
    RoundsToOne(u.fare / rate, u.distance, u'.distance);
  }

  lemma OnePrice(u: Trip, u': Trip, amount: real, fixed: real)
    requires Priced(u, amount, fixed) && Priced(u', amount, fixed) && u.tip == u'.tip
    ensures u.fare == u'.fare && u.total == u'.total
  {
    RoundsToOne(amount, u.fare, u'.fare);
    OneTotal(u, u', fixed);
  }

  lemma OneEstimate(u: Trip, u': Trip, pickup: real, dropoff: real, rate: real, fixed: real)
    requires Estimated(u, pickup, dropoff, rate, fixed) && Estimated(u', pickup, dropoff, rate, fixed)
    requires u.tip == u'.tip
    ensures u.distance == u'.distance && u.fare == u'.fare && u.total == u'.total
  {
    RoundsToOne(0.06 * Apart(pickup, dropoff) + 1.2, u.distance, u'.distance);
    OnePrice(u, u', u.distance * rate, fixed);
  }

  lemma OneRouteEdit(t: Trip, u: Trip, u': Trip, pickup: Option<real>, dropoff: Option<real>, rate: real, fixed: real)
    requires RouteEntered(t, u, pickup, dropoff, rate, fixed) && RouteEntered(t, u', pickup, dropoff, rate, fixed)
    ensures u == u'
  {
    if pickup.Some? && dropoff.Some? {
      OneEstimate(u, u', pickup.value, dropoff.value, rate, fixed);
    }
  }

  /** A record that obeys the law of the field is the one that the cascade computes. */
  lemma LawsDetermineCascade(t: Trip, u: Trip, name: string, v: real)
    ensures Edited(t, u, name, v) <==> u == Cascade(t, FieldOf(name), v)
  {
    var u', rate, fixed := Cascade(t, FieldOf(name), v), OldRate(t), OldSurcharge(t);
    CascadeObeysLaws(t, name, v);
    if Edited(t, u, name, v) {
      match FieldOf(name)
      case Distance => OneDistanceEdit(t, u, u', v, rate, fixed);
      case FareAmount => OneFareEdit(t, u, u', v, rate, fixed);
      case TipAmount => OneTipEdit(t, u, u', v, fixed);
      case TotalAmount => OneTotalEdit(t, u, u', v, rate, fixed);
      case Passengers =>
      case Pickup => OneRouteEdit(t, u, u', Some(v), t.dropoff, rate, fixed);
      case Dropoff => OneRouteEdit(t, u, u', t.pickup, Some(v), rate, fixed);
      case Unknown =>
    }
  }
}
