/**
 * `NavdataUtils`: the typical IAS expected at a point of an arrival route,
 * taken from the STAR fix of the same name or, failing that, interpolated
 * between the nearest STAR fixes with a typical speed before and after the
 * point, weighted by the distance along the route.
 *
 * The great-circle distance between two positions is not part of this
 * model: it is the parameter `leg`. Distances are exact reals rather than
 * `Double`s.
 */
module NavdataUtilsModel {
  import opened Wrappers
  import Search

  datatype LatLng = LatLng(latitude: real, longitude: real)

  /** A route point; like the Kotlin data class, two waypoints are equal when all their fields are. */
  datatype Waypoint = Waypoint(id: string, latLng: LatLng)

  datatype StarFix = StarFix(id: string, typicalSpeedIas: Option<int>)

  /** `star.find { it.id == id }`: the first fix of the STAR with that name. */
  function FindFix(star: seq<StarFix>, id: string): (r: Option<StarFix>)
    ensures r.Some? ==> r.value in star && r.value.id == id
    ensures r.None? ==> forall f | f in star :: f.id != id
  {
    var i := Search.FirstIndex(star, (f: StarFix) => f.id == id);
    if i.Some? then Some(star[i.value]) else None
  }

  /** `star.find { it.id == id }?.typicalSpeedIas`. */
  function SpeedAt(star: seq<StarFix>, id: string): Option<int>
  {
    if FindFix(star, id).Some? then FindFix(star, id).value.typicalSpeedIas else None
  }

  predicate HasSpeed(star: seq<StarFix>, w: Waypoint)
  {
    SpeedAt(star, w.id).Some?
  }

  /** `indexOf`: the first position of an equal waypoint. */
  function IndexOf(route: seq<Waypoint>, w: Waypoint): (r: Option<nat>)
    ensures r.Some? <==> w in route
    ensures r.Some? ==> r.value < |route| && route[r.value] == w && forall k | 0 <= k < r.value :: route[k] != w
  {
    Search.FirstIndex(route, (p: Waypoint) => p == w)
  }

  /** The loop of `nextSpeedExpectation`: the first point from `i` on with a typical speed. */
  function NextFrom(route: seq<Waypoint>, star: seq<StarFix>, i: nat): (r: Option<nat>)
    ensures r.Some? ==> i <= r.value < |route| && HasSpeed(star, route[r.value])
                        && forall m | i <= m < r.value :: !HasSpeed(star, route[m])
    ensures r.None? ==> forall m | i <= m < |route| :: !HasSpeed(star, route[m])
    decreases |route| - i
  {
    if i >= |route| then None
    else if HasSpeed(star, route[i]) then Some(i)
    else NextFrom(route, star, i + 1)
  }

  /** The loop of `previousSpeedExpectation`: the nearest point before `i` with a typical speed. */
  function PreviousBefore(route: seq<Waypoint>, star: seq<StarFix>, i: nat): (r: Option<nat>)
    requires i <= |route|
    ensures r.Some? ==> r.value < i && HasSpeed(star, route[r.value])
                        && forall m | r.value < m < i :: !HasSpeed(star, route[m])
    ensures r.None? ==> forall m | 0 <= m < i :: !HasSpeed(star, route[m])
  {
    if i == 0 then None
    else if HasSpeed(star, route[i - 1]) then Some(i - 1)
    else PreviousBefore(route, star, i - 1)
  }

  /** `nextSpeedExpectation`, as the position of the point found. */
  function NextSpeedExpectation(route: seq<Waypoint>, at: Waypoint, star: seq<StarFix>): (r: Option<nat>)
    ensures at !in route ==> r.None?
    ensures r.Some? ==> r.value < |route| && HasSpeed(star, route[r.value])
  {
    var current := IndexOf(route, at);
    if current.None? then None else NextFrom(route, star, current.value)
  }

  /** `previousSpeedExpectation`, as the position of the point found. */
  function PreviousSpeedExpectation(route: seq<Waypoint>, at: Waypoint, star: seq<StarFix>): (r: Option<nat>)
    ensures at !in route ==> r.None?
    ensures r.Some? ==> r.value < |route| && HasSpeed(star, route[r.value])
  {
    var current := IndexOf(route, at);
    if current.None? then None else PreviousBefore(route, star, current.value)
  }

  /** The length of the route from point `lo` to point `hi`: the sum of the legs in between. */
  function PathLength(route: seq<Waypoint>, lo: nat, hi: nat, leg: (LatLng, LatLng) -> real): real
    requires lo <= hi < |route|
    decreases hi - lo
  {
    if lo == hi then 0.0 else leg(route[lo].latLng, route[lo + 1].latLng) + PathLength(route, lo + 1, hi, leg)
  }

  /** `distanceBetweenPoints`: the route length between the first occurrences of the two points, whichever comes first. */
  function DistanceBetweenPoints(route: seq<Waypoint>, from: Waypoint, to: Waypoint, leg: (LatLng, LatLng) -> real): real
    requires from in route && to in route
  {
    var fromIndex := IndexOf(route, from).value;
    var toIndex := IndexOf(route, to).value;
    if fromIndex > toIndex then PathLength(route, toIndex, fromIndex, leg)
    else PathLength(route, fromIndex, toIndex, leg)
  }

  /** The direction does not matter. */
  lemma {:induction false} DistanceSymmetric(route: seq<Waypoint>, a: Waypoint, b: Waypoint, leg: (LatLng, LatLng) -> real)
    requires a in route && b in route
    ensures DistanceBetweenPoints(route, a, b, leg) == DistanceBetweenPoints(route, b, a, leg)
  {
  }

  /** Route lengths add up along the route. */
  lemma {:induction false} PathLengthSplit(route: seq<Waypoint>, lo: nat, mid: nat, hi: nat, leg: (LatLng, LatLng) -> real)
    requires lo <= mid <= hi < |route|
    ensures PathLength(route, lo, mid, leg) + PathLength(route, mid, hi, leg) == PathLength(route, lo, hi, leg)
    decreases mid - lo
  {
    if lo < mid {
      PathLengthSplit(route, lo + 1, mid, hi, leg);
    }
  }

  /** With legs that are never negative, a longer stretch of route is never shorter. */
  lemma {:induction false} PathLengthNonNegative(route: seq<Waypoint>, lo: nat, hi: nat, leg: (LatLng, LatLng) -> real)
    requires lo <= hi < |route|
    requires forall p, q :: leg(p, q) >= 0.0
    ensures PathLength(route, lo, hi, leg) >= 0.0
    decreases hi - lo
  {
    if lo < hi {
      PathLengthNonNegative(route, lo + 1, hi, leg);
    }
  }

  /** Kotlin's `Double.toInt()`: rounds toward zero. */
  function Truncate(x: real): (r: int)
    ensures x >= 0.0 ==> r as real <= x < r as real + 1.0
    ensures x < 0.0 ==> r as real - 1.0 < x <= r as real
  {
    if x >= 0.0 then x.Floor else -((-x).Floor)
  }

  /**
   * The weighted speed: the nearer fix weighs more. When both distances are
   * zero the ratio is not a number, and `toInt()` of that is 0.
   */
  function Interpolate(speedBehind: int, speedAhead: int, distanceAhead: real, distanceBehind: real): int
  {
    if distanceAhead + distanceBehind == 0.0 then 0
    else
      var ratio := distanceAhead / (distanceAhead + distanceBehind);
      Truncate(speedBehind as real * ratio + speedAhead as real * (1.0 - ratio))
  }

  /** Between two fixes, the interpolated speed lies between their speeds, and at either fix it is that fix's speed. */
  lemma {:induction false} InterpolateBetween(speedBehind: int, speedAhead: int, distanceAhead: real, distanceBehind: real)
    requires distanceAhead >= 0.0 && distanceBehind >= 0.0 && distanceAhead + distanceBehind > 0.0
    ensures var r := Interpolate(speedBehind, speedAhead, distanceAhead, distanceBehind);
            && (speedBehind <= r <= speedAhead || speedAhead <= r <= speedBehind)
            && (distanceAhead == 0.0 ==> r == speedAhead)
            && (distanceBehind == 0.0 ==> r == speedBehind)
  {
    var ratio := distanceAhead / (distanceAhead + distanceBehind);
    RatioInUnit(distanceAhead, distanceBehind);
    var x := Weighted(speedBehind, speedAhead, ratio);
    TruncateBetween(x, speedBehind, speedAhead);
  }

  function Weighted(speedBehind: int, speedAhead: int, ratio: real): (x: real)
    requires 0.0 <= ratio <= 1.0
    ensures speedBehind as real <= x <= speedAhead as real || speedAhead as real <= x <= speedBehind as real
    ensures ratio == 0.0 ==> x == speedAhead as real
    ensures ratio == 1.0 ==> x == speedBehind as real
  {
    ScaleBetween((speedBehind - speedAhead) as real, ratio);
    speedBehind as real * ratio + speedAhead as real * (1.0 - ratio)
  }

  lemma {:induction false} RatioInUnit(distanceAhead: real, distanceBehind: real)
    requires distanceAhead >= 0.0 && distanceBehind >= 0.0 && distanceAhead + distanceBehind > 0.0
    ensures var ratio := distanceAhead / (distanceAhead + distanceBehind);
            && 0.0 <= ratio <= 1.0
            && (distanceAhead == 0.0 ==> ratio == 0.0)
            && (distanceBehind == 0.0 ==> ratio == 1.0)
  {
  }

  lemma {:induction false} ScaleBetween(d: real, ratio: real)
    requires 0.0 <= ratio <= 1.0
    ensures d <= 0.0 ==> d <= d * ratio <= 0.0
    ensures d >= 0.0 ==> 0.0 <= d * ratio <= d
  {
  }

  lemma {:induction false} TruncateBetween(x: real, a: int, b: int)
    requires a as real <= x <= b as real || b as real <= x <= a as real
    ensures a <= Truncate(x) <= b || b <= Truncate(x) <= a
  {
  }

  /** `getInterpolatedSpeedExpectation`. */
  function GetInterpolatedSpeedExpectation(route: seq<Waypoint>, star: seq<StarFix>, at: Waypoint, leg: (LatLng, LatLng) -> real): Option<int>
  {
    var exactExpectation := SpeedAt(star, at.id);
    if exactExpectation.Some? then exactExpectation
    else
      var later := NextSpeedExpectation(route, at, star);
      var prior := PreviousSpeedExpectation(route, at, star);
      if later.None? then
        if prior.None? then None else SpeedAt(star, route[prior.value].id)
      else if prior.None? then None
      else
        var distanceToSpeedExpectation := DistanceBetweenPoints(route, at, route[later.value], leg);
        var distanceToSpeedExpectationBehind := DistanceBetweenPoints(route, at, route[prior.value], leg);
        var speedAhead := SpeedAt(star, route[later.value].id).value;
        var speedBehind := SpeedAt(star, route[prior.value].id).value;
        Some(Interpolate(speedBehind, speedAhead, distanceToSpeedExpectation, distanceToSpeedExpectationBehind))
  }

  /**
   * The cases of `getInterpolatedSpeedExpectation`: the point's own typical
   * speed wins; with no fix with a speed ahead, the one behind gives it (or
   * nothing); with one ahead but none behind there is no expectation; with
   * both, the result lies between their speeds.
   */
  lemma {:induction false} InterpolatedSpeedCases(route: seq<Waypoint>, star: seq<StarFix>, at: Waypoint, leg: (LatLng, LatLng) -> real)
    requires forall p, q :: leg(p, q) >= 0.0
    ensures var r := GetInterpolatedSpeedExpectation(route, star, at, leg);
            var later := NextSpeedExpectation(route, at, star);
            var prior := PreviousSpeedExpectation(route, at, star);
            && (SpeedAt(star, at.id).Some? ==> r == SpeedAt(star, at.id))
            && (SpeedAt(star, at.id).None? && later.None? ==>
                  r == if prior.Some? then SpeedAt(star, route[prior.value].id) else None)
            && (SpeedAt(star, at.id).None? && later.Some? && prior.None? ==> r.None?)
            && (SpeedAt(star, at.id).None? && later.Some? && prior.Some? ==>
                  var ahead := SpeedAt(star, route[later.value].id).value;
                  var behind := SpeedAt(star, route[prior.value].id).value;
                  r.Some? && (behind <= r.value <= ahead || ahead <= r.value <= behind || r.value == 0))
  {
    var later := NextSpeedExpectation(route, at, star);
    var prior := PreviousSpeedExpectation(route, at, star);
    if SpeedAt(star, at.id).None? && later.Some? && prior.Some? {
      var i := IndexOf(route, at).value;
      var dA := DistanceBetweenPoints(route, at, route[later.value], leg);
      var dB := DistanceBetweenPoints(route, at, route[prior.value], leg);
      var j := IndexOf(route, route[later.value]).value;
      var k := IndexOf(route, route[prior.value]).value;
      if i > j { PathLengthNonNegative(route, j, i, leg); } else { PathLengthNonNegative(route, i, j, leg); }
      if i > k { PathLengthNonNegative(route, k, i, leg); } else { PathLengthNonNegative(route, i, k, leg); }
      if dA + dB > 0.0 {
        InterpolateBetween(SpeedAt(star, route[prior.value].id).value, SpeedAt(star, route[later.value].id).value, dA, dB);
      }
    }
  }
}
