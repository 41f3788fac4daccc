/**
 * `Route.init(route:)`: converts a directions route into the AR route the
 * native engine consumes, by flattening every step of every leg into one
 * point list and picking the street names at either end.
 */
module ARRoute {
  import opened Wrappers

  /** A directions coordinate, as the routing service reports it. */
  datatype Coordinate = Coordinate(latitude: real, longitude: real)

  /** The engine's coordinate: longitude first. */
  datatype GeoCoordinate = GeoCoordinate(lon: real, lat: real)

  datatype RoutePoint = RoutePoint(position: GeoCoordinate)

  datatype Step = Step(maneuverLocation: Coordinate, coordinates: Option<seq<Coordinate>>)

  datatype Waypoint = Waypoint(name: Option<string>)

  datatype Leg = Leg(source: Waypoint, destination: Waypoint, steps: seq<Step>)

  datatype DirectionsRoute = DirectionsRoute(legs: seq<Leg>, expectedTravelTime: real)

  datatype Route = Route(points: seq<RoutePoint>, eta: real, sourceStreetName: string, destinationStreetName: string)

  function ToPoint(c: Coordinate): RoutePoint {
    RoutePoint(GeoCoordinate(c.longitude, c.latitude))
  }

  /** `coords.map { RoutePoint(...) }`. */
  function Converted(cs: seq<Coordinate>): (r: seq<RoutePoint>)
    ensures |r| == |cs|
    ensures forall i :: 0 <= i < |cs| ==> r[i].position.lon == cs[i].longitude && r[i].position.lat == cs[i].latitude
  {
    seq(|cs|, i requires 0 <= i < |cs| => ToPoint(cs[i]))
  }

  lemma ConvertedAppend(xs: seq<Coordinate>, ys: seq<Coordinate>)
    ensures Converted(xs + ys) == Converted(xs) + Converted(ys)
  {
  }

  /** The coordinates one step contributes: its maneuver location, then its own coordinates if it has any. */
  function StepCoordinates(s: Step): seq<Coordinate> {
    [s.maneuverLocation] + s.coordinates.GetOr([])
  }

  /** The coordinates of a list of steps, in order. */
  function StepsCoordinates(steps: seq<Step>): seq<Coordinate>
    decreases |steps|
  {
    if steps == [] then [] else StepsCoordinates(steps[..|steps| - 1]) + StepCoordinates(steps[|steps| - 1])
  }

  /** The coordinates of a list of legs, in order. */
  function LegsCoordinates(legs: seq<Leg>): seq<Coordinate>
    decreases |legs|
  {
    if legs == [] then [] else LegsCoordinates(legs[..|legs| - 1]) + StepsCoordinates(legs[|legs| - 1].steps)
  }

  /** The number of coordinates a step carries besides its maneuver location. */
  function OwnCoordinates(s: Step): nat {
    |s.coordinates.GetOr([])|
  }

  function StepsCount(legs: seq<Leg>): nat
    decreases |legs|
  {
    if legs == [] then 0 else StepsCount(legs[..|legs| - 1]) + |legs[|legs| - 1].steps|
  }

  function StepsOwnCoordinates(steps: seq<Step>): nat
    decreases |steps|
  {
    if steps == [] then 0 else StepsOwnCoordinates(steps[..|steps| - 1]) + OwnCoordinates(steps[|steps| - 1])
  }

  function LegsOwnCoordinates(legs: seq<Leg>): nat
    decreases |legs|
  {
    if legs == [] then 0 else LegsOwnCoordinates(legs[..|legs| - 1]) + StepsOwnCoordinates(legs[|legs| - 1].steps)
  }

  lemma {:induction false} StepsPointCount(steps: seq<Step>)
    ensures |StepsCoordinates(steps)| == |steps| + StepsOwnCoordinates(steps)
    decreases |steps|
  {
    if steps != [] {
      StepsPointCount(steps[..|steps| - 1]);
    }
  }

  /** One point per step for its maneuver, plus one per coordinate; a step without coordinates adds only its maneuver. */
  lemma {:induction false} PointCount(legs: seq<Leg>)
    ensures |LegsCoordinates(legs)| == StepsCount(legs) + LegsOwnCoordinates(legs)
    decreases |legs|
  {
    if legs != [] {
      PointCount(legs[..|legs| - 1]);
      StepsPointCount(legs[|legs| - 1].steps);
    }
  }

  /** The first leg's source name, or "" when there are no legs or it has no name. */
  function SourceStreetName(legs: seq<Leg>): string {
    if legs == [] then "" else legs[0].source.name.GetOr("")
  }

  /** The last leg's destination name, or "" when there are no legs or it has no name. */
  function DestinationStreetName(legs: seq<Leg>): string {
    if legs == [] then "" else legs[|legs| - 1].destination.name.GetOr("")
  }

  /** Adding legs after the first does not change the source name; adding legs before the last does not change the destination name. */
  lemma NamesComeFromTheEnds(first: Leg, middle: seq<Leg>, last: Leg)
    ensures SourceStreetName([first] + middle + [last]) == SourceStreetName([first])
    ensures DestinationStreetName([first] + middle + [last]) == DestinationStreetName([last])
  {
  }

  /** The inner `forEach` over one leg's steps: each step appends its maneuver point, then its coordinates' points. */
  method AppendSteps(points: seq<RoutePoint>, steps: seq<Step>) returns (r: seq<RoutePoint>)
    ensures r == points + Converted(StepsCoordinates(steps))
  {
    r := points;
    var j := 0;
    while j < |steps|
      invariant 0 <= j <= |steps|
      invariant r == points + Converted(StepsCoordinates(steps[..j]))
    {
      var step := steps[j];
      ghost var done := StepsCoordinates(steps[..j]);
      r := r + [ToPoint(step.maneuverLocation)];
      ConvertedAppend(done, [step.maneuverLocation]);
      if step.coordinates.Some? {
        r := r + Converted(step.coordinates.value);
        ConvertedAppend(done + [step.maneuverLocation], step.coordinates.value);
      }
      assert steps[..j + 1][..j] == steps[..j];
      assert StepsCoordinates(steps[..j + 1]) == done + StepCoordinates(step);
      j := j + 1;
    }
    assert steps[..j] == steps;
  }

  /** Legs appended after a non-empty route keep its source name; legs prepended before it keep its destination name. */
  lemma EndLegsDecideNames(legs: seq<Leg>, more: seq<Leg>)
    requires legs != []
    ensures SourceStreetName(legs + more) == SourceStreetName(legs)
    ensures DestinationStreetName(more + legs) == DestinationStreetName(legs)
  {
    assert (legs + more)[0] == legs[0];
    assert (more + legs)[|more + legs| - 1] == legs[|legs| - 1];
  }

  /** `Route.init(route:)`: the outer `forEach` over the legs. */
  method FromDirections(route: DirectionsRoute) returns (r: Route)
    ensures r.points == Converted(LegsCoordinates(route.legs))
    ensures r.eta == route.expectedTravelTime
    ensures r.sourceStreetName == SourceStreetName(route.legs)
    ensures r.destinationStreetName == DestinationStreetName(route.legs)
  {
    var legs := route.legs;
    var points: seq<RoutePoint> := [];
    var i := 0;
    while i < |legs|
      invariant 0 <= i <= |legs|
      invariant points == Converted(LegsCoordinates(legs[..i]))
    {
      ConvertedAppend(LegsCoordinates(legs[..i]), StepsCoordinates(legs[i].steps));
      points := AppendSteps(points, legs[i].steps);
      assert legs[..i + 1][..i] == legs[..i];
      i := i + 1;
    }
    assert legs[..i] == legs;
    r := Route(points, route.expectedTravelTime, SourceStreetName(legs), DestinationStreetName(legs));
  }

  /** A route with one leg of two steps, the second without coordinates. */
  lemma TwoStepScenario(a: Coordinate, b: Coordinate, c: Coordinate, src: Waypoint, dst: Waypoint)
    ensures var legs := [Leg(src, dst, [Step(a, Some([b])), Step(c, None)])];
      && LegsCoordinates(legs) == [a, b, c]
      && |Converted(LegsCoordinates(legs))| == 3
  {
    var steps := [Step(a, Some([b])), Step(c, None)];
    assert steps[..1] == [Step(a, Some([b]))];
    assert steps[..1][..0] == [];
    assert StepsCoordinates(steps[..1]) == [a, b];
    var legs := [Leg(src, dst, steps)];
    assert legs[..0] == [];
  }
}
