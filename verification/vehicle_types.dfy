/**
 * The vehicle enumerations: classes as `GetVehicleClass` numbers them, seat
 * positions, and neon light indices.
 */
module VehicleTypes {
  import opened Nullable

  /** `VEHICLECLASS`, numbered 0 to 22 in declaration order. */
  datatype VehicleClass =
    | Compacts | Sedans | SUVs | Coupes | Muscle | SportsClassics | Sports | Super
    | Motorcycles | OffRoad | Industrial | Utility | Vans | Cycles | Boats | Helicopters
    | Planes | Service | Emergency | Military | Commercial | Trains | OpenWheel

  /** Every class, at the position of its number. */
  const Classes: seq<VehicleClass> :=
    [Compacts, Sedans, SUVs, Coupes, Muscle, SportsClassics, Sports, Super,
     Motorcycles, OffRoad, Industrial, Utility, Vans, Cycles, Boats, Helicopters,
     Planes, Service, Emergency, Military, Commercial, Trains, OpenWheel]

  /** The number of a class. */
  function ClassCode(c: VehicleClass): (n: int)
    ensures 0 <= n < |Classes| && Classes[n] == c
  {
    match c
    case Compacts => 0
    case Sedans => 1
    case SUVs => 2
    case Coupes => 3
    case Muscle => 4
    case SportsClassics => 5
    case Sports => 6
    case Super => 7
    case Motorcycles => 8
    case OffRoad => 9
    case Industrial => 10
    case Utility => 11
    case Vans => 12
    case Cycles => 13
    case Boats => 14
    case Helicopters => 15
    case Planes => 16
    case Service => 17
    case Emergency => 18
    case Military => 19
    case Commercial => 20
    case Trains => 21
    case OpenWheel => 22
  }

  /** The class with number `n`, or `null` for a number outside the enumeration. */
  function ClassOf(n: int): (r: Nullable<VehicleClass>)
    ensures r.Some? <==> 0 <= n < |Classes|
    ensures r.Some? ==> ClassCode(r.value) == n
  {
    if 0 <= n < |Classes| then
      var c := Classes[n];
      assert ClassCode(c) == n by { ClassCodesDistinct(c, n); }
      Some(c)
    else Null
  }

  /** No two positions of `Classes` hold the same class. */
  lemma ClassCodesDistinct(c: VehicleClass, n: int)
    requires 0 <= n < |Classes| && Classes[n] == c
    ensures ClassCode(c) == n
  {
  }

  /** Numbering a class and reading the number back gives the class. */
  lemma ClassCodeRoundTrip(c: VehicleClass)
    ensures ClassOf(ClassCode(c)) == Some(c)
  {
  }

  /** `SEATPOSITION`: the driver's seat is -1, the others 0 to 6. */
  const DriverSeat: int := -1

  /** The seats in `SEATPOSITION` order, as `occupants` visits them. */
  const Seats: seq<int> := [-1, 0, 1, 2, 3, 4, 5, 6]

  /** `NEONINDEX`. */
  datatype Neon = Back | Right | Left | Front

  function NeonCode(n: Neon): (i: int)
    ensures 0 <= i < 4
  {
    match n
    case Back => 0
    case Right => 1
    case Left => 2
    case Front => 3
  }

  /** The order in which the neon getters and setters visit the lights. */
  const NeonOrder: seq<Neon> := [Back, Front, Left, Right]

  /** Each light has its own index, and `NeonOrder` visits every light once. */
  lemma NeonOrderCoversAll(n: Neon)
    ensures n in NeonOrder
    ensures forall m: Neon :: NeonCode(m) == NeonCode(n) ==> m == n
  {
  }
}
