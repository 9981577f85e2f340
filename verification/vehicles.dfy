/**
 * `FiveVVehicle`: speeds in road units, the neon lights, the doors, the
 * occupants, the class predicates, and the static look-ups.
 */
module Vehicles {
  import opened Host
  import opened Nullable
  import opened Sequences
  import opened Vectors
  import opened Entities
  import opened VehicleTypes

  const KmhPerMetrePerSecond: real := 3.6
  const MphPerMetrePerSecond: real := 2.236936

  /** `getClosest` searches this far by default. */
  const DefaultSearchRadius: real := 25.0

  /** `speedKmh`: the entity speed in metres per second, times 3.6. */
  function SpeedKmh(host: HostState, v: Entity): (s: real)
    ensures s == Speed(host, v) * 3.6
    ensures Speed(host, v) >= 0.0 ==> s >= 0.0
    ensures s == 0.0 <==> Speed(host, v) == 0.0
  {
    Speed(host, v) * KmhPerMetrePerSecond
  }

  /** `speedMph`: the entity speed in metres per second, times 2.236936. */
  function SpeedMph(host: HostState, v: Entity): (s: real)
    ensures s == Speed(host, v) * 2.236936
    ensures Speed(host, v) >= 0.0 ==> s >= 0.0
    ensures s == 0.0 <==> Speed(host, v) == 0.0
  {
    Speed(host, v) * MphPerMetrePerSecond
  }

  /** Both readings are the same speed: converting one unit into the other agrees. */
  lemma SpeedUnitsAgree(host: HostState, v: Entity)
    ensures SpeedKmh(host, v) * MphPerMetrePerSecond == SpeedMph(host, v) * KmhPerMetrePerSecond
    ensures SpeedKmh(host, v) > SpeedMph(host, v) <==> Speed(host, v) > 0.0
  {
  }

  predicate NeonEnabled(host: HostState, v: Entity, n: Neon)
  {
    host.isNeonEnabled(v.handle, NeonCode(n))
  }

  /** The `neons` getter: true exactly when all four lights are on. */
  function Neons(host: HostState, v: Entity): (on: bool)
    ensures on <==> forall n: Neon :: NeonEnabled(host, v, n)
  {
    NeonEnabled(host, v, Back) && NeonEnabled(host, v, Front)
    && NeonEnabled(host, v, Left) && NeonEnabled(host, v, Right)
  }

  /** The `neons` setter: the same state for every light, in the order back, front, left, right. */
  function SetNeons(v: Entity, state: bool): (cmds: seq<Command>)
    ensures |cmds| == |NeonOrder|
    ensures forall i :: 0 <= i < |cmds| ==>
      cmds[i] == SetVehicleNeonLightEnabled(v.handle, NeonCode(NeonOrder[i]), state)
  {
    seq(|NeonOrder|, i requires 0 <= i < |NeonOrder| => SetVehicleNeonLightEnabled(v.handle, NeonCode(NeonOrder[i]), state))
  }

  /** A host that carries out a neon command; it ignores every other command. */
  function ApplyNeon(host: HostState, c: Command): HostState
  {
    if c.SetVehicleNeonLightEnabled? then
      host.(isNeonEnabled := (h: Handle, i: int) => if h == c.entity && i == c.index then c.toggle else host.isNeonEnabled(h, i))
    else host
  }

  function ApplyAll(host: HostState, cmds: seq<Command>): HostState
    decreases |cmds|
  {
    if |cmds| == 0 then host else ApplyAll(ApplyNeon(host, cmds[0]), cmds[1..])
  }

  /** Setting the neons and reading them back gives the state that was set; other vehicles keep theirs. */
  lemma SetThenGetNeons(host: HostState, v: Entity, state: bool, other: Handle, i: int)
    requires other != v.handle
    ensures Neons(ApplyAll(host, SetNeons(v, state)), v) == state
    ensures ApplyAll(host, SetNeons(v, state)).isNeonEnabled(other, i) == host.isNeonEnabled(other, i)
  {
    var cmds := SetNeons(v, state);
    var h1 := ApplyNeon(host, cmds[0]);
    var h2 := ApplyNeon(h1, cmds[1]);
    var h3 := ApplyNeon(h2, cmds[2]);
    var h4 := ApplyNeon(h3, cmds[3]);
    assert cmds[1..][1..] == cmds[2..] && cmds[2..][1..] == cmds[3..] && cmds[3..][1..] == [];
    assert ApplyAll(h3, cmds[3..]) == h4;
    assert ApplyAll(h2, cmds[2..]) == h4;
    assert ApplyAll(h1, cmds[1..]) == h4;
    assert ApplyAll(host, cmds) == h4;
  }

  /** The lights of `order` that are on, in the order given. */
  function EnabledOf(host: HostState, v: Entity, order: seq<Neon>): (r: seq<Neon>)
    ensures IsSubsequence(r, order)
    ensures forall n :: n in r <==> n in order && NeonEnabled(host, v, n)
  {
    if |order| == 0 then []
    else if NeonEnabled(host, v, order[0]) then [order[0]] + EnabledOf(host, v, order[1..])
    else EnabledOf(host, v, order[1..])
  }

  /** `getActiveNeons`: the lights that are on, in the order back, front, left, right. */
  function GetActiveNeons(host: HostState, v: Entity): (r: seq<Neon>)
    ensures IsSubsequence(r, NeonOrder)
    ensures forall n :: n in r <==> NeonEnabled(host, v, n)
  {
    EnabledOf(host, v, NeonOrder)
  }

  /** All four lights are active exactly when the `neons` getter is true. */
  lemma ActiveNeonsAllOn(host: HostState, v: Entity)
    ensures |GetActiveNeons(host, v)| == 4 <==> Neons(host, v)
  {
    var r := GetActiveNeons(host, v);
    if Neons(host, v) {
      assert r == NeonOrder;
    } else {
      var n: Neon :| !NeonEnabled(host, v, n);
      assert n !in r;
      SubsequenceShorter(r, NeonOrder, n);
    }
  }

  /** `closeAllDoors`: doors 0 to 5 in turn, none shut instantly. */
  function CloseAllDoors(v: Entity): (cmds: seq<Command>)
    ensures |cmds| == 6
    ensures forall i :: 0 <= i < 6 ==> cmds[i] == SetVehicleDoorShut(v.handle, i, false)
  {
    seq(6, i requires 0 <= i < 6 => SetVehicleDoorShut(v.handle, i, false))
  }

  /** `occupants`: the ped in every seat from the driver's (-1) to seat 6, 0 where a seat is empty. */
  function Occupants(host: HostState, v: Entity): (r: seq<Handle>)
    ensures |r| == 8
    ensures forall i :: 0 <= i < 8 ==> r[i] == host.pedInVehicleSeat(v.handle, i - 1)
  {
    seq(|Seats|, i requires 0 <= i < |Seats| => host.pedInVehicleSeat(v.handle, Seats[i]))
  }

  /** `vehicleClass`: the host's class number, cast to the enumeration without a check. */
  function VehicleClassCode(host: HostState, v: Entity): int
  {
    host.vehicleClass(v.handle)
  }

  /**
   * `isCar`, on the class number: anything but a boat, helicopter, plane,
   * cycle, motorcycle or train, including a number that names no class.
   */
  function IsCar(code: int): (b: bool)
    ensures b <==> ClassOf(code).Null? || ClassOf(code).value !in {Boats, Helicopters, Planes, Cycles, Motorcycles, Trains}
  {
    ClassCodeRoundTrip(Boats);
    ClassCodeRoundTrip(Helicopters);
    ClassCodeRoundTrip(Planes);
    ClassCodeRoundTrip(Cycles);
    ClassCodeRoundTrip(Motorcycles);
    ClassCodeRoundTrip(Trains);
    code != ClassCode(Boats) && code != ClassCode(Helicopters) && code != ClassCode(Planes)
    && code != ClassCode(Cycles) && code != ClassCode(Motorcycles) && code != ClassCode(Trains)
  }

  /** `isBike`: a motorcycle or a cycle. */
  function IsBike(code: int): (b: bool)
    ensures b <==> ClassOf(code) == Some(Motorcycles) || ClassOf(code) == Some(Cycles)
  {
    ClassCodeRoundTrip(Motorcycles);
    ClassCodeRoundTrip(Cycles);
    code == ClassCode(Motorcycles) || code == ClassCode(Cycles)
  }

  /** `isAircraft`: a helicopter or a plane. */
  function IsAircraft(code: int): (b: bool)
    ensures b <==> ClassOf(code) == Some(Helicopters) || ClassOf(code) == Some(Planes)
  {
    ClassCodeRoundTrip(Helicopters);
    ClassCodeRoundTrip(Planes);
    code == ClassCode(Helicopters) || code == ClassCode(Planes)
  }

  /** `isBoat`. */
  function IsBoat(code: int): (b: bool)
    ensures b <==> ClassOf(code) == Some(Boats)
  {
    ClassCodeRoundTrip(Boats);
    code == ClassCode(Boats)
  }

  /**
   * The class predicates partition the enumeration except for trains: at most
   * one holds for any number, and a number outside the enumeration is a car.
   */
  lemma ClassPredicatesPartition(code: int)
    ensures (IsBike(code) ==> !IsCar(code) && !IsAircraft(code) && !IsBoat(code))
    ensures (IsAircraft(code) ==> !IsCar(code) && !IsBoat(code))
    ensures (IsBoat(code) ==> !IsCar(code))
    ensures IsCar(code) || IsBike(code) || IsAircraft(code) || IsBoat(code) <==> code != ClassCode(Trains)
    ensures ClassOf(code) == Null ==> IsCar(code)
  {
  }

  /** `isCar` is false for exactly six classes. */
  lemma IsCarExactly(c: VehicleClass)
    ensures !IsCar(ClassCode(c)) <==> c in {Boats, Helicopters, Planes, Cycles, Motorcycles, Trains}
  {
    ClassCodeRoundTrip(c);
    if !IsCar(ClassCode(c)) {
      var k := ClassCode(c);
      assert ClassOf(k).value == c;
    }
  }

  /** The static `fromNetworkId`: no kind probe, so a live non-vehicle entity is wrapped as well. */
  function FromNetworkId(host: HostState, netId: real): (r: Nullable<Entity>)
    ensures r.Some? ==> r.value.kind == VehicleKind && r.value.handle == host.netToVeh(netId)
    ensures r.Some? <==> host.networkEntityExists(netId) && host.netToVeh(netId) != 0
                         && host.doesEntityExist(host.netToVeh(netId))
  {
    ClassFromNetworkId(host, netId, VehicleKind, false)
  }

  /** `getClosest`: the nearest vehicle within `radius`, with no model filter and search flags 70. */
  function GetClosest(host: HostState, position: Vector3, radius: real): (r: Nullable<Entity>)
    ensures var h := host.closestVehicle(position.x, position.y, position.z, radius, 0, 70);
      (r == Null <==> h == 0) && (r.Some? ==> r.value == Entity(VehicleKind, h))
  {
    Wrap(VehicleKind, host.closestVehicle(position.x, position.y, position.z, radius, 0, 70))
  }
}
