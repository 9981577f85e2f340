/**
 * `FiveVPed`: the ped's vehicle and seat, leaving a vehicle, and the static
 * look-ups.
 */
module Peds {
  import opened Host
  import opened Nullable
  import opened Vectors
  import opened Entities
  import opened VehicleTypes

  /** What `seatIndex` reports for a ped that holds no seat. */
  const NotSeated: int := -2

  const DefaultSearchRadius: real := 25.0

  /** `isInVehicle`. */
  predicate IsInVehicle(host: HostState, p: Entity)
  {
    host.isPedInAnyVehicle(p.handle, false)
  }

  /** The vehicle the ped is in now, as a handle (0 for none). */
  function CurrentVehicle(host: HostState, p: Entity): Handle
  {
    host.vehiclePedIsIn(p.handle, false)
  }

  /** `vehicle`: `null` when the ped is not in a vehicle or the host reports handle 0. */
  function Vehicle(host: HostState, p: Entity): (r: Nullable<Entity>)
    ensures r == Null <==> !IsInVehicle(host, p) || CurrentVehicle(host, p) == 0
    ensures r.Some? ==> r.value == Entity(VehicleKind, CurrentVehicle(host, p))
  {
    if !IsInVehicle(host, p) then Null else Wrap(VehicleKind, CurrentVehicle(host, p))
  }

  /** `lastVehicle`: `null` exactly when the host reports handle 0; being in a vehicle is not asked. */
  function LastVehicle(host: HostState, p: Entity): (r: Nullable<Entity>)
    ensures r == Null <==> host.vehiclePedIsIn(p.handle, true) == 0
    ensures r.Some? ==> r.value == Entity(VehicleKind, host.vehiclePedIsIn(p.handle, true))
  {
    Wrap(VehicleKind, host.vehiclePedIsIn(p.handle, true))
  }

  /** The ped sits in `seat` of `veh`. */
  predicate SitsIn(host: HostState, p: Entity, veh: Handle, seat: int)
  {
    host.pedInVehicleSeat(veh, seat) == p.handle
  }

  /**
   * `seatIndex`: -2 for a ped not in a vehicle; otherwise the first seat from
   * the driver's (-1) up to the passenger count that holds the ped, or -2.
   */
  method SeatIndex(host: HostState, p: Entity) returns (seat: int)
    ensures !IsInVehicle(host, p) ==> seat == NotSeated
    ensures seat != NotSeated ==>
      var veh := CurrentVehicle(host, p);
      DriverSeat <= seat < host.vehicleMaxPassengers(veh) && SitsIn(host, p, veh, seat)
      && forall s :: DriverSeat <= s < seat ==> !SitsIn(host, p, veh, s)
    ensures seat == NotSeated && IsInVehicle(host, p) ==>
      var veh := CurrentVehicle(host, p);
      forall s :: DriverSeat <= s < host.vehicleMaxPassengers(veh) ==> !SitsIn(host, p, veh, s)
  {
    if !IsInVehicle(host, p) {
      return NotSeated;
    }
    var veh := CurrentVehicle(host, p);
    var i := DriverSeat;
    while i < host.vehicleMaxPassengers(veh)
      invariant DriverSeat <= i
      invariant i <= host.vehicleMaxPassengers(veh) || i == DriverSeat
      invariant forall s :: DriverSeat <= s < i ==> !SitsIn(host, p, veh, s)
      decreases host.vehicleMaxPassengers(veh) - i
    {
      if host.pedInVehicleSeat(veh, i) == p.handle {
        return i;
      }
      i := i + 1;
    }
    return NotSeated;
  }

  /** `isDriver`: the seat search stops at the driver's seat. */
  method IsDriver(host: HostState, p: Entity) returns (driver: bool)
    ensures driver <==>
      (IsInVehicle(host, p)
       && DriverSeat < host.vehicleMaxPassengers(CurrentVehicle(host, p))
       && SitsIn(host, p, CurrentVehicle(host, p), DriverSeat))
  {
    var seat := SeatIndex(host, p);
    driver := seat == DriverSeat;
  }

  /** `taskLeaveVehicle`: one task for the current vehicle, and nothing when the handle is 0. */
  function TaskLeaveVehicle(host: HostState, p: Entity, flags: int): (cmds: seq<Command>)
    ensures |cmds| <= 1
    ensures cmds == [] <==> CurrentVehicle(host, p) == 0
    ensures cmds != [] ==> cmds[0] == Command.TaskLeaveVehicle(p.handle, CurrentVehicle(host, p), flags)
  {
    var veh := CurrentVehicle(host, p);
    if veh != 0 then [Command.TaskLeaveVehicle(p.handle, veh, flags)] else []
  }

  /** The static `fromNetworkId`: existence checks only, no `IsEntityAPed` probe. */
  function FromNetworkId(host: HostState, netId: real): (r: Nullable<Entity>)
    ensures r.Some? ==> r.value.kind == PedKind && r.value.handle == host.netToPed(netId)
    ensures r.Some? <==> host.networkEntityExists(netId) && host.netToPed(netId) != 0
                         && host.doesEntityExist(host.netToPed(netId))
  {
    ClassFromNetworkId(host, netId, PedKind, false)
  }

  /** `getClosest`: `null` when the search reports nothing found or ped 0. */
  function GetClosest(host: HostState, position: Vector3, radius: real): (r: Nullable<Entity>)
    ensures var s := host.closestPed(position.x, position.y, position.z, radius, true, true, false, false, -1);
      (r == Null <==> !s.found || s.ped == 0) && (r.Some? ==> r.value == Entity(PedKind, s.ped))
  {
    var s := host.closestPed(position.x, position.y, position.z, radius, true, true, false, false, -1);
    if !s.found then Null else Wrap(PedKind, s.ped)
  }
}
