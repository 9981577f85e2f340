/**
 * The game host as the client library sees it. Every query native is a field
 * of `HostState`, an uninterpreted function of the current world; the
 * natives that change the world are recorded as `Command`s, in the order the
 * library issues them. Time passes between snapshots: an operation that waits
 * receives the snapshots it will observe later as a sequence.
 */
module Host {

  /** An entity handle; 0 is the host's "no entity". */
  type Handle = int

  /** A model, weapon or material hash as returned by `GetHashKey`. */
  type Hash = int

  /** The three-element number array the host returns for a coordinate or an angle triple. */
  type Coords = a: seq<real> | |a| == 3 witness [0.0, 0.0, 0.0]

  /** The result pair of a `[found, value]` native. */
  datatype Probe = Probe(found: bool, value: real)

  /** `GetClosestPed`'s `[found, ped]` pair. */
  datatype PedSearch = PedSearch(found: bool, ped: Handle)

  /** The arguments of a shape-test start native. */
  datatype RayQuery = RayQuery(
    x1: real, y1: real, z1: real,
    x2: real, y2: real, z2: real,
    flags: int, ignoreEntity: Handle, options: int)

  /** `GetShapeTestResult`: `[retval, hit, endCoords, surfaceNormal, entityHit]`. */
  datatype RayResult = RayResult(
    retval: int, hit: bool, endCoords: Coords, surfaceNormal: Coords, entityHit: Handle)

  /** `GetShapeTestResultIncludingMaterial`: the same with a material hash before the entity. */
  datatype MaterialRayResult = MaterialRayResult(
    retval: int, hit: bool, endCoords: Coords, surfaceNormal: Coords, materialHash: Hash, entityHit: Handle)

  /** The natives that change the world, with the arguments the library passes. */
  datatype Command =
    | RequestModel(model: Hash)
    | SetModelAsNoLongerNeeded(model: Hash)
    | RequestAnimDict(name: string)
    | RequestAnimSet(name: string)
    | RequestNamedPtfxAsset(name: string)
    | RequestStreamedTextureDict(name: string, p1: bool)
    | Wait(ms: nat)
    | RequestCollisionAtCoord(x: real, y: real, z: real)
    | SetEntityCoords(entity: Handle, x: real, y: real, z: real,
                      xAxis: bool, yAxis: bool, zAxis: bool, clearArea: bool)
    | SetEntityRotation(entity: Handle, pitch: real, roll: real, yaw: real, rotationOrder: int, p5: bool)
    | CreateVehicle(model: Hash, x: real, y: real, z: real, heading: real,
                    isNetwork: bool, netMissionEntity: bool)
    | CreatePed(pedType: int, model: Hash, x: real, y: real, z: real, heading: real,
                isNetwork: bool, netMissionEntity: bool)
    | CreateObject(model: Hash, x: real, y: real, z: real,
                   isNetwork: bool, netMissionEntity: bool, dynamic: bool)
    | SetVehicleDoorShut(entity: Handle, doorIndex: int, closeInstantly: bool)
    | SetVehicleNeonLightEnabled(entity: Handle, index: int, toggle: bool)
    | TaskLeaveVehicle(entity: Handle, vehicle: Handle, flags: int)
    | PlaceObjectOnGroundProperly(entity: Handle)

  /** One snapshot of the world, as seen through the query natives. */
  datatype HostState = HostState(
    gameTimer: int,
    playerPedId: Handle,
    hashKey: string -> Hash,
    isModelInCdimage: Hash -> bool,
    isModelAVehicle: Hash -> bool,
    hasModelLoaded: Hash -> bool,
    hasAnimDictLoaded: string -> bool,
    hasAnimSetLoaded: string -> bool,
    hasNamedPtfxAssetLoaded: string -> bool,
    hasStreamedTextureDictLoaded: string -> bool,
    hasCollisionLoadedAroundEntity: Handle -> bool,
    doesEntityExist: Handle -> bool,
    entityCoords: (Handle, bool) -> Coords,
    entityRotation: (Handle, int) -> Coords,
    entitySpeed: Handle -> real,
    isEntityNetworked: Handle -> bool,
    networkIdFromEntity: Handle -> int,
    isEntityAVehicle: Handle -> bool,
    isEntityAPed: Handle -> bool,
    isEntityAnObject: Handle -> bool,
    networkEntityExists: real -> bool,
    netToVeh: real -> Handle,
    netToPed: real -> Handle,
    netToObj: real -> Handle,
    isPedInAnyVehicle: (Handle, bool) -> bool,
    vehiclePedIsIn: (Handle, bool) -> Handle,
    vehicleMaxPassengers: Handle -> int,
    pedInVehicleSeat: (Handle, int) -> Handle,
    vehicleClass: Handle -> int,
    isNeonEnabled: (Handle, int) -> bool,
    currentPedWeapon: (Handle, bool) -> Hash,
    closestVehicle: (real, real, real, real, Hash, int) -> Handle,
    closestPed: (real, real, real, real, bool, bool, bool, bool, int) -> PedSearch,
    closestObjectOfType: (real, real, real, real, Hash, bool, bool, bool) -> Handle,
    created: Command -> Handle,
    startShapeTestRay: RayQuery -> int,
    startShapeTestLosProbe: RayQuery -> int,
    shapeTestResult: int -> RayResult,
    shapeTestResultIncludingMaterial: int -> MaterialRayResult,
    gameplayCamCoord: Coords,
    gameplayCamRot: int -> Coords,
    groundZFor3dCoord: (real, real, real, bool) -> Probe,
    waterHeight: (real, real, real) -> Probe)

  /** The entity classes the library distinguishes, each with its own kind probe. */
  datatype Kind = AnyEntity | PedKind | VehicleKind | ObjectKind

  /** The kind probe: `IsEntityAPed`, `IsEntityAVehicle`, `IsEntityAnObject`; none for a plain entity. */
  predicate IsKind(host: HostState, kind: Kind, h: Handle)
  {
    match kind
    case AnyEntity => true
    case PedKind => host.isEntityAPed(h)
    case VehicleKind => host.isEntityAVehicle(h)
    case ObjectKind => host.isEntityAnObject(h)
  }

  /** `n` waits of `ms` milliseconds. */
  function Waits(n: nat, ms: nat): (r: seq<Command>)
    ensures |r| == n
    ensures forall i :: 0 <= i < n ==> r[i] == Wait(ms)
  {
    if n == 0 then [] else Waits(n - 1, ms) + [Wait(ms)]
  }
}
