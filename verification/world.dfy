/**
 * `FiveVWorld`: spawning vehicles, peds and objects, shape-test rays, the
 * screen-to-world ray, and ground and water height look-ups.
 */
module World {
  import opened Host
  import opened JsMath
  import opened Vectors
  import opened Transformer
  import opened Streaming
  import opened Entities

  /** `wait(10)` between two `HasModelLoaded` checks while spawning. */
  const SpawnPollMs: nat := 10

  /** The default ray flags `1 | 2 | 4 | 8 | 16`. */
  const DefaultRayFlags: int := 31

  /** The degree-to-radian factor `screenToWorld` uses (close to, but not exactly, pi/180). */
  const DegToRad: real := 0.0174532924

  const DefaultMaxDistance: real := 1000.0

  /** `getGroundZAsync` tries this many times, waiting this long before each probe, at this height. */
  const GroundAttempts: nat := 10
  const GroundWaitMs: nat := 50
  const GroundProbeZ: real := 1000.0

  /** How a spawn ends: refused before any request, still waiting for the model, or created. */
  datatype Spawn = InvalidModel | StillLoading(trace: seq<Command>) | Spawned(trace: seq<Command>, entity: Entity)

  /** The index of the first check (0 is the immediate one) that sees `hash` loaded, counting from `i`. */
  function FirstLoadedFrom(host: HostState, later: seq<HostState>, hash: Hash, i: nat): (k: nat)
    requires i <= |later| + 1
    ensures i <= k <= |later| + 1
    ensures forall j :: i <= j < k ==> !SnapshotAt(host, later, j).hasModelLoaded(hash)
    ensures k <= |later| ==> SnapshotAt(host, later, k).hasModelLoaded(hash)
    decreases |later| + 1 - i
  {
    if i == |later| + 1 then i
    else if SnapshotAt(host, later, i).hasModelLoaded(hash) then i
    else FirstLoadedFrom(host, later, hash, i + 1)
  }

  /**
   * The shared tail of the three spawners: request the model, wait ten
   * milliseconds after every check that does not see it loaded (with no time
   * limit), then create and at once release the model.
   */
  function SpawnAfterLoad(host: HostState, later: seq<HostState>, hash: Hash, kind: Kind, create: Command): (r: Spawn)
    ensures !r.InvalidModel?
    ensures |r.trace| >= 1 && r.trace[0] == RequestModel(hash)
    ensures r.StillLoading? ==> r.trace == [RequestModel(hash)] + Waits(|later| + 1, SpawnPollMs)
    ensures r.StillLoading? ==> forall j :: 0 <= j <= |later| ==> !SnapshotAt(host, later, j).hasModelLoaded(hash)
    ensures r.Spawned? ==>
      var k := |r.trace| - 3;
      0 <= k <= |later|
      && r.trace == [RequestModel(hash)] + Waits(k, SpawnPollMs) + [create, Command.SetModelAsNoLongerNeeded(hash)]
      && SnapshotAt(host, later, k).hasModelLoaded(hash)
      && (forall j :: 0 <= j < k ==> !SnapshotAt(host, later, j).hasModelLoaded(hash))
      && r.entity == Entity(kind, SnapshotAt(host, later, k).created(create))
  {
    var k := FirstLoadedFrom(host, later, hash, 0);
    if k > |later| then StillLoading([RequestModel(hash)] + Waits(|later| + 1, SpawnPollMs))
    else
      Spawned([RequestModel(hash)] + Waits(k, SpawnPollMs) + [create, Command.SetModelAsNoLongerNeeded(hash)],
              Entity(kind, SnapshotAt(host, later, k).created(create)))
  }

  /** `createVehicle`: refused unless the model is in the game files and is a vehicle model. */
  function CreateVehicle(host: HostState, later: seq<HostState>, model: ModelKey, position: Vector3,
                         heading: real, isNetwork: bool, netMissionEntity: bool): (r: Spawn)
    ensures var hash := HashOf(host, model);
      r.InvalidModel? <==> !host.isModelInCdimage(hash) || !host.isModelAVehicle(hash)
    ensures r.Spawned? ==>
      (r.entity.kind == VehicleKind && |r.trace| >= 3
       && r.trace[|r.trace| - 2] == Command.CreateVehicle(HashOf(host, model), position.x, position.y, position.z,
                                                         heading, isNetwork, netMissionEntity))
    ensures !r.InvalidModel? ==>
      r == SpawnAfterLoad(host, later, HashOf(host, model), VehicleKind,
                          Command.CreateVehicle(HashOf(host, model), position.x, position.y, position.z,
                                                heading, isNetwork, netMissionEntity))
  {
    var hash := HashOf(host, model);
    if !host.isModelInCdimage(hash) || !host.isModelAVehicle(hash) then InvalidModel
    else SpawnAfterLoad(host, later, hash, VehicleKind,
                        Command.CreateVehicle(hash, position.x, position.y, position.z, heading, isNetwork, netMissionEntity))
  }

  /** `createPed`: refused only when the model is not in the game files. */
  function CreatePed(host: HostState, later: seq<HostState>, pedType: int, model: ModelKey, position: Vector3,
                     heading: real, isNetwork: bool, netMissionEntity: bool): (r: Spawn)
    ensures r.InvalidModel? <==> !host.isModelInCdimage(HashOf(host, model))
    ensures r.Spawned? ==>
      (r.entity.kind == PedKind && |r.trace| >= 3
       && r.trace[|r.trace| - 2] == Command.CreatePed(pedType, HashOf(host, model), position.x, position.y, position.z,
                                                     heading, isNetwork, netMissionEntity))
    ensures !r.InvalidModel? ==>
      r == SpawnAfterLoad(host, later, HashOf(host, model), PedKind,
                          Command.CreatePed(pedType, HashOf(host, model), position.x, position.y, position.z,
                                            heading, isNetwork, netMissionEntity))
  {
    var hash := HashOf(host, model);
    if !host.isModelInCdimage(hash) then InvalidModel
    else SpawnAfterLoad(host, later, hash, PedKind,
                        Command.CreatePed(pedType, hash, position.x, position.y, position.z, heading, isNetwork, netMissionEntity))
  }

  /** `createObject`: refused only when the model is not in the game files. */
  function CreateObject(host: HostState, later: seq<HostState>, model: ModelKey, position: Vector3,
                        isNetwork: bool, netMissionEntity: bool, dynamic: bool): (r: Spawn)
    ensures r.InvalidModel? <==> !host.isModelInCdimage(HashOf(host, model))
    ensures r.Spawned? ==>
      (r.entity.kind == ObjectKind && |r.trace| >= 3
       && r.trace[|r.trace| - 2] == Command.CreateObject(HashOf(host, model), position.x, position.y, position.z,
                                                        isNetwork, netMissionEntity, dynamic))
    ensures !r.InvalidModel? ==>
      r == SpawnAfterLoad(host, later, HashOf(host, model), ObjectKind,
                          Command.CreateObject(HashOf(host, model), position.x, position.y, position.z,
                                               isNetwork, netMissionEntity, dynamic))
  {
    var hash := HashOf(host, model);
    if !host.isModelInCdimage(hash) then InvalidModel
    else SpawnAfterLoad(host, later, hash, ObjectKind,
                        Command.CreateObject(hash, position.x, position.y, position.z, isNetwork, netMissionEntity, dynamic))
  }

  /** A model that is in the game files but not a vehicle model: `createVehicle` refuses it, `createObject` does not. */
  lemma VehicleCheckIsStricter(host: HostState, later: seq<HostState>, model: ModelKey, p: Vector3)
    requires host.isModelInCdimage(HashOf(host, model)) && !host.isModelAVehicle(HashOf(host, model))
    ensures CreateVehicle(host, later, model, p, 0.0, true, false) == InvalidModel
    ensures CreateObject(host, later, model, p, true, false, false) != InvalidModel
  {
  }

  /** A model already loaded when requested is created with no wait in between. */
  lemma SpawnWithoutWaiting(host: HostState, later: seq<HostState>, hash: Hash, kind: Kind, create: Command)
    requires host.hasModelLoaded(hash)
    ensures SpawnAfterLoad(host, later, hash, kind, create)
      == Spawned([RequestModel(hash), create, Command.SetModelAsNoLongerNeeded(hash)], Entity(kind, host.created(create)))
  {
  }

  /** What a ray reports; `materialHash` is 0 when the ray did not ask for materials. */
  datatype RaycastResult = RaycastResult(
    hit: bool, endCoords: Vector3, surfaceNormal: Vector3, entityHit: Handle, materialHash: Hash)

  function Query(from: Vector3, to: Vector3, flags: int, ignoreEntity: Handle, options: int): (q: RayQuery)
  {
    RayQuery(from.x, from.y, from.z, to.x, to.y, to.z, flags, ignoreEntity, options)
  }

  /** `raycast`: a `StartShapeTestRay` with option 0; the host's answer, with material 0. */
  function Raycast(host: HostState, from: Vector3, to: Vector3, flags: int, ignoreEntity: Handle): (r: RaycastResult)
    ensures var res := host.shapeTestResult(host.startShapeTestRay(Query(from, to, flags, ignoreEntity, 0)));
      r.hit == res.hit && ToArray(r.endCoords) == res.endCoords && ToArray(r.surfaceNormal) == res.surfaceNormal
      && r.entityHit == res.entityHit
    ensures r.materialHash == 0
  {
    var res := host.shapeTestResult(host.startShapeTestRay(Query(from, to, flags, ignoreEntity, 0)));
    RaycastResult(res.hit, TransformNumberArrayInVector3(res.endCoords),
                  TransformNumberArrayInVector3(res.surfaceNormal), res.entityHit, 0)
  }

  /** `raycastWithMaterial`: a `StartShapeTestLosProbe` with option 4; the host's answer including its material. */
  function RaycastWithMaterial(host: HostState, from: Vector3, to: Vector3, flags: int, ignoreEntity: Handle): (r: RaycastResult)
    ensures var res := host.shapeTestResultIncludingMaterial(host.startShapeTestLosProbe(Query(from, to, flags, ignoreEntity, 4)));
      r.hit == res.hit && ToArray(r.endCoords) == res.endCoords && ToArray(r.surfaceNormal) == res.surfaceNormal
      && r.entityHit == res.entityHit && r.materialHash == res.materialHash
  {
    var res := host.shapeTestResultIncludingMaterial(host.startShapeTestLosProbe(Query(from, to, flags, ignoreEntity, 4)));
    RaycastResult(res.hit, TransformNumberArrayInVector3(res.endCoords),
                  TransformNumberArrayInVector3(res.surfaceNormal), res.entityHit, res.materialHash)
  }

  /**
   * The viewing direction of a camera rotated by `rot` degrees: yaw from z,
   * pitch from x, the horizontal part scaled by |cos pitch|.
   */
  function CameraDirection(m: Math, rot: Vector3): (d: Vector3)
    ensures d.z == m.sin(rot.x * DegToRad)
    ensures d.x * m.cos(rot.z * DegToRad) + d.y * m.sin(rot.z * DegToRad) == 0.0
  {
    var tZ := rot.z * DegToRad;
    var tX := rot.x * DegToRad;
    var num := Abs(m.cos(tX));
    Vector3(-m.sin(tZ) * num, m.cos(tZ) * num, m.sin(tX))
  }

  /**
   * Where sine and cosine obey the Pythagorean identity at the yaw, the
   * horizontal part of the direction points along the yaw (angle measured
   * from +y towards -x), with length |cos pitch|.
   */
  lemma CameraDirectionFacesYaw(m: Math, rot: Vector3)
    requires PythagoreanAt(m, rot.z * DegToRad)
    ensures var d := CameraDirection(m, rot);
      -d.x * m.sin(rot.z * DegToRad) + d.y * m.cos(rot.z * DegToRad) == Abs(m.cos(rot.x * DegToRad))
  {
    var s, c := m.sin(rot.z * DegToRad), m.cos(rot.z * DegToRad);
    var n := Abs(m.cos(rot.x * DegToRad));
    var d := CameraDirection(m, rot);
    calc {
      -d.x * s + d.y * c;
      (s * n) * s + (c * n) * c;
      (s * s + c * c) * n;
      n;
    }
  }

  /** Where the identity holds at both angles, the direction is a unit vector. */
  lemma CameraDirectionIsUnit(m: Math, rot: Vector3)
    requires PythagoreanAt(m, rot.z * DegToRad) && PythagoreanAt(m, rot.x * DegToRad)
    ensures LengthSquared(CameraDirection(m, rot)) == 1.0
  {
    var s, c := m.sin(rot.z * DegToRad), m.cos(rot.z * DegToRad);
    var sx, cx := m.sin(rot.x * DegToRad), m.cos(rot.x * DegToRad);
    var n := Abs(cx);
    var d := CameraDirection(m, rot);
    assert n * n == cx * cx;
    calc {
      LengthSquared(d);
      (-s * n) * (-s * n) + (c * n) * (c * n) + sx * sx;
      (s * s + c * c) * (n * n) + sx * sx;
      n * n + sx * sx;
      cx * cx + sx * sx;
      1.0;
    }
  }

  /** The far end of the ray: `maxDistance` along the direction from the camera. */
  function RayEnd(camPos: Vector3, dir: Vector3, maxDistance: real): (e: Vector3)
    ensures Sub(e, camPos) == Mul(dir, Scalar(maxDistance))
  {
    Vector3(camPos.x + dir.x * maxDistance, camPos.y + dir.y * maxDistance, camPos.z + dir.z * maxDistance)
  }

  /**
   * `screenToWorld`: a `raycast` from the gameplay camera along its viewing
   * direction. The screen coordinates take no part, and no entity is ignored.
   */
  function ScreenToWorld(m: Math, host: HostState, screenX: real, screenY: real, flags: int, maxDistance: real): (r: RaycastResult)
    ensures var camPos := TransformNumberArrayInVector3(host.gameplayCamCoord);
      var camRot := TransformNumberArrayInVector3(host.gameplayCamRot(2));
      r == Raycast(host, camPos, RayEnd(camPos, CameraDirection(m, camRot), maxDistance), flags, 0)
  {
    var camPos := TransformNumberArrayInVector3(host.gameplayCamCoord);
    var camRot := TransformNumberArrayInVector3(host.gameplayCamRot(2));
    Raycast(host, camPos, RayEnd(camPos, CameraDirection(m, camRot), maxDistance), flags, 0)
  }

  /** Where the screen points plays no part in the ray. */
  lemma ScreenPointIgnored(m: Math, host: HostState, x1: real, y1: real, x2: real, y2: real, flags: int, d: real)
    ensures ScreenToWorld(m, host, x1, y1, flags, d) == ScreenToWorld(m, host, x2, y2, flags, d)
  {
  }

  /** A level camera with zero yaw looks along +y: the ray ends `maxDistance` straight ahead. */
  lemma LevelCameraLooksAlongY(m: Math, camPos: Vector3, maxDistance: real)
    requires m.sin(0.0) == 0.0 && m.cos(0.0) == 1.0
    ensures CameraDirection(m, Zero) == Vector3(0.0, 1.0, 0.0)
    ensures RayEnd(camPos, CameraDirection(m, Zero), maxDistance) == Vector3(camPos.x, camPos.y + maxDistance, camPos.z)
  {
  }

  /** `getGroundZ`: the ground height found below the point, or the point's own height. */
  function GetGroundZ(host: HostState, position: Vector3): (z: real)
    ensures var probe := host.groundZFor3dCoord(position.x, position.y, position.z, false);
      (probe.found ==> z == probe.value) && (!probe.found ==> z == position.z)
  {
    var probe := host.groundZFor3dCoord(position.x, position.y, position.z, false);
    if probe.found then probe.value else position.z
  }

  /** `getWaterHeight`: the water height at the point, or -1 when there is none. */
  function GetWaterHeight(host: HostState, position: Vector3): (h: real)
    ensures var probe := host.waterHeight(position.x, position.y, position.z);
      (probe.found ==> h == probe.value) && (!probe.found ==> h == -1.0)
  {
    var probe := host.waterHeight(position.x, position.y, position.z);
    if probe.found then probe.value else -1.0
  }

  /** One ground probe of `getGroundZAsync`: straight down from height 1000. */
  function GroundProbe(s: HostState, position: Vector3): Probe
  {
    s.groundZFor3dCoord(position.x, position.y, GroundProbeZ, false)
  }

  /** No probe among the first `n` found ground. */
  predicate NoGroundBefore(later: seq<HostState>, position: Vector3, n: nat)
    requires n <= |later|
  {
    forall j :: 0 <= j < n ==> !GroundProbe(later[j], position).found
  }

  /** The commands of `n` attempts: a collision request at the point, then a 50 ms wait. */
  function CollisionRequests(position: Vector3, n: nat): (cmds: seq<Command>)
    ensures |cmds| == 2 * n
  {
    if n == 0 then []
    else CollisionRequests(position, n - 1)
         + [RequestCollisionAtCoord(position.x, position.y, position.z), Wait(GroundWaitMs)]
  }

  /** How `getGroundZAsync` ends: found at an attempt, gave up after ten, or still waiting. */
  datatype GroundSearch = FoundAt(attempt: nat, z: real) | GaveUp(z: real) | Searching

  /**
   * `getGroundZAsync`. Attempt `i` requests collision at the point, waits
   * 50 ms and then probes the snapshot `later[i]`; the first probe that finds
   * ground gives its height, and after ten failures the point's own height.
   */
  method GetGroundZAsync(later: seq<HostState>, position: Vector3) returns (r: GroundSearch, trace: seq<Command>)
    ensures r.FoundAt? ==>
      r.attempt < GroundAttempts && r.attempt < |later|
      && GroundProbe(later[r.attempt], position).found && r.z == GroundProbe(later[r.attempt], position).value
      && NoGroundBefore(later, position, r.attempt)
      && trace == CollisionRequests(position, r.attempt + 1)
    ensures r.GaveUp? ==>
      |later| >= GroundAttempts && NoGroundBefore(later, position, GroundAttempts)
      && r.z == position.z && trace == CollisionRequests(position, GroundAttempts)
    ensures r.Searching? ==>
      |later| < GroundAttempts && NoGroundBefore(later, position, |later|)
      && trace == CollisionRequests(position, |later|)
  {
    trace := [];
    var i := 0;
    while i < GroundAttempts && i < |later|
      invariant i <= GroundAttempts && i <= |later|
      invariant trace == CollisionRequests(position, i)
      invariant NoGroundBefore(later, position, i)
    {
      trace := trace + [RequestCollisionAtCoord(position.x, position.y, position.z), Wait(GroundWaitMs)];
      var probe := GroundProbe(later[i], position);
      if probe.found {
        return FoundAt(i, probe.value), trace;
      }
      i := i + 1;
    }
    if i == GroundAttempts {
      r := GaveUp(position.z);
    } else {
      r := Searching;
    }
  }
}
