/**
 * `FiveVEntity`: a wrapper around an entity handle. The handle is fixed at
 * construction; every property re-asks the host, so the wrapper holds no
 * state of its own. Setters return the commands they issue.
 */
module Entities {
  import opened Host
  import opened JsMath
  import opened Vectors
  import opened Transformer
  import opened Nullable
  import Network
  import JsNumber

  /** A wrapper of one of the entity classes around its handle (`handle`, `entity`, `ped`, `vehicle`, `object`). */
  datatype Entity = Entity(kind: Kind, handle: Handle)

  /** A new value for `position` or `rotation`: a three-element array or a vector. */
  datatype Triple = AsArray(a: Coords) | AsVector(v: Vector3)

  /** The three numbers a `Triple` carries, in x, y, z order. */
  function Components(t: Triple): (v: Vector3)
    ensures t.AsVector? ==> v == t.v
    ensures t.AsArray? ==> ToArray(v) == t.a
  {
    match t
    case AsArray(a) => TransformNumberArrayInVector3(a)
    case AsVector(v) => v
  }

  /** `exists`: asks `DoesEntityExist` on every access, including for handle 0. */
  function Exists(host: HostState, e: Entity): (b: bool)
    ensures b <==> host.doesEntityExist(e.handle)
  {
    host.doesEntityExist(e.handle)
  }

  /** `exists` looks at the handle only: wrappers of one handle as different kinds agree. */
  lemma ExistsIgnoresKind(host: HostState, k1: Kind, k2: Kind, h: Handle)
    ensures Exists(host, Entity(k1, h)) == Exists(host, Entity(k2, h))
  {
  }

  /** `position`: the host's world coordinates of the entity. */
  function Position(host: HostState, e: Entity): (p: Vector3)
    ensures ToArray(p) == host.entityCoords(e.handle, true)
  {
    TransformNumberArrayInVector3(host.entityCoords(e.handle, true))
  }

  /** `rotation`: the host's rotation of the entity in rotation order 2. */
  function Rotation(host: HostState, e: Entity): (r: Vector3)
    ensures ToArray(r) == host.entityRotation(e.handle, 2)
  {
    TransformNumberArrayInVector3(host.entityRotation(e.handle, 2))
  }

  /**
   * The `position` setter: first request collision at the target, then move
   * the entity there with every axis flag and the area clearing off.
   */
  function SetPosition(e: Entity, t: Triple): (cmds: seq<Command>)
    ensures |cmds| == 2
    ensures cmds[0].RequestCollisionAtCoord? && cmds[1].SetEntityCoords?
    ensures cmds[1].entity == e.handle
    ensures cmds[0].x == cmds[1].x && cmds[0].y == cmds[1].y && cmds[0].z == cmds[1].z
    ensures Vector3(cmds[1].x, cmds[1].y, cmds[1].z) == Components(t)
    ensures !cmds[1].xAxis && !cmds[1].yAxis && !cmds[1].zAxis && !cmds[1].clearArea
  {
    match t
    case AsArray(a) =>
      [RequestCollisionAtCoord(a[0], a[1], a[2]), SetEntityCoords(e.handle, a[0], a[1], a[2], false, false, false, false)]
    case AsVector(v) =>
      [RequestCollisionAtCoord(v.x, v.y, v.z), SetEntityCoords(e.handle, v.x, v.y, v.z, false, false, false, false)]
  }

  /** The `rotation` setter: one `SetEntityRotation` in order 2, and no collision request. */
  function SetRotation(e: Entity, t: Triple): (cmds: seq<Command>)
    ensures |cmds| == 1 && cmds[0].SetEntityRotation?
    ensures cmds[0].entity == e.handle && cmds[0].rotationOrder == 2 && !cmds[0].p5
    ensures Vector3(cmds[0].pitch, cmds[0].roll, cmds[0].yaw) == Components(t)
  {
    match t
    case AsArray(a) => [SetEntityRotation(e.handle, a[0], a[1], a[2], 2, false)]
    case AsVector(v) => [SetEntityRotation(e.handle, v.x, v.y, v.z, 2, false)]
  }

  /** `speed`, in metres per second. */
  function Speed(host: HostState, e: Entity): real
  {
    host.entitySpeed(e.handle)
  }

  /** `networkId`: -1 for an entity that is not networked, else the host's network id. */
  function NetworkId(host: HostState, e: Entity): (id: int)
    ensures !host.isEntityNetworked(e.handle) ==> id == -1
    ensures host.isEntityNetworked(e.handle) ==> id == host.networkIdFromEntity(e.handle)
  {
    if !host.isEntityNetworked(e.handle) then -1 else host.networkIdFromEntity(e.handle)
  }

  /** `distanceTo`: the distance from the entity's current position to `target`. */
  function DistanceToPoint(m: Math, host: HostState, e: Entity, target: Vector3): (d: real)
    ensures RootOf(m, DistanceSquared(Position(host, e), target)) ==>
      d >= 0.0 && d * d == DistanceSquared(Position(host, e), target)
  {
    DistanceTo(m, Position(host, e), target)
  }

  /** `distanceToEntity`: the distance between the two entities' current positions. */
  function DistanceToEntity(m: Math, host: HostState, a: Entity, b: Entity): (d: real)
    ensures d == DistanceToPoint(m, host, a, Position(host, b))
  {
    DistanceTo(m, Position(host, a), Position(host, b))
  }

  /** A wrapper around `h`, or `null` for the host's "no entity" handle 0. */
  function Wrap(kind: Kind, h: Handle): (r: Nullable<Entity>)
    ensures r == Null <==> h == 0
    ensures r.Some? ==> r.value.kind == kind && r.value.handle == h
  {
    if h == 0 then Null else Some(Entity(kind, h))
  }

  /**
   * The static `fromNetworkId` of the entity classes: `null` unless the network
   * entity exists, its handle is not 0 and `DoesEntityExist` holds; with
   * `probeKind`, the kind probe must hold too. Unlike the network helpers,
   * a zero id is not rejected before the host is asked.
   */
  function ClassFromNetworkId(host: HostState, netId: real, kind: Kind, probeKind: bool): (r: Nullable<Entity>)
    ensures r.Some? <==>
      (host.networkEntityExists(netId) && Network.Convert(host, kind, netId) != 0
       && host.doesEntityExist(Network.Convert(host, kind, netId))
       && (probeKind ==> IsKind(host, kind, Network.Convert(host, kind, netId))))
    ensures r.Some? ==> r.value == Entity(kind, Network.Convert(host, kind, netId))
  {
    if !host.networkEntityExists(netId) then Null
    else
      var h := Network.Convert(host, kind, netId);
      if h == 0 || !host.doesEntityExist(h) then Null
      else if probeKind && !IsKind(host, kind, h) then Null
      else Some(Entity(kind, h))
  }

  /** Every wrapper that `fromNetworkId` hands out exists at the moment it is made. */
  lemma FromNetworkIdWrapsLiveEntity(host: HostState, netId: real, kind: Kind, probeKind: bool)
    ensures var r := ClassFromNetworkId(host, netId, kind, probeKind);
      r.Some? ==> Exists(host, r.value) && r.value.handle != 0
  {
  }

  /**
   * With the kind probe, the class-level look-up and the network helper agree
   * on every non-zero id: one finds the entity exactly when the other does,
   * and then on the same handle.
   */
  lemma ClassLookupMatchesNetworkHelper(host: HostState, netId: real, kind: Kind)
    requires netId != 0.0
    ensures var r := ClassFromNetworkId(host, netId, kind, true);
      (r.Some? <==> Network.Resolves(host, JsNumber.Num(netId), kind))
      && (r.Some? ==> r.value.handle == Network.ResolveNetworkId(host, JsNumber.Num(netId), kind))
  {
  }

  /** The array and vector forms of the `position` setter issue the same commands. */
  lemma SetPositionFormsAgree(e: Entity, v: Vector3)
    ensures SetPosition(e, AsArray(ToArray(v))) == SetPosition(e, AsVector(v))
  {
  }

  /** The array and vector forms of the `rotation` setter issue the same command. */
  lemma SetRotationFormsAgree(e: Entity, v: Vector3)
    ensures SetRotation(e, AsArray(ToArray(v))) == SetRotation(e, AsVector(v))
  {
  }

  /** For fixed positions the distance between two entities does not depend on their order. */
  lemma DistanceToEntitySymmetric(m: Math, host: HostState, a: Entity, b: Entity)
    ensures DistanceToEntity(m, host, a, b) == DistanceToEntity(m, host, b, a)
  {
    DistanceSymmetric(m, Position(host, a), Position(host, b));
  }

  /** Moving an entity and reading it back: a host that applied the move reports the new position. */
  lemma SetThenGetPosition(host: HostState, e: Entity, t: Triple, moved: HostState)
    requires var c := SetPosition(e, t)[1];
      moved.entityCoords(e.handle, true) == [c.x, c.y, c.z]
    ensures Position(moved, e) == Components(t)
  {
  }
}
