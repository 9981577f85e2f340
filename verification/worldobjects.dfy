/** `FiveVObject`: placing an object on the ground, and the static look-ups. */
module WorldObjects {
  import opened Host
  import opened Nullable
  import opened Vectors
  import opened Entities

  const DefaultSearchRadius: real := 25.0

  /** `getClosest` matches any model unless one is given. */
  const DefaultModelHash: Hash := 0

  /**
   * `placeOnGroundWithOffset`: place the object on the ground, read its new
   * position from the host that did so, then set it `offset` higher through
   * the `position` setter (which requests collision first).
   */
  function PlaceOnGroundWithOffset(placed: HostState, o: Entity, offset: real): (cmds: seq<Command>)
    ensures |cmds| == 3 && cmds[0] == PlaceObjectOnGroundProperly(o.handle)
    ensures cmds[1].RequestCollisionAtCoord? && cmds[2].SetEntityCoords? && cmds[2].entity == o.handle
    ensures var p := Position(placed, o);
      cmds[2].x == p.x && cmds[2].y == p.y && cmds[2].z == p.z + offset
  {
    var p := Position(placed, o);
    [PlaceObjectOnGroundProperly(o.handle)] + SetPosition(o, AsVector(Vector3(p.x, p.y, p.z + offset)))
  }

  /** With no offset the object is set back exactly where the placement left it. */
  lemma ZeroOffsetKeepsPlacement(placed: HostState, o: Entity)
    ensures var c := PlaceOnGroundWithOffset(placed, o, 0.0)[2];
      Vector3(c.x, c.y, c.z) == Position(placed, o)
  {
  }

  /** The static `fromNetworkId`: the full guard chain, including the `IsEntityAnObject` probe. */
  function FromNetworkId(host: HostState, netId: real): (r: Nullable<Entity>)
    ensures r.Some? ==> r.value.kind == ObjectKind && r.value.handle == host.netToObj(netId)
    ensures r.Some? <==> host.networkEntityExists(netId) && host.netToObj(netId) != 0
                         && host.doesEntityExist(host.netToObj(netId)) && host.isEntityAnObject(host.netToObj(netId))
  {
    ClassFromNetworkId(host, netId, ObjectKind, true)
  }

  /** `getClosest`: the nearest object of `modelHash` within `radius`, `null` when the host reports 0. */
  function GetClosest(host: HostState, position: Vector3, radius: real, modelHash: Hash): (r: Nullable<Entity>)
    ensures var h := host.closestObjectOfType(position.x, position.y, position.z, radius, modelHash, false, false, false);
      (r == Null <==> h == 0) && (r.Some? ==> r.value == Entity(ObjectKind, h))
  {
    Wrap(ObjectKind, host.closestObjectOfType(position.x, position.y, position.z, radius, modelHash, false, false, false))
  }
}
