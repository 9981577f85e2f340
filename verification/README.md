# fiveV_client core, modelled in Dafny

This project models the client-side core of the FiveV framework for FiveM.
FiveV is a TypeScript layer over the GTA V scripting natives. The model covers:

- the network-id helpers (`Utils`);
- the streaming helpers that request an asset and poll until it loads or times out;
- the `Vector3` arithmetic and the `TransformNumberArrayInVector3` converter;
- the entity wrappers `FiveVEntity`, `FiveVPed`, `FiveVVehicle` and `FiveVObject`;
- the world helpers (spawning, ray casts, screen-to-world, ground and water probes);
- the weapon catalogue look-ups of `FiveVWeapon`.

The game is modelled as follows:

- **Natives.** Every native the core calls is a field of the abstract host state
  `Host.HostState`. A native that reads state is an uninterpreted function.
  A native that changes the game is a `Host.Command` value. Each operation returns
  the commands it issues, in order.
- **Asynchronous code.** `setTimeout`, `await wait(ms)` and the game timer are
  modelled by a sequence `later` of host snapshots. Each snapshot is what the
  code observes at its next poll.
- **`Math.sqrt`, `Math.sin`, `Math.cos`.** These are fields of `JsMath.Math`.
  A lemma states the laws it needs as requirements.
- **JavaScript values.**
  - `Number` is `JsNumber.Number`: `NaN` or a real.
  - `Number(s)` is `JsNumber.ToNumber`, which reads the whole string.
  - `parseInt(s)` is `JsNumber.ParseInt`, which reads a prefix.
  - `split` and `startsWith` are in `JsString`. So is `toLowerCase`, which there folds ASCII letters only.
  - The white space that `Number` and `parseInt` skip is the full JavaScript set: every Unicode space separator, tab, vertical tab, form feed, the byte-order mark and the four line terminators.
  - `null` is `Nullable.Null`.
- **Class hierarchy.** The entity classes become one `Entities.Entity(kind, handle)`
  value. Its `kind` tag records which wrapper class was built.

Where the code and its documentation disagree, the model follows the code:

- `exists` calls `DoesEntityExist` even for handle 0. It does not short-circuit.
- `screenToWorld` converts degrees with the literal 0.0174532924, not with π/180.
- The class-level `fromNetworkId` of `FiveVVehicle` and `FiveVPed` checks existence only. It has no kind probe.
- The class-level `fromNetworkId` helpers do not reject a falsy id. The `Utils` helpers do.
- `add(v1, v2)` on a `Vector3` ignores its receiver. The declaration file promises `add(v2)`.
- `isCar` is false for trains, and so are `isBike`, `isAircraft` and `isBoat`.
  A train is therefore none of the four kinds.

## Model

| member | source | states |
|---|---|---|
| JsString.Split | src/utils/network.ts:9 | the parts contain no separator, and there is more than one part exactly when the separator occurs |
| JsString.JoinSplit | src/utils/network.ts:9 | joining the parts of a split with the same separator gives back the original string |
| JsString.SplitAfterFirstSeparator | src/utils/network.ts:20 | for `p:t` with no colon in `p`, part 0 is `p` and part 1 is the text of `t` up to its next colon |
| JsNumber.ToNumberOfIntString | src/utils/network.ts:10 | `Number` reads the decimal text of any integer back as that integer |
| JsNumber.ParseIntOfIntString | src/utils/network.ts:20 | `parseInt` reads the decimal text of any integer back as that integer |
| JsNumber.PrefixVersusWholeString | src/utils/network.ts:8-22 | `parseInt("12abc")` is 12, but `Number("12abc")` is NaN |
| JsNumber.EmptyAndNonNumeric | src/utils/network.ts:10 | `Number("")` is 0, `parseInt("")` is NaN, and non-numeric text is NaN for both |
| JsNumber.ToNumberSkipsLeadingWhiteSpace | src/utils/network.ts:10 | a leading white-space character does not change what `Number` reads |
| JsNumber.ToNumberSkipsSpaceSeparator | src/utils/network.ts:10 | `Number("\u30005")` is 5: the ideographic space counts as white space |
| Network.GetNetIdFromBagName | src/utils/network.ts:8-11 | the result is never falsy; with no colon it is -1; otherwise it is `Number` of the text after the first colon, or -1 when that is falsy |
| Network.NetIdFromBagNameRoundTrip | src/utils/network.ts:8-11 | for any colon-free prefix and any integer n, the name `prefix:n` yields n, except that n = 0 yields -1 |
| Network.NetIdFromForeignPrefix | src/utils/network.ts:8-11 | the prefix is not checked: `foo:5` yields 5 |
| Network.NetIdZeroIsNotFound | src/utils/network.ts:10 | `entity:0` yields -1, because 0 is falsy |
| Network.NetIdNonNumericIsNotFound | src/utils/network.ts:10 | `entity:abc` yields -1 |
| Network.NetIdRejectsTrailingText | src/utils/network.ts:10 | `entity:12abc` yields -1, because `Number` reads the whole segment |
| Network.NetIdOfSegment | src/utils/network.ts:8-11 | for `p:t` with no colon in either part, the result is `Number(t)`, or -1 when that is falsy |
| Network.NetIdSkipsSpaceSeparator | src/utils/network.ts:8-11 | a Unicode space separator before the id, such as U+3000, does not change the result |
| Network.ResolveNetworkId | src/utils/network.ts:29-35 | the converted handle is returned exactly when every guard holds: truthy id, networked, non-zero, existing, right kind; otherwise -1 |
| Network.GetVehFromNetworkId | src/utils/network.ts:29-35 | when every guard holds the result is the `NetToVeh` handle of the id, otherwise -1; a result other than -1 is a non-zero, existing vehicle |
| Network.GetPedFromNetworkId | src/utils/network.ts:53-59 | when every guard holds the result is the `NetToPed` handle of the id, otherwise -1; a result other than -1 is a non-zero, existing ped |
| Network.GetObjectFromNetworkId | src/utils/network.ts:77-83 | when every guard holds the result is the `NetToObj` handle of the id, otherwise -1; a result other than -1 is a non-zero, existing object |
| Network.GetEntityFromNetworkId | src/utils/network.ts:101-106 | when every guard but the kind probe holds the result is the `NetToObj` handle of the id, otherwise -1; a result other than -1 is non-zero and exists |
| Network.FalsyIdProbesNothing | src/utils/network.ts:30 | a falsy id gives -1 whatever the host state is |
| Network.ZeroHandleProbesNothingMore | src/utils/network.ts:32 | once the conversion gives handle 0, the existence and kind natives cannot change the result |
| Network.FromBagName | src/utils/network.ts:18-22 | a name without the `entity:` prefix gives -1; a name with it resolves the `parseInt` of its id text through the guard chain |
| Network.GetVehFromBagName | src/utils/network.ts:18-22 | -1 without the `entity:` prefix; otherwise `GetVehFromNetworkId` of the `parseInt` of the second colon-separated part |
| Network.GetPedFromBagName | src/utils/network.ts:42-46 | -1 without the `entity:` prefix; otherwise `GetPedFromNetworkId` of the `parseInt` of the second colon-separated part |
| Network.GetObjectFromBagName | src/utils/network.ts:66-70 | -1 without the `entity:` prefix; otherwise `GetObjectFromNetworkId` of the `parseInt` of the second colon-separated part |
| Network.GetEntityFromBagName | src/utils/network.ts:90-94 | -1 without the `entity:` prefix; otherwise `GetEntityFromNetworkId` of the `parseInt` of the second colon-separated part |
| Network.FromBagNameOfText | src/utils/network.ts:18-22 | `entity:t`, with no colon in `t`, resolves the `parseInt` of `t` through the guard chain |
| Network.FromBagNameRoundTrip | src/utils/network.ts:42-46 | `entity:n` resolves exactly as the network id n does, for every integer n |
| Network.FromBagNameReadsPrefix | src/utils/network.ts:66-70 | `entity:12abc` resolves as id 12, because `parseInt` reads a prefix |
| Transformer.TransformNumberArrayInVector3 | src/utils/Transformer.ts:7-10 | the vector holds the first three numbers of the array, in order |
| Transformer.TransformToArrayRoundTrip | src/utils/Transformer.ts:7-10 | converting a vector's components back into a vector gives the same vector |
| Transformer.TransformIgnoresTail | src/utils/Transformer.ts:7-10 | arrays that agree on their first three numbers give the same vector |
| Vectors.Add | src/utils/Vector3.ts:12-16 | subtracting the operand, a number counting in every component, from the sum gives back the first vector |
| Vectors.Sub | src/utils/Vector3.ts:22-24 | the difference is zero exactly when the two vectors are equal |
| Vectors.Mul | src/utils/Vector3.ts:30-34 | multiplying by one leaves the vector unchanged, and multiplying by zero gives zero |
| Vectors.Div | src/utils/Vector3.ts:40-44 | multiplying the quotient by the divisor gives back the dividend |
| Vectors.Dot | src/utils/Vector3.ts:50-52 | the product with a zero vector is 0 |
| Vectors.Cross | src/utils/Vector3.ts:58-64 | the cross product is orthogonal to both factors |
| Vectors.Normalize | src/utils/Vector3.ts:70-73 | a zero-length vector gives zero; otherwise the result scaled by the length is the input |
| Vectors.Clone | src/utils/Vector3.ts:79-81 | the copy has the same components |
| Vectors.DistanceTo | src/utils/Vector3.ts:83-85 | when the square root obeys its law, the distance is the non-negative root of the squared distance; it is 0 from a point to itself |
| Vectors.DistanceSquared | src/utils/Vector3.ts:91-96 | the squared distance is non-negative and 0 from a point to itself |
| Vectors.ToRadians | src/utils/Vector3.ts:102-108 | every component is scaled by π/180 |
| Vectors.AddSubtractRoundTrip | src/utils/Vector3.ts:12-28 | adding a vector and then subtracting it is the identity |
| Vectors.SubtractAddRoundTrip | src/utils/Vector3.ts:12-28 | subtracting a vector and then adding it is the identity |
| Vectors.ScalarBroadcasts | src/utils/Vector3.ts:12-44 | a number operand acts like the vector with that number in every component |
| Vectors.DotSelf | src/utils/Vector3.ts:50-56 | the dot product of a vector with itself is its squared length |
| Vectors.DotSymmetric | src/utils/Vector3.ts:50-56 | the dot product does not depend on operand order |
| Vectors.CrossAntisymmetric | src/utils/Vector3.ts:58-68 | swapping the factors negates the cross product |
| Vectors.DistanceSymmetric | src/utils/Vector3.ts:83-96 | the distance from a to b equals the distance from b to a |
| Vectors.DistanceIsLengthOfDifference | src/utils/Vector3.ts:83-100 | the distance is the length of the difference vector |
| Vectors.NormalizeZero | src/utils/Vector3.ts:70-73 | the zero vector normalizes to itself, whatever the square root gives for 0 |
| Vectors.NormalizeIsUnit | src/utils/Vector3.ts:70-73 | when the square root obeys its law and the length is not 0, the normalized vector has length 1 |
| Vectors.CrossIsRightHanded | src/utils/Vector3.ts:58-64 | x cross y is z and y cross x is -z, so the product follows the right-hand rule |
| Vectors.Length | src/utils/Vector3.ts:98-100 | when the square root obeys its law, the length is the non-negative number whose square is the sum of the squared components |
| Streaming.Check | src/utils/FiveVStreaming.ts:27-35 | one poll resolves exactly when loaded, and rejects exactly when not loaded and more than 10000 ms have passed; otherwise it reschedules |
| Streaming.PollFrom | src/utils/FiveVStreaming.ts:23-38 | the outcome is the first poll that does not reschedule, or pending when every poll reschedules |
| Streaming.LoadAsset | src/utils/FiveVStreaming.ts:103-122 | the request comes first and one 10 ms wait follows each reschedule; a resolution saw the asset loaded; a rejection saw it unloaded after more than 10000 ms; every earlier poll was undecided |
| Streaming.RequestModelAsync | src/utils/FiveVStreaming.ts:14-39 | it fails up front exactly when the model is not in the game image; otherwise it is the full load protocol for that model hash: request first, then the polls of `LoadAsset` |
| Streaming.RequestAnimDictAsync | src/utils/FiveVStreaming.ts:103-122 | the full load protocol for the animation dictionary, with no up-front check; its request is issued before any poll |
| Streaming.RequestAnimSetAsync | src/utils/FiveVStreaming.ts:151-170 | the full load protocol for the animation set, with no up-front check; its request is issued before any poll |
| Streaming.RequestPtfxAssetAsync | src/utils/FiveVStreaming.ts:199-218 | the full load protocol for the particle asset, with no up-front check; its request is issued before any poll |
| Streaming.RequestTextureDictAsync | src/utils/FiveVStreaming.ts:247-266 | the full load protocol for the texture dictionary, with no up-front check; its request, with `p1` false, is issued before any poll |
| Streaming.HasCollisionLoadedAtCoord | src/utils/FiveVStreaming.ts:308-310 | the answer is collision around the player ped; the coordinates are ignored |
| Streaming.CollisionIgnoresCoordinates | src/utils/FiveVStreaming.ts:308-310 | any two sets of coordinates give the same answer |
| Streaming.HashOf | src/utils/FiveVStreaming.ts:15 | a name is hashed with `GetHashKey`; a hash is used as it is |
| Streaming.HasModelLoaded | src/utils/FiveVStreaming.ts:47-50 | true exactly when the load test that the model loader polls holds for the model's hash |
| Streaming.SetModelAsNoLongerNeeded | src/utils/FiveVStreaming.ts:57-60 | one release command, for the same hash that `requestModel` requests |
| Streaming.NameAndHashAgree | src/utils/FiveVStreaming.ts:47-60 | a model name and its hash behave identically in every model helper |
| Streaming.FirstCheckIsImmediate | src/utils/FiveVStreaming.ts:37 | an asset already loaded resolves at the first poll, with no wait |
| Streaming.LoadedWinsOverTimeout | src/utils/FiveVStreaming.ts:28-31 | a loaded asset resolves even after the timeout has passed |
| Streaming.TimeoutIsStrict | src/utils/FiveVStreaming.ts:30 | exactly 10000 ms still reschedules, and 10001 ms rejects |
| Streaming.WaitsCountReschedules | src/utils/FiveVStreaming.ts:33 | the trace holds one wait per rescheduled poll |
| Streaming.SettledStaysSettled | src/utils/FiveVStreaming.ts:27-37 | later observations cannot change an outcome that is already settled |
| Streaming.PollSettlesWithinBudget | src/utils/FiveVStreaming.ts:24-33 | when each poll comes at least 10 ms after the previous one, the load settles within 1002 polls |
| Entities.Exists | src/Class/FiveVEntity.ts:32-34 | true exactly when `DoesEntityExist` holds for the handle; handle 0 is not special-cased |
| Entities.ExistsIgnoresKind | src/Class/FiveVEntity.ts:32-34 | wrappers of one handle as different kinds agree on `exists` |
| Entities.Position | src/Class/FiveVEntity.ts:41-43 | the position is the host's world coordinates of the entity |
| Entities.Rotation | src/Class/FiveVEntity.ts:66-68 | the rotation is the host's rotation in order 2 |
| Entities.SetPosition | src/Class/FiveVEntity.ts:50-59 | the setter requests collision at the new coordinates, then sets them with every flag false |
| Entities.SetRotation | src/Class/FiveVEntity.ts:75-82 | the setter issues one rotation in order 2, with `p5` false |
| Entities.SetPositionFormsAgree | src/Class/FiveVEntity.ts:50-59 | the array form and the vector form of the setter issue the same commands |
| Entities.SetRotationFormsAgree | src/Class/FiveVEntity.ts:75-82 | the array form and the vector form of the setter issue the same commands |
| Entities.SetThenGetPosition | src/Class/FiveVEntity.ts:41-59 | once the host carries out the setter, the getter reads back what was set |
| Entities.NetworkId | src/Class/FiveVEntity.ts:197-200 | the id is -1 for an entity that is not networked, and the host's id otherwise |
| Entities.DistanceToPoint | src/Class/FiveVEntity.ts:304-306 | the result is the distance from the entity's position to the point |
| Entities.DistanceToEntity | src/Class/FiveVEntity.ts:313-315 | the result is the distance between the two positions |
| Entities.DistanceToEntitySymmetric | src/Class/FiveVEntity.ts:313-315 | the distance from a to b equals the distance from b to a |
| Entities.Wrap | src/Class/FiveVPed.ts:288-291 | handle 0 gives `null`; any other handle gives a wrapper of that kind |
| Entities.ClassFromNetworkId | src/Class/FiveVObject.ts:104-110 | a wrapper is returned exactly when the id is networked and the converted handle is non-zero, exists and, if probed, has the right kind |
| Entities.FromNetworkIdWrapsLiveEntity | src/Class/FiveVObject.ts:104-110 | every wrapper that `fromNetworkId` returns has a non-zero handle for which `exists` holds |
| Entities.ClassLookupMatchesNetworkHelper | src/Class/FiveVObject.ts:104-110 | for a non-zero id, the probed class look-up succeeds exactly when the network helper does, with the same handle |
| Peds.Vehicle | src/Class/FiveVPed.ts:277-281 | `null` exactly when the ped is not in a vehicle or the vehicle handle is 0 |
| Peds.LastVehicle | src/Class/FiveVPed.ts:288-291 | `null` exactly when the last vehicle handle is 0 |
| Peds.SeatIndex | src/Class/FiveVPed.ts:297-306 | the result is -2 outside a vehicle; otherwise it is the first seat from -1 below the passenger count that holds the ped, or -2 when no seat does |
| Peds.IsDriver | src/Class/FiveVPed.ts:312-314 | true exactly when the ped is in a vehicle, the driver seat is searched, and the ped sits in it |
| Peds.TaskLeaveVehicle | src/Class/FiveVPed.ts:355-360 | one leave task for the current vehicle, and no command when its handle is 0 |
| Peds.FromNetworkId | src/Class/FiveVPed.ts:595-600 | a ped wrapper exactly when the id is networked and its ped handle is non-zero and exists |
| Peds.GetClosest | src/Class/FiveVPed.ts:608-612 | `null` exactly when nothing was found or the ped is 0 |
| VehicleTypes.ClassCode | src/@types/vehicle.ts:59-83 | each class's number is its position in the enumeration |
| VehicleTypes.ClassOf | src/@types/vehicle.ts:59-83 | numbers 0 to 22 name a class, and that class numbers back to the same number |
| VehicleTypes.ClassCodeRoundTrip | src/@types/vehicle.ts:59-83 | numbering a class and reading the number back gives the class |
| VehicleTypes.NeonOrderCoversAll | src/@types/vehicle.ts:40-45 | every light has its own index, and the visiting order covers every light |
| Vehicles.SpeedKmh | src/Class/FiveVVehicle.ts:50-52 | the reading is the entity speed times 3.6; it is zero exactly when the speed is zero, and never negative for a non-negative speed |
| Vehicles.SpeedMph | src/Class/FiveVVehicle.ts:59-61 | the reading is the entity speed times 2.236936; it is zero exactly when the speed is zero, and never negative for a non-negative speed |
| Vehicles.SpeedUnitsAgree | src/Class/FiveVVehicle.ts:50-61 | both readings describe the same speed, and km/h exceeds mph exactly when moving |
| Vehicles.Neons | src/Class/FiveVVehicle.ts:252-257 | true exactly when all four lights are on |
| Vehicles.SetNeons | src/Class/FiveVVehicle.ts:264-269 | the same state is set for back, front, left and right, in that order |
| Vehicles.SetThenGetNeons | src/Class/FiveVVehicle.ts:252-269 | after the setter, the getter reads the state that was set, and other vehicles keep theirs |
| Vehicles.GetActiveNeons | src/Class/FiveVVehicle.ts:276-286 | the lights that are on, each once, in the order back, front, left, right |
| Vehicles.ActiveNeonsAllOn | src/Class/FiveVVehicle.ts:252-286 | all four lights are listed as active exactly when the getter is true |
| Vehicles.CloseAllDoors | src/Class/FiveVVehicle.ts:221-225 | doors 0 to 5 are shut in turn, none instantly |
| Vehicles.Occupants | src/Class/FiveVVehicle.ts:438-451 | eight entries, the ped in seats -1 to 6 in order |
| Vehicles.IsCar | src/Class/FiveVVehicle.ts:486-493 | true exactly when the number names no class, or names a class other than boats, helicopters, planes, cycles, motorcycles and trains |
| Vehicles.IsBike | src/Class/FiveVVehicle.ts:499-502 | true exactly when the number names motorcycles or cycles |
| Vehicles.IsAircraft | src/Class/FiveVVehicle.ts:508-511 | true exactly when the number names helicopters or planes |
| Vehicles.IsBoat | src/Class/FiveVVehicle.ts:517-519 | true exactly when the number names boats |
| Vehicles.ClassPredicatesPartition | src/Class/FiveVVehicle.ts:486-519 | at most one of car, bike, aircraft and boat holds; one holds exactly when the class is not trains; an unknown number counts as a car |
| Vehicles.IsCarExactly | src/Class/FiveVVehicle.ts:486-493 | a class is not a car exactly when it is a boat, helicopter, plane, cycle, motorcycle or train |
| Vehicles.FromNetworkId | src/Class/FiveVVehicle.ts:557-562 | a vehicle wrapper exactly when the id is networked and its vehicle handle is non-zero and exists |
| Vehicles.GetClosest | src/Class/FiveVVehicle.ts:570-574 | `null` exactly when the search with flags 70 reports handle 0 |
| WorldObjects.PlaceOnGroundWithOffset | src/Class/FiveVObject.ts:32-36 | the object is placed, then moved to its placed x and y with z raised by the offset |
| WorldObjects.ZeroOffsetKeepsPlacement | src/Class/FiveVObject.ts:32-36 | with offset 0 the object is set back exactly where the placement left it |
| WorldObjects.FromNetworkId | src/Class/FiveVObject.ts:104-110 | an object wrapper exactly when the id is networked and its handle is non-zero, exists and is an object |
| WorldObjects.GetClosest | src/Class/FiveVObject.ts:119-123 | `null` exactly when the search for the model reports handle 0 |
| World.FirstLoadedFrom | src/Class/FiveVWorld.ts:203-205 | the wait loop stops at the first snapshot where the model is loaded |
| World.SpawnAfterLoad | src/Class/FiveVWorld.ts:202-210 | request, one 10 ms wait per unloaded poll, then create and release the model; the entity is the host's created handle |
| World.CreateVehicle | src/Class/FiveVWorld.ts:189-211 | it throws exactly when the model is not in the game image or not a vehicle; otherwise it is the spawn protocol of `SpawnAfterLoad` with the vehicle-creation command at the given position |
| World.CreatePed | src/Class/FiveVWorld.ts:223-246 | it throws exactly when the model is not in the game image; otherwise it is the spawn protocol of `SpawnAfterLoad` with the ped-creation command at the given position |
| World.CreateObject | src/Class/FiveVWorld.ts:257-279 | it throws exactly when the model is not in the game image; otherwise it is the spawn protocol of `SpawnAfterLoad` with the object-creation command at the given position |
| World.VehicleCheckIsStricter | src/Class/FiveVWorld.ts:198 | a model that exists but is not a vehicle is refused as a vehicle but accepted as an object |
| World.SpawnWithoutWaiting | src/Class/FiveVWorld.ts:202-210 | a model already loaded is created with no wait |
| World.Raycast | src/Class/FiveVWorld.ts:292-303 | the fields come from the shape-test result of the ray; the material hash is 0 |
| World.RaycastWithMaterial | src/Class/FiveVWorld.ts:314-325 | the fields come from the probe result with options 4, including the material hash |
| World.CameraDirection | src/Class/FiveVWorld.ts:340-348 | the direction's z is the sine of the pitch, and its horizontal part is perpendicular to the unit vector (cos yaw, sin yaw) |
| World.CameraDirectionFacesYaw | src/Class/FiveVWorld.ts:340-348 | when sine and cosine obey the Pythagorean identity at the yaw, the horizontal part points along the yaw, away from the reverse direction, with length equal to the absolute cosine of the pitch |
| World.CameraDirectionIsUnit | src/Class/FiveVWorld.ts:340-348 | when the identity holds at the yaw and at the pitch, the direction has length 1 |
| World.RayEnd | src/Class/FiveVWorld.ts:350-354 | the end point is the camera position plus the direction scaled by the maximum distance |
| World.ScreenToWorld | src/Class/FiveVWorld.ts:336-357 | a ray from the camera to the end point, with the given flags and no ignored entity |
| World.ScreenPointIgnored | src/Class/FiveVWorld.ts:336-357 | the screen coordinates do not change the result |
| World.LevelCameraLooksAlongY | src/Class/FiveVWorld.ts:340-354 | a level, unrotated camera looks along +y |
| World.GetGroundZ | src/Class/FiveVWorld.ts:367-370 | the probed ground height when found, the input z otherwise |
| World.GetWaterHeight | src/Class/FiveVWorld.ts:393-396 | the water height when found, -1 otherwise |
| World.GetGroundZAsync | src/Class/FiveVWorld.ts:377-385 | ground found on attempt k means attempts before k found none and k+1 collision requests and waits were issued; after 10 misses the input z is returned |
| Weapons.Index | src/Class/FiveVWeapon.ts:20-23 | the map's keys are exactly the records' keys, and each key maps to the last record that has it |
| Weapons.InitCache | src/Class/FiveVWeapon.ts:16-25 | the maps are built from the catalogue when absent and left alone otherwise |
| Weapons.InitCacheIdempotent | src/Class/FiveVWeapon.ts:16-25 | building the cache a second time changes nothing, whatever the catalogue |
| Weapons.GetByName | src/Class/FiveVWeapon.ts:85-88 | `null` exactly when no record's name matches ignoring ASCII case; otherwise the last such record |
| Weapons.GetByHash | src/Class/FiveVWeapon.ts:95-98 | `null` exactly when no record's hash string matches ignoring ASCII case; otherwise the last such record |
| Weapons.LookupFindsLastRecord | src/Class/FiveVWeapon.ts:85-98 | a record whose key no later record shares is found by its own name or hash, in either case |
| Weapons.GetByNameIgnoresCase | src/Class/FiveVWeapon.ts:85-88 | names that differ only in ASCII letter case find the same record |
| Weapons.WeaponHash | src/Class/FiveVWeapon.ts:105-108 | the found record's hash string, or `null` when nothing is found |
| Weapons.WeaponModelHashKey | src/Class/FiveVWeapon.ts:115-118 | the found record's model hash key, or `null` when nothing is found |
| Weapons.WeaponDescription | src/Class/FiveVWeapon.ts:125-128 | the found record's description, or `null` when nothing is found |
| Weapons.WeaponComponents | src/Class/FiveVWeapon.ts:135-138 | the found record's components, or `null` when nothing is found |
| Weapons.GetAllWeaponHashes | src/Class/FiveVWeapon.ts:41-43 | one hash string per record, in catalogue order |
| Weapons.ListedHashesAreFound | src/Class/FiveVWeapon.ts:41-98 | every listed hash string finds a record by hash |
| Weapons.GetAllWeaponModelHashKeys | src/Class/FiveVWeapon.ts:49-51 | one model hash key per record, in catalogue order |
| Weapons.GetAllWeaponDescriptions | src/Class/FiveVWeapon.ts:57-59 | one description per record, in catalogue order |
| Weapons.GetAllWeaponComponents | src/Class/FiveVWeapon.ts:65-67 | one component list per record, in catalogue order |
| Weapons.GetWeaponsByType | src/Class/FiveVWeapon.ts:74-76 | an order-preserving subsequence of the catalogue, holding only that type and every record of that type |
| Weapons.WeaponsByTypeKeepsCopies | src/Class/FiveVWeapon.ts:74-76 | every record of that type keeps all its copies in the result, and no other record appears |
| Weapons.WeaponsByTypeOfConcat | src/Class/FiveVWeapon.ts:74-76 | filtering two joined lists is filtering each and joining the results |
| Weapons.WeaponsByTypeIdempotent | src/Class/FiveVWeapon.ts:74-76 | filtering twice by the same type is filtering once |
| Weapons.GetPlayerCurrentWeapon | src/Class/FiveVWeapon.ts:189-192 | the weapon `GetCurrentPedWeapon` reports for the player ped, with its second argument true |
| Weapons.GetPlayerCurrentWeaponData | src/Class/FiveVWeapon.ts:198-206 | the first record whose hash string hashes to the player's current weapon, or `null` when none does |

## Left out

- Vectors.Div: requires a non-zero divisor, so division by zero is not modelled. JavaScript would give Infinity or NaN, which have no counterpart in Dafny reals.
- Floating point in general: arithmetic is on exact reals. Rounding and `-0` are not modelled.
- `Transformer.TransformNumberArrayInVector3` requires at least three numbers. JavaScript would read `undefined` for missing entries, and every native the core calls returns three.
- JsNumber.ToNumber: treats exponent notation, `Infinity` and the `0o`/`0b` prefixes as NaN. Only decimal and `0x` literals are read. Bag names carry decimal ids.
- Network.GetNetIdFromBagName: inherits the limits of `JsNumber.ToNumber`. An id in exponent notation, `Infinity` or a `0o`/`0b` literal gives -1 here, where JavaScript would give the number.
- JsString.ToLowerCase: folds ASCII letters only and keeps the length. JavaScript lowers every cased Unicode letter, for example the Kelvin sign U+212A to `k`, and some letters lower to two code units, for example `İ`.
- Weapons.GetByName: matches names ignoring ASCII case only, because it uses `JsString.ToLowerCase`. A name with a non-ASCII cased letter can miss a record that JavaScript would find.
- Weapons.GetByHash: matches hash strings ignoring ASCII case only, for the same reason.
- Vectors.NormalizeIsUnit: assumes a non-zero length rather than a non-zero vector. The two agree whenever the square root obeys its law, but the arithmetic solver does not derive one from the other.
- `Vectors.DistanceSquared`: does not state that the squared distance is 0 only for equal points. The arithmetic solver cannot discharge it.
- `Vectors.Length`, `Vectors.DistanceTo`: square root, sine and cosine are uninterpreted. Their properties hold under the stated laws of `JsMath.Math`.
- Pending loads: a load is observed through a finite sequence of snapshots. A load that has not settled by the last snapshot is `Pending`. Errors are outcomes, not exceptions.
- The error messages of thrown errors and rejected promises are not modelled.
- `Weapons`: the weapon catalogue (`src/utils/weapons.ts`) is a parameter, not the literal list. `allGTAWeapons` returns it unchanged.
- `Weapons.GetPlayerCurrentWeaponData` also returns the index of the record it found.
- `Weapons.GetByName`, `Weapons.GetByHash`: they require the cache to be absent or built from the same catalogue. That is the only state the class can reach.
- Pass-through getters and setters of `FiveVEntity`, `FiveVPed`, `FiveVVehicle` and `FiveVObject` are left out. Each calls one native with the handle and returns its result (heading, health, alpha, rpm, plate text, config flags and so on). `Exists`, `Speed` and `VehicleClassCode` are kept as plain functions.
- `FiveVPlayer`, `FiveVCamera`, `FiveVBlip`, `FiveVUI`, the legacy `FiveM*` classes and `ungrouped.ts` are not part of this model.
- Time-of-day, weather, blackout and clear-area helpers of `FiveVWorld` are left out. Each forwards its arguments to one native.
