/**
 * `FiveVWeapon`: the weapon catalogue and its look-ups. The catalogue is a
 * list of records; two maps keyed by the lower-cased name and by the
 * lower-cased hash string are built from it once, on the first look-up.
 */
module Weapons {
  import opened Host
  import opened Nullable
  import opened Sequences
  import opened JsString

  /** `WEAPONTYPE`. */
  datatype WeaponType =
    | Unarmed | FireExtinguisher | PetrolCan | Thrown | Melee | StunGun | Pistol | Smg
    | MachineGun | Shotgun | Rifle | Sniper | Heavy | MetalDetector | Hacking

  /** `FiveVWeaponComponentData`. */
  datatype ComponentData = ComponentData(name: string, hashKey: string, hash: string)

  /** `FiveVWeaponData`: `hash` is the weapon's hash string, such as "WEAPON_PISTOL". */
  datatype WeaponData = WeaponData(
    name: string, weaponType: WeaponType, hash: string, modelHashKey: string,
    description: string, components: seq<ComponentData>)

  /** The two look-up keys. */
  datatype KeyField = ByName | ByHash

  /** The map key of a record: its name or its hash string, lower-cased. */
  function KeyOf(f: KeyField, w: WeaponData): string
  {
    match f
    case ByName => ToLowerCase(w.name)
    case ByHash => ToLowerCase(w.hash)
  }

  /** The key of every record, in catalogue order. */
  function Keys(list: seq<WeaponData>, f: KeyField): (keys: seq<string>)
    ensures |keys| == |list|
    ensures forall i :: 0 <= i < |list| ==> keys[i] == KeyOf(f, list[i])
  {
    seq(|list|, i requires 0 <= i < |list| => KeyOf(f, list[i]))
  }

  /** No later position of `keys` holds the key at position `i`. */
  predicate LastWithKey(keys: seq<string>, i: int)
    requires 0 <= i < |keys|
  {
    forall j :: i < j < |keys| ==> keys[j] != keys[i]
  }

  /** The last position of `k` in `keys`, or -1 when it does not occur. */
  function LastIndex(keys: seq<string>, k: string): (r: int)
    ensures -1 <= r < |keys|
    ensures r == -1 <==> k !in keys
    ensures r >= 0 ==> keys[r] == k && LastWithKey(keys, r)
    decreases |keys|
  {
    if |keys| == 0 then -1
    else if keys[|keys| - 1] == k then |keys| - 1
    else
      var r0 := LastIndex(keys[..|keys| - 1], k);
      assert keys == keys[..|keys| - 1] + [keys[|keys| - 1]];
      r0
  }

  /** A position holding the last occurrence of its key is what `LastIndex` finds. */
  lemma LastIndexOfLast(keys: seq<string>, i: int)
    requires 0 <= i < |keys| && LastWithKey(keys, i)
    ensures LastIndex(keys, keys[i]) == i
  {
  }

  /**
   * The map the cache builds by setting every record under its key in list
   * order: its keys are exactly those of the records, and each maps to the
   * last record that has it.
   */
  function Index(keys: seq<string>, list: seq<WeaponData>): (m: map<string, WeaponData>)
    requires |keys| == |list|
    ensures forall k :: k in m <==> k in keys
    ensures forall k :: k in m ==> m[k] == list[LastIndex(keys, k)]
    decreases |list|
  {
    if |list| == 0 then map[]
    else
      var n := |list| - 1;
      var m0 := Index(keys[..n], list[..n]);
      assert keys == keys[..n] + [keys[n]];
      m0[keys[n] := list[n]]
  }

  /** `initCache`'s map for one field. */
  function BuildIndex(list: seq<WeaponData>, f: KeyField): map<string, WeaponData>
  {
    Index(Keys(list, f), list)
  }

  /** The two maps: not built yet, or built from the catalogue. */
  datatype Cache = Cold | Warm(byName: map<string, WeaponData>, byHash: map<string, WeaponData>)

  /** `initCache`: builds both maps when there are none, and otherwise leaves them alone. */
  function InitCache(c: Cache, list: seq<WeaponData>): (r: Cache)
    ensures r.Warm?
    ensures c.Warm? ==> r == c
    ensures c.Cold? ==> r.byName == BuildIndex(list, ByName) && r.byHash == BuildIndex(list, ByHash)
  {
    if c.Cold? then Warm(BuildIndex(list, ByName), BuildIndex(list, ByHash)) else c
  }

  /** A cache the class can be in: not built, or built from this catalogue. */
  predicate CacheOf(c: Cache, list: seq<WeaponData>)
  {
    c.Cold? || c == InitCache(Cold, list)
  }

  /** Building the cache a second time changes nothing. */
  lemma InitCacheIdempotent(c: Cache, list: seq<WeaponData>, other: seq<WeaponData>)
    ensures InitCache(InitCache(c, list), other) == InitCache(c, list)
  {
  }

  /** The map of a built cache for field `f`. */
  function MapOf(c: Cache, f: KeyField): map<string, WeaponData>
    requires c.Warm?
  {
    if f.ByName? then c.byName else c.byHash
  }

  /** Whatever state the cache was in, after `initCache` each map is the one built from the catalogue. */
  lemma CachedMapIsBuilt(c: Cache, list: seq<WeaponData>, f: KeyField)
    requires CacheOf(c, list)
    ensures MapOf(InitCache(c, list), f) == BuildIndex(list, f)
  {
  }

  /** A look-up result together with the cache after the look-up. */
  datatype Lookup = Lookup(result: Nullable<WeaponData>, cache: Cache)

  /**
   * Look `key` up in the map for field `f`: `null` when no record has that
   * key, and otherwise the last record that has it.
   */
  function Find(c: Cache, list: seq<WeaponData>, f: KeyField, key: string): (r: Lookup)
    requires CacheOf(c, list)
    ensures r.cache == InitCache(Cold, list)
    ensures r.result.Null? <==> key !in Keys(list, f)
    ensures r.result.Some? ==> r.result.value == list[LastIndex(Keys(list, f), key)]
  {
    var warm := InitCache(c, list);
    var m := MapOf(warm, f);
    CachedMapIsBuilt(c, list, f);
    Lookup(if key in m then Some(m[key]) else Null, warm)
  }

  /**
   * `getByName`: `null` when no record's lower-cased name is `weaponName`
   * lower-cased, and otherwise the last record whose name is.
   */
  function GetByName(c: Cache, list: seq<WeaponData>, weaponName: string): (r: Lookup)
    requires CacheOf(c, list)
    ensures r.cache == InitCache(Cold, list)
    ensures r.result.Null? <==> forall i :: 0 <= i < |list| ==> ToLowerCase(list[i].name) != ToLowerCase(weaponName)
    ensures r.result.Some? ==>
      var i := LastIndex(Keys(list, ByName), ToLowerCase(weaponName));
      0 <= i < |list| && r.result.value == list[i] && ToLowerCase(list[i].name) == ToLowerCase(weaponName)
  {
    Find(c, list, ByName, ToLowerCase(weaponName))
  }

  /**
   * `getByHash`: `null` when no record's lower-cased hash string is `hash`
   * lower-cased, and otherwise the last record whose hash string is.
   */
  function GetByHash(c: Cache, list: seq<WeaponData>, hash: string): (r: Lookup)
    requires CacheOf(c, list)
    ensures r.cache == InitCache(Cold, list)
    ensures r.result.Null? <==> forall i :: 0 <= i < |list| ==> ToLowerCase(list[i].hash) != ToLowerCase(hash)
    ensures r.result.Some? ==>
      var i := LastIndex(Keys(list, ByHash), ToLowerCase(hash));
      0 <= i < |list| && r.result.value == list[i] && ToLowerCase(list[i].hash) == ToLowerCase(hash)
  {
    Find(c, list, ByHash, ToLowerCase(hash))
  }

  /** A record is found by its own name, in any case, when no later record shares its name; likewise by hash. */
  lemma LookupFindsLastRecord(c: Cache, list: seq<WeaponData>, i: int)
    requires CacheOf(c, list) && 0 <= i < |list|
    ensures LastWithKey(Keys(list, ByName), i) ==> GetByName(c, list, list[i].name).result == Some(list[i])
    ensures LastWithKey(Keys(list, ByHash), i) ==> GetByHash(c, list, list[i].hash).result == Some(list[i])
    ensures LastWithKey(Keys(list, ByName), i) ==> GetByName(c, list, ToLowerCase(list[i].name)).result == Some(list[i])
  {
    ToLowerCaseIdempotent(list[i].name);
    if LastWithKey(Keys(list, ByName), i) {
      LastIndexOfLast(Keys(list, ByName), i);
    }
    if LastWithKey(Keys(list, ByHash), i) {
      LastIndexOfLast(Keys(list, ByHash), i);
    }
  }

  /** Names that differ only in the case of ASCII letters find the same record. */
  lemma GetByNameIgnoresCase(c: Cache, list: seq<WeaponData>, a: string, b: string)
    requires CacheOf(c, list)
    requires |a| == |b| && forall i :: 0 <= i < |a| ==> LowerChar(a[i]) == LowerChar(b[i])
    ensures GetByName(c, list, a) == GetByName(c, list, b)
  {
    ToLowerCaseFoldsCase(a, b);
  }

  /** `weaponHash`: the hash string of the record `getByName` finds, or `null`. */
  function WeaponHash(c: Cache, list: seq<WeaponData>, weaponName: string): (r: Nullable<string>)
    requires CacheOf(c, list)
    ensures var w := GetByName(c, list, weaponName).result;
      (r.Some? <==> w.Some?) && (r.Some? ==> r.value == w.value.hash)
  {
    var w := GetByName(c, list, weaponName).result;
    if w.Some? then Some(w.value.hash) else Null
  }

  /** `weaponModelHashKey`. */
  function WeaponModelHashKey(c: Cache, list: seq<WeaponData>, weaponName: string): (r: Nullable<string>)
    requires CacheOf(c, list)
    ensures var w := GetByName(c, list, weaponName).result;
      (r.Some? <==> w.Some?) && (r.Some? ==> r.value == w.value.modelHashKey)
  {
    var w := GetByName(c, list, weaponName).result;
    if w.Some? then Some(w.value.modelHashKey) else Null
  }

  /** `weaponDescription`. */
  function WeaponDescription(c: Cache, list: seq<WeaponData>, weaponName: string): (r: Nullable<string>)
    requires CacheOf(c, list)
    ensures var w := GetByName(c, list, weaponName).result;
      (r.Some? <==> w.Some?) && (r.Some? ==> r.value == w.value.description)
  {
    var w := GetByName(c, list, weaponName).result;
    if w.Some? then Some(w.value.description) else Null
  }

  /** `weaponComponents`. */
  function WeaponComponents(c: Cache, list: seq<WeaponData>, weaponName: string): (r: Nullable<seq<ComponentData>>)
    requires CacheOf(c, list)
    ensures var w := GetByName(c, list, weaponName).result;
      (r.Some? <==> w.Some?) && (r.Some? ==> r.value == w.value.components)
  {
    var w := GetByName(c, list, weaponName).result;
    if w.Some? then Some(w.value.components) else Null
  }

  /** `getAllWeaponHashes`: one hash string per record, in catalogue order. */
  function GetAllWeaponHashes(list: seq<WeaponData>): (r: seq<string>)
    ensures |r| == |list|
    ensures forall i :: 0 <= i < |list| ==> r[i] == list[i].hash
  {
    seq(|list|, i requires 0 <= i < |list| => list[i].hash)
  }

  /** Every hash string `getAllWeaponHashes` lists finds a record through `getByHash`. */
  lemma ListedHashesAreFound(c: Cache, list: seq<WeaponData>, i: int)
    requires CacheOf(c, list) && 0 <= i < |list|
    ensures GetByHash(c, list, GetAllWeaponHashes(list)[i]).result.Some?
  {
    assert ToLowerCase(list[i].hash) == ToLowerCase(GetAllWeaponHashes(list)[i]);
  }

  /** `getAllWeaponModelHashKeys`: one model hash key per record, in catalogue order. */
  function GetAllWeaponModelHashKeys(list: seq<WeaponData>): (r: seq<string>)
    ensures |r| == |list|
    ensures forall i :: 0 <= i < |list| ==> r[i] == list[i].modelHashKey
  {
    seq(|list|, i requires 0 <= i < |list| => list[i].modelHashKey)
  }

  /** `getAllWeaponDescriptions`: one description per record, in catalogue order. */
  function GetAllWeaponDescriptions(list: seq<WeaponData>): (r: seq<string>)
    ensures |r| == |list|
    ensures forall i :: 0 <= i < |list| ==> r[i] == list[i].description
  {
    seq(|list|, i requires 0 <= i < |list| => list[i].description)
  }

  /** `getAllWeaponComponents`: one component list per record, in catalogue order. */
  function GetAllWeaponComponents(list: seq<WeaponData>): (r: seq<seq<ComponentData>>)
    ensures |r| == |list|
    ensures forall i :: 0 <= i < |list| ==> r[i] == list[i].components
  {
    seq(|list|, i requires 0 <= i < |list| => list[i].components)
  }

  /** `getWeaponsByType`: the records of type `t`, in catalogue order. */
  function GetWeaponsByType(list: seq<WeaponData>, t: WeaponType): (r: seq<WeaponData>)
    ensures IsSubsequence(r, list)
    ensures forall i :: 0 <= i < |r| ==> r[i].weaponType == t
    ensures forall w :: w in list && w.weaponType == t ==> w in r
    decreases |list|
  {
    if |list| == 0 then []
    else if list[0].weaponType == t then
      var rest := GetWeaponsByType(list[1..], t);
      SubsequenceCons(list[0], rest, list[1..]);
      assert [list[0]] + list[1..] == list;
      [list[0]] + rest
    else
      var rest := GetWeaponsByType(list[1..], t);
      SubsequenceSkip(list[0], rest, list[1..]);
      assert [list[0]] + list[1..] == list;
      rest
  }

  /** The filter keeps every copy of a record of type `t` and no copy of any other. */
  lemma {:induction false} WeaponsByTypeKeepsCopies(list: seq<WeaponData>, t: WeaponType, w: WeaponData)
    ensures multiset(GetWeaponsByType(list, t))[w] == (if w.weaponType == t then multiset(list)[w] else 0)
    decreases |list|
  {
    if |list| > 0 {
      WeaponsByTypeKeepsCopies(list[1..], t, w);
      assert list == [list[0]] + list[1..];
      assert multiset(list) == multiset([list[0]]) + multiset(list[1..]);
      var rest := GetWeaponsByType(list[1..], t);
      if list[0].weaponType == t {
        assert multiset([list[0]] + rest) == multiset([list[0]]) + multiset(rest);
      }
    }
  }

  /** Filtering a catalogue made of two parts filters each part in turn. */
  lemma {:induction false} WeaponsByTypeOfConcat(a: seq<WeaponData>, b: seq<WeaponData>, t: WeaponType)
    ensures GetWeaponsByType(a + b, t) == GetWeaponsByType(a, t) + GetWeaponsByType(b, t)
    decreases |a|
  {
    if |a| > 0 {
      assert (a + b)[0] == a[0];
      assert (a + b)[1..] == a[1..] + b;
      WeaponsByTypeOfConcat(a[1..], b, t);
    } else {
      assert a + b == b;
    }
  }

  /** Filtering twice by the same type is filtering once. */
  lemma {:induction false} WeaponsByTypeIdempotent(list: seq<WeaponData>, t: WeaponType)
    ensures GetWeaponsByType(GetWeaponsByType(list, t), t) == GetWeaponsByType(list, t)
    decreases |list|
  {
    if |list| > 0 {
      WeaponsByTypeIdempotent(list[1..], t);
      if list[0].weaponType == t {
        var rest := GetWeaponsByType(list[1..], t);
        assert ([list[0]] + rest)[1..] == rest;
      }
    }
  }

  /** `getPlayerCurrentWeapon`: the weapon hash the host reports for the player ped. */
  function GetPlayerCurrentWeapon(host: HostState): (h: Hash)
    ensures h == host.currentPedWeapon(host.playerPedId, true)
  {
    host.currentPedWeapon(host.playerPedId, true)
  }

  /**
   * `getPlayerCurrentWeaponData`: the first record whose hash string hashes
   * to the player's current weapon, or `null`.
   */
  method GetPlayerCurrentWeaponData(host: HostState, list: seq<WeaponData>) returns (r: Nullable<WeaponData>, index: int)
    ensures r.Null? <==> index == -1
    ensures r.Null? ==> forall i :: 0 <= i < |list| ==> host.hashKey(list[i].hash) != GetPlayerCurrentWeapon(host)
    ensures r.Some? ==>
      0 <= index < |list| && r.value == list[index]
      && host.hashKey(list[index].hash) == GetPlayerCurrentWeapon(host)
      && forall i :: 0 <= i < index ==> host.hashKey(list[i].hash) != GetPlayerCurrentWeapon(host)
  {
    var hash := GetPlayerCurrentWeapon(host);
    var i := 0;
    while i < |list|
      invariant 0 <= i <= |list|
      invariant forall j :: 0 <= j < i ==> host.hashKey(list[j].hash) != hash
    {
      if host.hashKey(list[i].hash) == hash {
        return Some(list[i]), i;
      }
      i := i + 1;
    }
    return Null, -1;
  }
}
