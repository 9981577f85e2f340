/**
 * State-bag names and network ids. A bag name has the form `entity:<netId>`;
 * a network id becomes a handle through a fixed chain of guards, and every
 * failing guard yields the sentinel -1.
 */
module Network {
  import opened JsNumber
  import opened JsString
  import opened Host

  /** What every lookup returns when it fails. */
  const NotFound: int := -1

  const BagPrefix: string := "entity:"

  /**
   * `Utils.GetNetIdFromBagName`: `Number` of the second `:`-separated segment,
   * replaced by -1 when it is 0 or NaN, and -1 when there is no `:` at all.
   * The result is never falsy; any prefix is accepted.
   */
  function GetNetIdFromBagName(bagName: string): (r: Number)
    ensures !Falsy(r)
    ensures ':' !in bagName ==> r == Num(NotFound as real)
    ensures ':' in bagName ==>
      var n := ToNumber(Split(bagName, ':')[1]);
      r == (if Falsy(n) then Num(NotFound as real) else n)
  {
    var parts := Split(bagName, ':');
    if |parts| > 1 then
      var n := ToNumber(parts[1]);
      if Falsy(n) then Num(-1.0) else n
    else Num(-1.0)
  }

  /** The host native converting a network id into a handle of the given kind. */
  function Convert(host: HostState, kind: Kind, netId: real): Handle
  {
    match kind
    case VehicleKind => host.netToVeh(netId)
    case PedKind => host.netToPed(netId)
    case _ => host.netToObj(netId)
  }

  /** Every guard of the chain holds for `netId`, so the converted handle is returned. */
  predicate Resolves(host: HostState, netId: Number, kind: Kind)
  {
    netId.Num? && netId.value != 0.0 && host.networkEntityExists(netId.value)
    && Convert(host, kind, netId.value) != 0
    && host.doesEntityExist(Convert(host, kind, netId.value))
    && IsKind(host, kind, Convert(host, kind, netId.value))
  }

  /**
   * The guard chain of the `Get*FromNetworkId` helpers: a falsy id, then the
   * network-existence probe, then a zero handle, then `DoesEntityExist`, then
   * the kind probe; the first failing guard gives -1.
   */
  function ResolveNetworkId(host: HostState, netId: Number, kind: Kind): (r: int)
    ensures Resolves(host, netId, kind) ==> r == Convert(host, kind, netId.value)
    ensures !Resolves(host, netId, kind) ==> r == NotFound
  {
    if Falsy(netId) || !host.networkEntityExists(netId.value) then -1
    else
      var h := Convert(host, kind, netId.value);
      if h == 0 || !host.doesEntityExist(h) then -1
      else if !IsKind(host, kind, h) then -1
      else h
  }

  /** `Utils.GetVehFromNetworkId`: -1 or a live vehicle. */
  function GetVehFromNetworkId(host: HostState, netId: Number): (r: int)
    ensures r == NotFound || (r != 0 && host.doesEntityExist(r) && host.isEntityAVehicle(r))
    ensures Resolves(host, netId, VehicleKind) ==> r == host.netToVeh(netId.value)
    ensures !Resolves(host, netId, VehicleKind) ==> r == NotFound
  {
    ResolveNetworkId(host, netId, VehicleKind)
  }

  /** `Utils.GetPedFromNetworkId`: -1 or a live ped. */
  function GetPedFromNetworkId(host: HostState, netId: Number): (r: int)
    ensures r == NotFound || (r != 0 && host.doesEntityExist(r) && host.isEntityAPed(r))
    ensures Resolves(host, netId, PedKind) ==> r == host.netToPed(netId.value)
    ensures !Resolves(host, netId, PedKind) ==> r == NotFound
  {
    ResolveNetworkId(host, netId, PedKind)
  }

  /** `Utils.GetObjectFromNetworkid`: -1 or a live object. */
  function GetObjectFromNetworkId(host: HostState, netId: Number): (r: int)
    ensures r == NotFound || (r != 0 && host.doesEntityExist(r) && host.isEntityAnObject(r))
    ensures Resolves(host, netId, ObjectKind) ==> r == host.netToObj(netId.value)
    ensures !Resolves(host, netId, ObjectKind) ==> r == NotFound
  {
    ResolveNetworkId(host, netId, ObjectKind)
  }

  /** `Utils.GetEntityFromNetworkid`: converts with `NetToObj` and makes no kind probe. */
  function GetEntityFromNetworkId(host: HostState, netId: Number): (r: int)
    ensures r == NotFound || (netId.Num? && r == host.netToObj(netId.value))
    ensures r != NotFound ==> r != 0 && host.doesEntityExist(r)
    ensures Resolves(host, netId, AnyEntity) ==> r == host.netToObj(netId.value)
    ensures !Resolves(host, netId, AnyEntity) ==> r == NotFound
  {
    ResolveNetworkId(host, netId, AnyEntity)
  }

  /** The text after the first `:` of a name that starts with `entity:`, up to the next `:`. */
  function NetIdText(bagName: string): (t: string)
    requires StartsWith(bagName, BagPrefix)
    ensures ':' !in t
  {
    assert bagName[6] == BagPrefix[6];
    Split(bagName, ':')[1]
  }

  /**
   * The `Get*FromBagName` helpers: -1 unless the name starts with `entity:`;
   * then `parseInt` of the second segment goes through the guard chain.
   */
  function FromBagName(host: HostState, bagName: string, kind: Kind): (r: int)
    ensures !StartsWith(bagName, BagPrefix) ==> r == NotFound
    ensures r == NotFound || Resolves(host, ParseInt(NetIdText(bagName)), kind)
    ensures StartsWith(bagName, BagPrefix) ==> r == ResolveNetworkId(host, ParseInt(NetIdText(bagName)), kind)
  {
    if StartsWith(bagName, BagPrefix) then ResolveNetworkId(host, ParseInt(NetIdText(bagName)), kind)
    else -1
  }

  /** `Utils.GetVehFromBagName`: the vehicle whose network id the name carries, or -1. */
  function GetVehFromBagName(host: HostState, bagName: string): (r: int)
    ensures !StartsWith(bagName, BagPrefix) ==> r == NotFound
    ensures StartsWith(bagName, BagPrefix) ==> r == GetVehFromNetworkId(host, ParseInt(NetIdText(bagName)))
  {
    FromBagName(host, bagName, VehicleKind)
  }

  /** `Utils.GetPedFromBagName`: the ped whose network id the name carries, or -1. */
  function GetPedFromBagName(host: HostState, bagName: string): (r: int)
    ensures !StartsWith(bagName, BagPrefix) ==> r == NotFound
    ensures StartsWith(bagName, BagPrefix) ==> r == GetPedFromNetworkId(host, ParseInt(NetIdText(bagName)))
  {
    FromBagName(host, bagName, PedKind)
  }

  /** `Utils.GetObjectFromBagName`: the object whose network id the name carries, or -1. */
  function GetObjectFromBagName(host: HostState, bagName: string): (r: int)
    ensures !StartsWith(bagName, BagPrefix) ==> r == NotFound
    ensures StartsWith(bagName, BagPrefix) ==> r == GetObjectFromNetworkId(host, ParseInt(NetIdText(bagName)))
  {
    FromBagName(host, bagName, ObjectKind)
  }

  /** `Utils.GetEntityFromBagName`: the entity whose network id the name carries, or -1. */
  function GetEntityFromBagName(host: HostState, bagName: string): (r: int)
    ensures !StartsWith(bagName, BagPrefix) ==> r == NotFound
    ensures StartsWith(bagName, BagPrefix) ==> r == GetEntityFromNetworkId(host, ParseInt(NetIdText(bagName)))
  {
    FromBagName(host, bagName, AnyEntity)
  }

  /** `String(n)` holds no `:`. */
  lemma IntStringHasNoColon(n: int)
    ensures ':' !in IntString(n)
  {
    var m := if n < 0 then -n else n;
    var d := NatString(m);
    assert forall i :: 0 <= i < |d| ==> IsDigitIn(d[i], 10);
    if n < 0 {
      assert IntString(n) == "-" + d;
    }
  }

  /**
   * Any prefix without `:` followed by `:<n>` yields `n` when `n` is non-zero
   * and -1 when it is zero; no `entity` prefix is needed, so "foo:5" gives 5.
   */
  lemma NetIdFromBagNameRoundTrip(p: string, n: int)
    requires ':' !in p
    ensures GetNetIdFromBagName(p + ":" + IntString(n)) == (if n == 0 then Num(-1.0) else Num(n as real))
  {
    IntStringHasNoColon(n);
    SplitAfterFirstSeparator(p, IntString(n), ':');
    assert Split(IntString(n), ':') == [IntString(n)];
    ToNumberOfIntString(n);
  }

  /** "foo:5" gives 5: only the second segment matters, whatever comes before it. */
  lemma NetIdFromForeignPrefix()
    ensures GetNetIdFromBagName("foo:5") == Num(5.0)
  {
    assert IntString(5) == "5";
    assert "foo" + ":" + IntString(5) == "foo:5";
    NetIdFromBagNameRoundTrip("foo", 5);
  }

  /** For `p:t` with no colon in `p` or `t`, the result is `Number(t)`, or -1 when that is falsy. */
  lemma NetIdOfSegment(p: string, t: string)
    requires ':' !in p && ':' !in t
    ensures var n := ToNumber(t);
      GetNetIdFromBagName(p + ":" + t) == (if Falsy(n) then Num(-1.0) else n)
  {
    SplitAfterFirstSeparator(p, t, ':');
    assert Split(t, ':') == [t];
  }

  /** A space separator before the id, such as U+3000, is skipped: `p:\u3000n` gives what `p:n` gives. */
  lemma NetIdSkipsSpaceSeparator(p: string, c: char, n: int)
    requires ':' !in p && IsSpaceSeparator(c)
    ensures GetNetIdFromBagName(p + ":" + ([c] + IntString(n))) == GetNetIdFromBagName(p + ":" + IntString(n))
  {
    IntStringHasNoColon(n);
    NetIdOfSegment(p, IntString(n));
    NetIdOfSegment(p, [c] + IntString(n));
    ToNumberSkipsLeadingWhiteSpace(c, IntString(n));
  }

  /** "entity:0" gives -1: zero is falsy. */
  lemma NetIdZeroIsNotFound()
    ensures GetNetIdFromBagName("entity:0") == Num(-1.0)
  {
    assert IntString(0) == "0";
    assert "entity" + ":" + IntString(0) == "entity:0";
    NetIdFromBagNameRoundTrip("entity", 0);
  }

  /** "entity:abc" gives -1: a segment that is not a number reads as NaN. */
  lemma NetIdNonNumericIsNotFound()
    ensures GetNetIdFromBagName("entity:abc") == Num(-1.0)
  {
    var t := "abc";
    assert ':' !in t by {
      assert t == ['a', 'b', 'c'];
    }
    assert "entity" + ":" + t == "entity:abc";
    NetIdOfSegment("entity", t);
    EmptyAndNonNumeric();
  }

  /** After `entity:` the id text runs to the next `:`. */
  lemma NetIdTextAfterPrefix(t: string)
    ensures StartsWith(BagPrefix + t, BagPrefix)
    ensures NetIdText(BagPrefix + t) == Split(t, ':')[0]
  {
    var s := BagPrefix + t;
    assert s == "entity" + [':'] + t;
    assert s[..|BagPrefix|] == BagPrefix;
    SplitAfterFirstSeparator("entity", t, ':');
  }

  /** `entity:t` with no colon in `t` resolves the `parseInt` of `t`. */
  lemma FromBagNameOfText(host: HostState, t: string, kind: Kind)
    requires ':' !in t
    ensures FromBagName(host, BagPrefix + t, kind) == ResolveNetworkId(host, ParseInt(t), kind)
  {
    NetIdTextAfterPrefix(t);
    assert Split(t, ':') == [t];
  }

  /** The bag name of network id `n` resolves exactly as `n` itself does. */
  lemma FromBagNameRoundTrip(host: HostState, n: int, kind: Kind)
    ensures FromBagName(host, BagPrefix + IntString(n), kind) == ResolveNetworkId(host, Num(n as real), kind)
  {
    IntStringHasNoColon(n);
    FromBagNameOfText(host, IntString(n), kind);
    ParseIntOfIntString(n);
  }

  /** `parseInt` reads a prefix: "entity:12abc" goes to the guard chain as 12. */
  lemma FromBagNameReadsPrefix(host: HostState, kind: Kind)
    ensures FromBagName(host, "entity:12abc", kind) == ResolveNetworkId(host, Num(12.0), kind)
  {
    var t := "12abc";
    assert ':' !in t by {
      assert t == ['1', '2', 'a', 'b', 'c'];
    }
    assert BagPrefix + t == "entity:12abc";
    FromBagNameOfText(host, t, kind);
    PrefixVersusWholeString();
  }

  /** `Number` reads the whole segment: on "entity:12abc" `GetNetIdFromBagName` gives -1. */
  lemma NetIdRejectsTrailingText()
    ensures GetNetIdFromBagName("entity:12abc") == Num(-1.0)
  {
    var t := "12abc";
    assert ':' !in t by {
      assert t == ['1', '2', 'a', 'b', 'c'];
    }
    assert "entity" + ":" + t == "entity:12abc";
    NetIdOfSegment("entity", t);
    PrefixVersusWholeString();
  }

  /**
   * Short-circuit order: a falsy id is rejected before any probe, so the
   * result does not depend on the host at all.
   */
  lemma FalsyIdProbesNothing(h1: HostState, h2: HostState, netId: Number, kind: Kind)
    requires Falsy(netId)
    ensures ResolveNetworkId(h1, netId, kind) == ResolveNetworkId(h2, netId, kind) == NotFound
  {
  }

  /** A zero handle is rejected before `DoesEntityExist` and the kind probe are consulted. */
  lemma ZeroHandleProbesNothingMore(host: HostState, netId: Number, kind: Kind,
                                    exists': Handle -> bool, isVehicle: Handle -> bool,
                                    isPed: Handle -> bool, isObject: Handle -> bool)
    requires netId.Num? && Convert(host, kind, netId.value) == 0
    ensures ResolveNetworkId(host.(doesEntityExist := exists', isEntityAVehicle := isVehicle,
                                   isEntityAPed := isPed, isEntityAnObject := isObject), netId, kind)
            == ResolveNetworkId(host, netId, kind) == NotFound
  {
  }
}
