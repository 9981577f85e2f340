/**
 * `FiveVStreaming`: requesting a streamed asset and waiting for it. Each
 * loader issues its request, then checks at once; every check resolves when
 * the asset is loaded, rejects when more than ten seconds have passed since
 * the request, and otherwise schedules one more check ten milliseconds later.
 * The checks after the first see later snapshots of the host, given as a
 * sequence; when the sequence runs out the load is still pending.
 */
module Streaming {
  import opened Host

  const LoadTimeoutMs: int := 10000
  const PollIntervalMs: nat := 10

  /** A model given by name (hashed with `GetHashKey`) or by hash (used as is). */
  datatype ModelKey = ModelName(name: string) | ModelHash(hash: Hash)

  function HashOf(host: HostState, key: ModelKey): (h: Hash)
    ensures key.ModelHash? ==> h == key.hash
    ensures key.ModelName? ==> h == host.hashKey(key.name)
  {
    match key
    case ModelName(name) => host.hashKey(name)
    case ModelHash(hash) => hash
  }

  /** The streamed assets, each with its own request and load-test natives. */
  datatype Asset =
    | Model(hash: Hash)
    | AnimDict(name: string)
    | AnimSet(name: string)
    | PtfxAsset(name: string)
    | TextureDict(name: string)

  /** The request native each loader issues first. */
  function RequestOf(a: Asset): (c: Command)
  {
    match a
    case Model(hash) => RequestModel(hash)
    case AnimDict(name) => Command.RequestAnimDict(name)
    case AnimSet(name) => Command.RequestAnimSet(name)
    case PtfxAsset(name) => RequestNamedPtfxAsset(name)
    case TextureDict(name) => RequestStreamedTextureDict(name, false)
  }

  /** The load-test native each loader polls. */
  predicate IsLoaded(host: HostState, a: Asset)
  {
    match a
    case Model(hash) => host.hasModelLoaded(hash)
    case AnimDict(name) => host.hasAnimDictLoaded(name)
    case AnimSet(name) => host.hasAnimSetLoaded(name)
    case PtfxAsset(name) => host.hasNamedPtfxAssetLoaded(name)
    case TextureDict(name) => host.hasStreamedTextureDictLoaded(name)
  }

  /** What one check observes: the game timer and whether the asset is loaded. */
  datatype Tick = Tick(now: int, loaded: bool)

  /** What one check does. */
  datatype Step = Resolve | Reject | Reschedule

  /** One run of `checkLoaded`: loaded wins; otherwise only a strictly exceeded timeout rejects. */
  function Check(start: int, t: Tick): (s: Step)
    ensures s == Resolve <==> t.loaded
    ensures s == Reject <==> !t.loaded && t.now - start > LoadTimeoutMs
  {
    if t.loaded then Resolve
    else if t.now - start > LoadTimeoutMs then Reject
    else Reschedule
  }

  /** How a load ends: at the check with index `at`, or still pending when the observations run out. */
  datatype Outcome = Resolved(at: nat) | Rejected(at: nat) | Pending

  /** The checks from index `i` on decide nothing until the first one that resolves or rejects. */
  function PollFrom(start: int, ticks: seq<Tick>, i: nat): (o: Outcome)
    requires i <= |ticks|
    ensures o.Pending? ==> forall j :: i <= j < |ticks| ==> Check(start, ticks[j]) == Reschedule
    ensures !o.Pending? ==> i <= o.at < |ticks|
    ensures o.Resolved? ==> Check(start, ticks[o.at]) == Resolve
    ensures o.Rejected? ==> Check(start, ticks[o.at]) == Reject
    ensures !o.Pending? ==> forall j :: i <= j < o.at ==> Check(start, ticks[j]) == Reschedule
    decreases |ticks| - i
  {
    if i == |ticks| then Pending
    else
      match Check(start, ticks[i])
      case Resolve => Resolved(i)
      case Reject => Rejected(i)
      case Reschedule => PollFrom(start, ticks, i + 1)
  }

  /** The promise of one loader, over the observations of its checks. */
  function Poll(start: int, ticks: seq<Tick>): Outcome
  {
    PollFrom(start, ticks, 0)
  }

  /** How many checks scheduled a further check before the outcome. */
  function Rescheduled(o: Outcome, checks: nat): nat
  {
    if o.Pending? then checks else o.at
  }

  /** A started load: the commands it issued and how it ended. */
  datatype Load = Load(trace: seq<Command>, outcome: Outcome)

  /** A model request either fails validation before anything is issued, or starts a load. */
  datatype ModelRequest = NotInCdimage | Started(load: Load)

  /** The first check sees the snapshot of the request itself; the later ones see `later`. */
  function Observe(host: HostState, later: seq<HostState>, a: Asset): (ticks: seq<Tick>)
    ensures |ticks| == |later| + 1
    ensures ticks[0] == Tick(host.gameTimer, IsLoaded(host, a))
    ensures forall i :: 0 < i < |ticks| ==> ticks[i] == Tick(later[i - 1].gameTimer, IsLoaded(later[i - 1], a))
  {
    [Tick(host.gameTimer, IsLoaded(host, a))]
    + seq(|later|, i requires 0 <= i < |later| => Tick(later[i].gameTimer, IsLoaded(later[i], a)))
  }

  /** The snapshot check `k` observes: 0 is the immediate check. */
  function SnapshotAt(host: HostState, later: seq<HostState>, k: nat): HostState
    requires k <= |later|
  {
    if k == 0 then host else later[k - 1]
  }

  /** Check `k` saw the asset unloaded and the timeout not yet exceeded, so it scheduled another. */
  predicate Undecided(host: HostState, later: seq<HostState>, a: Asset, k: nat)
    requires k <= |later|
  {
    var s := SnapshotAt(host, later, k);
    !IsLoaded(s, a) && s.gameTimer - host.gameTimer <= LoadTimeoutMs
  }

  /** Check `k` observes snapshot `k`. */
  lemma ObserveSnapshots(host: HostState, later: seq<HostState>, a: Asset)
    ensures forall k :: 0 <= k <= |later| ==>
      Observe(host, later, a)[k] == Tick(SnapshotAt(host, later, k).gameTimer, IsLoaded(SnapshotAt(host, later, k), a))
  {
  }

  /**
   * Issue the request, take the start time, check at once, and wait ten
   * milliseconds before each further check.
   */
  function LoadAsset(host: HostState, later: seq<HostState>, a: Asset): (l: Load)
    ensures |l.trace| >= 1 && l.trace[0] == RequestOf(a)
    ensures forall i :: 1 <= i < |l.trace| ==> l.trace[i] == Wait(PollIntervalMs)
    ensures l.outcome.Resolved? ==>
      (l.outcome.at <= |later| && IsLoaded(SnapshotAt(host, later, l.outcome.at), a))
    ensures l.outcome.Rejected? ==>
      (0 < l.outcome.at <= |later| && !IsLoaded(later[l.outcome.at - 1], a)
       && later[l.outcome.at - 1].gameTimer - host.gameTimer > LoadTimeoutMs)
    ensures Rescheduled(l.outcome, |later| + 1) <= |later| + 1
    ensures forall k :: 0 <= k < Rescheduled(l.outcome, |later| + 1) ==> Undecided(host, later, a, k)
  {
    var ticks := Observe(host, later, a);
    var o := Poll(host.gameTimer, ticks);
    ObserveSnapshots(host, later, a);
    Load([RequestOf(a)] + Waits(Rescheduled(o, |ticks|), PollIntervalMs), o)
  }

  /** `requestModel`: refuse a model missing from the game files, otherwise load it. */
  function RequestModelAsync(host: HostState, later: seq<HostState>, key: ModelKey): (r: ModelRequest)
    ensures !host.isModelInCdimage(HashOf(host, key)) <==> r.NotInCdimage?
    ensures r.Started? ==> |r.load.trace| >= 1 && r.load.trace[0] == RequestModel(HashOf(host, key))
    ensures r.Started? ==> r.load == LoadAsset(host, later, Model(HashOf(host, key)))
  {
    var hash := HashOf(host, key);
    if !host.isModelInCdimage(hash) then NotInCdimage
    else Started(LoadAsset(host, later, Model(hash)))
  }

  /** `requestAnimDict`: no validation, the protocol as for models. */
  function RequestAnimDictAsync(host: HostState, later: seq<HostState>, animDict: string): (l: Load)
    ensures |l.trace| >= 1 && l.trace[0] == Command.RequestAnimDict(animDict)
    ensures l == LoadAsset(host, later, AnimDict(animDict))
  {
    LoadAsset(host, later, AnimDict(animDict))
  }

  /** `requestAnimSet`. */
  function RequestAnimSetAsync(host: HostState, later: seq<HostState>, animSet: string): (l: Load)
    ensures |l.trace| >= 1 && l.trace[0] == Command.RequestAnimSet(animSet)
    ensures l == LoadAsset(host, later, AnimSet(animSet))
  {
    LoadAsset(host, later, AnimSet(animSet))
  }

  /** `requestPtfxAsset`. */
  function RequestPtfxAssetAsync(host: HostState, later: seq<HostState>, ptfx: string): (l: Load)
    ensures |l.trace| >= 1 && l.trace[0] == RequestNamedPtfxAsset(ptfx)
    ensures l == LoadAsset(host, later, PtfxAsset(ptfx))
  {
    LoadAsset(host, later, PtfxAsset(ptfx))
  }

  /** `requestTextureDict`: requests with the second argument `false`. */
  function RequestTextureDictAsync(host: HostState, later: seq<HostState>, txdName: string): (l: Load)
    ensures |l.trace| >= 1 && l.trace[0] == RequestStreamedTextureDict(txdName, false)
    ensures l == LoadAsset(host, later, TextureDict(txdName))
  {
    LoadAsset(host, later, TextureDict(txdName))
  }

  /** `hasModelLoaded`, by name or by hash: the same test the model loader polls. */
  function HasModelLoaded(host: HostState, key: ModelKey): (r: bool)
    ensures r <==> IsLoaded(host, Model(HashOf(host, key)))
  {
    host.hasModelLoaded(HashOf(host, key))
  }

  /** `setModelAsNoLongerNeeded`, by name or by hash: releases the model `requestModel` asks for. */
  function SetModelAsNoLongerNeeded(host: HostState, key: ModelKey): (c: Command)
    ensures c.SetModelAsNoLongerNeeded? && c.model == RequestOf(Model(HashOf(host, key))).model
  {
    Command.SetModelAsNoLongerNeeded(HashOf(host, key))
  }

  /** `hasCollisionLoadedAtCoord`: asks about the player ped; the coordinates play no part. */
  function HasCollisionLoadedAtCoord(host: HostState, x: real, y: real, z: real): (r: bool)
    ensures r == host.hasCollisionLoadedAroundEntity(host.playerPedId)
  {
    host.hasCollisionLoadedAroundEntity(host.playerPedId)
  }

  /** Only the player ped's surroundings count: any two coordinates give the same answer. */
  lemma CollisionIgnoresCoordinates(host: HostState, x1: real, y1: real, z1: real, x2: real, y2: real, z2: real)
    ensures HasCollisionLoadedAtCoord(host, x1, y1, z1) == HasCollisionLoadedAtCoord(host, x2, y2, z2)
  {
  }

  /** A name and the hash `GetHashKey` gives for it request, test and release the same model. */
  lemma NameAndHashAgree(host: HostState, later: seq<HostState>, name: string)
    ensures RequestModelAsync(host, later, ModelName(name)) == RequestModelAsync(host, later, ModelHash(host.hashKey(name)))
    ensures HasModelLoaded(host, ModelName(name)) == HasModelLoaded(host, ModelHash(host.hashKey(name)))
    ensures SetModelAsNoLongerNeeded(host, ModelName(name)) == SetModelAsNoLongerNeeded(host, ModelHash(host.hashKey(name)))
  {
  }

  /** An asset that is already loaded resolves at the first check, with no wait issued. */
  lemma FirstCheckIsImmediate(host: HostState, later: seq<HostState>, a: Asset)
    requires IsLoaded(host, a)
    ensures LoadAsset(host, later, a) == Load([RequestOf(a)], Resolved(0))
  {
  }

  /** Within one check, "loaded" wins over an exceeded timeout. */
  lemma LoadedWinsOverTimeout(start: int, t: Tick)
    requires t.loaded && t.now - start > LoadTimeoutMs
    ensures Check(start, t) == Resolve
  {
  }

  /** The timeout is strict: a check exactly ten seconds after the start schedules another check. */
  lemma TimeoutIsStrict(start: int)
    ensures Check(start, Tick(start + LoadTimeoutMs, false)) == Reschedule
    ensures Check(start, Tick(start + LoadTimeoutMs + 1, false)) == Reject
  {
  }

  /**
   * Every check that decides nothing issues exactly one wait, so the trace is
   * the request followed by one wait per rescheduled check.
   */
  lemma WaitsCountReschedules(host: HostState, later: seq<HostState>, a: Asset)
    ensures var l := LoadAsset(host, later, a);
      |l.trace| == 1 + (if l.outcome.Pending? then |later| + 1 else l.outcome.at)
  {
  }

  /** Observations after a decision change nothing: the promise settles once. */
  lemma {:induction false} SettledStaysSettled(start: int, ticks: seq<Tick>, more: seq<Tick>, i: nat)
    requires i <= |ticks|
    requires !PollFrom(start, ticks, i).Pending?
    ensures PollFrom(start, ticks + more, i) == PollFrom(start, ticks, i)
    decreases |ticks| - i
  {
    assert (ticks + more)[i] == ticks[i];
    if Check(start, ticks[i]) == Reschedule {
      SettledStaysSettled(start, ticks, more, i + 1);
    }
  }

  /**
   * With checks at least ten milliseconds apart, a load that is never seen
   * loaded rejects by check 1001: no load stays pending past the timeout.
   */
  lemma PollSettlesWithinBudget(start: int, ticks: seq<Tick>)
    requires |ticks| > 1001
    requires forall j :: 0 <= j < |ticks| ==> ticks[j].now - start >= PollIntervalMs * j
    ensures !Poll(start, ticks).Pending?
    ensures Poll(start, ticks).at <= 1001
  {
    assert ticks[1001].now - start >= 10010;
    assert Check(start, ticks[1001]) != Reschedule;
  }
}
