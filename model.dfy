/** The spawner actor as a pure state machine: a record of the actor's
    fields and one function per operation of the actor. The class in
    spawner.dfy follows these functions step by step; the lemmas in
    properties.dfy are stated about them.

    The engine services the actor calls are answered by oracle inputs: the
    outcome of each probe of the placement search, the actor the factory
    returns (or none), and the number of actors the setup overlap test
    finds. */
module SpawnerModel {
  import opened Ledger

  const MinRadiusOfSpawn: real := 100.0
  const MaxRadiusOfSpawn: real := 1000.0
  const MaxIntervalOfSpawn: real := 300.0
  /** Placement attempts made by one tick. */
  const SpawnPerFrame: nat := 2
  /** The placement search stops once its probe counter exceeds this. */
  const ProbeCeiling: int := 10
  /** The `GlobalSpawnLimit` that means "no limit". */
  const Unlimited: int := -1

  /** What one probe of the placement search found. */
  datatype Probe =
    | GroundMiss  // the vertical line trace found no ground
    | Blocked     // the clearance sphere overlaps something that blocks pawns
    | Clear       // ground found, nothing in the way

  /** A spawned actor: the class it was spawned from and an identity. */
  datatype ActorRef = ActorRef(cls: ClassRef, handle: nat)

  /** One firing of the completion delegate: the amount and the actors. */
  datatype Broadcast = Broadcast(amount: int, actors: seq<ActorRef>)

  /** The environment's answers for one placement attempt: the outcome of the
      probe made while the probe counter holds a given value, and what the
      factory returns when asked to spawn. */
  datatype Attempt = Attempt(probes: int -> Probe, made: Option<nat>)

  /** The environment's answers for one tick, by iteration of the tick's loop. */
  type TickOracle = nat -> Attempt

  /** The fields of the actor that the spawning logic reads or writes. */
  datatype State = State(
    entries: seq<Entry>,        // ActorsToSpawn
    radius: real,               // RadiusOfSpawn
    interval: real,             // IntervalOfSpawn
    budget: int,                // GlobalSpawnLimit
    cur: ClassRef,              // CurrentClassToSpawn
    count: int,                 // CurrentCountToSpawn
    idx: int,                   // ClassIndex
    loopIter: int,              // LoopIterator
    spawned: seq<ActorRef>,     // LastSpawnedActors
    tickEnabled: bool,          // the actor's tick function is enabled
    canEverTick: bool,          // PrimaryActorTick.bCanEverTick
    timerArmed: bool,           // SpawnTimer is active
    broadcasts: seq<Broadcast>) // every firing of OnFinishSpawnDelegate so far

  /** A state plus whether the ledger cursor found a class. */
  datatype Outcome = Outcome(state: State, ok: bool)

  /** The invariant every operation keeps. */
  predicate WellFormed(s: State) {
    && DistinctKeys(s.entries)
    && MinRadiusOfSpawn <= s.radius <= MaxRadiusOfSpawn
    && 0.0 <= s.interval <= MaxIntervalOfSpawn
    && s.idx >= 0
    && 0 <= s.loopIter <= ProbeCeiling + 1
    && CompletionsConsistent(s.broadcasts)
  }

  /** Every completion broadcast reports as its amount the number of actors it carries. */
  predicate CompletionsConsistent(bs: seq<Broadcast>) {
    forall k :: 0 <= k < |bs| ==> bs[k].amount == |bs[k].actors|
  }

  /** The state a freshly constructed actor is in. */
  function Initial(): (s: State)
    ensures WellFormed(s)
    ensures s.budget == Unlimited && s.cur.Null? && s.count == 0 && s.idx == 0 && s.loopIter == 0
    ensures s.canEverTick && !s.tickEnabled && !s.timerArmed
  {
    State([], MinRadiusOfSpawn, 0.0, Unlimited, Null, 0, 0, 0, [], false, true, false, [])
  }

  // ---------------------------------------------------------------------
  // Setters

  /** `FMath::Clamp(x, MinRadiusOfSpawn, MaxRadiusOfSpawn)`. */
  function ClampRadius(x: real): (r: real)
    ensures MinRadiusOfSpawn <= r <= MaxRadiusOfSpawn
    ensures MinRadiusOfSpawn <= x <= MaxRadiusOfSpawn ==> r == x
    ensures x < MinRadiusOfSpawn ==> r == MinRadiusOfSpawn
    ensures x > MaxRadiusOfSpawn ==> r == MaxRadiusOfSpawn
  {
    if x < MinRadiusOfSpawn then MinRadiusOfSpawn
    else if x < MaxRadiusOfSpawn then x
    else MaxRadiusOfSpawn
  }

  /** `FMath::Clamp(x, 0, MaxIntervalOfSpawn)`; 0 means a single burst. */
  function ClampInterval(x: real): (r: real)
    ensures 0.0 <= r <= MaxIntervalOfSpawn
    ensures 0.0 <= x <= MaxIntervalOfSpawn ==> r == x
    ensures x < 0.0 ==> r == 0.0
    ensures x > MaxIntervalOfSpawn ==> r == MaxIntervalOfSpawn
  {
    if x < 0.0 then 0.0
    else if x < MaxIntervalOfSpawn then x
    else MaxIntervalOfSpawn
  }

  function SetRadiusOfSpawn(s: State, x: real): State {
    s.(radius := ClampRadius(x))
  }

  function SetIntervalOfSpawn(s: State, x: real): State {
    s.(interval := ClampInterval(x))
  }

  /** `ActorsToSpawn.FindOrAdd(c) = n`, with no validity pass. */
  function ChangeAmountToSpawn(s: State, c: ClassRef, n: int): State {
    s.(entries := Put(s.entries, c, n))
  }

  function CheckClassValidity(s: State): State {
    s.(entries := Validated(s.entries))
  }

  /** Replace the map, validate it, and clamp radius and interval. */
  function SetParams(s: State, m: seq<Entry>, radius: real, interval: real): (r: State)
    ensures AllSpawnable(r.entries)
    ensures forall d :: Find(r.entries, d) == if IsSpawnable(d) then Find(m, d) else None
    ensures MinRadiusOfSpawn <= r.radius <= MaxRadiusOfSpawn
    ensures 0.0 <= r.interval <= MaxIntervalOfSpawn
    ensures r == s.(entries := Validated(m), radius := ClampRadius(radius), interval := ClampInterval(interval))
  {
    ValidatedFindAll(m);
    CheckClassValidity(s.(entries := m)).(radius := ClampRadius(radius), interval := ClampInterval(interval))
  }

  /** Append `m` to the map, then validate: the valid classes of `m` are
      added with `m`'s amounts, and the other valid pairs keep theirs. */
  function AddClassToSpawn(s: State, m: seq<Entry>): (r: State)
    ensures AllSpawnable(r.entries)
    ensures DistinctKeys(s.entries) && DistinctKeys(m) ==>
      forall d :: Find(r.entries, d) ==
        if !IsSpawnable(d) then None else if d in Keys(m) then Find(m, d) else Find(s.entries, d)
    ensures r == s.(entries := Validated(Merge(s.entries, m)))
  {
    ValidatedFindAll(Merge(s.entries, m));
    if DistinctKeys(s.entries) && DistinctKeys(m) then
      MergeFind(s.entries, m);
      CheckClassValidity(s.(entries := Merge(s.entries, m)))
    else
      CheckClassValidity(s.(entries := Merge(s.entries, m)))
  }

  // ---------------------------------------------------------------------
  // Engine switches

  /** `SetActorTickEnabled`: the engine ignores it once `bCanEverTick` is false. */
  function SetActorTickEnabled(s: State, on: bool): State {
    if s.canEverTick then s.(tickEnabled := on) else s
  }

  function StopSpawnTimer(s: State): State {
    s.(timerArmed := false)
  }

  /** The timer callback: start a fresh produced list and tick again. */
  function StartTick(s: State): (r: State)
    ensures r.spawned == []
    ensures r.tickEnabled == (s.canEverTick || s.tickEnabled)
    ensures r == s.(spawned := [], tickEnabled := r.tickEnabled)
  {
    SetActorTickEnabled(s.(spawned := []), true)
  }

  // ---------------------------------------------------------------------
  // Run start and setup gate

  function StartSpawn(s: State): (r: State)
    ensures |s.entries| == 0 ==> r == s.(timerArmed := false)
    ensures |s.entries| > 0 && s.budget != Unlimited && s.budget <= 0 ==> r == s.(timerArmed := false)
    ensures |s.entries| > 0 && (s.budget == Unlimited || s.budget > 0) ==> (
      && r.spawned == []
      && r.tickEnabled == (s.canEverTick || s.tickEnabled)
      && r.timerArmed == (s.interval > 0.0 || s.timerArmed)
      && r == s.(spawned := [], tickEnabled := r.tickEnabled, timerArmed := r.timerArmed))
  {
    if |s.entries| > 0 then
      if s.budget > 0 || s.budget == Unlimited then
        var armed := if s.interval > 0.0 then StopSpawnTimer(s).(timerArmed := true) else s;
        StartTick(armed)
      else
        StopSpawnTimer(s)
    else
      StopSpawnTimer(s)
  }

  /** The check made when play begins: a region that overlaps nothing turns
      ticking off for good; otherwise the map is validated. */
  function OnStartCheck(s: State, overlaps: nat): (r: State)
    ensures overlaps == 0 ==> !r.canEverTick && r == s.(canEverTick := false)
    ensures overlaps > 0 ==> AllSpawnable(r.entries) && r == s.(entries := Validated(s.entries))
    ensures overlaps > 0 ==>
      forall d :: Find(r.entries, d) == if IsSpawnable(d) then Find(s.entries, d) else None
  {
    if overlaps == 0 then s.(canEverTick := false)
    else
      ValidatedFindAll(s.entries);
      CheckClassValidity(s)
  }

  // ---------------------------------------------------------------------
  // Completion and the ledger cursor

  /** Reset the cursor and fire the completion delegate with the produced list. */
  function AfterSpawn(s: State): (r: State)
    ensures r.cur.Null? && r.count == 0 && r.idx == 0
    ensures r.broadcasts == s.broadcasts + [Broadcast(|s.spawned|, s.spawned)]
    ensures r == s.(cur := Null, count := 0, idx := 0, broadcasts := r.broadcasts)
  {
    s.(cur := Null, count := 0, idx := 0,
       broadcasts := s.broadcasts + [Broadcast(|s.spawned|, s.spawned)])
  }

  /** Move the cursor to the next pair of the map, or finish the run. */
  function FindNextSpawnParameters(s: State): (r: Outcome)
    ensures r.ok <==> 0 <= s.idx + 1 < |s.entries|
    ensures r.ok ==> (
      && r.state.idx == s.idx + 1
      && (r.state.cur, r.state.count) == s.entries[s.idx + 1]
      && r.state == s.(idx := r.state.idx, cur := r.state.cur, count := r.state.count))
    ensures !r.ok ==> (
      && r.state.cur.Null? && r.state.count == 0 && r.state.idx == 0
      && r.state.broadcasts == s.broadcasts + [Broadcast(|s.spawned|, s.spawned)]
      && r.state.tickEnabled == (s.tickEnabled && !s.canEverTick)
      && r.state.timerArmed == s.timerArmed && r.state.spawned == s.spawned)
  {
    var i := s.idx + 1;
    if 0 <= i < |s.entries| then
      Outcome(s.(idx := i, cur := s.entries[i].0, count := s.entries[i].1), true)
    else
      Outcome(SetActorTickEnabled(AfterSpawn(s.(idx := i)), false), false)
  }

  /** The class-change step of `SpawnLoop` as written: advance at most once,
      and accept the pair found there whatever its amount. */
  function AdvanceOnce(s: State): (r: Outcome)
    ensures s.count != 0 ==> r == Outcome(s, true)
    ensures s.count == 0 && r.ok ==>
      0 <= s.idx + 1 < |s.entries| && r.state.idx == s.idx + 1 && (r.state.cur, r.state.count) == s.entries[s.idx + 1]
    ensures r.state.entries == s.entries && r.state.spawned == s.spawned && r.state.budget == s.budget
  {
    if s.count != 0 then Outcome(s, true) else FindNextSpawnParameters(s)
  }

  /** The class-change step as intended: advance past every pair whose amount is 0. */
  function Advance(s: State): (r: Outcome)
    ensures r.ok ==> r.state.count != 0
    ensures r.state.entries == s.entries && r.state.spawned == s.spawned && r.state.budget == s.budget
    decreases |s.entries| - s.idx
  {
    if s.count != 0 then Outcome(s, true)
    else
      var n := FindNextSpawnParameters(s);
      if !n.ok then n else Advance(n.state)
  }

  // ---------------------------------------------------------------------
  // Placement and spawning

  /** A factory call at the found point. `made` is what the factory returns
      for a spawnable class; for a null or non-actor class the engine's
      factory returns null, whatever `made` says. */
  function Spawn(s: State, made: Option<nat>): (r: State)
    ensures made.None? || !IsSpawnable(s.cur) ==> r == s
    ensures made.Some? && IsSpawnable(s.cur) ==> r.spawned == s.spawned + [ActorRef(s.cur, made.value)]
    ensures s.budget > 0 ==> r.budget == s.budget - (|r.spawned| - |s.spawned|)
    ensures s.budget <= 0 ==> r.budget == s.budget
    ensures s.count > 0 ==> r.count == s.count - (|r.spawned| - |s.spawned|)
    ensures s.count <= 0 ==> r.count == s.count
    ensures r == s.(spawned := r.spawned, budget := r.budget, count := r.count)
  {
    if made.Some? && IsSpawnable(s.cur) then
      s.(spawned := s.spawned + [ActorRef(s.cur, made.value)],
         budget := if s.budget > 0 then s.budget - 1 else s.budget,
         count := if s.count > 0 then s.count - 1 else s.count)
    else s
  }

  /** `GetRandomLocationInBox` and `CheckSpawnPosition`: probe until a clear
      point is found (then spawn there) or the counter exceeds the ceiling. */
  function GetRandomLocationInBox(s: State, probes: int -> Probe, made: Option<nat>): (r: State)
    ensures r.entries == s.entries && r.budget <= s.budget
    ensures |s.spawned| <= |r.spawned| <= |s.spawned| + 1
    decreases if s.loopIter > ProbeCeiling then 0 else ProbeCeiling + 1 - s.loopIter
  {
    if s.loopIter > ProbeCeiling then s
    else
      var outcome := probes(s.loopIter);
      var t := s.(loopIter := s.loopIter + 1);
      match outcome
      case GroundMiss => GetRandomLocationInBox(t, probes, made)
      case Blocked => GetRandomLocationInBox(t, probes, made)
      case Clear => Spawn(t, made)
  }

  /** Iterations `i` and later of the per-tick loop of `SpawnLoop`.
      `corrected` chooses the class-change step (see `AdvanceOnce`, `Advance`). */
  function LoopFrom(s: State, i: nat, o: TickOracle, corrected: bool): (r: State)
    ensures r.entries == s.entries && r.budget <= s.budget
    ensures |s.spawned| <= |r.spawned| <= |s.spawned| + (if i < SpawnPerFrame then SpawnPerFrame - i else 0)
    decreases SpawnPerFrame - i
  {
    if i >= SpawnPerFrame then s
    else
      var n := if corrected then Advance(s) else AdvanceOnce(s);
      if !n.ok then n.state
      else if n.state.budget == Unlimited || n.state.budget > 0 then
        LoopFrom(GetRandomLocationInBox(n.state.(loopIter := 0), o(i).probes, o(i).made), i + 1, o, corrected)
      else
        SetActorTickEnabled(AfterSpawn(StopSpawnTimer(n.state)), false)
  }

  function SpawnLoop(s: State, o: TickOracle, corrected: bool): (r: State)
    ensures r.entries == s.entries && r.budget <= s.budget
    ensures |s.spawned| <= |r.spawned| <= |s.spawned| + SpawnPerFrame
  {
    LoopFrom(s, 0, o, corrected)
  }

  /** One tick: adopt the first pair if no class is current, change class if
      the current one is used up, then run `SpawnLoop`. With no current class
      and an empty map there is no first pair: the source reads one anyway
      (see `SpawnActorsLoopAsWritten`); here the tick stops the timer and
      ticking instead, as `StartSpawn` does for an empty map. */
  function SpawnActorsLoop(s: State, o: TickOracle, corrected: bool): (r: State)
    ensures s.cur.Null? && |s.entries| == 0 ==>
      r == s.(timerArmed := false, tickEnabled := s.tickEnabled && !s.canEverTick)
    ensures r.entries == s.entries && r.budget <= s.budget
    ensures |s.spawned| <= |r.spawned| <= |s.spawned| + SpawnPerFrame
  {
    if s.cur.Null? && |s.entries| == 0 then
      SetActorTickEnabled(StopSpawnTimer(s), false)
    else if s.cur.Class? then
      if s.count > 0 then SpawnLoop(s, o, corrected)
      else
        var n := FindNextSpawnParameters(s);
        if n.ok then SpawnLoop(n.state, o, corrected) else n.state
    else
      SpawnLoop(s.(idx := 0, cur := s.entries[0].0, count := s.entries[0].1), o, corrected)
  }

  /** The start of a tick as written: with no current class it reads pair 0
      (`Get(FSetElementId::FromInteger(0))`) without checking that the map
      has one. `None` stands for that read of a missing element. */
  function SpawnActorsLoopAsWritten(s: State, o: TickOracle, corrected: bool): (r: Option<State>)
    ensures r.None? <==> s.cur.Null? && |s.entries| == 0
    ensures r.Some? ==> r.value == SpawnActorsLoop(s, o, corrected)
  {
    if s.cur.Null? && |s.entries| == 0 then None else Some(SpawnActorsLoop(s, o, corrected))
  }

  // ---------------------------------------------------------------------
  // The actor as the host drives it

  /** The calls the host makes into the actor. */
  datatype Op =
    | SetParamsCall(m: seq<Entry>, radius: real, interval: real)
    | SetRadiusCall(radius: real)
    | SetIntervalCall(interval: real)
    | ChangeAmountCall(c: ClassRef, n: int)
    | AddClassesCall(m: seq<Entry>)
    | StartSpawnCall
    | TimerFired
    | TickCall(o: TickOracle)
    | BeginPlayCheck(overlaps: nat)

  /** What the host guarantees before a call: a map argument has distinct
      keys, the timer fires only while armed, and the tick runs only while
      enabled. */
  predicate CanApply(s: State, op: Op) {
    match op
    case SetParamsCall(m, _, _) => DistinctKeys(m)
    case AddClassesCall(m) => DistinctKeys(m)
    case TimerFired => s.timerArmed
    case TickCall(_) => s.tickEnabled
    case _ => true
  }

  function Apply(s: State, op: Op): State
    requires CanApply(s, op)
  {
    match op
    case SetParamsCall(m, radius, interval) => SetParams(s, m, radius, interval)
    case SetRadiusCall(radius) => SetRadiusOfSpawn(s, radius)
    case SetIntervalCall(interval) => SetIntervalOfSpawn(s, interval)
    case ChangeAmountCall(c, n) => ChangeAmountToSpawn(s, c, n)
    case AddClassesCall(m) => AddClassToSpawn(s, m)
    case StartSpawnCall => StartSpawn(s)
    case TimerFired => StartTick(s)
    case TickCall(o) => SpawnActorsLoop(s, o, true)
    case BeginPlayCheck(overlaps) => OnStartCheck(s, overlaps)
  }

  /** The state after a sequence of calls, or `None` if the host broke a guarantee. */
  function Replay(s: State, ops: seq<Op>): Option<State>
    decreases |ops|
  {
    if ops == [] then Some(s)
    else if CanApply(s, ops[0]) then Replay(Apply(s, ops[0]), ops[1..])
    else None
  }
}
