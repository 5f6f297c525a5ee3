/** The spawner actor as an object whose fields the operations update in
    place, with the class change of `SpawnLoop` corrected (see
    `SpawnerModel.Advance`). Every method is proved to take the actor's
    fields exactly where the matching function of `SpawnerModel` takes the
    state record, so every property proved about that state machine holds
    of the object. The recursion between the placement search and the
    clearance check is the loop it amounts to, driven by the probe counter. */
module SpawnerActor {
  import opened Ledger
  import opened SpawnerModel

  class Spawner {
    var entries: seq<Entry>        // ActorsToSpawn
    var radius: real               // RadiusOfSpawn
    var interval: real             // IntervalOfSpawn
    var budget: int                // GlobalSpawnLimit
    var cur: ClassRef              // CurrentClassToSpawn
    var count: int                 // CurrentCountToSpawn
    var idx: int                   // ClassIndex
    var loopIter: int              // LoopIterator
    var spawned: seq<ActorRef>     // LastSpawnedActors
    var tickEnabled: bool          // the tick function is enabled
    var canEverTick: bool          // PrimaryActorTick.bCanEverTick
    var timerArmed: bool           // SpawnTimer is active
    /** Every firing of `OnFinishSpawnDelegate` so far. */
    ghost var broadcasts: seq<Broadcast>

    /** The fields as a state of the state machine. */
    ghost function Abs(): State
      reads this
    {
      State(entries, radius, interval, budget, cur, count, idx, loopIter, spawned,
            tickEnabled, canEverTick, timerArmed, broadcasts)
    }

    /** The defaults of a freshly constructed actor: ticking allowed but
        disabled, no limit, radius 100, interval 0. */
    constructor()
      ensures Abs() == Initial()
    {
      entries := [];
      radius := 100.0;
      interval := 0.0;
      budget := Unlimited;
      cur := Null;
      count := 0;
      idx := 0;
      loopIter := 0;
      spawned := [];
      tickEnabled := false;
      canEverTick := true;
      timerArmed := false;
      broadcasts := [];
    }

    // -------------------------------------------------------------------
    // Setters

    method SetRadiusOfSpawn(x: real)
      modifies this
      ensures Abs() == SpawnerModel.SetRadiusOfSpawn(old(Abs()), x)
      ensures MinRadiusOfSpawn <= radius <= MaxRadiusOfSpawn
    {
      radius := ClampRadius(x);
    }

    method SetIntervalOfSpawn(x: real)
      modifies this
      ensures Abs() == SpawnerModel.SetIntervalOfSpawn(old(Abs()), x)
      ensures 0.0 <= interval <= MaxIntervalOfSpawn
    {
      interval := ClampInterval(x);
    }

    method ChangeAmountToSpawn(c: ClassRef, n: int)
      modifies this
      ensures Abs() == SpawnerModel.ChangeAmountToSpawn(old(Abs()), c, n)
      ensures Find(entries, c) == Some(n)
    {
      entries := Put(entries, c, n);
      PutFind(old(entries), c, n, c);
    }

    /** Collect the keys that fail the validity test, then remove them one
        by one. */
    method CheckClassValidity()
      modifies this
      ensures Abs() == SpawnerModel.CheckClassValidity(old(Abs()))
      ensures AllSpawnable(entries)
    {
      var invalid: seq<ClassRef> := [];
      var i := 0;
      while i < |entries|
        invariant 0 <= i <= |entries|
        invariant forall k :: k in invalid ==> !IsSpawnable(k)
        invariant forall j :: 0 <= j < i ==> (!IsSpawnable(entries[j].0) ==> entries[j].0 in invalid)
      {
        if !IsSpawnable(entries[i].0) {
          invalid := invalid + [entries[i].0];
        }
        i := i + 1;
      }
      ghost var e0 := entries;
      RemoveNone(e0);
      var j := 0;
      while j < |invalid|
        invariant 0 <= j <= |invalid|
        invariant entries == RemoveAll(e0, invalid[..j])
        invariant Abs() == old(Abs()).(entries := entries)
      {
        RemoveAllSnoc(e0, invalid[..j], invalid[j]);
        assert invalid[..j + 1] == invalid[..j] + [invalid[j]];
        entries := Without(entries, invalid[j]);
        j := j + 1;
      }
      assert invalid[..|invalid|] == invalid;
      RemoveInvalidIsValidated(e0, invalid);
    }

    /** Replace the map, validate it, and clamp radius and interval. */
    method SetParams(m: seq<Entry>, newRadius: real, newInterval: real)
      modifies this
      ensures Abs() == SpawnerModel.SetParams(old(Abs()), m, newRadius, newInterval)
    {
      entries := m;
      CheckClassValidity();
      radius := ClampRadius(newRadius);
      interval := ClampInterval(newInterval);
    }

    /** Append `m` to the map (a key already present takes `m`'s amount),
        then validate. */
    method AddClassToSpawn(m: seq<Entry>)
      modifies this
      ensures Abs() == SpawnerModel.AddClassToSpawn(old(Abs()), m)
    {
      entries := Merge(entries, m);
      CheckClassValidity();
    }

    // -------------------------------------------------------------------
    // Engine switches

    /** The engine ignores the request once `bCanEverTick` is false. */
    method SetActorTickEnabled(on: bool)
      modifies this
      ensures Abs() == SpawnerModel.SetActorTickEnabled(old(Abs()), on)
    {
      if canEverTick {
        tickEnabled := on;
      }
    }

    method StopSpawnTimer()
      modifies this
      ensures Abs() == SpawnerModel.StopSpawnTimer(old(Abs()))
    {
      if timerArmed {
        timerArmed := false;
      }
    }

    method StartTick()
      modifies this
      ensures Abs() == SpawnerModel.StartTick(old(Abs()))
    {
      spawned := [];
      SetActorTickEnabled(true);
    }

    // -------------------------------------------------------------------
    // Run start and setup gate

    /** Start a run: nothing to do on an empty map or an exhausted budget
        (the timer is disarmed); otherwise re-arm the timer when the interval
        is positive and start ticking. */
    method StartSpawn()
      modifies this
      ensures Abs() == SpawnerModel.StartSpawn(old(Abs()))
    {
      if |entries| > 0 {
        if budget > 0 || budget == Unlimited {
          if interval > 0.0 {
            StopSpawnTimer();
            timerArmed := true;
          }
          StartTick();
        } else {
          StopSpawnTimer();
        }
      } else {
        StopSpawnTimer();
      }
    }

    /** `overlaps` is how many actors the overlap test finds in the region. */
    method OnStartCheck(overlaps: nat)
      modifies this
      ensures Abs() == SpawnerModel.OnStartCheck(old(Abs()), overlaps)
    {
      if overlaps == 0 {
        canEverTick := false;
        return;
      }
      CheckClassValidity();
    }

    // -------------------------------------------------------------------
    // Completion and the ledger cursor

    method AfterSpawn()
      modifies this
      ensures Abs() == SpawnerModel.AfterSpawn(old(Abs()))
    {
      cur := Null;
      count := 0;
      idx := 0;
      broadcasts := broadcasts + [Broadcast(|spawned|, spawned)];
    }

    method FindNextSpawnParameters() returns (found: bool)
      modifies this
      ensures var n := SpawnerModel.FindNextSpawnParameters(old(Abs()));
        Abs() == n.state && found == n.ok
    {
      idx := idx + 1;
      if 0 <= idx < |entries| {
        cur := entries[idx].0;
        count := entries[idx].1;
        return true;
      }
      AfterSpawn();
      SetActorTickEnabled(false);
      return false;
    }

    // -------------------------------------------------------------------
    // Placement and spawning

    /** Ask the factory for an actor of the current class; `made` is what it
        returns for a spawnable class. */
    method Spawn(made: Option<nat>)
      modifies this
      ensures Abs() == SpawnerModel.Spawn(old(Abs()), made)
    {
      // the engine's factory refuses a null or non-actor class
      var actor := if IsSpawnable(cur) then made else None;
      if actor.Some? {
        spawned := spawned + [ActorRef(cur, actor.value)];
        if budget > 0 {
          budget := budget - 1;
        }
        if count > 0 {
          count := count - 1;
        }
      }
    }

    /** The clearance test at a point where the ground was found: spawn there,
        or report the point blocked so that the search goes on. */
    method CheckSpawnPosition(outcome: Probe, made: Option<nat>) returns (blocked: bool)
      requires outcome != GroundMiss
      modifies this
      ensures blocked <==> outcome == Blocked
      ensures Abs() == if blocked then old(Abs()) else SpawnerModel.Spawn(old(Abs()), made)
    {
      if outcome == Blocked {
        return true;
      }
      Spawn(made);
      return false;
    }

    /** Probe until a point is clear or the counter passes the ceiling.
        `probes(v)` is what the probe made while the counter holds `v` finds. */
    method GetRandomLocationInBox(probes: int -> Probe, made: Option<nat>)
      modifies this
      ensures Abs() == SpawnerModel.GetRandomLocationInBox(old(Abs()), probes, made)
    {
      while loopIter <= ProbeCeiling
        invariant SpawnerModel.GetRandomLocationInBox(Abs(), probes, made)
               == SpawnerModel.GetRandomLocationInBox(old(Abs()), probes, made)
        decreases ProbeCeiling - loopIter
      {
        var outcome := probes(loopIter);
        loopIter := loopIter + 1;
        if outcome != GroundMiss {
          var blocked := CheckSpawnPosition(outcome, made);
          if !blocked {
            return;
          }
        }
      }
    }

    /** Up to `SpawnPerFrame` placement attempts. A used-up class is replaced
        by the next class with a positive amount; the run finishes when none is
        left or the budget is exhausted. */
    method SpawnLoop(o: TickOracle)
      modifies this
      ensures Abs() == SpawnerModel.SpawnLoop(old(Abs()), o, true)
    {
      for i := 0 to SpawnPerFrame
        invariant LoopFrom(Abs(), i, o, true) == LoopFrom(old(Abs()), 0, o, true)
      {
        ghost var s0 := Abs();
        while count == 0
          invariant Advance(Abs()) == Advance(s0)
          decreases |entries| - idx
        {
          var found := FindNextSpawnParameters();
          if !found {
            return;
          }
        }
        if budget == Unlimited || budget > 0 {
          loopIter := 0;
          GetRandomLocationInBox(o(i).probes, o(i).made);
        } else {
          StopSpawnTimer();
          AfterSpawn();
          SetActorTickEnabled(false);
          return;
        }
      }
    }

    /** One tick: adopt the first pair when no class is current, move on when
        the current class is used up, then run the loop. With no current
        class and an empty map, stop the timer and ticking instead of
        reading a first pair that does not exist. */
    method SpawnActorsLoop(o: TickOracle)
      modifies this
      ensures Abs() == SpawnerModel.SpawnActorsLoop(old(Abs()), o, true)
    {
      if cur.Null? && |entries| == 0 {
        StopSpawnTimer();
        SetActorTickEnabled(false);
      } else if cur.Class? {
        if count > 0 {
          SpawnLoop(o);
        } else {
          var found := FindNextSpawnParameters();
          if found {
            SpawnLoop(o);
          }
        }
      } else {
        idx := 0;
        cur := entries[0].0;
        count := entries[0].1;
        SpawnLoop(o);
      }
    }
  }
}
