/** What the spawner promises, stated about the state machine of
    model.dfy: the bounded placement search, what one tick may change, the
    budget and the quotas, the completion broadcast, termination of a run,
    and the invariants every call of the host keeps. */
module SpawnerProperties {
  import opened Ledger
  import opened SpawnerModel

  // ---------------------------------------------------------------------
  // Vocabulary

  /** How many actors were appended to the produced list from `s` to `r`. */
  function Produced(s: State, r: State): int {
    |r.spawned| - |s.spawned|
  }

  /** A finished run: no current class, counters reset, ticking off. */
  predicate Finished(r: State) {
    r.cur.Null? && r.count == 0 && r.idx == 0 && (r.canEverTick ==> !r.tickEnabled)
  }

  /** A validated ledger with non-negative amounts and a cursor that points
      at the pair the current class was drawn from. */
  predicate Consistent(s: State) {
    && AllSpawnable(s.entries)
    && NonNegative(s.entries)
    && |s.entries| > 0
    && (s.cur.Class? ==> 0 <= s.idx < |s.entries| && s.entries[s.idx].0 == s.cur && s.count >= 0)
  }

  /** How many actors the ledger still asks for: the whole map when no class
      is current (the next tick starts from the first pair), otherwise what
      is left of the current class and of the pairs after it. */
  function Pending(s: State): int {
    if s.cur.Null? then SumCounts(s.entries)
    else s.count + (if 0 <= s.idx < |s.entries| then SumCounts(s.entries[s.idx + 1..]) else 0)
  }

  /** What a run still owes: nothing once it has finished. */
  function Left(r: State): int {
    if r.cur.Null? then 0 else Pending(r)
  }

  /** Geometry and factory cooperate: the first probe of every attempt is clear
      and every factory call succeeds. */
  predicate Cooperative(o: TickOracle) {
    forall i: nat :: i < SpawnPerFrame ==> o(i).probes(0) == Clear && o(i).made.Some?
  }

  /** What a tick may change, and how. */
  predicate TickEffects(s: State, r: State) {
    && s.spawned <= r.spawned
    && r.entries == s.entries && r.radius == s.radius && r.interval == s.interval
    && r.canEverTick == s.canEverTick
    && (!s.canEverTick ==> r.tickEnabled == s.tickEnabled)
    && (r.timerArmed ==> s.timerArmed)
    && (s.budget >= 0 ==> r.budget == s.budget - Produced(s, r) && r.budget >= 0)
    && (s.budget < 0 ==> r.budget == s.budget)
    && (|| r.broadcasts == s.broadcasts
        || (r.broadcasts == s.broadcasts + [Broadcast(|r.spawned|, r.spawned)] && Finished(r)))
    && (s.idx >= 0 ==> r.idx >= 0)
    && (0 <= s.loopIter <= ProbeCeiling + 1 ==> 0 <= r.loopIter <= ProbeCeiling + 1)
  }

  // ---------------------------------------------------------------------
  // Ledger arithmetic

  lemma SumSplit(e: seq<Entry>, j: int)
    requires 0 <= j < |e|
    ensures SumCounts(e[j..]) == e[j].1 + SumCounts(e[j + 1..])
  {
    assert e[j..][0] == e[j];
    assert e[j..][1..] == e[j + 1..];
  }

  lemma {:induction false} SumNonNegative(e: seq<Entry>, j: int)
    requires NonNegative(e) && 0 <= j <= |e|
    ensures SumCounts(e[j..]) >= 0
    decreases |e| - j
  {
    if j < |e| {
      SumSplit(e, j);
      SumNonNegative(e, j + 1);
    }
  }

  lemma PendingNonNegative(s: State)
    requires Consistent(s)
    ensures Pending(s) >= 0
  {
    SumNonNegative(s.entries, 0);
    assert s.entries[0..] == s.entries;
    if s.cur.Class? {
      SumNonNegative(s.entries, s.idx + 1);
    }
  }

  // ---------------------------------------------------------------------
  // Placement search

  /** One placement attempt makes at most `ProbeCeiling + 1` probes: every
      probe raises the counter, a ground miss and a blocked point both cost a
      probe, and the attempt spawns at most once, at the first clear point. */
  lemma {:induction false} SearchBound(s: State, probes: int -> Probe, made: Option<nat>)
    requires s.loopIter <= ProbeCeiling
    ensures var r := GetRandomLocationInBox(s, probes, made);
      && s.loopIter < r.loopIter <= ProbeCeiling + 1
      && (forall v :: s.loopIter <= v < r.loopIter - 1 ==> probes(v) != Clear)
      && (if probes(r.loopIter - 1) == Clear
          then r == Spawn(s.(loopIter := r.loopIter), made)
          else r.loopIter == ProbeCeiling + 1 && r == s.(loopIter := r.loopIter))
    decreases ProbeCeiling - s.loopIter
  {
    var t := s.(loopIter := s.loopIter + 1);
    if probes(s.loopIter) != Clear && t.loopIter <= ProbeCeiling {
      SearchBound(t, probes, made);
    }
  }

  /** The attempt as `SpawnLoop` makes it, from a reset counter: it appends
      at most the factory's actor, spends budget and quota only for it, and
      appends it when the first probe is clear and the factory succeeds. */
  lemma SearchEffects(s: State, probes: int -> Probe, made: Option<nat>)
    requires s.loopIter == 0
    ensures var r := GetRandomLocationInBox(s, probes, made);
      && (r.spawned == s.spawned || (made.Some? && r.spawned == s.spawned + [ActorRef(s.cur, made.value)]))
      && (probes(0) == Clear && made.Some? && IsSpawnable(s.cur) ==> |r.spawned| == |s.spawned| + 1)
      && (!IsSpawnable(s.cur) ==> r.spawned == s.spawned)
      && (s.budget > 0 ==> r.budget == s.budget - Produced(s, r))
      && (s.budget <= 0 ==> r.budget == s.budget)
      && (s.count > 0 ==> r.count == s.count - Produced(s, r))
      && (s.count <= 0 ==> r.count == s.count)
      && 0 < r.loopIter <= ProbeCeiling + 1
      && r == s.(loopIter := r.loopIter, spawned := r.spawned, budget := r.budget, count := r.count)
  {
    SearchBound(s, probes, made);
  }

  // ---------------------------------------------------------------------
  // Changing class

  /** The class-change step touches only the cursor, or finishes the run. */
  lemma {:induction false} AdvanceEffects(s: State, corrected: bool)
    ensures var n := if corrected then Advance(s) else AdvanceOnce(s);
      && (n.ok ==> n.state == s.(cur := n.state.cur, count := n.state.count, idx := n.state.idx)
                   && (s.idx >= 0 ==> n.state.idx >= 0))
      && (!n.ok ==> n.state == SetActorTickEnabled(AfterSpawn(s), false))
    decreases |s.entries| - s.idx
  {
    if corrected && s.count == 0 {
      var f := FindNextSpawnParameters(s);
      if f.ok {
        AdvanceEffects(f.state, true);
      } else {
        assert AfterSpawn(s.(idx := s.idx + 1)) == AfterSpawn(s);
      }
    } else if s.count == 0 {
      assert AfterSpawn(s.(idx := s.idx + 1)) == AfterSpawn(s);
    }
  }

  /** The intended class-change step keeps the ledger consistent, lands on a
      class with a positive amount without changing what is pending, and
      fails only when nothing is pending. */
  lemma {:induction false} AdvanceQuota(s: State)
    requires Consistent(s) && s.cur.Class?
    ensures var n := Advance(s);
      && (n.ok ==> Consistent(n.state) && n.state.cur.Class? && n.state.count > 0 && Pending(n.state) == Pending(s))
      && (!n.ok ==> Pending(s) == 0)
    decreases |s.entries| - s.idx
  {
    if s.count == 0 {
      var f := FindNextSpawnParameters(s);
      var i := s.idx + 1;
      if f.ok {
        SumSplit(s.entries, i);
        assert Consistent(f.state);
        assert Pending(f.state) == Pending(s);
        AdvanceQuota(f.state);
      } else {
        assert s.entries[i..] == [];
      }
    }
  }

  // ---------------------------------------------------------------------
  // One tick

  /** A step that changes what a tick may change, and fires no delegate. */
  predicate QuietEffects(s: State, t: State) {
    TickEffects(s, t) && t.broadcasts == s.broadcasts
  }

  lemma EffectsTrans(s: State, t: State, r: State)
    requires QuietEffects(s, t) && TickEffects(t, r)
    ensures TickEffects(s, r) && Produced(s, r) == Produced(s, t) + Produced(t, r)
  {
    assert s.spawned == t.spawned[..|s.spawned|];
    assert t.spawned == r.spawned[..|t.spawned|];
    assert s.spawned == r.spawned[..|s.spawned|];
  }

  /** Finishing the run: reset the cursor, fire the delegate, stop ticking
      (and, on the budget path, disarm the timer first). */
  lemma FinishEffects(s: State, stop: bool)
    ensures var r := SetActorTickEnabled(AfterSpawn(if stop then StopSpawnTimer(s) else s), false);
      TickEffects(s, r) && Finished(r) && r.spawned == s.spawned
      && r.broadcasts == s.broadcasts + [Broadcast(|s.spawned|, s.spawned)]
      && (stop ==> !r.timerArmed)
  {
  }

  /** One placement attempt after a successful class change. */
  lemma AttemptEffects(s: State, n: State, a: Attempt)
    requires n == s.(cur := n.cur, count := n.count, idx := n.idx)
    requires s.idx >= 0 ==> n.idx >= 0
    requires n.budget == Unlimited || n.budget > 0
    ensures var t := GetRandomLocationInBox(n.(loopIter := 0), a.probes, a.made);
      QuietEffects(s, t) && Produced(s, t) <= 1
  {
    SearchEffects(n.(loopIter := 0), a.probes, a.made);
  }

  /** An iteration whose class change finds nothing left, or finds the
      budget exhausted, ends the loop without placing anything. */
  lemma LoopEndEffects(s: State, i: nat, o: TickOracle, corrected: bool)
    requires i < SpawnPerFrame
    requires var n := if corrected then Advance(s) else AdvanceOnce(s);
      !n.ok || !(n.state.budget == Unlimited || n.state.budget > 0)
    ensures var r := LoopFrom(s, i, o, corrected);
      TickEffects(s, r) && Produced(s, r) <= SpawnPerFrame - i
  {
    var n := if corrected then Advance(s) else AdvanceOnce(s);
    AdvanceEffects(s, corrected);
    if n.ok {
      assert AfterSpawn(StopSpawnTimer(n.state)) == AfterSpawn(StopSpawnTimer(s));
      FinishEffects(s, true);
    } else {
      FinishEffects(s, false);
    }
  }

  /** An iteration that makes a placement attempt hands on to the next one. */
  lemma LoopAttemptStep(s: State, i: nat, o: TickOracle, corrected: bool) returns (t: State)
    requires i < SpawnPerFrame
    requires var n := if corrected then Advance(s) else AdvanceOnce(s);
      n.ok && (n.state.budget == Unlimited || n.state.budget > 0)
    ensures LoopFrom(s, i, o, corrected) == LoopFrom(t, i + 1, o, corrected)
    ensures t == GetRandomLocationInBox((if corrected then Advance(s) else AdvanceOnce(s)).state.(loopIter := 0), o(i).probes, o(i).made)
    ensures QuietEffects(s, t) && Produced(s, t) <= 1
  {
    var n := if corrected then Advance(s) else AdvanceOnce(s);
    AdvanceEffects(s, corrected);
    t := GetRandomLocationInBox(n.state.(loopIter := 0), o(i).probes, o(i).made);
    AttemptEffects(s, n.state, o(i));
  }

  /** What the iterations of a tick's loop may change; at most one placement
      per iteration. */
  lemma {:induction false} LoopEffects(s: State, i: nat, o: TickOracle, corrected: bool)
    requires i <= SpawnPerFrame
    ensures var r := LoopFrom(s, i, o, corrected);
      TickEffects(s, r) && Produced(s, r) <= SpawnPerFrame - i
    decreases SpawnPerFrame - i
  {
    if i < SpawnPerFrame {
      var n := if corrected then Advance(s) else AdvanceOnce(s);
      if n.ok && (n.state.budget == Unlimited || n.state.budget > 0) {
        var t := LoopAttemptStep(s, i, o, corrected);
        LoopEffects(t, i + 1, o, corrected);
        EffectsTrans(s, t, LoopFrom(t, i + 1, o, corrected));
      } else {
        LoopEndEffects(s, i, o, corrected);
      }
    }
  }

  /** Where a tick's loop starts: the first pair when no class is current,
      the next pair when the current one is used up. */
  function TickStart(s: State): Outcome
    requires s.cur.Null? ==> |s.entries| > 0
  {
    if s.cur.Class? then
      if s.count > 0 then Outcome(s, true) else FindNextSpawnParameters(s)
    else Outcome(s.(idx := 0, cur := s.entries[0].0, count := s.entries[0].1), true)
  }

  /** A tick is its start followed by the loop, or the finish when the start
      finds no pair; the start moves only the cursor. */
  lemma TickUnfold(s: State, o: TickOracle, corrected: bool)
    requires s.cur.Null? ==> |s.entries| > 0
    ensures var n := TickStart(s);
      && SpawnActorsLoop(s, o, corrected) == (if n.ok then LoopFrom(n.state, 0, o, corrected) else n.state)
      && (n.ok ==> QuietEffects(s, n.state) && Produced(s, n.state) == 0)
      && (!n.ok ==> n.state == SetActorTickEnabled(AfterSpawn(s), false))
  {
    if s.cur.Class? && s.count <= 0 && !FindNextSpawnParameters(s).ok {
      assert AfterSpawn(s.(idx := s.idx + 1)) == AfterSpawn(s);
    }
  }

  /** From a consistent ledger the start lands on a pair without changing
      what is pending, and fails only when nothing is pending. */
  lemma TickStartQuota(s: State)
    requires Consistent(s)
    ensures var n := TickStart(s);
      && (n.ok ==> Consistent(n.state) && n.state.cur.Class? && Pending(n.state) == Pending(s))
      && (!n.ok ==> Pending(s) == 0)
  {
    if s.cur.Class? {
      if s.count <= 0 {
        if FindNextSpawnParameters(s).ok {
          SumSplit(s.entries, s.idx + 1);
        } else {
          assert s.entries[s.idx + 1..] == [];
        }
      }
    } else {
      SumSplit(s.entries, 0);
      assert s.entries[0..] == s.entries;
    }
  }

  /** What a tick may change: the map, radius, interval and the setup gate
      stay; the produced list only grows, by at most `SpawnPerFrame`; a
      finite budget drops by exactly the number produced and never below 0,
      an unlimited one stays unlimited; the timer is at most disarmed; and the
      tick fires the completion delegate at most once, reporting the length
      of the full produced list, and only as it finishes the run. */
  lemma TickBounds(s: State, o: TickOracle, corrected: bool)
    requires s.cur.Null? ==> |s.entries| > 0
    ensures var r := SpawnActorsLoop(s, o, corrected);
      TickEffects(s, r) && Produced(s, r) <= SpawnPerFrame
  {
    var n := TickStart(s);
    TickUnfold(s, o, corrected);
    if n.ok {
      LoopEffects(n.state, 0, o, corrected);
      EffectsTrans(s, n.state, LoopFrom(n.state, 0, o, corrected));
    } else {
      FinishEffects(s, false);
    }
  }

  /** With the intended class change, a tick from a consistent ledger and an
      exhausted budget reaches the budget check, and so disarms the timer,
      exactly when something is still pending. */
  lemma ExhaustedBudgetTimer(s: State, o: TickOracle)
    requires Consistent(s) && s.budget != Unlimited && s.budget <= 0
    ensures var r := SpawnActorsLoop(s, o, true);
      !r.timerArmed <==> Pending(s) > 0 || !s.timerArmed
  {
    var n := TickStart(s);
    TickUnfold(s, o, true);
    TickStartQuota(s);
    if n.ok {
      assert n.state.timerArmed == s.timerArmed;
      var m := Advance(n.state);
      AdvanceQuota(n.state);
      AdvanceEffects(n.state, true);
      if m.ok {
        SumNonNegative(m.state.entries, m.state.idx + 1);
        assert Pending(n.state) > 0;
      }
    }
  }

  /** A tick that starts with an exhausted budget (neither -1 nor positive)
      places nothing and finishes the run, firing the delegate with the
      produced list. It disarms the timer whenever it reaches the budget
      check with a class in hand: when a class with a positive amount is
      current, and, with the intended class change, exactly when the ledger
      still has something pending. */
  lemma ExhaustedBudgetFinishes(s: State, o: TickOracle, corrected: bool)
    requires s.cur.Null? ==> |s.entries| > 0
    requires s.budget != Unlimited && s.budget <= 0
    ensures var r := SpawnActorsLoop(s, o, corrected);
      && r.spawned == s.spawned
      && Finished(r)
      && r.broadcasts == s.broadcasts + [Broadcast(|s.spawned|, s.spawned)]
      && (s.cur.Class? && s.count > 0 ==> !r.timerArmed)
      && (corrected && Consistent(s) ==> (!r.timerArmed <==> Pending(s) > 0 || !s.timerArmed))
  {
    var n := TickStart(s);
    TickUnfold(s, o, corrected);
    if n.ok {
      AdvanceEffects(n.state, corrected);
    }
    if corrected && Consistent(s) {
      ExhaustedBudgetTimer(s, o);
    }
  }

  /** The quota of an iteration that ends the loop: nothing is placed, the
      run finishes, and when the class change found nothing left nothing was
      pending. */
  lemma LoopQuotaEnd(s: State, i: nat, o: TickOracle)
    requires Consistent(s) && s.cur.Class? && i < SpawnPerFrame
    requires var n := Advance(s);
      !n.ok || !(n.state.budget == Unlimited || n.state.budget > 0)
    ensures var r := LoopFrom(s, i, o, true);
      && Consistent(r)
      && r.spawned == s.spawned && r.entries == s.entries
      && |r.broadcasts| == |s.broadcasts| + 1 && r.cur.Null?
      && 0 <= Pending(s)
      && (s.budget == Unlimited || r.budget > 0 ==> Pending(s) == 0)
  {
    var n := Advance(s);
    AdvanceQuota(s);
    AdvanceEffects(s, true);
    PendingNonNegative(s);
    if n.ok {
      assert AfterSpawn(StopSpawnTimer(n.state)) == AfterSpawn(StopSpawnTimer(s));
    }
  }

  /** The quota of an iteration that makes a placement attempt: the ledger
      stays consistent, the actor placed (if any) is of the current class,
      and it is taken off what is pending. */
  lemma LoopQuotaStep(s: State, i: nat, o: TickOracle) returns (t: State)
    requires Consistent(s) && s.cur.Class? && i < SpawnPerFrame
    requires var n := Advance(s);
      n.ok && (n.state.budget == Unlimited || n.state.budget > 0)
    ensures LoopFrom(s, i, o, true) == LoopFrom(t, i + 1, o, true)
    ensures Consistent(t) && t.cur.Class? && t.entries == s.entries
    ensures s.spawned <= t.spawned && |t.spawned| <= |s.spawned| + 1
    ensures forall k :: |s.spawned| <= k < |t.spawned| ==> t.spawned[k].cls in Keys(s.entries)
    ensures t.broadcasts == s.broadcasts
    ensures Produced(s, t) + Pending(t) == Pending(s)
    ensures s.budget == Unlimited ==> t.budget == Unlimited
    ensures s.budget >= 0 ==> t.budget == s.budget - Produced(s, t)
    ensures s.budget < 0 ==> t.budget == s.budget
  {
    var n := Advance(s);
    AdvanceQuota(s);
    AdvanceEffects(s, true);
    var a := n.state.(loopIter := 0);
    t := LoopAttemptStep(s, i, o, true);
    SearchQuota(a, o(i).probes, o(i).made);
  }

  /** The quota of one placement attempt on a positive amount: the ledger
      stays consistent, the actor placed (if any) is of the current class,
      and it is taken off what is pending and off a finite budget. */
  lemma SearchQuota(a: State, probes: int -> Probe, made: Option<nat>)
    requires Consistent(a) && a.cur.Class? && a.count > 0 && a.loopIter == 0
    requires a.budget == Unlimited || a.budget > 0
    ensures var t := GetRandomLocationInBox(a, probes, made);
      && Consistent(t) && t.cur == a.cur && t.idx == a.idx && t.entries == a.entries
      && a.spawned <= t.spawned && |t.spawned| <= |a.spawned| + 1
      && (forall k :: |a.spawned| <= k < |t.spawned| ==> t.spawned[k].cls in Keys(a.entries))
      && t.broadcasts == a.broadcasts
      && Produced(a, t) + Pending(t) == Pending(a)
      && (a.budget == Unlimited ==> t.budget == Unlimited)
      && (a.budget >= 0 ==> t.budget == a.budget - Produced(a, t))
      && (a.budget < 0 ==> t.budget == a.budget)
  {
    SearchEffects(a, probes, made);
    var t := GetRandomLocationInBox(a, probes, made);
    assert Pending(t) + Produced(a, t) == Pending(a);
    assert a.cur == a.entries[a.idx].0;
  }

  /** The quota accounting of one placement attempt (`s` to `t`) joined to
      that of the iterations after it (`t` to `r`). */
  lemma QuotaCompose(s: State, t: State, r: State)
    requires s.spawned <= t.spawned && t.broadcasts == s.broadcasts && t.entries == s.entries
    requires forall k :: |s.spawned| <= k < |t.spawned| ==> t.spawned[k].cls in Keys(s.entries)
    requires Produced(s, t) + Pending(t) == Pending(s)
    requires s.budget == Unlimited ==> t.budget == Unlimited
    requires TickEffects(t, r) && Consistent(r)
    requires forall k :: |t.spawned| <= k < |r.spawned| ==> r.spawned[k].cls in Keys(t.entries)
    requires |r.broadcasts| == |t.broadcasts| + (if r.cur.Null? then 1 else 0)
    requires Produced(t, r) + Left(r) <= Pending(t)
    requires t.budget == Unlimited || r.budget > 0 ==> Produced(t, r) + Left(r) == Pending(t)
    ensures forall k :: |s.spawned| <= k < |r.spawned| ==> r.spawned[k].cls in Keys(s.entries)
    ensures |r.broadcasts| == |s.broadcasts| + (if r.cur.Null? then 1 else 0)
    ensures Produced(s, r) + Left(r) <= Pending(s)
    ensures s.budget == Unlimited || r.budget > 0 ==> Produced(s, r) + Left(r) == Pending(s)
  {
    assert r.budget > 0 ==> t.budget > 0;
    forall k | |s.spawned| <= k < |r.spawned|
      ensures r.spawned[k].cls in Keys(s.entries)
    {
      if k < |t.spawned| {
        assert r.spawned[k] == t.spawned[k];
      }
    }
  }

  /** One loop iteration onwards, with the intended class change: the ledger
      stays consistent, every actor produced is of a class of the map, and
      the actors produced plus what the run still owes never exceed what was
      pending — exactly equal while the budget is unlimited or still positive. */
  lemma {:induction false} LoopQuota(s: State, i: nat, o: TickOracle)
    requires Consistent(s) && s.cur.Class? && i <= SpawnPerFrame
    ensures var r := LoopFrom(s, i, o, true);
      && Consistent(r)
      && (forall k :: |s.spawned| <= k < |r.spawned| ==> r.spawned[k].cls in Keys(s.entries))
      && |r.broadcasts| == |s.broadcasts| + (if r.cur.Null? then 1 else 0)
      && Produced(s, r) + Left(r) <= Pending(s)
      && (s.budget == Unlimited || r.budget > 0 ==> Produced(s, r) + Left(r) == Pending(s))
    decreases SpawnPerFrame - i, 1
  {
    if i == SpawnPerFrame {
      PendingNonNegative(s);
    } else {
      var n := Advance(s);
      if n.ok && (n.state.budget == Unlimited || n.state.budget > 0) {
        LoopQuotaAttempt(s, i, o);
      } else {
        LoopQuotaEnd(s, i, o);
      }
    }
  }

  /** `LoopQuota` for an iteration that makes a placement attempt: the
      attempt's accounting joined to that of the iterations after it. */
  lemma {:induction false} LoopQuotaAttempt(s: State, i: nat, o: TickOracle)
    requires Consistent(s) && s.cur.Class? && i < SpawnPerFrame
    requires var n := Advance(s);
      n.ok && (n.state.budget == Unlimited || n.state.budget > 0)
    ensures var r := LoopFrom(s, i, o, true);
      && Consistent(r)
      && (forall k :: |s.spawned| <= k < |r.spawned| ==> r.spawned[k].cls in Keys(s.entries))
      && |r.broadcasts| == |s.broadcasts| + (if r.cur.Null? then 1 else 0)
      && Produced(s, r) + Left(r) <= Pending(s)
      && (s.budget == Unlimited || r.budget > 0 ==> Produced(s, r) + Left(r) == Pending(s))
    decreases SpawnPerFrame - i, 0
  {
    var t := LoopQuotaStep(s, i, o);
    LoopQuota(t, i + 1, o);
    LoopEffects(t, i + 1, o, true);
    QuotaCompose(s, t, LoopFrom(t, i + 1, o, true));
  }

  /** A tick from a consistent ledger keeps it consistent, produces only
      actors of classes of the map, fires the delegate exactly when it ends
      the run, and spends the ledger: produced plus still owed is at most
      what was pending, and exactly that while the budget is unlimited or
      still positive afterwards. */
  lemma TickQuota(s: State, o: TickOracle)
    requires Consistent(s)
    ensures var r := SpawnActorsLoop(s, o, true);
      && Consistent(r)
      && (forall k :: |s.spawned| <= k < |r.spawned| ==> r.spawned[k].cls in Keys(s.entries))
      && |r.broadcasts| == |s.broadcasts| + (if r.cur.Null? then 1 else 0)
      && Produced(s, r) + Left(r) <= Pending(s)
      && (s.budget == Unlimited || r.budget > 0 ==> Produced(s, r) + Left(r) == Pending(s))
  {
    var n := TickStart(s);
    TickUnfold(s, o, true);
    TickStartQuota(s);
    if n.ok {
      LoopQuota(n.state, 0, o);
    }
  }

  /** With cooperating geometry and factory, a tick from a consistent ledger
      either finishes the run or produces at least one actor. */
  lemma TickProgress(s: State, o: TickOracle)
    requires Consistent(s) && Cooperative(o)
    ensures var r := SpawnActorsLoop(s, o, true);
      r.cur.Null? || Produced(s, r) >= 1
  {
    var n := TickStart(s);
    TickUnfold(s, o, true);
    TickStartQuota(s);
    if n.ok {
      var m := Advance(n.state);
      AdvanceQuota(n.state);
      AdvanceEffects(n.state, true);
      if m.ok && (m.state.budget == Unlimited || m.state.budget > 0) {
        var a := m.state.(loopIter := 0);
        assert IsSpawnable(a.cur) by {
          assert a.cur == a.entries[a.idx].0;
        }
        SearchEffects(a, o(0).probes, o(0).made);
        var t := GetRandomLocationInBox(a, o(0).probes, o(0).made);
        LoopEffects(t, 1, o, true);
      }
    }
  }

  // ---------------------------------------------------------------------
  // A whole run

  /** The ticks of one run: the host ticks the actor until the run finishes
      (or the supplied answers run out). */
  ghost function Run(s: State, os: seq<TickOracle>): State
    requires Consistent(s)
    decreases |os|
  {
    if os == [] then s
    else
      TickQuota(s, os[0]);
      var r := SpawnActorsLoop(s, os[0], true);
      if r.cur.Null? then r else Run(r, os[1..])
  }

  /** Over a whole run: the actors produced plus what is still owed never
      exceed the pending quota (the sum of the map's amounts for a run that
      starts with no current class), with equality while the budget is
      unlimited or still positive; a finite budget drops by exactly the
      number produced; every actor is of a class of the map; the delegate
      fires at most once, exactly when the run finishes. */
  lemma {:induction false} RunQuota(s: State, os: seq<TickOracle>)
    requires Consistent(s)
    ensures var r := Run(s, os);
      && Consistent(r)
      && s.spawned <= r.spawned
      && (forall k :: |s.spawned| <= k < |r.spawned| ==> r.spawned[k].cls in Keys(s.entries))
      && |r.broadcasts| == |s.broadcasts| + (if r.cur.Null? && os != [] then 1 else 0)
      && (os != [] ==> Produced(s, r) + Left(r) <= Pending(s))
      && (os != [] && (s.budget == Unlimited || r.budget > 0) ==> Produced(s, r) + Left(r) == Pending(s))
      && (s.budget >= 0 ==> r.budget == s.budget - Produced(s, r) && r.budget >= 0)
      && (s.budget < 0 ==> r.budget == s.budget)
      && r.entries == s.entries
    decreases |os|
  {
    if os != [] {
      TickQuota(s, os[0]);
      TickBounds(s, os[0], true);
      var t := SpawnActorsLoop(s, os[0], true);
      if t.cur.Class? {
        RunQuota(t, os[1..]);
        var r := Run(t, os[1..]);
        assert Pending(t) == Left(t);
        assert r.budget > 0 ==> t.budget > 0;
      }
    }
  }

  /** With cooperating geometry and factory, a run finishes within one more
      tick than the quota it has pending. */
  lemma {:induction false} RunTerminates(s: State, os: seq<TickOracle>)
    requires Consistent(s)
    requires forall k :: 0 <= k < |os| ==> Cooperative(os[k])
    requires |os| > Pending(s)
    ensures Run(s, os).cur.Null?
    decreases |os|
  {
    PendingNonNegative(s);
    TickQuota(s, os[0]);
    TickProgress(s, os[0]);
    var t := SpawnActorsLoop(s, os[0], true);
    if t.cur.Class? {
      RunTerminates(t, os[1..]);
    }
  }

  /** With cooperating geometry and factory, a run that starts with no
      current class finishes and produces exactly the sum of the map's
      amounts when the budget is unlimited, the smaller of budget and sum
      when it is finite, and nothing when it is below -1. */
  lemma RunProducesExactly(s: State, os: seq<TickOracle>)
    requires Consistent(s) && s.cur.Null?
    requires forall k :: 0 <= k < |os| ==> Cooperative(os[k])
    requires |os| > SumCounts(s.entries)
    ensures var r := Run(s, os);
      && r.cur.Null?
      && Produced(s, r) == (if s.budget == Unlimited then SumCounts(s.entries)
                            else if s.budget < 0 then 0
                            else if s.budget < SumCounts(s.entries) then s.budget
                            else SumCounts(s.entries))
  {
    PendingNonNegative(s);
    RunTerminates(s, os);
    RunQuota(s, os);
    var r := Run(s, os);
    if s.budget < Unlimited {
      ExhaustedBudgetFinishes(s, os[0], true);
    }
  }

  // ---------------------------------------------------------------------
  // Finding: SpawnLoop as written spawns one actor of a class whose amount is 0

  const ClassA: ClassRef := Class(0, true)
  const ClassB: ClassRef := Class(1, true)

  function AllClear(): TickOracle {
    (i: nat) => Attempt((v: int) => Clear, Some(i))
  }

  /** `{A: 1, B: 0}`, unlimited budget, nothing current. */
  function ZeroQuotaStart(): (s: State)
    ensures Consistent(s) && Pending(s) == 1
  {
    var e := [(ClassA, 1), (ClassB, 0)];
    assert e[1..] == [(ClassB, 0)] && e[1..][1..] == [];
    assert SumCounts(e[1..]) == 0;
    Initial().(entries := e)
  }

  /** As written, the first tick over `{A: 1, B: 0}` spawns two actors, the
      second of class B, though the map asks for one. */
  lemma ZeroQuotaSpawnedAsWritten()
    ensures var r := SpawnActorsLoop(ZeroQuotaStart(), AllClear(), false);
      |r.spawned| == 2 && r.spawned[1].cls == ClassB && |r.spawned| > Pending(ZeroQuotaStart())
  {
    var s := ZeroQuotaStart();
    var o := AllClear();
    var a := s.(idx := 0, cur := ClassA, count := 1);
    assert o(0).probes(0) == Clear;
    var t1 := Spawn(a.(loopIter := 1), Some(0));
    assert GetRandomLocationInBox(a.(loopIter := 0), o(0).probes, o(0).made) == t1;
    assert t1.count == 0;
    var b := t1.(idx := 1, cur := ClassB, count := 0);
    assert AdvanceOnce(t1) == Outcome(b, true);
    var t2 := Spawn(b.(loopIter := 1), Some(1));
    assert o(1).probes(0) == Clear;
    assert GetRandomLocationInBox(b.(loopIter := 0), o(1).probes, o(1).made) == t2;
    assert LoopFrom(t1, 1, o, false) == LoopFrom(t2, 2, o, false);
    assert t2.spawned == [ActorRef(ClassA, 0), ActorRef(ClassB, 1)];
  }

  /** The same tick with the intended class change spawns one actor and
      finishes the run. */
  lemma ZeroQuotaSkippedCorrected()
    ensures var r := SpawnActorsLoop(ZeroQuotaStart(), AllClear(), true);
      |r.spawned| == 1 && r.cur.Null?
  {
    var s := ZeroQuotaStart();
    TickQuota(s, AllClear());
    TickProgress(s, AllClear());
    var r := SpawnActorsLoop(s, AllClear(), true);
    if r.cur.Class? {
      var a := s.(idx := 0, cur := ClassA, count := 1);
      var t1 := Spawn(a.(loopIter := 1), Some(0));
      assert AllClear()(0).probes(0) == Clear;
      assert GetRandomLocationInBox(a.(loopIter := 0), AllClear()(0).probes, AllClear()(0).made) == t1;
      assert Advance(t1).ok == false;
    }
  }

  // ---------------------------------------------------------------------
  // Classes the factory refuses

  /** Iterations of the loop whose current class the factory refuses (null
      or not an actor class) change nothing but the probe counter: the
      amount never drops, so the loop never moves on. */
  lemma {:induction false} UnspawnableLoopStalls(s: State, i: nat, o: TickOracle, corrected: bool)
    requires i <= SpawnPerFrame
    requires !IsSpawnable(s.cur) && s.count > 0 && (s.budget == Unlimited || s.budget > 0)
    ensures var r := LoopFrom(s, i, o, corrected);
      r == s.(loopIter := r.loopIter)
    decreases SpawnPerFrame - i
  {
    if i < SpawnPerFrame {
      var a := s.(loopIter := 0);
      SearchEffects(a, o(i).probes, o(i).made);
      var t := GetRandomLocationInBox(a, o(i).probes, o(i).made);
      assert t == s.(loopIter := t.loopIter);
      UnspawnableLoopStalls(t, i + 1, o, corrected);
    }
  }

  /** A tick whose current class is not an actor class, with amount left and
      budget left, produces nothing, keeps the cursor and fires no delegate:
      whatever the environment does, the run never finishes. */
  lemma UnspawnableTickStalls(s: State, o: TickOracle, corrected: bool)
    requires s.cur.Class? && !IsSpawnable(s.cur) && s.count > 0
    requires s.budget == Unlimited || s.budget > 0
    ensures var r := SpawnActorsLoop(s, o, corrected);
      r == s.(loopIter := r.loopIter)
  {
    UnspawnableLoopStalls(s, 0, o, corrected);
  }

  /** A null key (which `ChangeAmountToSpawn` lets into the map) behind a
      class A: each tick spawns one A, adopts the null key, and then, since
      a null current class means "no class", the next tick starts again from
      pair 0. Every tick spawns another A and the delegate never fires,
      though the map asks for one A. */
  lemma NullKeyRestartsRun(s: State)
    requires s.entries == [(ClassA, 1), (Null, 1)] && s.cur.Null? && s.budget == Unlimited
    ensures var r := SpawnActorsLoop(s, AllClear(), true);
      && r.cur.Null? && r.entries == s.entries && r.broadcasts == s.broadcasts
      && r.spawned == s.spawned + [ActorRef(ClassA, 0)]
  {
    var o := AllClear();
    var a := s.(idx := 0, cur := ClassA, count := 1);
    assert o(0).probes(0) == Clear;
    var t1 := Spawn(a.(loopIter := 1), Some(0));
    assert GetRandomLocationInBox(a.(loopIter := 0), o(0).probes, o(0).made) == t1;
    var b := t1.(idx := 1, cur := Null, count := 1);
    assert Advance(t1) == Outcome(b, true);
    assert o(1).probes(0) == Clear;
    var t2 := b.(loopIter := 1);
    assert GetRandomLocationInBox(b.(loopIter := 0), o(1).probes, o(1).made) == t2;
    assert LoopFrom(t1, 1, o, true) == LoopFrom(t2, 2, o, true);
  }

  // ---------------------------------------------------------------------
  // The timer during a run

  /** A timer firing in the middle of a run empties the produced list but
      keeps the cursor, so the run goes on and the completion delegate
      reports only the actors placed since the firing: after `StartSpawn`,
      a tick (two actors), the timer and a tick (the third actor), the one
      broadcast carries one actor, though three were spawned. */
  lemma TimerMidRunCutsBroadcast()
    ensures var s0 := Initial().(entries := [(ClassA, 3)], interval := 5.0);
      var t := Replay(s0, [StartSpawnCall, TickCall(AllClear()), TimerFired, TickCall(AllClear())]);
      t.Some? && t.value.cur.Null? && t.value.broadcasts == [Broadcast(1, [ActorRef(ClassA, 0)])]
  {
    var o := AllClear();
    var s0 := Initial().(entries := [(ClassA, 3)], interval := 5.0);
    var s1 := StartSpawn(s0);
    assert s1 == s0.(timerArmed := true, tickEnabled := true);
    // first tick: two actors of A
    var a := s1.(idx := 0, cur := ClassA, count := 3);
    assert o(0).probes(0) == Clear && o(1).probes(0) == Clear;
    var u1 := Spawn(a.(loopIter := 1), Some(0));
    assert GetRandomLocationInBox(a.(loopIter := 0), o(0).probes, o(0).made) == u1;
    var u2 := Spawn(u1.(loopIter := 1), Some(1));
    assert GetRandomLocationInBox(u1.(loopIter := 0), o(1).probes, o(1).made) == u2;
    assert LoopFrom(u1, 1, o, true) == LoopFrom(u2, 2, o, true);
    var s2 := SpawnActorsLoop(s1, o, true);
    assert s2 == u2 && s2.count == 1 && s2.timerArmed;
    // the timer fires
    var s3 := StartTick(s2);
    assert s3 == s2.(spawned := []);
    // second tick: the third actor, then the run finishes
    var v1 := Spawn(s3.(loopIter := 1), Some(0));
    assert GetRandomLocationInBox(s3.(loopIter := 0), o(0).probes, o(0).made) == v1;
    assert v1.count == 0 && v1.spawned == [ActorRef(ClassA, 0)];
    assert Advance(v1) == Outcome(SetActorTickEnabled(AfterSpawn(v1.(idx := 1)), false), false);
    var s4 := SpawnActorsLoop(s3, o, true);
    assert s4 == SetActorTickEnabled(AfterSpawn(v1.(idx := 1)), false);
    var ops := [StartSpawnCall, TickCall(o), TimerFired, TickCall(o)];
    assert Replay(s3, ops[3..]) == Replay(s4, []);
    assert Replay(s2, ops[2..]) == Replay(s3, ops[3..]);
    assert Replay(s1, ops[1..]) == Replay(s2, ops[2..]);
  }

  /** A run that ends by running out of pairs leaves the looping timer armed.
      If the host then empties the map, the next firing enables a tick with
      no current class and no pair 0: the tick as written reads a missing
      element, while the guarded tick stops the timer and ticking and places
      nothing. */
  lemma EmptyMapTickAfterRun()
    ensures var ops := [SetParamsCall([(ClassA, 1)], 100.0, 5.0), StartSpawnCall,
                        TickCall(AllClear()), SetParamsCall([], 100.0, 5.0), TimerFired];
      var t := Replay(Initial(), ops);
      && t.Some? && t.value.tickEnabled && t.value.timerArmed
      && t.value.cur.Null? && t.value.entries == []
      && SpawnActorsLoopAsWritten(t.value, AllClear(), true).None?
      && var r := SpawnActorsLoop(t.value, AllClear(), true);
         !r.tickEnabled && !r.timerArmed && r.spawned == t.value.spawned && r.broadcasts == t.value.broadcasts
  {
    var o := AllClear();
    var s0 := Initial();
    var s1 := SetParams(s0, [(ClassA, 1)], 100.0, 5.0);
    assert Validated([(ClassA, 1)]) == [(ClassA, 1)];
    assert s1 == s0.(entries := [(ClassA, 1)], interval := 5.0);
    var s2 := StartSpawn(s1);
    assert s2 == s1.(timerArmed := true, tickEnabled := true);
    // the tick places A and runs out of pairs; the timer stays armed
    var a := s2.(idx := 0, cur := ClassA, count := 1);
    assert o(0).probes(0) == Clear;
    var u1 := Spawn(a.(loopIter := 1), Some(0));
    assert GetRandomLocationInBox(a.(loopIter := 0), o(0).probes, o(0).made) == u1;
    assert u1.count == 0;
    assert Advance(u1) == Outcome(SetActorTickEnabled(AfterSpawn(u1.(idx := 1)), false), false);
    var s3 := SpawnActorsLoop(s2, o, true);
    assert s3 == SetActorTickEnabled(AfterSpawn(u1.(idx := 1)), false);
    assert s3.timerArmed && s3.cur.Null? && !s3.tickEnabled;
    var s4 := SetParams(s3, [], 100.0, 5.0);
    assert s4.entries == [];
    var s5 := StartTick(s4);
    assert s5.tickEnabled && s5.timerArmed;
    var ops := [SetParamsCall([(ClassA, 1)], 100.0, 5.0), StartSpawnCall,
                TickCall(o), SetParamsCall([], 100.0, 5.0), TimerFired];
    assert Replay(s4, ops[4..]) == Replay(s5, []);
    assert Replay(s3, ops[3..]) == Replay(s4, ops[4..]);
    assert Replay(s2, ops[2..]) == Replay(s3, ops[3..]);
    assert Replay(s1, ops[1..]) == Replay(s2, ops[2..]);
  }

  // ---------------------------------------------------------------------
  // The actor as the host drives it

  /** Every call keeps the actor well formed: keys distinct, radius in
      [100, 1000], interval in [0, 300], cursor and probe counter in range,
      and every completion broadcast reporting its list's length. */
  lemma ApplyWellFormed(s: State, op: Op)
    requires WellFormed(s) && CanApply(s, op)
    ensures WellFormed(Apply(s, op))
  {
    match op
    case SetParamsCall(m, _, _) => ValidatedDistinct(m);
    case AddClassesCall(m) =>
      MergeFind(s.entries, m);
      ValidatedDistinct(Merge(s.entries, m));
    case ChangeAmountCall(c, n) => PutDistinct(s.entries, c, n);
    case BeginPlayCheck(overlaps) =>
      if overlaps > 0 { ValidatedDistinct(s.entries); }
    case TickCall(o) =>
      if s.cur.Class? || |s.entries| > 0 {
        TickBounds(s, o, true);
        var r := Apply(s, op);
        if r.broadcasts != s.broadcasts {
          assert r.broadcasts == s.broadcasts + [Broadcast(|r.spawned|, r.spawned)];
        }
      }
    case _ =>
  }

  /** No call raises the budget: a finite budget only drops and never below
      0, and a budget of -1 (or any negative) never changes. */
  lemma ApplyBudget(s: State, op: Op)
    requires CanApply(s, op)
    ensures var r := Apply(s, op);
      && r.budget <= s.budget
      && (s.budget >= 0 ==> r.budget >= 0)
      && (s.budget < 0 ==> r.budget == s.budget)
  {
    if op.TickCall? && (s.cur.Class? || |s.entries| > 0) {
      TickBounds(s, op.o, true);
    }
  }

  /** Once the setup check has switched ticking off for good, no call switches
      it back on or enables the tick. */
  lemma ApplySetupGate(s: State, op: Op)
    requires CanApply(s, op) && !s.canEverTick
    ensures var r := Apply(s, op);
      !r.canEverTick && (r.tickEnabled ==> s.tickEnabled)
  {
    if op.TickCall? && (s.cur.Class? || |s.entries| > 0) {
      TickBounds(s, op.o, true);
    }
  }

  /** Every state the host can drive a well-formed actor into is well formed,
      has no larger budget, and stays switched off once switched off. */
  lemma {:induction false} ReplayInvariants(s: State, ops: seq<Op>, t: State)
    requires WellFormed(s) && Replay(s, ops) == Some(t)
    ensures WellFormed(t)
    ensures t.budget <= s.budget && (s.budget >= 0 ==> t.budget >= 0) && (s.budget < 0 ==> t.budget == s.budget)
    ensures !s.canEverTick ==> !t.canEverTick && (t.tickEnabled ==> s.tickEnabled)
    decreases |ops|
  {
    if ops != [] {
      ApplyWellFormed(s, ops[0]);
      ApplyBudget(s, ops[0]);
      if !s.canEverTick {
        ApplySetupGate(s, ops[0]);
      }
      ReplayInvariants(Apply(s, ops[0]), ops[1..], t);
    }
  }

  /** A fresh actor whose setup check finds nothing never ticks, whatever
      the host calls afterwards. */
  lemma SetupFailureIsPermanent(ops: seq<Op>, t: State)
    requires Replay(OnStartCheck(Initial(), 0), ops) == Some(t)
    ensures !t.canEverTick && !t.tickEnabled
  {
    ReplayInvariants(OnStartCheck(Initial(), 0), ops, t);
  }
}
