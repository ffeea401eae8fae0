/** `interaction_config_manager::update_champ`: every challenger is compared
    with the champion over its own horizon; the last one that beats it is
    promoted to slot 0, the old champion moves to slot 1 with the two
    horizons' statistics exchanged, and everything else is dropped. */
module ChachaChamp {
  import opened Base
  import opened ChachaTypes
  import opened ChachaSchedule

  /** The challenger of slot `sl` beats the champion over its horizon. */
  predicate Challenges(env: ChachaEnv, sl: Slot)
  {
    Better(env, sl.challenger.stats, sl.champ)
  }

  // ------------------------------------------------------------------ scan

  /** Reference definition of the winner: the highest slot in `[1, n)` whose
      challenger beats the champion, if any. */
  function LastBetter(env: ChachaEnv, est: seq<Slot>, n: nat): (r: Option<nat>)
    requires n <= |est|
    ensures r.Some? ==> 1 <= r.value < n && Challenges(env, est[r.value])
    ensures r.Some? ==> forall q :: r.value < q < n ==> !Challenges(env, est[q])
    ensures r.None? ==> forall q :: 1 <= q < n ==> !Challenges(env, est[q])
  {
    if n <= 1 then None
    else if Challenges(env, est[n - 1]) then Some(n - 1)
    else LastBetter(env, est, n - 1)
  }

  /** A slot in `[from, |est|)` holding config `j` loses to the champion. */
  predicate LosesWith(env: ChachaEnv, est: seq<Slot>, from: nat, j: nat)
  {
    exists q :: from <= q < |est| && est[q].challenger.configIndex == j && !Challenges(env, est[q])
  }

  /** The loop of `update_champ` (lines 172-186) from slot `k` on, with the
      winner found so far: a winning slot replaces the winner, a losing one
      has its config removed when `worse()` holds. */
  function ScanFrom(env: ChachaEnv, est: seq<Slot>, configs: seq<ExclusionConfig>, k: nat, found: Option<nat>)
    : (r: (Option<nat>, seq<ExclusionConfig>))
    requires 1 <= k <= |est| && SlotsIn(est, |configs|)
    ensures |r.1| == |configs|
    decreases |est| - k
  {
    if k == |est| then (found, configs)
    else if Challenges(env, est[k]) then ScanFrom(env, est, configs, k + 1, Some(k))
    else if env.worse then
      var j := est[k].challenger.configIndex;
      ScanFrom(env, est, configs[j := configs[j].(state := Removed)], k + 1, found)
    else ScanFrom(env, est, configs, k + 1, found)
  }

  /** The scan keeps the last winner: started with the winner among the
      slots before `k`, it ends with the winner among all slots. */
  lemma {:induction false} ScanFindsLast(env: ChachaEnv, est: seq<Slot>, configs: seq<ExclusionConfig>, k: nat)
    requires 1 <= k <= |est| && SlotsIn(est, |configs|)
    ensures ScanFrom(env, est, configs, k, LastBetter(env, est, k)).0 == LastBetter(env, est, |est|)
    decreases |est| - k
  {
    if k < |est| {
      var j := est[k].challenger.configIndex;
      var next := if Challenges(env, est[k]) || !env.worse then configs
                  else configs[j := configs[j].(state := Removed)];
      assert LastBetter(env, est, k + 1) == if Challenges(env, est[k]) then Some(k) else LastBetter(env, est, k);
      ScanFindsLast(env, est, next, k + 1);
    }
  }

  /** The scan marks config `j` Removed exactly when `worse()` holds and some
      slot it visits holds `j` and loses; no other config changes. */
  lemma {:induction false} ScanMarks(env: ChachaEnv, est: seq<Slot>, configs: seq<ExclusionConfig>, k: nat,
                                     found: Option<nat>, j: nat)
    requires 1 <= k <= |est| && SlotsIn(est, |configs|) && j < |configs|
    ensures ScanFrom(env, est, configs, k, found).1[j] ==
            if env.worse && LosesWith(env, est, k, j) then configs[j].(state := Removed) else configs[j]
    decreases |est| - k
  {
    if k == |est| {
      assert !LosesWith(env, est, k, j);
    } else if Challenges(env, est[k]) || !env.worse {
      ScanMarks(env, est, configs, k + 1, if Challenges(env, est[k]) then Some(k) else found, j);
      assert LosesWith(env, est, k, j) ==> !Challenges(env, est[k]) || LosesWith(env, est, k + 1, j);
      assert LosesWith(env, est, k + 1, j) ==> LosesWith(env, est, k, j);
    } else {
      var i := est[k].challenger.configIndex;
      var next := configs[i := configs[i].(state := Removed)];
      ScanMarks(env, est, next, k + 1, found, j);
      if i == j {
        assert LosesWith(env, est, k, j);
      } else {
        assert LosesWith(env, est, k, j) ==> LosesWith(env, est, k + 1, j);
        assert LosesWith(env, est, k + 1, j) ==> LosesWith(env, est, k, j);
      }
    }
  }

  /** Slot 0 is never compared: two slot lists that differ only in slot 0
      give the same winner and the same removals. */
  lemma {:induction false} ScanIgnoresChamp(env: ChachaEnv, est: seq<Slot>, est2: seq<Slot>,
                                            configs: seq<ExclusionConfig>, k: nat, found: Option<nat>)
    requires 1 <= k <= |est| && SlotsIn(est, |configs|) && SlotsIn(est2, |configs|)
    requires |est2| == |est| && est2[1..] == est[1..]
    ensures ScanFrom(env, est2, configs, k, found) == ScanFrom(env, est, configs, k, found)
    decreases |est| - k
  {
    if k < |est| {
      assert est2[k] == est2[1..][k - 1] == est[1..][k - 1] == est[k];
      var i := est[k].challenger.configIndex;
      var next := if Challenges(env, est[k]) || !env.worse then configs
                  else configs[i := configs[i].(state := Removed)];
      ScanIgnoresChamp(env, est, est2, next, k + 1, if Challenges(env, est[k]) then Some(k) else found);
    }
  }

  // ------------------------------------------------------------- promotion

  /** `_config_oracle.do_work(estimators, current_champ)`: the catalogue,
      queue and valid size the oracle leaves. */
  function DoWork(env: ChachaEnv, m: Manager): (r: Manager)
    requires QueueIn(m.queue, |m.configs|)
    ensures |r.configs| >= |m.configs| && QueueIn(r.queue, |r.configs|)
    ensures r.estimators == m.estimators && r.nsCounter == m.nsCounter && r.weights == m.weights
    ensures r.totalChampSwitches == m.totalChampSwitches && r.totalLearnCount == m.totalLearnCount
  {
    var f := env.doWork(m.configs, m.nsCounter, m.validConfigSize, m.estimators, m.queue);
    m.(configs := f.configs, queue := f.queue, validConfigSize := f.validConfigSize)
  }

  /** The oracle's work keeps the invariant. */
  lemma DoWorkValid(env: ChachaEnv, m: Manager)
    requires Valid(env, m)
    ensures Valid(env, DoWork(env, m))
  {
    var r := DoWork(env, m);
    assert forall k :: 0 <= k < |r.estimators| ==> r.estimators[k].challenger.configIndex < |m.configs| <= |r.configs|;
  }

  /** Lines 188-237 up to the oracle call, for winner `w`: the winner's
      weights go to slot 0 and the old champion's to slot 1, the queue is
      emptied, the winner and the old champion become slots 0 and 1 bound to
      copies of their configs at indices 0 and 1, and slot 1 takes the two
      horizons' statistics crosswise (reset under `lb_trick`). */
  function Promote(env: ChachaEnv, m: Manager, w: nat): (r: Manager)
    requires Valid(env, m) && 1 <= w < |m.estimators|
    ensures Valid(env, r)
    ensures r.totalChampSwitches == m.totalChampSwitches + 1 && r.totalLearnCount == m.totalLearnCount
    ensures r.queue == [] && |r.estimators| == 2 && r.validConfigSize == 2
    ensures |r.configs| == |m.configs|
    ensures r.configs[0] == m.configs[m.estimators[w].challenger.configIndex]
    ensures r.configs[1] == m.configs[m.estimators[0].challenger.configIndex]
    ensures forall k :: 2 <= k < |m.configs| ==> r.configs[k] == m.configs[k]
    // the new champion: the winner's slot, bound to config 0, not eligible
    ensures var W := m.estimators[w];
            && r.estimators[0].challenger == W.challenger.(configIndex := 0, eligible := false)
            && r.estimators[0].champ == W.champ
    // the old champion: its config index, flag and interactions, the
    // statistics of the winner's two horizons crosswise
    ensures var W := m.estimators[w];
            var C := m.estimators[0].challenger;
            && r.estimators[1].challenger.configIndex == 1
            && r.estimators[1].challenger.eligible == (C.eligible && env.priorityChallengers <= 1)
            && r.estimators[1].challenger.interactions == C.interactions
            && r.estimators[1].challenger.stats ==
               (if env.lbTrick then FreshEstimator(env.defaultAlpha, env.defaultTau) else W.champ)
            && r.estimators[1].champ ==
               (if env.lbTrick then FreshEstimator(env.defaultAlpha, env.defaultTau) else W.challenger.stats)
    ensures Block(r.weights, 0) == Block(m.weights, w) && Block(r.weights, 1) == Block(m.weights, 0)
    ensures w != 1 ==> Block(r.weights, w) == Block(m.weights, 0)
    ensures forall s :: s != 0 && s != 1 && s != w ==> Block(r.weights, s) == Block(m.weights, s)
    ensures r.nsCounter == m.nsCounter
  {
    var w1 := SwapBlocks(m.weights, w, 0);
    var w2 := if w != 1 then MoveBlock(w1, w, 1) else w1;
    var est := m.estimators;
    var est1 := est[w := SetEligible(est[w], false)];
    var est2 := if env.priorityChallengers > 1 then est1[0 := SetEligible(est1[0], false)] else est1;
    var newChamp := m.configs[est2[w].challenger.configIndex];
    var oldChamp := m.configs[est2[0].challenger.configIndex];
    var configs := m.configs[0 := newChamp][1 := oldChamp];
    var champ := est2[w].(challenger := est2[w].challenger.(configIndex := 0));
    var prev := est2[0].(challenger := est2[0].challenger.(configIndex := 1));
    var swapped := Slot(AmlFrom(champ.champ, prev.challenger.configIndex, prev.challenger.eligible,
                                prev.challenger.interactions),
                        champ.challenger.stats);
    var second := if env.lbTrick then
                    Slot(swapped.challenger.(stats := FreshEstimator(env.defaultAlpha, env.defaultTau)),
                         FreshEstimator(env.defaultAlpha, env.defaultTau))
                  else swapped;
    m.(weights := w2, totalChampSwitches := m.totalChampSwitches + 1, queue := [],
       configs := configs, estimators := [champ, second], validConfigSize := 2)
  }

  /** The new champion's config is the winner's config as it was, state
      included: a winner whose config `worse()` had marked Removed becomes a
      champion whose config is Removed. */
  lemma PromoteKeepsWinnerState(env: ChachaEnv, m: Manager, w: nat)
    requires Valid(env, m) && 1 <= w < |m.estimators|
    ensures var r := Promote(env, m, w);
            && r.estimators[0].challenger.configIndex == 0
            && r.configs[0].state == m.configs[m.estimators[w].challenger.configIndex].state
            && r.configs[0].lease == m.configs[m.estimators[w].challenger.configIndex].lease
  {
  }

  /** `update_champ`: the scan, then, when a challenger won, its promotion
      and the oracle's work. */
  function UpdateChamp(env: ChachaEnv, m: Manager): (r: Manager)
    requires Valid(env, m)
    ensures Valid(env, r)
    ensures |r.configs| >= |m.configs|
    ensures r.totalLearnCount == m.totalLearnCount && r.nsCounter == m.nsCounter
  {
    var scan := ScanFrom(env, m.estimators, m.configs, 1, None);
    var m1 := m.(configs := scan.1);
    match scan.0
    case None => m1
    case Some(w) =>
      ScanFindsLast(env, m.estimators, m.configs, 1);
      var p := Promote(env, m1, w);
      DoWorkValid(env, p);
      DoWork(env, p)
  }

  /** The champion changes exactly when some challenger beats it; the winner
      is the last such slot, and with no winner only the removals happen. */
  lemma UpdateChampOutcome(env: ChachaEnv, m: Manager)
    requires Valid(env, m)
    ensures var r := UpdateChamp(env, m);
            var scan := ScanFrom(env, m.estimators, m.configs, 1, None);
            && scan.0 == LastBetter(env, m.estimators, |m.estimators|)
            && (scan.0.Some? <==> exists q :: 1 <= q < |m.estimators| && Challenges(env, m.estimators[q]))
            && (scan.0.None? ==> r == m.(configs := scan.1))
            && (scan.0.Some? ==>
                  r == DoWork(env, Promote(env, m.(configs := scan.1), scan.0.value))
                  && r.totalChampSwitches == m.totalChampSwitches + 1 && |r.estimators| == 2)
  {
    ScanFindsLast(env, m.estimators, m.configs, 1);
  }
}
