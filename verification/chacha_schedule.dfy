/** `interaction_config_manager::schedule` and the eligibility swap it uses:
    every live slot whose config was removed or whose lease is used up is
    either kept (its lease doubled) or given the next config from the queue;
    slots not yet allocated are filled while candidates last. */
module ChachaSchedule {
  import opened Base
  import opened ChachaTypes

  /** `better(lb_trick, challenger, champ)`: the challenger's lower bound
      beats the champion's upper bound, or, under `lb_trick`, one minus the
      champion's lower bound. */
  predicate Better(env: ChachaEnv, challenger: Estimator, champ: Estimator)
  {
    if env.lbTrick then env.lowerBound(challenger) > 1.0 - env.lowerBound(champ)
    else env.lowerBound(challenger) > env.upperBound(champ)
  }

  /** Without `lb_trick`, and with bounds that are ordered (lower below
      upper), the test is asymmetric: two estimators never beat each other. */
  lemma BetterAsymmetric(env: ChachaEnv, a: Estimator, b: Estimator)
    requires !env.lbTrick
    requires env.lowerBound(a) <= env.upperBound(a) && env.lowerBound(b) <= env.upperBound(b)
    ensures Better(env, a, b) ==> !Better(env, b, a)
  {
  }

  /** Under `lb_trick` the test only looks at the two lower bounds, whose sum
      must exceed 1, so it is symmetric. */
  lemma BetterLbTrickSymmetric(env: ChachaEnv, a: Estimator, b: Estimator)
    requires env.lbTrick
    ensures Better(env, a, b) <==> env.lowerBound(a) + env.lowerBound(b) > 1.0
    ensures Better(env, a, b) <==> Better(env, b, a)
  {
  }

  function SetEligible(sl: Slot, b: bool): Slot
  {
    sl.(challenger := sl.challenger.(eligible := b))
  }

  // ---------------------------------------------------------- eligibility

  /** Slot `o` can take over the priority of slot `s`: it is not eligible to
      inactivate, it is not the champion, and `s` beats it. */
  predicate SwapCandidate(env: ChachaEnv, est: seq<Slot>, s: nat, o: nat)
    requires s < |est| && o < |est|
  {
    !est[o].challenger.eligible && o != 0 && Better(env, est[s].challenger.stats, est[o].challenger.stats)
  }

  /** The first candidate at or after `from`. */
  function FirstCandidate(env: ChachaEnv, est: seq<Slot>, s: nat, from: nat): (r: Option<nat>)
    requires s < |est| && from <= |est|
    ensures r.Some? ==> from <= r.value < |est| && SwapCandidate(env, est, s, r.value)
    ensures r.Some? ==> forall o :: from <= o < r.value ==> !SwapCandidate(env, est, s, o)
    ensures r.None? ==> forall o :: from <= o < |est| ==> !SwapCandidate(env, est, s, o)
    decreases |est| - from
  {
    if from == |est| then None
    else if SwapCandidate(env, est, s, from) then Some(from)
    else FirstCandidate(env, est, s, from + 1)
  }

  /** `swap_eligible_to_inactivate`: with the first candidate `o`, slot `s`
      stops being eligible to inactivate and `o` becomes eligible; without
      one, nothing changes. */
  function SwapEligibleToInactivate(env: ChachaEnv, est: seq<Slot>, s: nat): (r: (bool, seq<Slot>))
    requires s < |est|
    ensures |r.1| == |est|
    ensures r.0 <==> exists o :: 0 <= o < |est| && SwapCandidate(env, est, s, o)
    ensures !r.0 ==> r.1 == est
    ensures r.0 ==>
              var o := FirstCandidate(env, est, s, 0).value;
              && 1 <= o < |est|
              && !est[o].challenger.eligible && r.1[o] == SetEligible(est[o], true)
              && (o != s ==> r.1[s] == SetEligible(est[s], false))
              && (est[s].challenger.eligible ==> o != s)
              && forall k :: 0 <= k < |est| && k != o && k != s ==> r.1[k] == est[k]
  {
    match FirstCandidate(env, est, s, 0)
    case None => (false, est)
    case Some(o) => (true, est[s := SetEligible(est[s], false)][o := SetEligible(est[o], true)])
  }

  // ------------------------------------------------------------------ queue

  /** The loop that pops removed configs off the top of the queue. */
  function DropRemoved(configs: seq<ExclusionConfig>, q: seq<QueueEntry>): (r: seq<QueueEntry>)
    requires QueueIn(q, |configs|)
    ensures |r| <= |q| && r == q[|q| - |r|..]
    ensures QueueIn(r, |configs|)
    ensures r == [] || configs[r[0].index].state != Removed
    ensures forall k :: 0 <= k < |q| - |r| ==> configs[q[k].index].state == Removed
  {
    if q == [] || configs[q[0].index].state != Removed then q
    else DropRemoved(configs, q[1..])
  }

  /** The queue without the entry at `pos`. */
  function RemoveAt(q: seq<QueueEntry>, pos: nat): (r: seq<QueueEntry>)
    requires pos < |q|
    ensures |r| == |q| - 1
    ensures multiset(r) + multiset{q[pos]} == multiset(q)
    ensures forall k :: 0 <= k < |r| ==> r[k] in q
  {
    assert q == q[..pos] + [q[pos]] + q[pos + 1..];
    q[..pos] + q[pos + 1..]
  }

  // ------------------------------------------------------------- one slot

  /** Nothing can be scheduled: the queue is empty and the oracle cannot
      refill it. */
  predicate Stuck(env: ChachaEnv, m: Manager)
  {
    m.queue == [] && env.repopulate(m.configs, m.nsCounter, m.validConfigSize).None?
  }

  /** The config index of the entry `choose` takes. */
  function Chosen(env: ChachaEnv, q: seq<QueueEntry>): nat
    requires q != []
  {
    q[env.choose(q)].index
  }

  /** Lines 137-155 for slot `s`, once a candidate is known to exist: a new
      estimator pair is appended when the slot is not allocated, the old
      config is inactivated when it is Live, both estimators are reset, the
      chosen config becomes Live and is bound to the slot, the slot gets a
      copy of the champion's weights, and its interactions are regenerated.
      What each part does is stated by the lemmas that follow. */
  function Assign(env: ChachaEnv, m: Manager, s: nat): (r: Manager)
    requires s <= |m.estimators| && m.queue != []
    requires SlotsIn(m.estimators, |m.configs|) && QueueIn(m.queue, |m.configs|)
    ensures |r.estimators| == (if s == |m.estimators| then s + 1 else |m.estimators|)
    ensures |r.configs| == |m.configs| && SlotsIn(r.estimators, |r.configs|) && QueueIn(r.queue, |r.configs|)
    ensures r.nsCounter == m.nsCounter && r.validConfigSize == m.validConfigSize
    ensures r.totalChampSwitches == m.totalChampSwitches && r.totalLearnCount == m.totalLearnCount
  {
    var needNew := s == |m.estimators|;
    var est1 := if needNew then m.estimators + [SetEligible(FreshSlot(env), s > env.priorityChallengers)]
                else m.estimators;
    var prev := est1[s].challenger.configIndex;
    var c1 := if !needNew && m.configs[prev].state == Live then m.configs[prev := m.configs[prev].(state := Inactive)]
              else m.configs;
    var pos := env.choose(m.queue);
    var c := m.queue[pos].index;
    var c2 := c1[c := c1[c].(state := Live)];
    var sl := Slot(AmlEstimator(FreshEstimator(env.alpha, env.tau), c, est1[s].challenger.eligible,
                                env.genInteractions(m.nsCounter, c2[c].exclusions)),
                   FreshEstimator(env.alpha, env.tau));
    m.(configs := c2, estimators := est1[s := sl], queue := RemoveAt(m.queue, pos),
       weights := MoveBlock(m.weights, 0, s))
  }

  /** The slot gets the chosen config with both estimators reset and fresh
      interactions; the queue loses exactly the chosen entry; a new slot
      above the priority challengers starts eligible to inactivate, an old
      one keeps its flag. */
  lemma AssignSlot(env: ChachaEnv, m: Manager, s: nat)
    requires s <= |m.estimators| && m.queue != []
    requires SlotsIn(m.estimators, |m.configs|) && QueueIn(m.queue, |m.configs|)
    ensures var r := Assign(env, m, s);
            var c := Chosen(env, m.queue);
            && multiset(r.queue) + multiset{m.queue[env.choose(m.queue)]} == multiset(m.queue)
            && r.estimators[s].challenger.configIndex == c
            && r.estimators[s].challenger.stats == FreshEstimator(env.alpha, env.tau)
            && r.estimators[s].champ == FreshEstimator(env.alpha, env.tau)
            && r.estimators[s].challenger.interactions == env.genInteractions(m.nsCounter, m.configs[c].exclusions)
            && (s == |m.estimators| ==> r.estimators[s].challenger.eligible == (s > env.priorityChallengers))
            && (s < |m.estimators| ==> r.estimators[s].challenger.eligible == m.estimators[s].challenger.eligible)
  {
  }

  /** Config `k` after the assignment: its lease and exclusions are kept; the
      chosen config becomes Live; the displaced one goes from Live to
      Inactive, and never to Removed; any other is unchanged. */
  lemma AssignConfig(env: ChachaEnv, m: Manager, s: nat, k: nat)
    requires s <= |m.estimators| && m.queue != []
    requires SlotsIn(m.estimators, |m.configs|) && QueueIn(m.queue, |m.configs|)
    requires k < |m.configs|
    ensures var r := Assign(env, m, s);
            && r.configs[k].lease == m.configs[k].lease
            && r.configs[k].exclusions == m.configs[k].exclusions
            && (k == Chosen(env, m.queue) ==> r.configs[k].state == Live)
            && (k != Chosen(env, m.queue) && s < |m.estimators| && k == m.estimators[s].challenger.configIndex ==>
                  r.configs[k].state == (if m.configs[k].state == Live then Inactive else m.configs[k].state))
            && (k != Chosen(env, m.queue) && (s == |m.estimators| || k != m.estimators[s].challenger.configIndex) ==>
                  r.configs[k] == m.configs[k])
  {
  }

  /** No other slot changes, and slot `s` gets a copy of the champion's
      weights while every other weight block stays. */
  lemma AssignOthers(env: ChachaEnv, m: Manager, s: nat)
    requires s <= |m.estimators| && m.queue != []
    requires SlotsIn(m.estimators, |m.configs|) && QueueIn(m.queue, |m.configs|)
    ensures var r := Assign(env, m, s);
            && (forall k :: 0 <= k < |m.estimators| && k != s ==> r.estimators[k] == m.estimators[k])
            && Block(r.weights, s) == Block(m.weights, 0)
            && (forall k :: k != s ==> Block(r.weights, k) == Block(m.weights, k))
  {
  }

  /** Where the next config comes from (lines 131-135): the queue without
      its removed head entries, or, when that is empty, the oracle's refill;
      `None` when the oracle cannot refill it either. */
  function Candidates(env: ChachaEnv, m: Manager): (r: Option<Manager>)
    requires QueueIn(m.queue, |m.configs|)
    ensures r.None? <==> DropRemoved(m.configs, m.queue) == [] &&
                         env.repopulate(m.configs, m.nsCounter, m.validConfigSize).None?
    ensures r.Some? ==>
              && r.value.queue != [] && QueueIn(r.value.queue, |r.value.configs|)
              && |r.value.configs| >= |m.configs| && r.value.configs[..|m.configs|] == m.configs
              && r.value.estimators == m.estimators && r.value.nsCounter == m.nsCounter
              && r.value.weights == m.weights
              && r.value.totalChampSwitches == m.totalChampSwitches
              && r.value.totalLearnCount == m.totalLearnCount
    ensures r.Some? && DropRemoved(m.configs, m.queue) != [] ==>
              r.value == m.(queue := DropRemoved(m.configs, m.queue))
  {
    var q := DropRemoved(m.configs, m.queue);
    if q != [] then Some(m.(queue := q))
    else match env.repopulate(m.configs, m.nsCounter, m.validConfigSize)
      case None => None
      case Some(f) => Some(m.(configs := f.configs, queue := f.queue, validConfigSize := f.validConfigSize))
  }

  /** Lines 131-155: with a candidate the slot is assigned; without one the
      slot, its estimators and every config are left as they are (only the
      removed head entries are gone from the queue, which is then empty). */
  function Reassign(env: ChachaEnv, m: Manager, s: nat): (r: Manager)
    requires SlotsIn(m.estimators, |m.configs|) && QueueIn(m.queue, |m.configs|)
    requires s <= |m.estimators| || Stuck(env, m)
    ensures Candidates(env, m).None? ==> r == m.(queue := [])
    ensures Candidates(env, m).Some? ==> s <= |m.estimators| && r == Assign(env, Candidates(env, m).value, s)
    ensures Stuck(env, m) ==> r == m
    ensures |r.configs| >= |m.configs|
    ensures r.totalChampSwitches == m.totalChampSwitches && r.totalLearnCount == m.totalLearnCount
    ensures r.nsCounter == m.nsCounter
  {
    match Candidates(env, m)
    case None => m.(queue := [])
    case Some(m1) => Assign(env, m1, s)
  }

  /** `Reassign` keeps the invariant for a slot below `max_live_configs`, and
      allocates slot `s` unless the oracle is out of candidates. */
  lemma ReassignValid(env: ChachaEnv, m: Manager, s: nat)
    requires Valid(env, m) && s < env.maxLive && (s <= |m.estimators| || Stuck(env, m))
    ensures var r := Reassign(env, m, s);
            && Valid(env, r)
            && (s < |m.estimators| ==> |r.estimators| == |m.estimators|)
            && (s == |m.estimators| ==> |r.estimators| == s + 1 || Stuck(env, r))
            && (s > |m.estimators| ==> r == m)
  {
    var r := Reassign(env, m, s);
    match Candidates(env, m)
    case None =>
    case Some(m1) =>
      assert SlotsIn(m1.estimators, |m1.configs|);
      assert |r.estimators| >= 2 ==> s >= 1 || |m.estimators| >= 2;
  }

  /** `Reassign` changes no lease, and only ever moves a config to Live or
      Inactive. */
  lemma ReassignKeeps(env: ChachaEnv, m: Manager, s: nat, k: nat)
    requires SlotsIn(m.estimators, |m.configs|) && QueueIn(m.queue, |m.configs|)
    requires s <= |m.estimators| || Stuck(env, m)
    requires k < |m.configs|
    ensures var r := Reassign(env, m, s);
            && r.configs[k].lease == m.configs[k].lease
            && (m.configs[k].state != Removed ==> r.configs[k].state != Removed)
  {
    match Candidates(env, m)
    case None =>
    case Some(m1) =>
      assert m1.configs[k] == m1.configs[..|m.configs|][k];
      AssignConfig(env, m1, s, k);
  }

  /** The lease of slot `s`'s config, doubled (line 126). */
  function DoubleSlotLease(m: Manager, s: nat): (r: Manager)
    requires s < |m.estimators| && SlotsIn(m.estimators, |m.configs|)
    ensures var i := m.estimators[s].challenger.configIndex;
            r == m.(configs := m.configs[i := m.configs[i].(lease := DoubleLease(m.configs[i].lease))])
  {
    var i := m.estimators[s].challenger.configIndex;
    m.(configs := m.configs[i := m.configs[i].(lease := DoubleLease(m.configs[i].lease))])
  }

  /** Slot `s` must be looked at: its config was removed or its update count
      reached the lease (lines 118-120). */
  predicate Due(m: Manager, s: nat)
    requires s < |m.estimators| && SlotsIn(m.estimators, |m.configs|)
  {
    var c := m.configs[m.estimators[s].challenger.configIndex];
    c.state == Removed || m.estimators[s].challenger.stats.UpdateCount() >= c.lease
  }

  /** A due slot stays due while it learns: one more observation on its
      challenger keeps the update count at or above the lease. */
  lemma DueStaysDue(m: Manager, s: nat, w: real, rw: real)
    requires s < |m.estimators| && SlotsIn(m.estimators, |m.configs|)
    requires Due(m, s)
    ensures var sl := m.estimators[s];
            var m' := m.(estimators := m.estimators[s := sl.(challenger := sl.challenger.(stats := Update(sl.challenger.stats, w, rw)))]);
            Due(m', s)
  {
  }

  /** A Live config that is due keeps its slot: the slot is not eligible to
      inactivate, or it swaps that flag with a slot it beats. */
  predicate Kept(env: ChachaEnv, m: Manager, s: nat)
    requires s < |m.estimators| && SlotsIn(m.estimators, |m.configs|)
  {
    !m.estimators[s].challenger.eligible || SwapEligibleToInactivate(env, m.estimators, s).0
  }

  /** Lines 123-129 and what follows for a due slot whose config is Live: the
      lease is doubled exactly once; a kept slot holds on to its config and
      both estimators, any other is reassigned with the doubled lease in
      place. */
  function LiveStep(env: ChachaEnv, m: Manager, s: nat): (r: Manager)
    requires Valid(env, m) && s < env.maxLive && s < |m.estimators| && Due(m, s)
    requires m.configs[m.estimators[s].challenger.configIndex].state == Live
    ensures Valid(env, r)
    ensures |r.estimators| == |m.estimators| && |r.configs| >= |m.configs|
    ensures r.totalChampSwitches == m.totalChampSwitches && r.totalLearnCount == m.totalLearnCount
    ensures r.nsCounter == m.nsCounter
  {
    var m1 := DoubleSlotLease(m, s);
    assert Valid(env, m1);
    if !m1.estimators[s].challenger.eligible then m1
    else
      var sw := SwapEligibleToInactivate(env, m1.estimators, s);
      if sw.0 then
        assert SlotsIn(sw.1, |m1.configs|);
        m1.(estimators := sw.1)
      else
        ReassignValid(env, m1, s);
        Reassign(env, m1, s)
  }

  /** A kept slot holds on to its config and both estimators, with the
      doubled lease as the only change to the catalogue; any other slot is
      reassigned with the doubled lease in place. */
  lemma LiveStepOutcome(env: ChachaEnv, m: Manager, s: nat)
    requires Valid(env, m) && s < env.maxLive && s < |m.estimators| && Due(m, s)
    requires m.configs[m.estimators[s].challenger.configIndex].state == Live
    ensures var r := LiveStep(env, m, s);
            && (Kept(env, m, s) ==>
                  && r.configs == DoubleSlotLease(m, s).configs
                  && r.estimators[s].challenger.configIndex == m.estimators[s].challenger.configIndex
                  && r.estimators[s].challenger.stats == m.estimators[s].challenger.stats
                  && r.estimators[s].champ == m.estimators[s].champ)
            && (!Kept(env, m, s) ==> r == Reassign(env, DoubleSlotLease(m, s), s))
  {
  }

  /** The lease step doubles the lease of the slot's config exactly once,
      whether or not the slot keeps it. */
  lemma LiveLeaseDoubled(env: ChachaEnv, m: Manager, s: nat)
    requires Valid(env, m) && s < env.maxLive && s < |m.estimators| && Due(m, s)
    requires m.configs[m.estimators[s].challenger.configIndex].state == Live
    ensures var i := m.estimators[s].challenger.configIndex;
            LiveStep(env, m, s).configs[i].lease == DoubleLease(m.configs[i].lease)
  {
    var i := m.estimators[s].challenger.configIndex;
    var m1 := DoubleSlotLease(m, s);
    assert m1.configs[i].lease == DoubleLease(m.configs[i].lease);
    LiveStepOutcome(env, m, s);
    if !Kept(env, m, s) {
      ReassignKeeps(env, m1, s, i);
    }
  }

  /** One iteration of the loop of `schedule`, for slot `s`: an unallocated
      slot is filled when a candidate exists, a slot that is not due is left
      alone, a removed config is replaced, and a Live one goes through the
      lease step. */
  function ScheduleSlot(env: ChachaEnv, m: Manager, s: nat): (r: Manager)
    requires Valid(env, m) && s < env.maxLive && (s <= |m.estimators| || Stuck(env, m))
    ensures Valid(env, r)
    ensures s + 1 <= |r.estimators| || Stuck(env, r)
    ensures |r.estimators| == |m.estimators| || (s == |m.estimators| && |r.estimators| == s + 1)
    ensures |r.configs| >= |m.configs|
    ensures r.totalChampSwitches == m.totalChampSwitches && r.totalLearnCount == m.totalLearnCount
    ensures r.nsCounter == m.nsCounter
  {
    if |m.estimators| <= s then
      ReassignValid(env, m, s);
      Reassign(env, m, s)
    else if !Due(m, s) then m
    else if m.configs[m.estimators[s].challenger.configIndex].state != Live then
      ReassignValid(env, m, s);
      Reassign(env, m, s)
    else LiveStep(env, m, s)
  }

  /** A slot whose lease is not used up and whose config is not removed is
      left alone (lines 118-120). */
  lemma NotDueUntouched(env: ChachaEnv, m: Manager, s: nat)
    requires Valid(env, m) && s < env.maxLive && s < |m.estimators| && !Due(m, s)
    ensures ScheduleSlot(env, m, s) == m
  {
  }

  /** Only `update_champ` removes configs: one slot of `schedule` leaves
      every config that was not Removed so. */
  lemma ScheduleSlotKeeps(env: ChachaEnv, m: Manager, s: nat, k: nat)
    requires Valid(env, m) && s < env.maxLive && (s <= |m.estimators| || Stuck(env, m))
    requires k < |m.configs| && m.configs[k].state != Removed
    ensures ScheduleSlot(env, m, s).configs[k].state != Removed
  {
    if |m.estimators| <= s {
      ReassignKeeps(env, m, s, k);
    } else if !Due(m, s) {
    } else if m.configs[m.estimators[s].challenger.configIndex].state != Live {
      ReassignKeeps(env, m, s, k);
    } else {
      var m1 := DoubleSlotLease(m, s);
      assert ScheduleSlot(env, m, s) == LiveStep(env, m, s);
      LiveStepOutcome(env, m, s);
      assert m1.configs[k].state == m.configs[k].state;
      if !Kept(env, m, s) {
        ReassignKeeps(env, m1, s, k);
      }
    }
  }

  /** The loop of `schedule` from slot `s` on. While the estimators are not
      all allocated, slot `s` is the next one to allocate, unless the oracle
      is out of candidates, in which case it stays so for the rest of the
      loop: this is why `estimators[live_slot]` after `emplace_back` is in
      range. */
  function ScheduleFrom(env: ChachaEnv, m: Manager, s: nat): (r: Manager)
    requires Valid(env, m) && s <= env.maxLive && (s <= |m.estimators| || Stuck(env, m))
    ensures Valid(env, r)
    ensures |r.estimators| >= |m.estimators| && |r.configs| >= |m.configs|
    ensures r.totalChampSwitches == m.totalChampSwitches && r.totalLearnCount == m.totalLearnCount
    ensures r.nsCounter == m.nsCounter
    decreases env.maxLive - s
  {
    if s == env.maxLive then m
    else
      ScheduleFrom(env, ScheduleSlot(env, m, s), s + 1)
  }

  /** `schedule`. */
  function Schedule(env: ChachaEnv, m: Manager): (r: Manager)
    requires Valid(env, m)
    ensures Valid(env, r)
    ensures |r.estimators| >= |m.estimators| && |r.configs| >= |m.configs|
    ensures r.totalChampSwitches == m.totalChampSwitches && r.totalLearnCount == m.totalLearnCount
    ensures r.nsCounter == m.nsCounter
  {
    ScheduleFrom(env, m, 0)
  }

  /** Only `update_champ` removes configs: after `schedule` every config that
      was not Removed still is not. */
  lemma {:induction false} ScheduleFromNeverRemoves(env: ChachaEnv, m: Manager, s: nat, k: nat)
    requires Valid(env, m) && s <= env.maxLive && (s <= |m.estimators| || Stuck(env, m))
    requires k < |m.configs| && m.configs[k].state != Removed
    ensures ScheduleFrom(env, m, s).configs[k].state != Removed
    decreases env.maxLive - s
  {
    if s < env.maxLive {
      ScheduleSlotKeeps(env, m, s, k);
      ScheduleFromNeverRemoves(env, ScheduleSlot(env, m, s), s + 1, k);
    }
  }
}
