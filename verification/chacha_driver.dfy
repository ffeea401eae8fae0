/** The `automl` reduction's driver: `one_step`, run before every learned
    example, and `offset_learn`, which trains every live config on the
    example and feeds the outcomes to the estimators. */
module ChachaDriver {
  import opened Base
  import opened ChachaTypes
  import opened ChachaSchedule
  import opened ChachaChamp

  /** `automl_state`. */
  datatype AutomlState = Collecting | Experimenting

  /** The `automl` object: its state and its config manager. */
  datatype Automl = Automl(state: AutomlState, cm: Manager)

  /** What a learning step leaves: its result, and the interactions every
      example of the batch points to afterwards, on success and on a throw
      alike. */
  datatype Outcome<T> = Outcome(result: Result<T, LearnError>, views: seq<View>)

  // ------------------------------------------------------------- weighting

  /** `w = p > 0 ? 1 / p : 0`: the importance weight of the logged action. */
  function ImportanceWeight(probability: real): (w: real)
    ensures probability > 0.0 ==> w * probability == 1.0
    ensures probability <= 0.0 ==> w == 0.0
    ensures w >= 0.0
  {
    if probability > 0.0 then 1.0 / probability else 0.0
  }

  /** The weight an update gets: the importance weight when the slot's
      predicted action is the labelled one, 0 otherwise. */
  function MatchWeight(b: Batch, action: nat): (x: real)
    ensures action == b.labelledAction ==> x == ImportanceWeight(b.probability)
    ensures action != b.labelledAction ==> x == 0.0
  {
    if action == b.labelledAction then ImportanceWeight(b.probability) else 0.0
  }

  /** `do_learning(base, ec, k)` followed by reading the predicted action:
      the learner gets the slot, the interactions every example of the batch
      points to while it learns (the slot's own), and the batch. */
  function LearnSlot(learn: Learner, est: seq<Slot>, b: Batch, k: nat): Result<nat, LearnError>
    requires k < |est|
  {
    learn(k, est[k].challenger.interactions, b)
  }

  // ------------------------------------------------------- challenger pass

  /** The slot the `i`-th iteration of the challenger loop learns on:
      `i`, or `size - i` under `debug_reverse_learning_order`. */
  function PassSlot(reverse: bool, n: nat, i: nat): (k: nat)
    requires 1 <= i < n
    ensures 1 <= k < n
  {
    if reverse then n - i else i
  }

  /** The slots iteration `i` and the later ones learn on form the interval
      `[RestLo, RestHi)`: `[i, n)` in forward order, `[1, n - i + 1)` in
      reverse order. */
  function RestLo(reverse: bool, n: nat, i: nat): nat
    requires 1 <= i <= n
  {
    if reverse then 1 else i
  }

  function RestHi(reverse: bool, n: nat, i: nat): nat
    requires 1 <= i <= n
  {
    if reverse then n - i + 1 else n
  }

  /** Slot `k`'s challenger after its update: the statistics take one
      observation, nothing else changes. */
  function UpdateChallenger(sl: Slot, x: real, r: real): (u: Slot)
    ensures u.champ == sl.champ
    ensures u.challenger == sl.challenger.(stats := Update(sl.challenger.stats, x, r))
  {
    sl.(challenger := sl.challenger.(stats := Update(sl.challenger.stats, x, r)))
  }

  /** Slot `k` after it learned: its challenger updated with its own
      prediction and reward `-cost`. */
  function Trained(learn: Learner, est: seq<Slot>, b: Batch, k: nat): Slot
    requires k < |est| && LearnSlot(learn, est, b, k).Success?
  {
    UpdateChallenger(est[k], MatchWeight(b, LearnSlot(learn, est, b, k).value), -b.cost)
  }

  /** Every slot in `[lo, hi)` learns without a throw. */
  predicate LearnsIn(learn: Learner, est: seq<Slot>, b: Batch, lo: nat, hi: nat)
    requires hi <= |est|
  {
    forall k :: lo <= k < hi ==> LearnSlot(learn, est, b, k).Success?
  }

  /** Every challenger slot learns without a throw. */
  predicate AllChallengersLearn(learn: Learner, est: seq<Slot>, b: Batch)
  {
    LearnsIn(learn, est, b, 1, |est|)
  }

  /** Reference definition of the challenger pass: the slots in `[lo, hi)`
      trained, every other slot as it was. */
  function Challenged(learn: Learner, est: seq<Slot>, b: Batch, lo: nat, hi: nat): (r: seq<Slot>)
    requires lo <= hi <= |est| && LearnsIn(learn, est, b, lo, hi)
    ensures |r| == |est|
    ensures forall k :: 0 <= k < |est| ==> r[k] == if lo <= k < hi then Trained(learn, est, b, k) else est[k]
  {
    seq(|est|, k requires 0 <= k < |est| => if lo <= k < hi then Trained(learn, est, b, k) else est[k])
  }

  /** Learning leaves every slot bound to the same config. */
  predicate SameBindings(a: seq<Slot>, b: seq<Slot>)
  {
    |a| == |b| && forall k :: 0 <= k < |a| ==> a[k].challenger.configIndex == b[k].challenger.configIndex
  }

  /** The challenger loop of `offset_learn` (lines 263-273) from iteration
      `i` on: learn on the slot, then update its challenger estimator. */
  function ChallengerPass(learn: Learner, reverse: bool, est: seq<Slot>, b: Batch, i: nat): (r: Result<seq<Slot>, LearnError>)
    requires 1 <= i
    ensures r.Success? ==> |r.value| == |est|
    ensures r.Success? && |est| > 0 ==> r.value[0] == est[0]
    decreases |est| - i
  {
    if i >= |est| then Success(est)
    else
      var next :- Visit(learn, reverse, est, b, i);
      ChallengerPass(learn, reverse, next, b, i + 1)
  }

  /** Iteration `i` of the challenger loop: learn on its slot, then update
      that slot's challenger; a throw ends the loop. */
  function Visit(learn: Learner, reverse: bool, est: seq<Slot>, b: Batch, i: nat): (r: Result<seq<Slot>, LearnError>)
    requires 1 <= i < |est|
    ensures r.Success? <==> LearnSlot(learn, est, b, PassSlot(reverse, |est|, i)).Success?
    ensures r.Success? ==> |r.value| == |est| && r.value[0] == est[0]
  {
    var k := PassSlot(reverse, |est|, i);
    var action :- LearnSlot(learn, est, b, k);
    Success(est[k := UpdateChallenger(est[k], MatchWeight(b, action), -b.cost)])
  }

  /** The challenger loop binds no slot to another config. */
  lemma {:induction false} PassKeepsBindings(learn: Learner, reverse: bool, est: seq<Slot>, b: Batch, i: nat)
    requires 1 <= i
    ensures ChallengerPass(learn, reverse, est, b, i).Success? ==> SameBindings(ChallengerPass(learn, reverse, est, b, i).value, est)
    decreases |est| - i
  {
    if i < |est| {
      var v := Visit(learn, reverse, est, b, i);
      if v.Success? {
        PassKeepsBindings(learn, reverse, v.value, b, i + 1);
      }
    }
  }

  /** What the loop from iteration `i` on should give: a throw iff some slot
      still to visit throws, and otherwise those slots trained. */
  function PassFrom(learn: Learner, reverse: bool, a: seq<Slot>, b: Batch, i: nat): Result<seq<Slot>, LearnError>
    requires 1 <= i <= |a|
  {
    var lo := RestLo(reverse, |a|, i);
    var hi := RestHi(reverse, |a|, i);
    if LearnsIn(learn, a, b, lo, hi) then Success(Challenged(learn, a, b, lo, hi)) else Failure(LearnerThrew)
  }

  /** What the whole challenger loop should give: a throw iff some
      challenger's learning throws, and otherwise every challenger slot
      trained. */
  function PassExpected(learn: Learner, est0: seq<Slot>, b: Batch): Result<seq<Slot>, LearnError>
  {
    if |est0| >= 1 && AllChallengersLearn(learn, est0, b) then Success(Challenged(learn, est0, b, 1, |est0|))
    else if |est0| < 1 then Success(est0)
    else Failure(LearnerThrew)
  }

  /** Iteration `i` learns on the first (forward) or last (reverse) slot
      still to visit. */
  lemma VisitStep(reverse: bool, n: nat, i: nat)
    requires 1 <= i < n
    ensures var k := PassSlot(reverse, n, i);
            || (k == RestLo(reverse, n, i) && RestLo(reverse, n, i + 1) == k + 1 && RestHi(reverse, n, i + 1) == RestHi(reverse, n, i))
            || (k + 1 == RestHi(reverse, n, i) && RestLo(reverse, n, i + 1) == RestLo(reverse, n, i) && RestHi(reverse, n, i + 1) == k)
  {
  }

  /** Nothing is left to visit after the last iteration. */
  lemma PassFromEnd(learn: Learner, reverse: bool, a: seq<Slot>, b: Batch)
    requires 1 <= |a|
    ensures PassFrom(learn, reverse, a, b, |a|) == Success(a)
  {
    var lo := RestLo(reverse, |a|, |a|);
    assert lo == RestHi(reverse, |a|, |a|);
    assert LearnsIn(learn, a, b, lo, lo);
    var c := Challenged(learn, a, b, lo, lo);
    assert forall k :: 0 <= k < |a| ==> c[k] == a[k];
    assert c == a;
  }

  /** A slot that throws makes the rest of the loop throw. */
  lemma PassFromThrows(learn: Learner, reverse: bool, a: seq<Slot>, b: Batch, i: nat)
    requires 1 <= i < |a|
    requires LearnSlot(learn, a, b, PassSlot(reverse, |a|, i)).Failure?
    ensures PassFrom(learn, reverse, a, b, i) == Failure(LearnerThrew)
  {
    VisitStep(reverse, |a|, i);
  }

  /** The slots after iteration `i`: the visited slot trained, the others as
      they were. */
  function Advanced(learn: Learner, reverse: bool, a: seq<Slot>, b: Batch, i: nat): (r: seq<Slot>)
    requires 1 <= i < |a|
    requires LearnSlot(learn, a, b, PassSlot(reverse, |a|, i)).Success?
    ensures |r| == |a|
  {
    var k := PassSlot(reverse, |a|, i);
    a[k := Trained(learn, a, b, k)]
  }

  /** A slot's learning sees only that slot. */
  lemma LearnIsLocal(learn: Learner, a: seq<Slot>, a2: seq<Slot>, b: Batch, q: nat)
    requires q < |a| && q < |a2| && a2[q] == a[q]
    ensures LearnSlot(learn, a2, b, q) == LearnSlot(learn, a, b, q)
    ensures LearnSlot(learn, a, b, q).Success? ==> Trained(learn, a2, b, q) == Trained(learn, a, b, q)
  {
  }

  /** The slots still to visit learn on what they held before iteration `i`. */
  lemma StepKeepsRest(learn: Learner, reverse: bool, a: seq<Slot>, b: Batch, i: nat)
    requires 1 <= i < |a|
    requires LearnSlot(learn, a, b, PassSlot(reverse, |a|, i)).Success?
    ensures var a2 := Advanced(learn, reverse, a, b, i);
            forall q :: RestLo(reverse, |a|, i + 1) <= q < RestHi(reverse, |a|, i + 1) ==>
              && LearnSlot(learn, a2, b, q) == LearnSlot(learn, a, b, q)
              && (LearnSlot(learn, a, b, q).Success? ==> Trained(learn, a2, b, q) == Trained(learn, a, b, q))
  {
    var a2 := Advanced(learn, reverse, a, b, i);
    VisitStep(reverse, |a|, i);
    forall q | RestLo(reverse, |a|, i + 1) <= q < RestHi(reverse, |a|, i + 1)
      ensures && LearnSlot(learn, a2, b, q) == LearnSlot(learn, a, b, q)
              && (LearnSlot(learn, a, b, q).Success? ==> Trained(learn, a2, b, q) == Trained(learn, a, b, q))
    {
      LearnIsLocal(learn, a, a2, b, q);
    }
  }

  /** The rest of the loop throws after iteration `i` iff it throws from
      iteration `i` on. */
  lemma StepLearns(learn: Learner, reverse: bool, a: seq<Slot>, b: Batch, i: nat)
    requires 1 <= i < |a|
    requires LearnSlot(learn, a, b, PassSlot(reverse, |a|, i)).Success?
    ensures LearnsIn(learn, Advanced(learn, reverse, a, b, i), b, RestLo(reverse, |a|, i + 1), RestHi(reverse, |a|, i + 1))
            <==> LearnsIn(learn, a, b, RestLo(reverse, |a|, i), RestHi(reverse, |a|, i))
  {
    VisitStep(reverse, |a|, i);
    StepKeepsRest(learn, reverse, a, b, i);
  }

  /** Training the rest after iteration `i` gives what training it from
      iteration `i` on gives. */
  lemma StepTrains(learn: Learner, reverse: bool, a: seq<Slot>, b: Batch, i: nat)
    requires 1 <= i < |a|
    requires LearnSlot(learn, a, b, PassSlot(reverse, |a|, i)).Success?
    requires LearnsIn(learn, a, b, RestLo(reverse, |a|, i), RestHi(reverse, |a|, i))
    requires LearnsIn(learn, Advanced(learn, reverse, a, b, i), b, RestLo(reverse, |a|, i + 1), RestHi(reverse, |a|, i + 1))
    ensures Challenged(learn, Advanced(learn, reverse, a, b, i), b, RestLo(reverse, |a|, i + 1), RestHi(reverse, |a|, i + 1))
            == Challenged(learn, a, b, RestLo(reverse, |a|, i), RestHi(reverse, |a|, i))
  {
    var n := |a|;
    var a2 := Advanced(learn, reverse, a, b, i);
    var c := Challenged(learn, a, b, RestLo(reverse, n, i), RestHi(reverse, n, i));
    var c2 := Challenged(learn, a2, b, RestLo(reverse, n, i + 1), RestHi(reverse, n, i + 1));
    VisitStep(reverse, n, i);
    StepKeepsRest(learn, reverse, a, b, i);
    assert forall q :: 0 <= q < n ==> c2[q] == c[q];
  }

  /** Training the visited slot leaves the reference result of the rest of
      the loop unchanged. */
  lemma PassFromStep(learn: Learner, reverse: bool, a: seq<Slot>, b: Batch, i: nat)
    requires 1 <= i < |a|
    requires LearnSlot(learn, a, b, PassSlot(reverse, |a|, i)).Success?
    ensures PassFrom(learn, reverse, Advanced(learn, reverse, a, b, i), b, i + 1) == PassFrom(learn, reverse, a, b, i)
  {
    StepLearns(learn, reverse, a, b, i);
    if LearnsIn(learn, a, b, RestLo(reverse, |a|, i), RestHi(reverse, |a|, i)) {
      StepTrains(learn, reverse, a, b, i);
    }
  }

  /** One iteration either throws or moves on to the advanced slots. */
  lemma VisitOutcome(learn: Learner, reverse: bool, a: seq<Slot>, b: Batch, i: nat)
    requires 1 <= i < |a|
    ensures LearnSlot(learn, a, b, PassSlot(reverse, |a|, i)).Success? ==>
              ChallengerPass(learn, reverse, a, b, i) == ChallengerPass(learn, reverse, Advanced(learn, reverse, a, b, i), b, i + 1)
    ensures LearnSlot(learn, a, b, PassSlot(reverse, |a|, i)).Failure? ==>
              ChallengerPass(learn, reverse, a, b, i) == Failure(LearnerThrew)
  {
    var v := Visit(learn, reverse, a, b, i);
    if v.Failure? {
      assert v.error == LearnerThrew;
    }
  }

  /** The challenger loop from iteration `i` on computes its reference
      result. */
  lemma {:induction false} PassMatches(learn: Learner, reverse: bool, a: seq<Slot>, b: Batch, i: nat)
    requires 1 <= i <= |a|
    ensures ChallengerPass(learn, reverse, a, b, i) == PassFrom(learn, reverse, a, b, i)
    decreases |a| - i
  {
    if i == |a| {
      PassFromEnd(learn, reverse, a, b);
    } else {
      VisitOutcome(learn, reverse, a, b, i);
      if LearnSlot(learn, a, b, PassSlot(reverse, |a|, i)).Success? {
        PassMatches(learn, reverse, Advanced(learn, reverse, a, b, i), b, i + 1);
        PassFromStep(learn, reverse, a, b, i);
      } else {
        PassFromThrows(learn, reverse, a, b, i);
      }
    }
  }

  /** The challenger loop computes the reference definition: it throws iff
      some challenger's learning throws, and otherwise trains every slot but
      the champion's exactly once, in either order. */
  lemma ChallengerPassCorrect(learn: Learner, reverse: bool, est: seq<Slot>, b: Batch)
    ensures ChallengerPass(learn, reverse, est, b, 1) == PassExpected(learn, est, b)
  {
    if |est| >= 1 {
      PassMatches(learn, reverse, est, b, 1);
      assert RestLo(reverse, |est|, 1) == 1 && RestHi(reverse, |est|, 1) == |est|;
    }
  }

  // ------------------------------------------------------------ champ pass

  /** The reward the champion's estimators see: `1 - r` under `lb_trick`. */
  function ChampReward(env: ChachaEnv, r: real): real
  {
    if env.lbTrick then 1.0 - r else r
  }

  /** The reward transform is its own inverse, and under `lb_trick` it
      reverses the order of rewards. */
  lemma ChampRewardInvolutive(env: ChachaEnv, r: real, s: real)
    ensures ChampReward(env, ChampReward(env, r)) == r
    ensures env.lbTrick && r < s ==> ChampReward(env, s) < ChampReward(env, r)
    ensures !env.lbTrick ==> ChampReward(env, r) == r
  {
  }

  /** The champion loop (lines 278-285): every slot but the champion's gets
      one observation on its champion estimator, weighted by whether the
      champion's prediction matched. */
  function ChampPass(env: ChachaEnv, est: seq<Slot>, b: Batch, champAction: nat): (r: seq<Slot>)
    ensures |r| == |est|
    ensures 0 < |est| ==> r[0] == est[0]
    ensures forall k :: 1 <= k < |est| ==>
              && r[k].challenger == est[k].challenger
              && r[k].champ == Update(est[k].champ, MatchWeight(b, champAction), ChampReward(env, -b.cost))
  {
    seq(|est|, k requires 0 <= k < |est| =>
      if k == 0 then est[0]
      else est[k].(champ := Update(est[k].champ, MatchWeight(b, champAction), ChampReward(env, -b.cost))))
  }

  // ---------------------------------------------------------- offset_learn

  /** The guard's restore: every example points to the interactions the first
      one came in with. */
  function Restored(views: seq<View>): (r: seq<View>)
    requires |views| > 0
    ensures |r| == |views| && forall i :: 0 <= i < |r| ==> r[i] == views[0]
    ensures (forall i :: 0 <= i < |views| ==> views[i] == views[0]) ==> r == views
  {
    seq(|views|, i => views[0])
  }

  /** `offset_learn`: the challenger loop, then the champion's learning and
      the champion loop; a throw from the learner propagates, and the
      examples' interactions are restored either way. */
  function OffsetLearn(env: ChachaEnv, m: Manager, b: Batch): (o: Outcome<Manager>)
    requires |b.views| > 0 && |m.estimators| > 0
    ensures o.views == Restored(b.views)
    ensures o.result.Success? ==>
              && SameBindings(o.result.value.estimators, m.estimators)
              && o.result.value == m.(estimators := o.result.value.estimators)
  {
    var pass := ChallengerPass(env.learn, env.reverseLearningOrder, m.estimators, b, 1);
    PassKeepsBindings(env.learn, env.reverseLearningOrder, m.estimators, b, 1);
    if pass.Failure? then Outcome(Failure(pass.error), Restored(b.views))
    else
      match LearnSlot(env.learn, pass.value, b, 0)
      case Failure(e) => Outcome(Failure(e), Restored(b.views))
      case Success(champAction) =>
        Outcome(Success(m.(estimators := ChampPass(env, pass.value, b, champAction))), Restored(b.views))
  }

  /** Reference definition of what `offset_learn` leaves in the estimators
      when nothing throws: slot 0 as it was; every other slot's challenger
      updated once with its own prediction and reward `-cost`, and its
      champion estimator once with the champion's prediction. */
  function Learned(env: ChachaEnv, est: seq<Slot>, b: Batch): (r: seq<Slot>)
    requires |est| > 0 && AllChallengersLearn(env.learn, est, b) && LearnSlot(env.learn, est, b, 0).Success?
    ensures |r| == |est| && r[0] == est[0]
    ensures forall k :: 1 <= k < |est| ==>
              && r[k].challenger == est[k].challenger.(stats := Update(est[k].challenger.stats,
                   MatchWeight(b, LearnSlot(env.learn, est, b, k).value), -b.cost))
              && r[k].champ == Update(est[k].champ, MatchWeight(b, LearnSlot(env.learn, est, b, 0).value),
                                      ChampReward(env, -b.cost))
  {
    seq(|est|, k requires 0 <= k < |est| =>
      if k == 0 then est[0]
      else Slot(est[k].challenger.(stats := Update(est[k].challenger.stats,
                  MatchWeight(b, LearnSlot(env.learn, est, b, k).value), -b.cost)),
                Update(est[k].champ, MatchWeight(b, LearnSlot(env.learn, est, b, 0).value), ChampReward(env, -b.cost))))
  }

  /** The champion loop after the full challenger loop gives the reference
      definition. */
  lemma PassesCompose(env: ChachaEnv, est: seq<Slot>, b: Batch)
    requires |est| > 0 && AllChallengersLearn(env.learn, est, b) && LearnSlot(env.learn, est, b, 0).Success?
    ensures var c := Challenged(env.learn, est, b, 1, |est|);
            && LearnSlot(env.learn, c, b, 0) == LearnSlot(env.learn, est, b, 0)
            && ChampPass(env, c, b, LearnSlot(env.learn, est, b, 0).value) == Learned(env, est, b)
  {
    var c := Challenged(env.learn, est, b, 1, |est|);
    var p := ChampPass(env, c, b, LearnSlot(env.learn, est, b, 0).value);
    var l := Learned(env, est, b);
    assert forall k :: 0 <= k < |est| ==> p[k] == l[k];
  }

  /** What `offset_learn` does to the estimators: it succeeds iff every slot
      learns without a throw, and then leaves the reference definition. */
  lemma OffsetLearnUpdates(env: ChachaEnv, m: Manager, b: Batch)
    requires |b.views| > 0 && |m.estimators| > 0
    ensures var o := OffsetLearn(env, m, b);
            var est := m.estimators;
            && (o.result.Success? <==> AllChallengersLearn(env.learn, est, b) && LearnSlot(env.learn, est, b, 0).Success?)
            && (o.result.Success? ==> o.result.value == m.(estimators := Learned(env, est, b)))
  {
    var est := m.estimators;
    ChallengerPassCorrect(env.learn, env.reverseLearningOrder, est, b);
    var pass := ChallengerPass(env.learn, env.reverseLearningOrder, est, b, 1);
    if pass.Success? {
      var c := Challenged(env.learn, est, b, 1, |est|);
      assert c[0] == est[0];
      assert LearnSlot(env.learn, c, b, 0) == LearnSlot(env.learn, est, b, 0);
      if LearnSlot(env.learn, est, b, 0).Success? {
        PassesCompose(env, est, b);
      }
    }
  }

  /** The learning order does not change what `offset_learn` computes. */
  lemma LearningOrderIrrelevant(env: ChachaEnv, m: Manager, b: Batch)
    requires |b.views| > 0 && |m.estimators| > 0
    ensures OffsetLearn(env, m, b) == OffsetLearn(env.(reverseLearningOrder := !env.reverseLearningOrder), m, b)
  {
    var env2 := env.(reverseLearningOrder := !env.reverseLearningOrder);
    OffsetLearnUpdates(env, m, b);
    OffsetLearnUpdates(env2, m, b);
    var est := m.estimators;
    var o1 := OffsetLearn(env, m, b);
    var o2 := OffsetLearn(env2, m, b);
    assert o1.result.Failure? ==> o1.result.error == LearnerThrew;
    assert o2.result.Failure? ==> o2.result.error == LearnerThrew;
    assert forall k :: 0 <= k < |est| ==> LearnSlot(env.learn, est, b, k) == LearnSlot(env2.learn, est, b, k);
    if AllChallengersLearn(env.learn, est, b) && LearnSlot(env.learn, est, b, 0).Success? {
      assert Learned(env, est, b) == Learned(env2, est, b);
    }
  }

  // -------------------------------------------------------------- one_step

  /** The start of both branches of `one_step` (lines 203-216 and 223-231):
      the learn count goes up by one, the namespaces are counted, and when a
      new one was seen every slot's interactions are regenerated from its
      config's exclusions. */
  function Observe(env: ChachaEnv, m: Manager, b: Batch): (r: Manager)
    requires SlotsIn(m.estimators, |m.configs|)
    ensures r.totalLearnCount == m.totalLearnCount + 1
    ensures r.nsCounter == env.countNamespaces(b, m.nsCounter).1
    ensures |r.estimators| == |m.estimators| && r.configs == m.configs && r.queue == m.queue
    ensures r.totalChampSwitches == m.totalChampSwitches
    ensures !env.countNamespaces(b, m.nsCounter).0 ==> r.estimators == m.estimators
    ensures forall k :: 0 <= k < |m.estimators| ==>
              r.estimators[k] ==
              if env.countNamespaces(b, m.nsCounter).0
              then m.estimators[k].(challenger := m.estimators[k].challenger.(interactions :=
                     env.genInteractions(r.nsCounter, m.configs[m.estimators[k].challenger.configIndex].exclusions)))
              else m.estimators[k]
  {
    var counted := env.countNamespaces(b, m.nsCounter);
    var ns := counted.1;
    var est := if counted.0 then
                 seq(|m.estimators|, k requires 0 <= k < |m.estimators| =>
                   m.estimators[k].(challenger := m.estimators[k].challenger.(interactions :=
                     env.genInteractions(ns, m.configs[m.estimators[k].challenger.configIndex].exclusions))))
               else m.estimators;
    m.(totalLearnCount := m.totalLearnCount + 1, nsCounter := ns, estimators := est)
  }

  /** The state of a fresh `automl`. */
  function NewAutoml(env: ChachaEnv): (a: Automl)
    ensures a.state == Collecting && Valid(env, a.cm) && a.cm == NewManager(env)
  {
    Automl(Collecting, NewManager(env))
  }

  /** Learning keeps the invariant: it changes no binding of a slot. */
  lemma OffsetLearnValid(env: ChachaEnv, m: Manager, b: Batch)
    requires Valid(env, m) && |b.views| > 0
    ensures OffsetLearn(env, m, b).result.Success? ==> Valid(env, OffsetLearn(env, m, b).result.value)
  {
  }

  /** The Collecting branch of `one_step` after the namespaces are counted:
      the oracle's work, one round of learning, then Experimenting. */
  function Collect(env: ChachaEnv, m: Manager, b: Batch): (o: Outcome<Automl>)
    requires Valid(env, m) && |b.views| > 0
    ensures o.views == Restored(b.views)
    ensures o.result.Success? ==>
              && o.result.value.state == Experimenting && Valid(env, o.result.value.cm)
              && o.result.value.cm.totalLearnCount == m.totalLearnCount
              && o.result.value.cm.totalChampSwitches == m.totalChampSwitches
              && o.result.value.cm.nsCounter == m.nsCounter
  {
    var m2 := DoWork(env, m);
    DoWorkValid(env, m);
    var l := OffsetLearn(env, m2, b);
    OffsetLearnValid(env, m2, b);
    match l.result
    case Failure(e) => Outcome(Failure(e), l.views)
    case Success(m3) => Outcome(Success(Automl(Experimenting, m3)), l.views)
  }

  /** The Experimenting branch of `one_step` after the namespaces are
      counted: `schedule`, one round of learning, `update_champ`. */
  function Experiment(env: ChachaEnv, m: Manager, b: Batch): (o: Outcome<Automl>)
    requires Valid(env, m) && |b.views| > 0
    ensures o.views == Restored(b.views)
    ensures o.result.Success? ==>
              && o.result.value.state == Experimenting && Valid(env, o.result.value.cm)
              && o.result.value.cm.totalLearnCount == m.totalLearnCount
              && o.result.value.cm.nsCounter == m.nsCounter
  {
    var m2 := Schedule(env, m);
    var l := OffsetLearn(env, m2, b);
    OffsetLearnValid(env, m2, b);
    match l.result
    case Failure(e) => Outcome(Failure(e), l.views)
    case Success(m3) => Outcome(Success(Automl(Experimenting, UpdateChamp(env, m3))), l.views)
  }

  /** `one_step`: the learn count goes up by one and the namespaces are
      counted; from Collecting the oracle works and the state moves to
      Experimenting, which it never leaves. */
  function OneStep(env: ChachaEnv, a: Automl, b: Batch): (o: Outcome<Automl>)
    requires Valid(env, a.cm) && |b.views| > 0
    ensures o.views == Restored(b.views)
    ensures o.result.Success? ==>
              && o.result.value.state == Experimenting
              && Valid(env, o.result.value.cm)
              && o.result.value.cm.totalLearnCount == a.cm.totalLearnCount + 1
              && o.result.value.cm.nsCounter == env.countNamespaces(b, a.cm.nsCounter).1
    ensures o.result.Success? && a.state == Collecting ==>
              o.result.value.cm.totalChampSwitches == a.cm.totalChampSwitches
  {
    var m1 := Observe(env, a.cm, b);
    assert SlotsIn(m1.estimators, |m1.configs|);
    match a.state
    case Collecting => Collect(env, m1, b)
    case Experimenting => Experiment(env, m1, b)
  }

  /** Every call of `one_step` counts once, whatever the state. */
  lemma {:induction false} LearnCountAfter(env: ChachaEnv, a: Automl, bs: seq<Batch>)
    requires Valid(env, a.cm) && forall i :: 0 <= i < |bs| ==> |bs[i].views| > 0
    ensures Steps(env, a, bs).Success? ==>
              Steps(env, a, bs).value.cm.totalLearnCount == a.cm.totalLearnCount + |bs|
    ensures |bs| > 0 && Steps(env, a, bs).Success? ==> Steps(env, a, bs).value.state == Experimenting
    decreases |bs|
  {
    if |bs| > 0 {
      var o := OneStep(env, a, bs[0]);
      if o.result.Success? {
        LearnCountAfter(env, o.result.value, bs[1..]);
        assert forall i :: 0 <= i < |bs[1..]| ==> bs[1..][i] == bs[i + 1];
      }
    }
  }

  /** A run of `one_step` over a sequence of batches, stopping at a throw. */
  function Steps(env: ChachaEnv, a: Automl, bs: seq<Batch>): (r: Result<Automl, LearnError>)
    requires Valid(env, a.cm) && forall i :: 0 <= i < |bs| ==> |bs[i].views| > 0
    ensures r.Success? ==> Valid(env, r.value.cm)
    decreases |bs|
  {
    if bs == [] then Success(a)
    else
      match OneStep(env, a, bs[0]).result
      case Failure(e) => Failure(e)
      case Success(a1) => Steps(env, a1, bs[1..])
  }
}
