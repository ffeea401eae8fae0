/** The state of the ChaCha champion/challenger scheduler of automl
    (`interaction_config_manager`): the catalogue of exclusion configs, one
    estimator pair per live slot (slot 0 is the champion), the priority queue
    of candidate configs, and the services the scheduler calls but whose code
    is not part of this model. */
module ChachaTypes {
  import opened Base

  // ---------------------------------------------------------------- configs

  /** `config_state`. */
  datatype ConfigState = New | Live | Inactive | Removed

  /** `exclusion_config`: a set of excluded interaction groups, a lease in
      updates, and a state. */
  datatype ExclusionConfig = ExclusionConfig(exclusions: set<seq<char>>, lease: U64, state: ConfigState)

  /** The default lease of `exclusion_config(uint64_t lease = 10)`. */
  const DefaultLease: U64 := 10

  /** `exclusion_config(lease)`: no exclusions, state New. */
  function MakeConfig(lease: U64): (c: ExclusionConfig)
    ensures c.exclusions == {} && c.lease == lease && c.state == New
  {
    ExclusionConfig({}, lease, New)
  }

  /** `lease *= 2` on a `uint64_t`. */
  function DoubleLease(lease: U64): (r: U64)
    ensures r < TwoTo64
    ensures lease < TwoTo64 / 2 ==> r == 2 * lease
    ensures TwoTo64 / 2 <= lease < TwoTo64 ==> r == 2 * lease - TwoTo64
  {
    (2 * lease) % TwoTo64
  }

  // ------------------------------------------------------------- estimators

  /** An `estimator_config`: the confidence parameters and the `(w, r)`
      observations given to `update` since the last reset; its
      `update_count` is the number of observations. The bounds computed from
      these are services of the environment. */
  datatype Estimator = Estimator(alpha: real, tau: real, obs: seq<(real, real)>)
  {
    function UpdateCount(): nat { |obs| }
  }

  /** `estimator_config(alpha, tau)` and `reset_stats(alpha, tau)`. */
  function FreshEstimator(alpha: real, tau: real): (e: Estimator)
    ensures e.alpha == alpha && e.tau == tau && e.UpdateCount() == 0
  {
    Estimator(alpha, tau, [])
  }

  /** `estimator_config::update(w, r)`. */
  function Update(e: Estimator, w: real, r: real): (u: Estimator)
    ensures u.alpha == e.alpha && u.tau == e.tau
    ensures u.UpdateCount() == e.UpdateCount() + 1
    ensures u.obs[..|e.obs|] == e.obs && u.obs[|e.obs|] == (w, r)
  {
    e.(obs := e.obs + [(w, r)])
  }

  type Interactions = seq<seq<char>>

  /** `aml_estimator`: the statistics it inherits from `estimator_config`,
      plus the slot's config index, its eligible-to-inactivate flag and its
      live interactions. */
  datatype AmlEstimator = AmlEstimator(stats: Estimator, configIndex: nat, eligible: bool,
                                       interactions: Interactions)

  /** `aml_estimator(alpha, tau)`. */
  function FreshAml(alpha: real, tau: real): (a: AmlEstimator)
    ensures a.stats == FreshEstimator(alpha, tau)
    ensures a.configIndex == 0 && !a.eligible && a.interactions == []
  {
    AmlEstimator(FreshEstimator(alpha, tau), 0, false, [])
  }

  /** The four-argument `aml_estimator(sc, config_index, eligible, interactions)`:
      the statistics of `sc`, and the three slot fields as given. */
  function AmlFrom(sc: Estimator, configIndex: nat, eligible: bool, interactions: Interactions): (a: AmlEstimator)
    ensures a.stats == sc && a.configIndex == configIndex
    ensures a.eligible == eligible && a.interactions == interactions
  {
    AmlEstimator(sc, configIndex, eligible, interactions)
  }

  /** One live slot: the challenger's estimator and the estimator of the
      champion over the challenger's horizon. */
  datatype Slot = Slot(challenger: AmlEstimator, champ: Estimator)

  // ------------------------------------------------------------------ queue

  /** An `index_queue` entry. The queue is kept in pop order: the head is
      `top()`. */
  datatype QueueEntry = QueueEntry(priority: real, index: nat)

  /** Every queued config exists, and none is the champion's config 0. */
  predicate QueueIn(q: seq<QueueEntry>, n: nat)
  {
    forall k :: 0 <= k < |q| ==> 1 <= q[k].index < n
  }

  // ---------------------------------------------------------------- weights

  /** Which weight block each slot of the arena holds; a slot that was
      never written holds its own block. */
  type Blocks = map<nat, nat>

  function Block(w: Blocks, s: nat): nat
  {
    if s in w then w[s] else s
  }

  /** `weights.move_offsets(from, to, wpp)`: `to` gets a copy of `from`. */
  function MoveBlock(w: Blocks, from: nat, to: nat): (r: Blocks)
    ensures Block(r, to) == Block(w, from)
    ensures forall s :: s != to ==> Block(r, s) == Block(w, s)
  {
    w[to := Block(w, from)]
  }

  /** `weights.move_offsets(a, b, wpp, true)`: the two blocks change places. */
  function SwapBlocks(w: Blocks, a: nat, b: nat): (r: Blocks)
    ensures Block(r, a) == Block(w, b) && Block(r, b) == Block(w, a)
    ensures forall s :: s != a && s != b ==> Block(r, s) == Block(w, s)
  {
    w[a := Block(w, b)][b := Block(w, a)]
  }

  // --------------------------------------------------------------- services

  /** What the config oracle leaves after adding candidates. */
  datatype Refill = Refill(configs: seq<ExclusionConfig>, queue: seq<QueueEntry>, validConfigSize: nat)

  /** `repopulate_index_queue` succeeded: candidates were appended to the
      catalogue and the queue is non-empty and in range. */
  predicate RefillOk(configs: seq<ExclusionConfig>, r: Refill)
  {
    && |r.configs| >= |configs|
    && r.configs[..|configs|] == configs
    && r.queue != []
    && QueueIn(r.queue, |r.configs|)
  }

  /** `do_work` leaves a catalogue at least as large and a queue in range. */
  predicate WorkOk(configs: seq<ExclusionConfig>, r: Refill)
  {
    |r.configs| >= |configs| && QueueIn(r.queue, |r.configs|)
  }

  /** `choose(index_queue)`: the position of the entry taken out. */
  type Chooser = f: seq<QueueEntry> -> nat | forall q :: |q| > 0 ==> f(q) < |q|
    witness (q: seq<QueueEntry>) => 0

  /** `repopulate_index_queue`: `None` for false. A failed call changes
      nothing. */
  type Repopulator = f: (seq<ExclusionConfig>, map<char, nat>, nat) -> Option<Refill>
    | forall c, n, v :: f(c, n, v).Some? ==> RefillOk(c, f(c, n, v).value)
    witness (c: seq<ExclusionConfig>, n: map<char, nat>, v: nat) => None

  /** `do_work(estimators, current_champ)`, given catalogue, namespace
      counts, valid size, estimators and queue. */
  type Worker = f: (seq<ExclusionConfig>, map<char, nat>, nat, seq<Slot>, seq<QueueEntry>) -> Refill
    | forall c, n, v, e, q :: QueueIn(q, |c|) ==> WorkOk(c, f(c, n, v, e, q))
    witness (c: seq<ExclusionConfig>, n: map<char, nat>, v: nat, e: seq<Slot>, q: seq<QueueEntry>) => Refill(c, q, v)

  /** The example batch a step learns from: the interactions each example
      points to, the logged cost and probability, and the labelled action. */
  datatype View = Incoming(id: nat) | SlotInteractions(slot: nat)

  datatype Batch = Batch(views: seq<View>, cost: real, probability: real, labelledAction: nat)

  datatype LearnError = LearnerThrew

  /** The learner: given a slot, the interactions every example points to
      while it learns, and the batch, the first example's predicted action
      or a throw. */
  type Learner = (nat, Interactions, Batch) -> Result<nat, LearnError>

  /** The scheduler's options and the services it calls. `learn` is
      `do_learning` followed by reading the first example's predicted
      action. */
  datatype ChachaEnv = ChachaEnv(
    globalLease: U64,
    maxLive: nat,
    priorityChallengers: nat,
    lbTrick: bool,
    alpha: real,
    tau: real,
    defaultAlpha: real,
    defaultTau: real,
    reverseLearningOrder: bool,
    lowerBound: Estimator -> real,
    upperBound: Estimator -> real,
    worse: bool,
    choose: Chooser,
    repopulate: Repopulator,
    doWork: Worker,
    genInteractions: (map<char, nat>, set<seq<char>>) -> Interactions,
    countNamespaces: (Batch, map<char, nat>) -> (bool, map<char, nat>),
    learn: Learner)

  // ---------------------------------------------------------------- manager

  /** `interaction_config_manager`, with the oracle's `valid_config_size`. */
  datatype Manager = Manager(
    configs: seq<ExclusionConfig>,
    estimators: seq<Slot>,
    queue: seq<QueueEntry>,
    nsCounter: map<char, nat>,
    validConfigSize: nat,
    totalChampSwitches: nat,
    totalLearnCount: nat,
    weights: Blocks)

  /** Every slot's config exists. */
  predicate SlotsIn(est: seq<Slot>, n: nat)
  {
    forall k :: 0 <= k < |est| ==> est[k].challenger.configIndex < n
  }

  /** At least one slot, never more than `max_live_configs` (one when it is
      0), every index in range, and two configs once there are two slots. */
  predicate Valid(env: ChachaEnv, m: Manager)
  {
    && |m.configs| >= 1
    && 1 <= |m.estimators| <= (if env.maxLive < 1 then 1 else env.maxLive)
    && SlotsIn(m.estimators, |m.configs|)
    && QueueIn(m.queue, |m.configs|)
    && (|m.estimators| >= 2 ==> |m.configs| >= 2)
  }

  /** A new slot's estimator pair. */
  function FreshSlot(env: ChachaEnv): (s: Slot)
    ensures s.challenger == FreshAml(env.alpha, env.tau)
    ensures s.champ == FreshEstimator(env.alpha, env.tau)
  {
    Slot(FreshAml(env.alpha, env.tau), FreshEstimator(env.alpha, env.tau))
  }

  /** The constructor: config 0 is Live with the global lease, one estimator
      pair, an empty queue, and `valid_config_size` 1. */
  function NewManager(env: ChachaEnv): (m: Manager)
    ensures Valid(env, m)
    ensures |m.configs| == 1 && m.configs[0].state == Live && m.configs[0].lease == env.globalLease
    ensures |m.estimators| == 1 && m.estimators[0] == FreshSlot(env) && m.estimators[0].challenger.configIndex == 0
    ensures m.queue == [] && m.validConfigSize == 1
    ensures m.totalChampSwitches == 0 && m.totalLearnCount == 0
  {
    Manager([MakeConfig(env.globalLease).(state := Live)], [FreshSlot(env)], [], map[], 0 + 1, 0, 0, map[])
  }
}
