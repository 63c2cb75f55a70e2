/**
 * The canary manager: one rollout step per reconcile, in function-pair mode (the trigger's weights)
 * or alias mode (the alias's primary weight). The environment answers every read, metric query and
 * write of a tick; a write may be refused, or be stored and still be reported as failed.
 */
module Canary {
  import opened Common
  import opened WeightedPick
  import opened Resolver

  datatype Config = Config(namespace: string, oldFunction: string, newFunction: string,
                           increment: int, threshold: int, interval: Option<int>)

  datatype Read = ReadOk | ReadMissing | ReadFailed

  /** -1.0 says that no request was observed in the window. */
  datatype Metric = QueryFailed | FailurePercent(percent: real)

  datatype Written = Stored | Rejected | StoredButFailed

  /**
   * `versions` is what the API holds at the tick; `unreadable` names the versions whose read fails;
   * `live` is the weights map that the uncached read before an update of the trigger finds.
   */
  datatype Tick = Tick(trigger: Read, aliasFails: bool, versions: map<Key, Version>, unreadable: set<string>,
                       metric: Metric, live: map<string, int>, write: Written, statusStored: bool)

  datatype World = World(reference: Reference, aliases: map<Key, Alias>)

  datatype Refusal =
    | AliasMissing | DigestPinned | SpecManaged | NotAtOld | VersionMissing(name: string) | VersionForeign(name: string)

  datatype Outcome = Requeue | Succeeded | Failed(refusal: Option<Refusal>) | Error

  /** `wrote` says that an update was sent, whatever became of it. */
  datatype Stepped = Stepped(world: World, outcome: Outcome, wrote: bool)

  predicate Terminal(o: Outcome) {
    o.Succeeded? || o.Failed?
  }

  /** Go's float-to-int conversion truncates towards zero. */
  function Truncate(r: real): int {
    if r >= 0.0 then r.Floor else -((-r).Floor)
  }

  datatype Verdict = Unobserved | Healthy | Crossed

  function Evaluate(cfg: Config, m: Metric): Verdict {
    match m
    case QueryFailed => Unobserved
    case FailurePercent(p) => if p == -1.0 then Unobserved else if Truncate(p) > cfg.threshold then Crossed else Healthy
  }

  /** The window held requests. */
  predicate Observed(m: Metric) {
    m.FailurePercent? && m.percent != -1.0
  }

  /** An observed failure rate reaches the first whole percent above the threshold. */
  predicate Breaches(cfg: Config, m: Metric) {
    Observed(m) &&
    if m.percent >= 0.0 then m.percent >= (cfg.threshold + 1) as real else m.percent > cfg.threshold as real
  }

  predicate Passes(cfg: Config, m: Metric) {
    Observed(m) && !Breaches(cfg, m)
  }

  lemma EvaluateMeans(cfg: Config, m: Metric)
    ensures Evaluate(cfg, m).Crossed? <==> Breaches(cfg, m)
    ensures Evaluate(cfg, m).Healthy? <==> Passes(cfg, m)
    ensures Evaluate(cfg, m).Unobserved? <==> !Observed(m)
  {
    if Observed(m) && m.percent < 0.0 {
      var size := -m.percent;
      assert size.Floor < -cfg.threshold <==> size < (-cfg.threshold) as real;
    }
  }

  function WeightOf(weights: map<string, int>, f: string): int {
    if f in weights then weights[f] else 0
  }

  function Max(a: int, b: int): int {
    if a >= b then a else b
  }

  // ---------------------------------------------------------------------------------------------
  // Function-pair mode
  // ---------------------------------------------------------------------------------------------

  function Forward(cfg: Config, weights: map<string, int>): (map<string, int>, bool) {
    var w := WeightOf(weights, cfg.newFunction);
    if w + cfg.increment >= 100 then
      (weights[cfg.newFunction := 100][cfg.oldFunction := 0], w > 0)
    else
      var raised := weights[cfg.newFunction := w + cfg.increment];
      (raised[cfg.oldFunction := Max(0, WeightOf(raised, cfg.oldFunction) - cfg.increment)], false)
  }

  function Back(cfg: Config, weights: map<string, int>): map<string, int> {
    weights[cfg.newFunction := 0][cfg.oldFunction := 100]
  }

  /** The computed weights are copied into the live map, whose other entries stay. */
  function StoreWeights(world: World, live: map<string, int>, weights: map<string, int>, write: Written): World {
    if write.Rejected? then world else world.(reference := ByWeights(live + weights))
  }

  function StepPair(cfg: Config, world: World, tick: Tick): Stepped
    requires world.reference.ByWeights?
  {
    var weights := world.reference.weights;
    var verdict := if WeightOf(weights, cfg.newFunction) != 0 then Evaluate(cfg, tick.metric) else Healthy;
    match verdict
    case Unobserved => Stepped(world, Requeue, false)
    case Crossed =>
      Stepped(StoreWeights(world, tick.live, Back(cfg, weights), tick.write),
              if tick.write.Stored? then Failed(None) else Error, true)
    case Healthy =>
      var (raised, done) := Forward(cfg, weights);
      Stepped(StoreWeights(world, tick.live, raised, tick.write),
              if tick.write.Stored? && done then Succeeded else Requeue, true)
  }

  // ---------------------------------------------------------------------------------------------
  // Alias mode
  // ---------------------------------------------------------------------------------------------

  datatype Validation = Admitted(alias: Alias) | Refused(refusal: Refusal) | Unread

  function CheckVersion(cfg: Config, tick: Tick, functionName: string, version: string): Option<Option<Refusal>> {
    if version in tick.unreadable then None
    else if Key(cfg.namespace, version) !in tick.versions then Some(Some(VersionMissing(version)))
    else if tick.versions[Key(cfg.namespace, version)].functionName != functionName
      then Some(Some(VersionForeign(version)))
    else Some(None)
  }

  function ValidateAliasRollout(cfg: Config, world: World, tick: Tick, name: string): Validation {
    var key := Key(cfg.namespace, name);
    if tick.aliasFails then Unread
    else if key !in world.aliases then Refused(AliasMissing)
    else
      var alias := world.aliases[key];
      if alias.packageDigest != "" then Refused(DigestPinned)
      else if alias.specManaged then Refused(SpecManaged)
      else if alias.version != cfg.oldFunction then Refused(NotAtOld)
      else
        match CheckVersion(cfg, tick, alias.functionName, cfg.newFunction)
        case None => Unread
        case Some(Some(refusal)) => Refused(refusal)
        case Some(None) =>
          match CheckVersion(cfg, tick, alias.functionName, cfg.oldFunction)
          case None => Unread
          case Some(Some(refusal)) => Refused(refusal)
          case Some(None) => Admitted(alias)
  }

  function Primary(alias: Alias): int {
    if alias.weight.Some? then alias.weight.value else 100
  }

  function ForwardAlias(cfg: Config, alias: Alias): (Alias, bool) {
    var p := Primary(alias);
    if p < 100 && p - cfg.increment <= 0 then
      (alias.(version := cfg.newFunction, weight := None, secondaryVersion := ""), true)
    else
      (alias.(version := cfg.oldFunction, weight := Some(Max(0, p - cfg.increment)),
              secondaryVersion := cfg.newFunction), false)
  }

  function BackAlias(cfg: Config, alias: Alias): Alias {
    alias.(version := cfg.oldFunction, weight := None, secondaryVersion := "")
  }

  function StoreAlias(world: World, key: Key, alias: Alias, write: Written): World {
    if write.Rejected? then world else world.(aliases := world.aliases[key := alias])
  }

  function AliasVerdict(cfg: Config, alias: Alias, tick: Tick): Verdict {
    if Primary(alias) < 100 then Evaluate(cfg, tick.metric) else Healthy
  }

  function StepAlias(cfg: Config, world: World, tick: Tick): Stepped
    requires world.reference.ByName?
  {
    var key := Key(cfg.namespace, world.reference.alias);
    match ValidateAliasRollout(cfg, world, tick, world.reference.alias)
    case Unread => Stepped(world, Error, false)
    case Refused(refusal) => Stepped(world, Failed(Some(refusal)), false)
    case Admitted(alias) =>
      match AliasVerdict(cfg, alias, tick)
      case Unobserved => Stepped(world, Requeue, false)
      case Crossed =>
        Stepped(StoreAlias(world, key, BackAlias(cfg, alias), tick.write),
                if tick.write.Stored? then Failed(None) else Error, true)
      case Healthy =>
        var (next, done) := ForwardAlias(cfg, alias);
        Stepped(StoreAlias(world, key, next, tick.write),
                if tick.write.Stored? && done then Succeeded else Requeue, true)
  }

  function Step(cfg: Config, world: World, tick: Tick): Stepped {
    match tick.trigger
    case ReadMissing => Stepped(world, Requeue, false)
    case ReadFailed => Stepped(world, Error, false)
    case ReadOk =>
      match world.reference
      case ByName(_, alias, _) => if alias != "" then StepAlias(cfg, world, tick) else Stepped(world, Requeue, false)
      case ByWeights(_) => StepPair(cfg, world, tick)
      case Unrecognised => Stepped(world, Requeue, false)
  }

  // ---------------------------------------------------------------------------------------------
  // What a step does, on the objects and the metric themselves
  // ---------------------------------------------------------------------------------------------

  /** The alias the rollout drives. */
  function Driven(cfg: Config, world: World): Option<Alias> {
    if world.reference.ByName? && world.reference.alias != "" &&
      Key(cfg.namespace, world.reference.alias) in world.aliases
    then Some(world.aliases[Key(cfg.namespace, world.reference.alias)])
    else None
  }

  /** A version that exists and belongs to the function. */
  predicate Owned(cfg: Config, tick: Tick, functionName: string, version: string) {
    var key := Key(cfg.namespace, version);
    key in tick.versions && tick.versions[key].functionName == functionName
  }

  /** The alias may be driven: it is nobody else's to write, at OldFunction, and both versions are its function's. */
  predicate Sane(cfg: Config, world: World, tick: Tick) {
    Driven(cfg, world).Some? &&
    var a := Driven(cfg, world).value;
    && a.packageDigest == "" && !a.specManaged && a.version == cfg.oldFunction
    && Owned(cfg, tick, a.functionName, cfg.newFunction) && Owned(cfg, tick, a.functionName, cfg.oldFunction)
  }

  predicate AllRead(cfg: Config, tick: Tick) {
    !tick.aliasFails && cfg.newFunction !in tick.unreadable && cfg.oldFunction !in tick.unreadable
  }

  predicate Workable(cfg: Config, world: World, tick: Tick) {
    Sane(cfg, world, tick) && AllRead(cfg, tick)
  }

  /** The world after an update was sent. */
  predicate Sent(before: World, after: World, write: Written, stored: World) {
    after == if write.Rejected? then before else stored
  }

  /** Function-pair mode: the window decides alone once the new function has traffic. */
  lemma PairStepMeans(cfg: Config, world: World, tick: Tick)
    requires tick.trigger.ReadOk? && world.reference.ByWeights? && cfg.oldFunction != cfg.newFunction
    ensures var weights, s := world.reference.weights, Step(cfg, world, tick);
            var w := if cfg.newFunction in weights then weights[cfg.newFunction] else 0;
            var v := if cfg.oldFunction in weights then weights[cfg.oldFunction] else 0;
            if w != 0 && !Observed(tick.metric) then s == Stepped(world, Requeue, false)
            else if w != 0 && Breaches(cfg, tick.metric) then
              && s.wrote && s.outcome == (if tick.write.Stored? then Failed(None) else Error)
              && Sent(world, s.world, tick.write, world.(reference := ByWeights(
                   tick.live + weights + map[cfg.newFunction := 0, cfg.oldFunction := 100])))
            else
              && s.wrote
              && s.outcome == (if tick.write.Stored? && w > 0 && w + cfg.increment >= 100 then Succeeded else Requeue)
              && Sent(world, s.world, tick.write, world.(reference := ByWeights(tick.live + weights +
                   if w + cfg.increment >= 100 then map[cfg.newFunction := 100, cfg.oldFunction := 0]
                   else map[cfg.newFunction := w + cfg.increment,
                            cfg.oldFunction := if v >= cfg.increment then v - cfg.increment else 0])))
  {
    EvaluateMeans(cfg, tick.metric);
    var weights := world.reference.weights;
    var w, v := WeightOf(weights, cfg.newFunction), WeightOf(weights, cfg.oldFunction);
    Merged(tick.live, weights, cfg.newFunction, 0, cfg.oldFunction, 100);
    Merged(tick.live, weights, cfg.newFunction, 100, cfg.oldFunction, 0);
    Merged(tick.live, weights, cfg.newFunction, w + cfg.increment, cfg.oldFunction, Max(0, v - cfg.increment));
  }

  lemma Merged(live: map<string, int>, weights: map<string, int>, f: string, x: int, g: string, y: int)
    ensures live + weights[f := x][g := y] == live + weights + map[f := x, g := y]
  {
  }

  /** Without a readable trigger, or with one that names neither an alias nor weights, nothing happens. */
  lemma IdleStepMeans(cfg: Config, world: World, tick: Tick)
    requires tick.trigger.ReadOk? ==>
               !world.reference.ByWeights? && !(world.reference.ByName? && world.reference.alias != "")
    ensures Step(cfg, world, tick) == Stepped(world, if tick.trigger.ReadFailed? then Error else Requeue, false)
  {
  }

  /** Alias mode: nothing is written unless the alias is sane and read; then the window decides below 100. */
  lemma AliasStepMeans(cfg: Config, world: World, tick: Tick)
    requires tick.trigger.ReadOk? && world.reference.ByName? && world.reference.alias != ""
    ensures var s, key := Step(cfg, world, tick), Key(cfg.namespace, world.reference.alias);
            if !Workable(cfg, world, tick) then
              && s.world == world && !s.wrote && (s.outcome.Error? || (s.outcome.Failed? && s.outcome.refusal.Some?))
              && (s.outcome.Error? ==> !AllRead(cfg, tick)) && (s.outcome.Failed? ==> !Sane(cfg, world, tick))
            else
              var a := Driven(cfg, world).value;
              var p := if a.weight.Some? then a.weight.value else 100;
              if p < 100 && !Observed(tick.metric) then s == Stepped(world, Requeue, false)
              else if p < 100 && Breaches(cfg, tick.metric) then
                && s.wrote && s.outcome == (if tick.write.Stored? then Failed(None) else Error)
                && Sent(world, s.world, tick.write, world.(aliases := world.aliases[key :=
                     a.(version := cfg.oldFunction, weight := None, secondaryVersion := "")]))
              else if p < 100 && p <= cfg.increment then
                && s.wrote && s.outcome == (if tick.write.Stored? then Succeeded else Requeue)
                && Sent(world, s.world, tick.write, world.(aliases := world.aliases[key :=
                     a.(version := cfg.newFunction, weight := None, secondaryVersion := "")]))
              else
                && s.wrote && s.outcome == Requeue
                && Sent(world, s.world, tick.write, world.(aliases := world.aliases[key :=
                     a.(version := cfg.oldFunction, weight := Some(if p >= cfg.increment then p - cfg.increment else 0),
                        secondaryVersion := cfg.newFunction)]))
  {
    EvaluateMeans(cfg, tick.metric);
  }

  // ---------------------------------------------------------------------------------------------
  // Reconciles
  // ---------------------------------------------------------------------------------------------

  datatype Status = Pending | IsSucceeded | IsFailed | IsAborted

  datatype Rollout = Rollout(world: World, status: Status)

  predicate Schedulable(cfg: Config) {
    cfg.interval.Some? && cfg.interval.value > 0 && cfg.increment > 0
  }

  /** The reconcile reaches the step only while the rollout is pending and its spec workable. */
  predicate Active(cfg: Config, r: Rollout) {
    r.status.Pending? && Schedulable(cfg)
  }

  function StatusAfter(outcome: Outcome, stored: bool): Status {
    if !stored then Pending
    else match outcome
         case Succeeded => IsSucceeded
         case Failed(_) => IsFailed
         case _ => Pending
  }

  function Reconcile(cfg: Config, r: Rollout, tick: Tick): Rollout {
    if Active(cfg, r)
    then var s := Step(cfg, r.world, tick); Rollout(s.world, StatusAfter(s.outcome, tick.statusStored))
    else r
  }

  function Run(cfg: Config, r: Rollout, ticks: seq<Tick>): Rollout
    decreases |ticks|
  {
    if ticks == [] then r else Run(cfg, Reconcile(cfg, r, ticks[0]), ticks[1..])
  }

  lemma {:induction false} RunSplit(cfg: Config, r: Rollout, ticks: seq<Tick>, i: nat, j: nat)
    requires i <= j <= |ticks|
    ensures Run(cfg, r, ticks[..j]) == Run(cfg, Run(cfg, r, ticks[..i]), ticks[i..j])
    decreases i
  {
    if i == 0 {
      assert ticks[..j] == ticks[i..j];
    } else {
      assert ticks[..j][1..] == ticks[1..][..j - 1] && ticks[..i][1..] == ticks[1..][..i - 1];
      assert ticks[i..j] == ticks[1..][i - 1..j - 1];
      RunSplit(cfg, Reconcile(cfg, r, ticks[0]), ticks[1..], i - 1, j - 1);
    }
  }

  lemma RunOne(cfg: Config, r: Rollout, ticks: seq<Tick>, i: nat)
    requires i < |ticks|
    ensures Run(cfg, r, ticks[..i + 1]) == Reconcile(cfg, Run(cfg, r, ticks[..i]), ticks[i])
  {
    RunSplit(cfg, r, ticks, i, i + 1);
    assert ticks[i..i + 1] == [ticks[i]];
  }

  /** A rollout that is over, or whose spec cannot be scheduled, is left alone for good. */
  lemma {:induction false} OverIsFinal(cfg: Config, r: Rollout, ticks: seq<Tick>)
    requires !r.status.Pending? || cfg.interval.None? || cfg.interval.value <= 0 || cfg.increment <= 0
    ensures Run(cfg, r, ticks) == r
    decreases |ticks|
  {
    if ticks != [] { OverIsFinal(cfg, r, ticks[1..]); }
  }

  /** While it is pending and can be scheduled, every tick takes a step. */
  predicate Steps(cfg: Config, r: Rollout) {
    r.status.Pending? && cfg.interval.Some? && cfg.interval.value > 0 && cfg.increment > 0
  }

  /** The step ends the rollout and the status is stored with it. */
  predicate Ends(cfg: Config, r: Rollout, tick: Tick) {
    var outcome := Step(cfg, r.world, tick).outcome;
    Steps(cfg, r) && tick.statusStored && (outcome.Succeeded? || outcome.Failed?)
  }

  lemma TickMeans(cfg: Config, r: Rollout, tick: Tick)
    requires Steps(cfg, r)
    ensures var s, next := Step(cfg, r.world, tick), Reconcile(cfg, r, tick);
            && next.world == s.world
            && (Ends(cfg, r, tick) ==> next.status == if s.outcome.Succeeded? then IsSucceeded else IsFailed)
            && (!Ends(cfg, r, tick) ==> next.status.Pending?)
  {
  }

  /** A pending rollout is over exactly when some tick ended it, with that status and what that step left. */
  lemma {:induction false} StatusIsEarned(cfg: Config, r: Rollout, ticks: seq<Tick>)
    requires r.status.Pending?
    ensures !Run(cfg, r, ticks).status.Pending? <==>
            exists i | 0 <= i < |ticks| :: Ends(cfg, Run(cfg, r, ticks[..i]), ticks[i])
    ensures forall i | 0 <= i < |ticks| && Ends(cfg, Run(cfg, r, ticks[..i]), ticks[i]) ::
              var s := Step(cfg, Run(cfg, r, ticks[..i]).world, ticks[i]);
              Run(cfg, r, ticks) == Rollout(s.world, if s.outcome.Succeeded? then IsSucceeded else IsFailed)
    decreases |ticks|
  {
    if ticks != [] {
      var next, rest := Reconcile(cfg, r, ticks[0]), ticks[1..];
      assert ticks[..0] == [] && Run(cfg, r, []) == r;
      forall i | 0 <= i < |rest| ensures Run(cfg, r, ticks[..i + 1]) == Run(cfg, next, rest[..i]) {
        assert ticks[..i + 1][0] == ticks[0] && ticks[..i + 1][1..] == rest[..i];
      }
      if Steps(cfg, r) { TickMeans(cfg, r, ticks[0]); }
      if next.status.Pending? {
        StatusIsEarned(cfg, next, rest);
        EndsLater(cfg, r, ticks);
      } else {
        OverIsFinal(cfg, next, rest);
        forall i | 0 <= i < |rest| ensures !Ends(cfg, Run(cfg, next, rest[..i]), rest[i]) {
          OverIsFinal(cfg, next, rest[..i]);
        }
        EndsLater(cfg, r, ticks);
      }
    }
  }

  /** The ticks that end a rollout, seen from its second tick. */
  lemma EndsLater(cfg: Config, r: Rollout, ticks: seq<Tick>)
    requires ticks != []
    ensures var next, rest := Reconcile(cfg, r, ticks[0]), ticks[1..];
            && (Ends(cfg, Run(cfg, r, ticks[..0]), ticks[0]) <==> Ends(cfg, r, ticks[0]))
            && forall i | 0 < i < |ticks| ::
                 Run(cfg, r, ticks[..i]) == Run(cfg, next, rest[..i - 1]) && ticks[i] == rest[i - 1]
  {
    assert ticks[..0] == [] && Run(cfg, r, []) == r;
    forall i | 0 < i < |ticks|
      ensures Run(cfg, r, ticks[..i]) == Run(cfg, Reconcile(cfg, r, ticks[0]), ticks[1..][..i - 1])
    {
      assert ticks[..i][0] == ticks[0] && ticks[..i][1..] == ticks[1..][..i - 1];
    }
  }

  // ---------------------------------------------------------------------------------------------
  // Alias mode: the promotion is gated, happens once, and ends the manager's writes
  // ---------------------------------------------------------------------------------------------

  function AliasAt(cfg: Config, r: Rollout, ticks: seq<Tick>, i: nat): Option<Alias>
    requires i <= |ticks|
  {
    Driven(cfg, Run(cfg, r, ticks[..i]).world)
  }

  /** Tick i sends an update of the alias. */
  predicate Sends(cfg: Config, r: Rollout, ticks: seq<Tick>, i: nat)
    requires i < |ticks|
  {
    var before := Run(cfg, r, ticks[..i]);
    Active(cfg, before) && Step(cfg, before.world, ticks[i]).wrote
  }

  /** What one reconcile can do to the alias. */
  lemma ReconcileAlias(cfg: Config, r: Rollout, tick: Tick)
    requires Driven(cfg, r.world).Some?
    ensures var a, b := Driven(cfg, r.world).value, Driven(cfg, Reconcile(cfg, r, tick).world);
            && b.Some?
            && (a.version != cfg.oldFunction ==> b == Some(a) && !Step(cfg, r.world, tick).wrote)
            && (b.value.version != a.version ==>
                  && b.value == a.(version := cfg.newFunction, weight := None, secondaryVersion := "")
                  && Primary(a) < 100 && Passes(cfg, tick.metric))
  {
    EvaluateMeans(cfg, tick.metric);
  }

  lemma {:induction false} RunKeepsAlias(cfg: Config, r: Rollout, ticks: seq<Tick>)
    requires Driven(cfg, r.world).Some?
    ensures Driven(cfg, Run(cfg, r, ticks).world).Some?
    ensures Driven(cfg, r.world).value.version != cfg.oldFunction ==>
            Driven(cfg, Run(cfg, r, ticks).world) == Driven(cfg, r.world)
    decreases |ticks|
  {
    if ticks != [] {
      ReconcileAlias(cfg, r, ticks[0]);
      RunKeepsAlias(cfg, Reconcile(cfg, r, ticks[0]), ticks[1..]);
    }
  }

  /**
   * In any run, whatever reads, alias writes and status writes fail: when the alias's version leaves
   * OldFunction it goes to NewFunction with the split cleared, in a tick that itself observed a
   * healthy window with the primary below 100; and from then on the alias is never written again.
   */
  lemma PromotionIsGatedAndFinal(cfg: Config, r: Rollout, ticks: seq<Tick>, i: nat, j: nat)
    requires cfg.oldFunction != cfg.newFunction && Driven(cfg, r.world).Some? && i < j <= |ticks|
    requires AliasAt(cfg, r, ticks, i).Some? && AliasAt(cfg, r, ticks, i).value.version == cfg.oldFunction
    requires AliasAt(cfg, r, ticks, i + 1).Some? && AliasAt(cfg, r, ticks, i + 1).value.version != cfg.oldFunction
    ensures var before := AliasAt(cfg, r, ticks, i).value;
            && AliasAt(cfg, r, ticks, j) ==
                Some(before.(version := cfg.newFunction, weight := None, secondaryVersion := ""))
            && Primary(before) < 100 && Passes(cfg, ticks[i].metric)
    ensures j < |ticks| ==> !Sends(cfg, r, ticks, j)
  {
    RunKeepsAlias(cfg, r, ticks[..i]);
    RunOne(cfg, r, ticks, i);
    ReconcileAlias(cfg, Run(cfg, r, ticks[..i]), ticks[i]);
    RunSplit(cfg, r, ticks, i + 1, j);
    RunKeepsAlias(cfg, Run(cfg, r, ticks[..i + 1]), ticks[i + 1..j]);
    if j < |ticks| {
      ReconcileAlias(cfg, Run(cfg, r, ticks[..j]), ticks[j]);
    }
  }

  /** An alias that does not start at OldFunction is never touched. */
  lemma ForeignAliasUntouched(cfg: Config, r: Rollout, ticks: seq<Tick>, i: nat)
    requires Driven(cfg, r.world).Some? && Driven(cfg, r.world).value.version != cfg.oldFunction && i <= |ticks|
    ensures AliasAt(cfg, r, ticks, i) == Driven(cfg, r.world)
    ensures i < |ticks| ==> !Sends(cfg, r, ticks, i)
  {
    RunKeepsAlias(cfg, r, ticks[..i]);
    if i < |ticks| { ReconcileAlias(cfg, Run(cfg, r, ticks[..i]), ticks[i]); }
  }

  // ---------------------------------------------------------------------------------------------
  // Both modes take the same steps
  // ---------------------------------------------------------------------------------------------

  /** The step outcomes up to and including the terminal one. */
  function Trace(cfg: Config, world: World, ticks: seq<Tick>): seq<Outcome>
    decreases |ticks|
  {
    if ticks == [] then []
    else
      var s := Step(cfg, world, ticks[0]);
      [s.outcome] + if Terminal(s.outcome) then [] else Trace(cfg, s.world, ticks[1..])
  }

  /** The pair's weights are the complement of each other. */
  predicate Balanced(cfg: Config, world: World) {
    && world.reference.ByWeights?
    && 0 <= WeightOf(world.reference.weights, cfg.newFunction) <= 100
    && WeightOf(world.reference.weights, cfg.oldFunction) == 100 - WeightOf(world.reference.weights, cfg.newFunction)
  }

  /** The two encodings of one rollout: new weight = 100 - primary weight. */
  predicate Mirrors(cfg: Config, pair: World, single: World) {
    && Balanced(cfg, pair)
    && Driven(cfg, single).Some?
    && var a := Driven(cfg, single).value;
       && a.version == cfg.oldFunction && a.packageDigest == "" && !a.specManaged
       && Primary(a) == WeightOf(pair.reference.weights, cfg.oldFunction)
  }

  /** The alias-mode reads that have no counterpart in pair mode succeed. */
  predicate Readable(cfg: Config, functionName: string, tick: Tick) {
    && !tick.aliasFails && tick.unreadable == {}
    && (forall v <- {cfg.newFunction, cfg.oldFunction} ::
          Key(cfg.namespace, v) in tick.versions && tick.versions[Key(cfg.namespace, v)].functionName == functionName)
  }

  predicate AllReadable(cfg: Config, functionName: string, ticks: seq<Tick>) {
    forall t <- ticks :: Readable(cfg, functionName, t)
  }

  /** The step from this world would finish the rollout. */
  predicate Finishes(cfg: Config, pair: World, tick: Tick)
    requires pair.reference.ByWeights?
  {
    && tick.trigger.ReadOk?
    && WeightOf(pair.reference.weights, cfg.newFunction) > 0
    && Passes(cfg, tick.metric)
    && WeightOf(pair.reference.weights, cfg.newFunction) + cfg.increment >= 100
  }

  /** One step, apart from a promotion that was stored and reported as failed. */
  lemma StepsMirror(cfg: Config, pair: World, single: World, tick: Tick)
    requires cfg.increment > 0 && cfg.oldFunction != cfg.newFunction && Mirrors(cfg, pair, single)
    requires Readable(cfg, Driven(cfg, single).value.functionName, tick)
    requires !(Finishes(cfg, pair, tick) && tick.write.StoredButFailed?)
    ensures var p, a := Step(cfg, pair, tick), Step(cfg, single, tick);
            && p.outcome == a.outcome && p.wrote == a.wrote && Balanced(cfg, p.world)
            && (p.outcome.Succeeded? || Mirrors(cfg, p.world, a.world))
            && Driven(cfg, a.world).Some?
            && Driven(cfg, a.world).value.functionName == Driven(cfg, single).value.functionName
  {
    if tick.trigger.ReadOk? {
      MirrorAdmitted(cfg, single, tick);
      var alias := Driven(cfg, single).value;
      match AliasVerdict(cfg, alias, tick) {
        case Unobserved =>
        case Crossed => BackMirrors(cfg, pair, single, tick);
        case Healthy => ForwardMirrors(cfg, pair, single, tick);
      }
    }
  }

  /** A readable tick admits the alias of a rollout that is under way. */
  lemma MirrorAdmitted(cfg: Config, single: World, tick: Tick)
    requires Driven(cfg, single).Some? && Readable(cfg, Driven(cfg, single).value.functionName, tick)
    requires var a := Driven(cfg, single).value; a.version == cfg.oldFunction && a.packageDigest == "" && !a.specManaged
    ensures ValidateAliasRollout(cfg, single, tick, single.reference.alias) == Admitted(Driven(cfg, single).value)
  {
    assert cfg.newFunction in {cfg.newFunction, cfg.oldFunction};
    assert cfg.oldFunction in {cfg.newFunction, cfg.oldFunction};
  }

  lemma BackMirrors(cfg: Config, pair: World, single: World, tick: Tick)
    requires cfg.oldFunction != cfg.newFunction && Mirrors(cfg, pair, single)
    ensures var alias, key := Driven(cfg, single).value, Key(cfg.namespace, single.reference.alias);
            Mirrors(cfg, StoreWeights(pair, tick.live, Back(cfg, pair.reference.weights), tick.write),
                    StoreAlias(single, key, BackAlias(cfg, alias), tick.write))
  {
  }

  lemma ForwardMirrors(cfg: Config, pair: World, single: World, tick: Tick)
    requires cfg.increment > 0 && cfg.oldFunction != cfg.newFunction && Mirrors(cfg, pair, single)
    ensures var alias, key := Driven(cfg, single).value, Key(cfg.namespace, single.reference.alias);
            var (raised, done) := Forward(cfg, pair.reference.weights);
            var (next, finished) := ForwardAlias(cfg, alias);
            var w := StoreWeights(pair, tick.live, raised, tick.write);
            && done == finished && Balanced(cfg, w)
            && ((done && !tick.write.Rejected?) || Mirrors(cfg, w, StoreAlias(single, key, next, tick.write)))
  {
  }

  /** A promotion reported as failed, followed by a tick that reads the trigger. */
  predicate Diverges(cfg: Config, pair: World, ticks: seq<Tick>)
    decreases |ticks|
  {
    && ticks != [] && pair.reference.ByWeights?
    && if Finishes(cfg, pair, ticks[0]) && ticks[0].write.StoredButFailed?
       then exists t <- ticks[1..] :: t.trigger.ReadOk?
       else var s := Step(cfg, pair, ticks[0]); !Terminal(s.outcome) && Diverges(cfg, s.world, ticks[1..])
  }

  /** After a promotion reported as failed the pair evaluates again while the alias is refused. */
  lemma {:induction false} AfterLostPromotion(cfg: Config, pair: World, single: World, ticks: seq<Tick>)
    requires pair.reference.ByWeights? && WeightOf(pair.reference.weights, cfg.newFunction) == 100
    requires Driven(cfg, single).Some? && Driven(cfg, single).value.version != cfg.oldFunction
    requires Driven(cfg, single).value.packageDigest == "" && !Driven(cfg, single).value.specManaged
    requires forall t <- ticks :: !t.aliasFails
    ensures Trace(cfg, pair, ticks) == Trace(cfg, single, ticks) <==> !exists t <- ticks :: t.trigger.ReadOk?
    decreases |ticks|
  {
    if ticks != [] {
      assert ticks == [ticks[0]] + ticks[1..] && ticks[0] in ticks;
      var p, a := Step(cfg, pair, ticks[0]), Step(cfg, single, ticks[0]);
      assert Trace(cfg, pair, ticks)[0] == p.outcome && Trace(cfg, single, ticks)[0] == a.outcome;
      if !ticks[0].trigger.ReadOk? {
        AfterLostPromotion(cfg, pair, single, ticks[1..]);
        assert Trace(cfg, pair, ticks)[1..] == Trace(cfg, pair, ticks[1..]);
        assert Trace(cfg, single, ticks)[1..] == Trace(cfg, single, ticks[1..]);
      }
    }
  }

  /** A promotion that is stored and reported as failed: both modes go on, from weight 100 and a promoted alias. */
  lemma LostPromotion(cfg: Config, pair: World, single: World, tick: Tick)
    requires cfg.increment > 0 && cfg.oldFunction != cfg.newFunction && Mirrors(cfg, pair, single)
    requires Readable(cfg, Driven(cfg, single).value.functionName, tick)
    requires Finishes(cfg, pair, tick) && tick.write.StoredButFailed?
    ensures var p, a := Step(cfg, pair, tick), Step(cfg, single, tick);
            && p.outcome == a.outcome == Requeue && p.world.reference.ByWeights?
            && WeightOf(p.world.reference.weights, cfg.newFunction) == 100
            && Driven(cfg, a.world).Some? && Driven(cfg, a.world).value.version == cfg.newFunction
            && Driven(cfg, a.world).value.packageDigest == "" && !Driven(cfg, a.world).value.specManaged
  {
    EvaluateMeans(cfg, tick.metric);
    assert cfg.newFunction in {cfg.newFunction, cfg.oldFunction} &&
           cfg.oldFunction in {cfg.newFunction, cfg.oldFunction};
  }

  /**
   * Given the same answers, the two modes give the same outcomes up to and including the terminal
   * one, exactly when no promotion is stored, reported as failed, and followed by another step.
   */
  lemma {:induction false} ModesSimulateEachOther(cfg: Config, pair: World, single: World, ticks: seq<Tick>)
    requires cfg.increment > 0 && cfg.oldFunction != cfg.newFunction && Mirrors(cfg, pair, single)
    requires AllReadable(cfg, Driven(cfg, single).value.functionName, ticks)
    ensures Trace(cfg, pair, ticks) == Trace(cfg, single, ticks) <==> !Diverges(cfg, pair, ticks)
    decreases |ticks|
  {
    if ticks != [] {
      assert ticks[0] in ticks && forall t <- ticks[1..] :: t in ticks;
      var p, a := Step(cfg, pair, ticks[0]), Step(cfg, single, ticks[0]);
      if Finishes(cfg, pair, ticks[0]) && ticks[0].write.StoredButFailed? {
        LostPromotion(cfg, pair, single, ticks[0]);
        AfterLostPromotion(cfg, p.world, a.world, ticks[1..]);
      } else {
        StepsMirror(cfg, pair, single, ticks[0]);
        if !Terminal(p.outcome) {
          ModesSimulateEachOther(cfg, p.world, a.world, ticks[1..]);
        }
      }
      TraceOnce(cfg, pair, ticks);
      TraceOnce(cfg, single, ticks);
    }
  }

  lemma TraceOnce(cfg: Config, world: World, ticks: seq<Tick>)
    requires ticks != []
    ensures var s, trace := Step(cfg, world, ticks[0]), Trace(cfg, world, ticks);
            && trace != [] && trace[0] == s.outcome
            && trace[1..] == if Terminal(s.outcome) then [] else Trace(cfg, s.world, ticks[1..])
  {
  }

  const LAST_STEP := Config("ns", "v1", "v2", 50, 10, Some(60))
  const HALF_PAIR := World(ByWeights(map["v2" := 50, "v1" := 50]), map[])
  const HALF_ALIAS := Alias("f", "v1", "", Some(50), "v2", "", false, 1)
  const HALF_SINGLE := World(ByName("f", "prod", ""), map[Key("ns", "prod") := HALF_ALIAS])
  const BOTH_VERSIONS := map[Key("ns", "v1") := Version("f", 1), Key("ns", "v2") := Version("f", 2)]

  function HealthyTick(write: Written): Tick {
    Tick(ReadOk, false, BOTH_VERSIONS, {}, FailurePercent(0.0), map[], write, true)
  }

  /**
   * Such a run: from the last step of a rollout, a promotion that is stored and reported as failed,
   * then a healthy window. The pair succeeds where the promoted alias is refused.
   */
  lemma ModesCanPart()
    ensures var ticks := [HealthyTick(StoredButFailed), HealthyTick(Stored)];
            && Mirrors(LAST_STEP, HALF_PAIR, HALF_SINGLE) && AllReadable(LAST_STEP, "f", ticks)
            && Diverges(LAST_STEP, HALF_PAIR, ticks)
            && Trace(LAST_STEP, HALF_PAIR, ticks) == [Requeue, Succeeded]
            && Trace(LAST_STEP, HALF_SINGLE, ticks) == [Requeue, Failed(Some(NotAtOld))]
  {
    var lost, last := HealthyTick(StoredButFailed), HealthyTick(Stored);
    PairDiverges(lost, last);
    PairTrace(lost, last);
    SingleTrace(lost, last);
  }

  lemma PairDiverges(lost: Tick, last: Tick)
    requires lost == HealthyTick(StoredButFailed) && last == HealthyTick(Stored)
    ensures AllReadable(LAST_STEP, "f", [lost, last]) && Diverges(LAST_STEP, HALF_PAIR, [lost, last])
  {
    assert [lost, last][1..] == [last] && last in [last];
    assert Finishes(LAST_STEP, HALF_PAIR, lost);
  }

  lemma PairTrace(lost: Tick, last: Tick)
    requires lost == HealthyTick(StoredButFailed) && last == HealthyTick(Stored)
    ensures Trace(LAST_STEP, HALF_PAIR, [lost, last]) == [Requeue, Succeeded]
  {
    var p := Step(LAST_STEP, HALF_PAIR, lost);
    assert p.outcome == Requeue && WeightOf(p.world.reference.weights, "v2") == 100;
    assert [lost, last][1..] == [last] && Trace(LAST_STEP, p.world, [last]) == [Succeeded];
  }

  lemma SingleTrace(lost: Tick, last: Tick)
    requires lost == HealthyTick(StoredButFailed) && last == HealthyTick(Stored)
    ensures Trace(LAST_STEP, HALF_SINGLE, [lost, last]) == [Requeue, Failed(Some(NotAtOld))]
  {
    MirrorAdmitted(LAST_STEP, HALF_SINGLE, lost);
    var a := Step(LAST_STEP, HALF_SINGLE, lost);
    assert a.outcome == Requeue && Driven(LAST_STEP, a.world).value.version == "v2";
    assert [lost, last][1..] == [last] && Trace(LAST_STEP, a.world, [last]) == [Failed(Some(NotAtOld))];
  }

  /** Where every rollout starts: all traffic on the old target. */
  lemma StartMirrors(cfg: Config, single: World)
    requires cfg.oldFunction != cfg.newFunction && Driven(cfg, single).Some?
    requires var a := Driven(cfg, single).value;
             a.version == cfg.oldFunction && a.weight.None? && a.packageDigest == "" && !a.specManaged
    ensures Mirrors(cfg, World(ByWeights(map[cfg.newFunction := 0, cfg.oldFunction := 100]), map[]), single)
  {
  }

  // ---------------------------------------------------------------------------------------------
  // How many ticks a healthy rollout takes
  // ---------------------------------------------------------------------------------------------

  /** In pair mode the two weights always add up to 100, whatever the environment answers. */
  lemma {:induction false} PairStaysBalanced(cfg: Config, r: Rollout, ticks: seq<Tick>)
    requires cfg.oldFunction != cfg.newFunction && Balanced(cfg, r.world)
    ensures Balanced(cfg, Run(cfg, r, ticks).world)
    decreases |ticks|
  {
    if ticks != [] {
      PairStaysBalanced(cfg, Reconcile(cfg, r, ticks[0]), ticks[1..]);
    }
  }

  predicate AllHealthy(cfg: Config, ticks: seq<Tick>) {
    forall t <- ticks :: t.trigger.ReadOk? && Passes(cfg, t.metric) && t.write.Stored?
  }

  /** How many increments cover `n` percent. */
  function Windows(n: int, increment: int): nat
    requires increment > 0
    decreases Max(0, n)
  {
    if n <= 0 then 0 else 1 + Windows(n - increment, increment)
  }

  lemma AtLeastOnce(k: int, d: int)
    requires k >= 1 && d > 0
    ensures k * d >= d
  {
  }

  lemma QuotientIs(x: int, q: int, r: int, d: int)
    requires 0 <= r < d && x == q * d + r
    ensures x / d == q
  {
    var q', r' := x / d, x % d;
    assert q' * d + r' == q * d + r;
    if q' > q {
      assert (q' - q) * d == q' * d - q * d;
      AtLeastOnce(q' - q, d);
    } else if q' < q {
      assert (q - q') * d == q * d - q' * d;
      AtLeastOnce(q - q', d);
    }
  }

  lemma DivideOnce(a: int, d: int)
    requires d > 0
    ensures (a + d) / d == a / d + 1
  {
    QuotientIs(a + d, a / d + 1, a % d, d);
  }

  lemma {:induction false} WindowsIsCeiling(n: int, increment: int)
    requires n >= 0 && increment > 0
    ensures Windows(n, increment) == (n + increment - 1) / increment
    decreases n
  {
    if n == 0 {
      QuotientIs(increment - 1, 0, increment - 1, increment);
    } else if n <= increment {
      QuotientIs(n + increment - 1, 1, n - 1, increment);
    } else {
      WindowsIsCeiling(n - increment, increment);
      assert n - increment + increment - 1 == n - 1 && n + increment - 1 == n - 1 + increment;
      DivideOnce(n - 1, increment);
    }
  }

  /** The first step from weight 0 is never the last one. */
  function TicksFrom(weight: int, increment: int): nat
    requires increment > 0
  {
    if weight == 0 then Max(2, Windows(100, increment)) else Max(1, Windows(100 - weight, increment))
  }

  function Raised(weight: int, increment: int): int {
    if weight + increment >= 100 then 100 else weight + increment
  }

  lemma TicksStep(weight: int, increment: int)
    requires increment > 0 && 0 <= weight <= 100
    ensures TicksFrom(weight, increment) ==
            if weight > 0 && weight + increment >= 100 then 1 else 1 + TicksFrom(Raised(weight, increment), increment)
  {
    var n := 100 - weight;
    assert Windows(n, increment) == if n <= 0 then 0 else 1 + Windows(n - increment, increment);
  }

  lemma HealthyStep(cfg: Config, pair: World, tick: Tick)
    requires cfg.increment > 0 && cfg.oldFunction != cfg.newFunction && Balanced(cfg, pair) && AllHealthy(cfg, [tick])
    ensures var w, s := WeightOf(pair.reference.weights, cfg.newFunction), Step(cfg, pair, tick);
            && s.outcome == (if w > 0 && w + cfg.increment >= 100 then Succeeded else Requeue)
            && Balanced(cfg, s.world) &&
                WeightOf(s.world.reference.weights, cfg.newFunction) == Raised(w, cfg.increment)
  {
    assert tick in [tick];
  }

  lemma RequeueFirst(n: nat)
    requires n > 0
    ensures seq(n, _ => Requeue) + [Succeeded] == [Requeue] + (seq(n - 1, _ => Requeue) + [Succeeded])
  {
  }

  lemma {:induction false} HealthyTrace(cfg: Config, pair: World, ticks: seq<Tick>)
    requires cfg.increment > 0 && cfg.oldFunction != cfg.newFunction && Balanced(cfg, pair) && AllHealthy(cfg, ticks)
    requires |ticks| >= TicksFrom(WeightOf(pair.reference.weights, cfg.newFunction), cfg.increment)
    ensures var n := TicksFrom(WeightOf(pair.reference.weights, cfg.newFunction), cfg.increment);
            Trace(cfg, pair, ticks) == seq(n - 1, _ => Requeue) + [Succeeded]
    decreases |ticks|
  {
    var w := WeightOf(pair.reference.weights, cfg.newFunction);
    var n := TicksFrom(w, cfg.increment);
    assert ticks[0] in ticks && forall t <- ticks[1..] :: t in ticks;
    HealthyStep(cfg, pair, ticks[0]);
    TicksStep(w, cfg.increment);
    if !(w > 0 && w + cfg.increment >= 100) {
      HealthyTrace(cfg, Step(cfg, pair, ticks[0]).world, ticks[1..]);
      RequeueFirst(n - 1);
    }
  }

  /** From weight 0, with every window healthy and every write stored, both modes succeed on the same tick. */
  lemma RolloutLength(cfg: Config, pair: World, single: World, ticks: seq<Tick>)
    requires cfg.increment > 0 && cfg.oldFunction != cfg.newFunction && Mirrors(cfg, pair, single)
    requires WeightOf(pair.reference.weights, cfg.newFunction) == 0
    requires AllHealthy(cfg, ticks) && AllReadable(cfg, Driven(cfg, single).value.functionName, ticks)
    requires |ticks| >= Max(2, (100 + cfg.increment - 1) / cfg.increment)
    ensures Trace(cfg, pair, ticks) == Trace(cfg, single, ticks) ==
            seq(Max(2, (100 + cfg.increment - 1) / cfg.increment) - 1, _ => Requeue) + [Succeeded]
  {
    WindowsIsCeiling(100, cfg.increment);
    HealthyTrace(cfg, pair, ticks);
    HealthyNeverDiverges(cfg, pair, ticks);
    ModesSimulateEachOther(cfg, pair, single, ticks);
  }

  lemma {:induction false} HealthyNeverDiverges(cfg: Config, pair: World, ticks: seq<Tick>)
    requires AllHealthy(cfg, ticks)
    ensures !Diverges(cfg, pair, ticks)
    decreases |ticks|
  {
    if ticks != [] {
      assert ticks[0] in ticks && forall t <- ticks[1..] :: t in ticks;
      HealthyNeverDiverges(cfg, Step(cfg, pair, ticks[0]).world, ticks[1..]);
    }
  }

  // ---------------------------------------------------------------------------------------------
  // What a sticky request sees of an alias rollout
  // ---------------------------------------------------------------------------------------------

  /** The alias is at the old target, split towards the new one or not, or promoted. */
  predicate OnCourse(cfg: Config, a: Alias) {
    || (a.version == cfg.oldFunction && (a.weight.Some? ==> a.secondaryVersion == cfg.newFunction))
    || (a.version == cfg.newFunction && a.weight.None?)
  }

  /** The function and both versions exist while the requests are served. */
  predicate Backed(cfg: Config, functions: map<Key, Function>, versions: map<Key, Version>, functionName: string) {
    && Key(cfg.namespace, functionName) in functions
    && (forall v <- {cfg.newFunction, cfg.oldFunction} ::
          v != "" && Key(cfg.namespace, v) in versions && versions[Key(cfg.namespace, v)].functionName == functionName)
  }

  function ServedBy(cfg: Config, functions: map<Key, Function>, versions: map<Key, Version>, world: World,
                    key: Bytes): Option<string> {
    match Driven(cfg, world)
    case None => None
    case Some(a) => Serves(Objects(functions, versions, world.aliases), cfg.namespace, a.functionName,
                           world.reference.alias, key)
  }

  predicate OnNew(cfg: Config, a: Alias, key: Bytes) {
    a.version == cfg.newFunction || (a.weight.Some? && StickyDraw(key, 100) >= a.weight.value)
  }

  lemma ServedByOnCourse(cfg: Config, functions: map<Key, Function>, versions: map<Key, Version>, world: World,
                         key: Bytes)
    requires cfg.oldFunction != cfg.newFunction && Driven(cfg, world).Some? && OnCourse(cfg, Driven(cfg, world).value)
    requires Backed(cfg, functions, versions, Driven(cfg, world).value.functionName)
    ensures var a := Driven(cfg, world).value;
            ServedBy(cfg, functions, versions, world, key) ==
            Some(BackendKey(a.functionName, if OnNew(cfg, a, key) then cfg.newFunction else cfg.oldFunction))
  {
    var a, o := Driven(cfg, world).value, Objects(functions, versions, world.aliases);
    assert cfg.newFunction in {cfg.newFunction, cfg.oldFunction} &&
           cfg.oldFunction in {cfg.newFunction, cfg.oldFunction};
    assert VersionGeneration(o, cfg.namespace, a.functionName, cfg.oldFunction).Some?;
    assert VersionGeneration(o, cfg.namespace, a.functionName, cfg.newFunction).Some?;
    if a.weight.Some? {
      SplitServes(o, cfg.namespace, a.functionName, world.reference.alias, key);
    }
  }

  /** The reconcile evaluates a window that crossed the threshold and its rollback reaches the store. */
  predicate RollsBack(cfg: Config, r: Rollout, tick: Tick)
    requires Driven(cfg, r.world).Some?
  {
    && Active(cfg, r) && tick.trigger.ReadOk?
    && Workable(cfg, r.world, tick) && Primary(Driven(cfg, r.world).value) < 100 && Breaches(cfg, tick.metric)
    && !tick.write.Rejected?
  }

  lemma ReconcileOnCourse(cfg: Config, r: Rollout, tick: Tick, key: Bytes)
    requires cfg.oldFunction != cfg.newFunction && Driven(cfg, r.world).Some? &&
             OnCourse(cfg, Driven(cfg, r.world).value)
    ensures var a, b := Driven(cfg, r.world).value, Driven(cfg, Reconcile(cfg, r, tick).world);
            && b.Some? && OnCourse(cfg, b.value) && b.value.functionName == a.functionName
            && (OnNew(cfg, a, key) ==> (OnNew(cfg, b.value, key) <==> !RollsBack(cfg, r, tick)))
  {
  }

  lemma {:induction false} RunOnCourse(cfg: Config, r: Rollout, ticks: seq<Tick>)
    requires cfg.oldFunction != cfg.newFunction && Driven(cfg, r.world).Some? &&
             OnCourse(cfg, Driven(cfg, r.world).value)
    ensures var a, b := Driven(cfg, r.world).value, Driven(cfg, Run(cfg, r, ticks).world);
            b.Some? && OnCourse(cfg, b.value) && b.value.functionName == a.functionName
    decreases |ticks|
  {
    if ticks != [] {
      ReconcileOnCourse(cfg, r, ticks[0], []);
      RunOnCourse(cfg, Reconcile(cfg, r, ticks[0]), ticks[1..]);
    }
  }

  /** The request with this key, after the first `i` ticks, reaches the new version. */
  predicate NewServes(cfg: Config, r: Rollout, ticks: seq<Tick>, i: nat,
                      functions: map<Key, Function>, versions: map<Key, Version>, key: Bytes)
    requires i <= |ticks| && Driven(cfg, r.world).Some?
  {
    ServedBy(cfg, functions, versions, Run(cfg, r, ticks[..i]).world, key) ==
    Some(BackendKey(Driven(cfg, r.world).value.functionName, cfg.newFunction))
  }

  predicate RollsBackAt(cfg: Config, r: Rollout, ticks: seq<Tick>, k: nat)
    requires k < |ticks|
  {
    var before := Run(cfg, r, ticks[..k]);
    Driven(cfg, before.world).Some? && RollsBack(cfg, before, ticks[k])
  }

  lemma NewServesIsOnNew(cfg: Config, r: Rollout, ticks: seq<Tick>, i: nat,
                         functions: map<Key, Function>, versions: map<Key, Version>, key: Bytes)
    requires cfg.oldFunction != cfg.newFunction && i <= |ticks|
    requires Driven(cfg, r.world).Some? && OnCourse(cfg, Driven(cfg, r.world).value)
    requires Backed(cfg, functions, versions, Driven(cfg, r.world).value.functionName)
    ensures AliasAt(cfg, r, ticks, i).Some?
    ensures NewServes(cfg, r, ticks, i, functions, versions, key) <==> OnNew(cfg, AliasAt(cfg, r, ticks, i).value, key)
  {
    RunOnCourse(cfg, r, ticks[..i]);
    ServedByOnCourse(cfg, functions, versions, Run(cfg, r, ticks[..i]).world, key);
    BackendKeyInjective(Driven(cfg, r.world).value.functionName, cfg.newFunction, cfg.oldFunction);
  }

  /** From manager to router, tick by tick: a key on the new version leaves it exactly in a rollback. */
  lemma OnlyRollbackMovesBack(cfg: Config, r: Rollout, ticks: seq<Tick>, i: nat,
                              functions: map<Key, Function>, versions: map<Key, Version>, key: Bytes)
    requires cfg.oldFunction != cfg.newFunction && i < |ticks|
    requires Driven(cfg, r.world).Some? && OnCourse(cfg, Driven(cfg, r.world).value)
    requires Backed(cfg, functions, versions, Driven(cfg, r.world).value.functionName)
    requires NewServes(cfg, r, ticks, i, functions, versions, key)
    ensures NewServes(cfg, r, ticks, i + 1, functions, versions, key) <==> !RollsBackAt(cfg, r, ticks, i)
  {
    NewServesIsOnNew(cfg, r, ticks, i, functions, versions, key);
    NewServesIsOnNew(cfg, r, ticks, i + 1, functions, versions, key);
    RunOnCourse(cfg, r, ticks[..i]);
    RunOne(cfg, r, ticks, i);
    ReconcileOnCourse(cfg, Run(cfg, r, ticks[..i]), ticks[i], key);
  }

  /**
   * Over any run, failing reads and writes and crossing windows included: once a sticky key is
   * served by the new version it stays there, through every forward step and the promotion, up to
   * a tick that rolls back.
   */
  lemma {:induction false} StickyKeysOnlyMoveForward(cfg: Config, r: Rollout, ticks: seq<Tick>, i: nat, j: nat,
                                                     functions: map<Key, Function>, versions: map<Key, Version>,
                                                         key: Bytes)
    requires cfg.oldFunction != cfg.newFunction && i <= j <= |ticks|
    requires Driven(cfg, r.world).Some? && OnCourse(cfg, Driven(cfg, r.world).value)
    requires Backed(cfg, functions, versions, Driven(cfg, r.world).value.functionName)
    requires NewServes(cfg, r, ticks, i, functions, versions, key)
    ensures NewServes(cfg, r, ticks, j, functions, versions, key) ||
            exists k | i <= k < j :: RollsBackAt(cfg, r, ticks, k)
    decreases j - i
  {
    if i < j {
      OnlyRollbackMovesBack(cfg, r, ticks, i, functions, versions, key);
      if !RollsBackAt(cfg, r, ticks, i) {
        StickyKeysOnlyMoveForward(cfg, r, ticks, i + 1, j, functions, versions, key);
      }
    }
  }

  // ---------------------------------------------------------------------------------------------
  // The code, over stored objects that its writes change in place
  // ---------------------------------------------------------------------------------------------

  class CanaryConfigMgr {
    var world: World
    var status: Status

    constructor (world: World, status: Status)
      ensures this.world == world && this.status == status
    {
      this.world, this.status := world, status;
    }

    method UpdateHttpTrigger(weights: map<string, int>, live: map<string, int>, write: Written) returns (failed: bool)
      modifies this`world
      ensures world == StoreWeights(old(world), live, weights, write) && failed == !write.Stored?
    {
      if !write.Rejected? {
        var merged, left := live, weights.Keys;
        while left != {}
          invariant left <= weights.Keys
          invariant merged == live + map f <- weights | f !in left :: weights[f]
          decreases left
        {
          var f :| f in left;
          merged := merged[f := weights[f]];
          left := left - {f};
        }
        assert (map f <- weights | f !in left :: weights[f]) == weights;
        world := world.(reference := ByWeights(merged));
      }
      failed := !write.Stored?;
    }

    method UpdateFunctionAlias(key: Key, version: string, weight: Option<int>, secondaryVersion: string, write: Written)
      returns (failed: bool)
      requires key in world.aliases
      modifies this`world
      ensures world == StoreAlias(old(world), key,
                old(world).aliases[key].(version := version, weight := weight, secondaryVersion := secondaryVersion),
                    write)
      ensures failed == !write.Stored?
    {
      if !write.Rejected? {
        var alias := world.aliases[key];
        alias := alias.(version := version);
        alias := alias.(weight := weight);
        alias := alias.(secondaryVersion := secondaryVersion);
        world := world.(aliases := world.aliases[key := alias]);
      }
      failed := !write.Stored?;
    }

    method RollForward(cfg: Config, live: map<string, int>, write: Written) returns (done: bool, failed: bool)
      requires world.reference.ByWeights?
      modifies this`world
      ensures var (raised, finished) := Forward(cfg, old(world).reference.weights);
              && world == StoreWeights(old(world), live, raised, write)
              && done == finished && failed == !write.Stored?
    {
      var weights := world.reference.weights;
      done := false;
      if WeightOf(weights, cfg.newFunction) + cfg.increment >= 100 {
        done := WeightOf(weights, cfg.newFunction) > 0;
        weights := weights[cfg.newFunction := 100];
        weights := weights[cfg.oldFunction := 0];
      } else {
        weights := weights[cfg.newFunction := WeightOf(weights, cfg.newFunction) + cfg.increment];
        weights := weights[cfg.oldFunction := Max(0, WeightOf(weights, cfg.oldFunction) - cfg.increment)];
      }
      failed := UpdateHttpTrigger(weights, live, write);
    }

    method RollbackWeights(cfg: Config, live: map<string, int>, write: Written) returns (failed: bool)
      requires world.reference.ByWeights?
      modifies this`world
      ensures world == StoreWeights(old(world), live, Back(cfg, old(world).reference.weights), write)
      ensures failed == !write.Stored?
    {
      var weights := world.reference.weights;
      weights := weights[cfg.newFunction := 0];
      weights := weights[cfg.oldFunction := 100];
      failed := UpdateHttpTrigger(weights, live, write);
    }

    method RollForwardAlias(cfg: Config, key: Key, write: Written) returns (done: bool, failed: bool)
      requires key in world.aliases
      modifies this`world
      ensures var (next, finished) := ForwardAlias(cfg, old(world).aliases[key]);
              world == StoreAlias(old(world), key, next, write) && done == finished && failed == !write.Stored?
    {
      var primaryWeight := 100;
      if world.aliases[key].weight.Some? {
        primaryWeight := world.aliases[key].weight.value;
      }
      if primaryWeight < 100 && primaryWeight - cfg.increment <= 0 {
        failed := UpdateFunctionAlias(key, cfg.newFunction, None, "", write);
        return true, failed;
      }
      var newWeight := Max(0, primaryWeight - cfg.increment);
      failed := UpdateFunctionAlias(key, cfg.oldFunction, Some(newWeight), cfg.newFunction, write);
      return false, failed;
    }

    method RollbackAlias(cfg: Config, key: Key, write: Written) returns (failed: bool)
      requires key in world.aliases
      modifies this`world
      ensures world == StoreAlias(old(world), key, BackAlias(cfg, old(world).aliases[key]), write) &&
              failed == !write.Stored?
    {
      failed := UpdateFunctionAlias(key, cfg.oldFunction, None, "", write);
    }

    method DoStepAlias(cfg: Config, tick: Tick) returns (outcome: Outcome)
      requires world.reference.ByName?
      modifies this`world
      ensures world == StepAlias(cfg, old(world), tick).world && outcome == StepAlias(cfg, old(world), tick).outcome
    {
      var name := world.reference.alias;
      var key := Key(cfg.namespace, name);
      var validation := ValidateAliasRollout(cfg, world, tick, name);
      if validation.Unread? {
        return Error;
      }
      if validation.Refused? {
        return Failed(Some(validation.refusal));
      }
      var alias := validation.alias;
      if Primary(alias) < 100 {
        var verdict := Evaluate(cfg, tick.metric);
        if verdict.Unobserved? {
          return Requeue;
        }
        if verdict.Crossed? {
          var failed := RollbackAlias(cfg, key, tick.write);
          return if failed then Error else Failed(None);
        }
      }
      var done, failed := RollForwardAlias(cfg, key, tick.write);
      return if !failed && done then Succeeded else Requeue;
    }

    method DoStep(cfg: Config, tick: Tick) returns (outcome: Outcome)
      modifies this`world
      ensures world == Step(cfg, old(world), tick).world && outcome == Step(cfg, old(world), tick).outcome
    {
      if tick.trigger.ReadMissing? {
        return Requeue;
      }
      if tick.trigger.ReadFailed? {
        return Error;
      }
      if world.reference.ByName? && world.reference.alias != "" {
        outcome := DoStepAlias(cfg, tick);
        return;
      }
      if !world.reference.ByWeights? {
        return Requeue;
      }
      if WeightOf(world.reference.weights, cfg.newFunction) != 0 {
        var verdict := Evaluate(cfg, tick.metric);
        if verdict.Unobserved? {
          return Requeue;
        }
        if verdict.Crossed? {
          var failed := RollbackWeights(cfg, tick.live, tick.write);
          return if failed then Error else Failed(None);
        }
      }
      var done, failed := RollForward(cfg, tick.live, tick.write);
      return if !failed && done then Succeeded else Requeue;
    }

    method DoReconcile(cfg: Config, tick: Tick)
      modifies this
      ensures Rollout(world, status) == Reconcile(cfg, Rollout(old(world), old(status)), tick)
    {
      if !status.Pending? || cfg.interval.None? || cfg.interval.value <= 0 || cfg.increment <= 0 {
        return;
      }
      var outcome := DoStep(cfg, tick);
      if tick.statusStored {
        match outcome
        case Succeeded => status := IsSucceeded;
        case Failed(_) => status := IsFailed;
        case _ =>
      }
    }
  }
}
