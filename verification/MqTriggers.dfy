/**
 * The message queue trigger manager: an actor that owns the map of recorded subscriptions and the
 * subscription count, and reconciles that register and release subscriptions by asking the actor
 * and the message queue in turn. Reconciles of one trigger are serialised; reconciles of different
 * triggers interleave between any two requests. Every answer of the message queue is arbitrary.
 */
module MqTriggers {
  import opened Common

  type Key = string

  /** A consumer created for one trigger. */
  datatype Sub = Sub(key: Key, serial: nat)

  /** The recorded subscriptions, the gauge, the consumers that are alive, and the next serial. */
  datatype Core = Core(triggers: map<Key, Sub>, count: int, live: set<Sub>, serial: nat)

  // ---------------------------------------------------------------------------------------------
  // The actor
  // ---------------------------------------------------------------------------------------------

  datatype Request =
    | AddTrigger(sub: Sub) | UpdateSubscription(sub: Sub) | GetSubscription(key: Key) | DeleteTrigger(key: Key)

  datatype Response = Response(ok: bool, sub: Option<Sub>)

  function Serve(c: Core, req: Request): (Core, Response) {
    match req
    case AddTrigger(sub) =>
      if sub.key in c.triggers then (c, Response(false, None))
      else (c.(triggers := c.triggers[sub.key := sub], count := c.count + 1), Response(true, None))
    case UpdateSubscription(sub) =>
      if sub.key in c.triggers then (c.(triggers := c.triggers[sub.key := sub]), Response(true, None))
      else (c, Response(false, None))
    case GetSubscription(key) =>
      if key in c.triggers then (c, Response(true, Some(c.triggers[key]))) else (c, Response(false, None))
    case DeleteTrigger(key) =>
      (c.(triggers := c.triggers - {key}, count := c.count - 1), Response(true, None))
  }

  /** The actor replaces a record only on an update, and updates only what is recorded. */
  lemma RecordsAreGuarded(c: Core, sub: Sub)
    ensures var (d, r) := Serve(c, AddTrigger(sub)); r.ok <==> sub.key !in c.triggers
    ensures var (d, r) := Serve(c, AddTrigger(sub)); !r.ok ==> d == c
    ensures var (d, r) := Serve(c, UpdateSubscription(sub)); r.ok <==> sub.key in c.triggers
    ensures var (d, r) := Serve(c, UpdateSubscription(sub)); !r.ok ==> d == c
  {
  }

  // ---------------------------------------------------------------------------------------------
  // The message queue
  // ---------------------------------------------------------------------------------------------

  datatype SubscribeAnswer = Subscribed | SubscribeFails | SubscribeNil

  /** A failing unsubscribe may or may not have ended the consumer. */
  datatype UnsubscribeAnswer = Ended | FailsAlive | FailsEnded

  datatype Answers = Answers(subscribe: SubscribeAnswer, unsubscribe: UnsubscribeAnswer)

  function Subscribe(c: Core, key: Key, a: SubscribeAnswer): (Core, Option<Sub>) {
    if a.Subscribed? then (c.(live := c.live + {Sub(key, c.serial)}, serial := c.serial + 1), Some(Sub(key, c.serial)))
    else (c, None)
  }

  function Unsubscribe(c: Core, sub: Sub, a: UnsubscribeAnswer): Core {
    if a.FailsAlive? then c else c.(live := c.live - {sub})
  }

  // ---------------------------------------------------------------------------------------------
  // Reconciles as interleaved steps
  // ---------------------------------------------------------------------------------------------

  datatype Work = Register | Release

  datatype Outcome = Fresh | Registered | Released | Failed

  /** Where the reconcile of a key stands: before which request or call, or finished. */
  datatype Pc =
    | Idle(outcome: Outcome)
    | Checking
    | UpdateGet | UpdateUnsubscribe(sub: Sub) | Resubscribe | UpdateStore(sub: Sub)
    | Subscribing | Adding(sub: Sub) | RollingBack(sub: Sub)
    | ReleaseGet | ReleaseUnsubscribe(sub: Sub) | ReleaseDelete

  datatype State = State(core: Core, pcs: map<Key, Pc>) {
    function At(k: Key): Pc {
      if k in pcs then pcs[k] else Idle(Fresh)
    }
  }

  /** One request or call of the reconcile of `k`. */
  function Advance(c: Core, k: Key, pc: Pc, a: Answers): (Core, Pc) {
    match pc
    case Idle(_) => (c, pc)
    case Checking =>
      if Serve(c, GetSubscription(k)).1.sub.Some? then (c, UpdateGet) else (c, Subscribing)
    case UpdateGet =>
      var r := Serve(c, GetSubscription(k)).1.sub;
      if r.Some? then (c, UpdateUnsubscribe(r.value)) else (c, Idle(Failed))
    case UpdateUnsubscribe(sub) =>
      (Unsubscribe(c, sub, a.unsubscribe), if a.unsubscribe.Ended? then Resubscribe else Idle(Failed))
    case Resubscribe =>
      var (d, sub) := Subscribe(c, k, a.subscribe);
      (d, if sub.Some? then UpdateStore(sub.value) else Idle(Failed))
    case UpdateStore(sub) =>
      var (d, r) := Serve(c, UpdateSubscription(sub));
      (d, Idle(if r.ok then Registered else Failed))
    case Subscribing =>
      var (d, sub) := Subscribe(c, k, a.subscribe);
      (d, if sub.Some? then Adding(sub.value) else Idle(Failed))
    case Adding(sub) =>
      var (d, r) := Serve(c, AddTrigger(sub));
      (d, if r.ok then Idle(Registered) else RollingBack(sub))
    case RollingBack(sub) => (Unsubscribe(c, sub, a.unsubscribe), Idle(Failed))
    case ReleaseGet =>
      var r := Serve(c, GetSubscription(k)).1.sub;
      (c, if r.Some? then ReleaseUnsubscribe(r.value) else Idle(Released))
    case ReleaseUnsubscribe(sub) =>
      (Unsubscribe(c, sub, a.unsubscribe), if a.unsubscribe.Ended? then ReleaseDelete else Idle(Failed))
    case ReleaseDelete => (Serve(c, DeleteTrigger(k)).0, Idle(Released))
  }

  datatype Action = Begin(key: Key, work: Work) | Step(key: Key, answers: Answers)

  /** A key whose reconcile is under way takes no second one. */
  function Next(s: State, a: Action): State {
    match a
    case Begin(k, work) =>
      if s.At(k).Idle? then s.(pcs := s.pcs[k := if work.Register? then Checking else ReleaseGet]) else s
    case Step(k, answers) =>
      var (core, pc) := Advance(s.core, k, s.At(k), answers);
      State(core, s.pcs[k := pc])
  }

  function Run(s: State, actions: seq<Action>): State
    decreases |actions|
  {
    if actions == [] then s else Run(Next(s, actions[0]), actions[1..])
  }

  const START := State(Core(map[], 0, {}, 0), map[])

  // ---------------------------------------------------------------------------------------------
  // The invariant
  // ---------------------------------------------------------------------------------------------

  /** The live consumers of a trigger are at most this one. */
  predicate OnlyLive(c: Core, k: Key, only: Option<Sub>) {
    forall sub <- c.live :: sub.key == k ==> only == Some(sub)
  }

  function Recorded(c: Core, k: Key): Option<Sub> {
    if k in c.triggers then Some(c.triggers[k]) else None
  }

  predicate Holds(c: Core, k: Key, sub: Sub) {
    sub in c.live && sub.key == k
  }

  /** What the reconcile of `k` may rely on at each point. */
  predicate KeyInv(c: Core, k: Key, pc: Pc) {
    && (k in c.triggers ==> c.triggers[k].key == k && c.triggers[k].serial < c.serial)
    && match pc
       case Idle(outcome) =>
         && OnlyLive(c, k, Recorded(c, k))
         && (outcome.Registered? ==> k in c.triggers && Holds(c, k, c.triggers[k]))
         && ((outcome.Released? || outcome.Fresh?) ==> k !in c.triggers)
       case Checking | ReleaseGet => OnlyLive(c, k, Recorded(c, k))
       case UpdateGet => k in c.triggers && OnlyLive(c, k, Recorded(c, k))
       case UpdateUnsubscribe(sub) => Recorded(c, k) == Some(sub) && OnlyLive(c, k, Some(sub))
       case Resubscribe => k in c.triggers && OnlyLive(c, k, None)
       case UpdateStore(sub) => k in c.triggers && Holds(c, k, sub) && sub.serial < c.serial &&
           OnlyLive(c, k, Some(sub))
       case Subscribing => k !in c.triggers && OnlyLive(c, k, None)
       case Adding(sub) => k !in c.triggers && Holds(c, k, sub) && sub.serial < c.serial && OnlyLive(c, k, Some(sub))
       case RollingBack(_) => false
       case ReleaseUnsubscribe(sub) => Recorded(c, k) == Some(sub) && OnlyLive(c, k, Some(sub))
       case ReleaseDelete => k in c.triggers && OnlyLive(c, k, None)
  }

  ghost predicate Inv(s: State) {
    s.core.count == |s.core.triggers| && forall k: Key :: KeyInv(s.core, k, s.At(k))
  }

  /** A step touches its own trigger's record and consumers and nobody else's. */
  predicate Apart(c: Core, d: Core, k: Key) {
    && c.serial <= d.serial
    && (forall j <- c.triggers :: j != k ==> j in d.triggers && d.triggers[j] == c.triggers[j])
    && (forall j <- d.triggers :: j != k ==> j in c.triggers)
    && (forall sub <- c.live + d.live :: sub.key != k ==> (sub in c.live <==> sub in d.live))
  }

  lemma AdvanceApart(c: Core, k: Key, pc: Pc, a: Answers)
    requires KeyInv(c, k, pc)
    ensures Apart(c, Advance(c, k, pc, a).0, k)
  {
  }

  lemma AdvanceKeepsOwn(c: Core, k: Key, pc: Pc, a: Answers)
    requires KeyInv(c, k, pc)
    ensures var (d, next) := Advance(c, k, pc, a); KeyInv(d, k, next)
  {
  }

  lemma AdvanceKeepsCount(c: Core, k: Key, pc: Pc, a: Answers)
    requires KeyInv(c, k, pc) && c.count == |c.triggers|
    ensures var d := Advance(c, k, pc, a).0; d.count == |d.triggers|
  {
    if pc.ReleaseDelete? { OneLess(c.triggers, k); }
    if pc.Adding? || pc.UpdateStore? { OneSet(c.triggers, k, pc.sub); }
  }

  lemma OneLess(m: map<Key, Sub>, k: Key)
    requires k in m
    ensures |m - {k}| == |m| - 1
  {
    assert (m - {k}).Keys == m.Keys - {k};
    assert |m| == |m.Keys| && |m - {k}| == |(m - {k}).Keys|;
  }

  lemma OneSet(m: map<Key, Sub>, k: Key, sub: Sub)
    ensures |m[k := sub]| == if k in m then |m| else |m| + 1
  {
    assert m[k := sub].Keys == m.Keys + {k};
    assert |m| == |m.Keys| && |m[k := sub]| == |m[k := sub].Keys|;
  }

  lemma ApartKeepsOther(c: Core, d: Core, k: Key, j: Key, pc: Pc)
    requires Apart(c, d, k) && j != k && KeyInv(c, j, pc)
    ensures KeyInv(d, j, pc)
  {
    assert Recorded(c, j) == Recorded(d, j);
    forall sub <- d.live | sub.key == j ensures sub in c.live { assert sub in c.live + d.live; }
    forall sub <- c.live | sub.key == j ensures sub in d.live { assert sub in c.live + d.live; }
  }

  lemma NextKeeps(s: State, a: Action)
    requires Inv(s)
    ensures Inv(Next(s, a))
  {
    var k, t := a.key, Next(s, a);
    assert KeyInv(s.core, k, s.At(k));
    match a {
      case Begin(_, _) =>
        forall j: Key ensures KeyInv(t.core, j, t.At(j)) { assert KeyInv(s.core, j, s.At(j)); }
      case Step(_, answers) =>
        AdvanceKeepsOwn(s.core, k, s.At(k), answers);
        AdvanceApart(s.core, k, s.At(k), answers);
        AdvanceKeepsCount(s.core, k, s.At(k), answers);
        forall j: Key ensures KeyInv(t.core, j, t.At(j)) {
          assert KeyInv(s.core, j, s.At(j));
          if j != k { ApartKeepsOther(s.core, t.core, k, j, s.At(j)); }
        }
    }
  }

  lemma {:induction false} RunKeeps(s: State, actions: seq<Action>)
    requires Inv(s)
    ensures Inv(Run(s, actions))
    decreases |actions|
  {
    if actions != [] {
      NextKeeps(s, actions[0]);
      RunKeeps(Next(s, actions[0]), actions[1..]);
    }
  }

  /**
   * In every interleaving, from the empty manager: the count is the number of recorded
   * subscriptions; between reconciles of a trigger its only live consumer is the recorded one; a
   * reconcile that returned nil leaves the recorded consumer alive, or nothing at all when it
   * released; and the actor never refuses an add or an update, so the roll-back is never entered.
   */
  lemma SubscriptionsAreRecorded(actions: seq<Action>, k: Key)
    ensures var s := Run(START, actions);
            var c, pc := s.core, s.At(k);
            && c.count == |c.triggers|
            && (pc.Idle? ==> forall sub <- c.live :: sub.key == k ==> k in c.triggers && c.triggers[k] == sub)
            && (pc == Idle(Registered) ==> k in c.triggers && Holds(c, k, c.triggers[k]))
            && (pc == Idle(Released) ==> k !in c.triggers && forall sub <- c.live :: sub.key != k)
            && !pc.RollingBack?
            && (pc.Adding? ==> k !in c.triggers)
            && (pc.UpdateGet? || pc.UpdateStore? || pc.ReleaseDelete? ==> k in c.triggers)
  {
    RunKeeps(START, actions);
    var s := Run(START, actions);
    assert KeyInv(s.core, k, s.At(k));
  }

  // ---------------------------------------------------------------------------------------------
  // One reconcile on its own
  // ---------------------------------------------------------------------------------------------

  const KEDA := "keda"

  datatype Trigger = Trigger(kind: string, queueType: string)

  /** What the cached client answers. */
  datatype Lookup = Missing | LookupFails | Found(trigger: Trigger)

  predicate Owns(queueType: string, t: Trigger) {
    t.kind != KEDA && t.queueType == queueType
  }

  function Needed(queueType: string, found: Lookup): Option<Work> {
    match found
    case Missing => Some(Release)
    case LookupFails => None
    case Found(t) => Some(if Owns(queueType, t) then Register else Release)
  }

  /** How many more steps the reconcile can take. */
  function Left(pc: Pc): nat {
    match pc
    case Idle(_) => 0
    case Checking => 6
    case UpdateGet => 5
    case UpdateUnsubscribe(_) | Subscribing | ReleaseGet => 4
    case Resubscribe | Adding(_) | ReleaseUnsubscribe(_) => 3
    case UpdateStore(_) | RollingBack(_) | ReleaseDelete => 2
  }

  /** The reconcile of `k` carried through with nothing in between. */
  function Finish(c: Core, k: Key, pc: Pc, a: Answers): (Core, Outcome)
    decreases Left(pc)
  {
    if pc.Idle? then (c, pc.outcome)
    else
      var (d, next) := Advance(c, k, pc, a);
      Finish(d, k, next, a)
  }

  function First(work: Work): Pc {
    if work.Register? then Checking else ReleaseGet
  }

  function Steps(k: Key, a: Answers, n: nat): seq<Action> {
    if n == 0 then [] else [Step(k, a)] + Steps(k, a, n - 1)
  }

  lemma {:induction false} StepsFinish(s: State, k: Key, a: Answers, n: nat)
    requires k in s.pcs && Left(s.pcs[k]) <= n
    ensures var (c, outcome) := Finish(s.core, k, s.pcs[k], a);
            Run(s, Steps(k, a, n)) == State(c, s.pcs[k := Idle(outcome)])
    decreases n
  {
    if n > 0 {
      assert Steps(k, a, n)[1..] == Steps(k, a, n - 1);
      var t := Next(s, Step(k, a));
      StepsFinish(t, k, a, n - 1);
      assert t.pcs[k := Idle(Finish(t.core, k, t.pcs[k], a).1)] == s.pcs[k := Idle(Finish(t.core, k, t.pcs[k], a).1)];
    } else {
      assert s.pcs[k := s.pcs[k]] == s.pcs;
    }
  }

  /** A reconcile carried through at once is one of the interleavings. */
  lemma ReconcileIsARun(s: State, k: Key, work: Work, a: Answers, n: nat)
    requires s.At(k).Idle? && n >= 6
    ensures var (c, outcome) := Finish(s.core, k, First(work), a);
            Run(s, [Begin(k, work)] + Steps(k, a, n)) == State(c, s.pcs[k := Idle(outcome)])
  {
    var t, steps := State(s.core, s.pcs[k := First(work)]), Steps(k, a, n);
    RunCons(s, Begin(k, work), steps);
    StepsFinish(t, k, a, n);
    Overwrite(s.pcs, k, First(work), Idle(Finish(s.core, k, First(work), a).1));
  }

  lemma RunCons(s: State, a: Action, rest: seq<Action>)
    ensures Run(s, [a] + rest) == Run(Next(s, a), rest)
  {
    assert ([a] + rest)[1..] == rest;
  }

  lemma Overwrite(pcs: map<Key, Pc>, k: Key, a: Pc, b: Pc)
    ensures pcs[k := a][k := b] == pcs[k := b]
  {
  }

  /** No reconcile under way: the count is right and live consumers are the recorded ones. */
  ghost predicate Quiet(c: Core) {
    c.count == |c.triggers| && forall k: Key :: KeyInv(c, k, Idle(Failed))
  }

  /** Whatever the message queue answers, a reconcile started in a quiet state ends in one. */
  lemma ReconcileMeans(c: Core, k: Key, work: Work, a: Answers)
    requires Quiet(c)
    ensures var (d, outcome) := Finish(c, k, First(work), a);
            && Quiet(d)
            && (outcome.Registered? ==> k in d.triggers && Holds(d, k, d.triggers[k]))
            && (outcome.Released? ==> k !in d.triggers && OnlyLive(d, k, None))
            && (outcome.Failed? || outcome == if work.Register? then Registered else Released)
            && (a == Answers(Subscribed, Ended) ==> !outcome.Failed?)
  {
    assert KeyInv(c, k, Idle(Failed));
    FinishDecides(c, k, First(work), a);
    FinishKeeps(c, k, First(work), a);
    var d := Finish(c, k, First(work), a).0;
    forall j: Key ensures KeyInv(d, j, Idle(Failed)) {
      assert KeyInv(c, j, Idle(Failed));
      if j != k { ApartKeepsOther(c, d, k, j, Idle(Failed)); }
    }
  }

  /** The trigger is this head's: of its queue type, and not one that KEDA scales. */
  predicate Mine(queueType: string, found: Lookup) {
    found.Found? && found.trigger.queueType == queueType && found.trigger.kind != "keda"
  }

  /** A missing, foreign or KEDA trigger ends released, one's own registered, unless the message queue fails. */
  lemma ReconcileEnds(c: Core, k: Key, queueType: string, found: Lookup, a: Answers)
    requires Quiet(c) && Needed(queueType, found).Some?
    ensures !found.LookupFails?
    ensures var (d, outcome) := Finish(c, k, First(Needed(queueType, found).value), a);
            && Quiet(d) && Apart(c, d, k)
            && (outcome.Registered? ==> Mine(queueType, found) && k in d.triggers && Holds(d, k, d.triggers[k]))
            && (outcome.Released? ==> !Mine(queueType, found) && k !in d.triggers && OnlyLive(d, k, None))
            && (outcome.Registered? || outcome.Released? || outcome.Failed?)
            && (a == Answers(Subscribed, Ended) ==> !outcome.Failed?)
  {
    var work := Needed(queueType, found).value;
    ReconcileMeans(c, k, work, a);
    assert KeyInv(c, k, Idle(Failed));
    FinishKeeps(c, k, First(work), a);
  }

  lemma {:induction false} FinishKeeps(c: Core, k: Key, pc: Pc, a: Answers)
    requires KeyInv(c, k, pc) && c.count == |c.triggers|
    ensures var (d, outcome) := Finish(c, k, pc, a);
            KeyInv(d, k, Idle(outcome)) && d.count == |d.triggers| && Apart(c, d, k)
    decreases Left(pc)
  {
    if !pc.Idle? {
      var (d, next) := Advance(c, k, pc, a);
      AdvanceKeepsOwn(c, k, pc, a);
      AdvanceApart(c, k, pc, a);
      AdvanceKeepsCount(c, k, pc, a);
      FinishKeeps(d, k, next, a);
      ApartTransitive(c, d, Finish(d, k, next, a).0, k);
    }
  }

  lemma {:induction false} FinishDecides(c: Core, k: Key, pc: Pc, a: Answers)
    requires KeyInv(c, k, pc) && !pc.Idle?
    ensures var outcome, releasing :=
            Finish(c, k, pc, a).1, pc.ReleaseGet? || pc.ReleaseUnsubscribe? || pc.ReleaseDelete?;
            && (outcome == Failed || outcome == if releasing then Released else Registered)
            && (a == Answers(Subscribed, Ended) ==> outcome != Failed)
    decreases Left(pc)
  {
    var (d, next) := Advance(c, k, pc, a);
    AdvanceKeepsOwn(c, k, pc, a);
    if !next.Idle? { FinishDecides(d, k, next, a); }
  }

  lemma ApartTransitive(a: Core, b: Core, c: Core, k: Key)
    requires Apart(a, b, k) && Apart(b, c, k)
    ensures Apart(a, c, k)
  {
    forall sub <- a.live + c.live | sub.key != k ensures sub in a.live <==> sub in c.live {
      assert sub in a.live ==> sub in a.live + b.live;
      assert sub in c.live ==> sub in b.live + c.live;
      assert sub in b.live ==> sub in a.live + b.live && sub in b.live + c.live;
    }
  }

  class Manager {
    var triggers: map<Key, Sub>
    var count: int
    var live: set<Sub>
    var serial: nat

    function Now(): Core
      reads this
    {
      Core(triggers, count, live, serial)
    }

    constructor ()
      ensures Now() == START.core
    {
      triggers, count, live, serial := map[], 0, {}, 0;
    }

    /** One turn of the actor. */
    method Request(req: Request) returns (resp: Response)
      modifies this
      ensures (Now(), resp) == Serve(old(Now()), req)
    {
      resp := Response(true, None);
      match req {
        case AddTrigger(sub) =>
          if sub.key in triggers {
            resp := Response(false, None);
          } else {
            triggers := triggers[sub.key := sub];
            count := count + 1;
          }
        case UpdateSubscription(sub) =>
          if sub.key in triggers {
            triggers := triggers[sub.key := sub];
          } else {
            resp := Response(false, None);
          }
        case GetSubscription(key) =>
          if key in triggers {
            resp := Response(true, Some(triggers[key]));
          } else {
            resp := Response(false, None);
          }
        case DeleteTrigger(key) =>
          triggers := triggers - {key};
          count := count - 1;
      }
    }

    method CallSubscribe(k: Key, a: SubscribeAnswer) returns (sub: Option<Sub>)
      modifies this
      ensures (Now(), sub) == Subscribe(old(Now()), k, a)
    {
      if !a.Subscribed? {
        return None;
      }
      sub := Some(Sub(k, serial));
      live := live + {Sub(k, serial)};
      serial := serial + 1;
    }

    method CallUnsubscribe(sub: Sub, a: UnsubscribeAnswer) returns (ok: bool)
      modifies this
      ensures Now() == Unsubscribe(old(Now()), sub, a) && ok == a.Ended?
    {
      if !a.FailsAlive? {
        live := live - {sub};
      }
      return a.Ended?;
    }

    method UpdateTrigger(k: Key, a: Answers) returns (outcome: Outcome)
      modifies this
      ensures (Now(), outcome) == Finish(old(Now()), k, UpdateGet, a)
    {
      var found := Request(GetSubscription(k));
      if found.sub.None? {
        return Failed;
      }
      var ok := CallUnsubscribe(found.sub.value, a.unsubscribe);
      if !ok {
        return Failed;
      }
      assert Finish(old(Now()), k, UpdateGet, a) == Finish(Now(), k, Resubscribe, a);
      var sub := CallSubscribe(k, a.subscribe);
      if sub.None? {
        return Failed;
      }
      var stored := Request(UpdateSubscription(sub.value));
      return if stored.ok then Registered else Failed;
    }

    method RegisterTrigger(k: Key, a: Answers) returns (outcome: Outcome)
      modifies this
      ensures (Now(), outcome) == Finish(old(Now()), k, Checking, a)
    {
      var found := Request(GetSubscription(k));
      if found.sub.Some? {
        outcome := UpdateTrigger(k, a);
        return;
      }
      var sub := CallSubscribe(k, a.subscribe);
      if sub.None? {
        return Failed;
      }
      var added := Request(AddTrigger(sub.value));
      if !added.ok {
        var _ := CallUnsubscribe(sub.value, a.unsubscribe);
        return Failed;
      }
      return Registered;
    }

    method ReleaseTrigger(k: Key, a: Answers) returns (removed: bool, outcome: Outcome)
      modifies this
      ensures (Now(), outcome) == Finish(old(Now()), k, ReleaseGet, a)
      ensures removed <==> outcome.Released? && k in old(triggers)
    {
      var found := Request(GetSubscription(k));
      if found.sub.None? {
        return false, Released;
      }
      var ok := CallUnsubscribe(found.sub.value, a.unsubscribe);
      if !ok {
        return false, Failed;
      }
      var _ := Request(DeleteTrigger(k));
      return true, Released;
    }

    method Reconcile(k: Key, queueType: string, found: Lookup, a: Answers) returns (outcome: Outcome)
      modifies this
      ensures var work := Needed(queueType, found);
              (Now(), outcome) ==
              if work.None? then (old(Now()), Failed) else Finish(old(Now()), k, First(work.value), a)
      ensures old(Quiet(Now())) ==> Quiet(Now()) && Apart(old(Now()), Now(), k)
      ensures found.LookupFails? ==> outcome.Failed? && Now() == old(Now())
      ensures old(Quiet(Now())) && outcome.Registered? ==>
                Mine(queueType, found) && k in triggers && Holds(Now(), k, triggers[k])
      ensures old(Quiet(Now())) && outcome.Released? ==>
                !Mine(queueType, found) && k !in triggers && OnlyLive(Now(), k, None)
      ensures old(Quiet(Now())) && !found.LookupFails? && a == Answers(Subscribed, Ended) ==>
                outcome.Registered? || outcome.Released?
    {
      if Quiet(Now()) && Needed(queueType, found).Some? { ReconcileEnds(Now(), k, queueType, found, a); }
      match found {
        case LookupFails =>
          return Failed;
        case Missing =>
          var _, released := ReleaseTrigger(k, a);
          return released;
        case Found(t) =>
          if Owns(queueType, t) {
            outcome := RegisterTrigger(k, a);
          } else {
            var _, released := ReleaseTrigger(k, a);
            return released;
          }
      }
    }
  }
}
