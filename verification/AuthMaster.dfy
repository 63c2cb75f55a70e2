/**
 * Provisioning of the internal-auth master by concurrent pre-upgrade hook runs.
 *
 * Every run scans its ordered namespace list for an existing master, mints one when it finds none,
 * and creates the Secret where it is absent, adopting the winner when a create is lost. A run
 * advances by single API calls; the runs interleave freely over one store that holds, per
 * namespace, the value of the Secret's key. An empty value stands for a Secret that exists but
 * carries no usable key.
 */
module AuthMaster {
  import opened Common

  const PROVISION_ATTEMPTS: nat := 3

  /** 32 random bytes in unpadded base64. */
  const MASTER_LENGTH: nat := 43

  type Minted = b: Bytes | |b| == MASTER_LENGTH witness seq(MASTER_LENGTH, _ => 65)

  type Secrets = map<string, Bytes>

  datatype Outcome = Provisioned | Disagreement | KeylessSecret | ApiFailure

  datatype Phase =
    | Scan(i: nat)                    // about to Get namespaces[i]
    | Write(i: nat, master: Bytes)    // about to Create in namespaces[i]
    | Confirm(i: nat, master: Bytes)  // Create answered AlreadyExists; about to Get namespaces[i]
    | Done(outcome: Outcome)

  datatype Hook = Hook(namespaces: seq<string>, attempt: nat, phase: Phase)

  /** A failed Create may or may not have reached the store. */
  datatype Reply = Served | Failed | AppliedThenFailed

  datatype Action = Action(hook: nat, reply: Reply, minted: Minted)

  datatype Cluster = Cluster(secrets: Secrets, hooks: map<nat, Hook>)

  function Begin(namespaces: seq<string>): Hook {
    Hook(namespaces, 0, if namespaces == [] then Done(Provisioned) else Scan(0))
  }

  /** One step of a run: at most one API call. Blank namespaces are skipped. */
  function Advance(secrets: Secrets, h: Hook, reply: Reply, minted: Minted): (Secrets, Hook) {
    match h.phase
    case Done(_) => (secrets, h)
    case Scan(i) =>
      if i >= |h.namespaces| then
        (secrets, h.(phase := if reply.Served? then Write(0, minted) else Done(ApiFailure)))
      else
        var ns := h.namespaces[i];
        if ns == "" then (secrets, h.(phase := Scan(i + 1)))
        else if !reply.Served? then (secrets, h.(phase := Done(ApiFailure)))
        else if ns !in secrets then (secrets, h.(phase := Scan(i + 1)))
        else if secrets[ns] == [] then (secrets, h.(phase := Done(KeylessSecret)))
        else (secrets, h.(phase := Write(0, secrets[ns])))
    case Write(i, master) =>
      if i >= |h.namespaces| then (secrets, h.(phase := Done(Provisioned)))
      else
        var ns := h.namespaces[i];
        if ns == "" then (secrets, h.(phase := Write(i + 1, master)))
        else if reply.Failed? then (secrets, h.(phase := Done(ApiFailure)))
        else
          var created := if ns in secrets then secrets else secrets[ns := master];
          if reply.AppliedThenFailed? then (created, h.(phase := Done(ApiFailure)))
          else (created, h.(phase := if ns in secrets then Confirm(i, master) else Write(i + 1, master)))
    case Confirm(i, master) =>
      if i >= |h.namespaces| || !reply.Served? || h.namespaces[i] !in secrets then
        (secrets, h.(phase := Done(ApiFailure)))
      else
        var live := secrets[h.namespaces[i]];
        if live == [] then (secrets, h.(phase := Done(KeylessSecret)))
        else if live == master then (secrets, h.(phase := Write(i + 1, master)))
        else if h.attempt + 1 < PROVISION_ATTEMPTS then
          (secrets, h.(attempt := h.attempt + 1, phase := Scan(0)))
        else (secrets, h.(phase := Done(Disagreement)))
  }

  function Next(c: Cluster, a: Action): Cluster {
    if a.hook !in c.hooks then c
    else
      var (secrets, hook) := Advance(c.secrets, c.hooks[a.hook], a.reply, a.minted);
      Cluster(secrets, c.hooks[a.hook := hook])
  }

  function Run(c: Cluster, actions: seq<Action>): Cluster
    decreases |actions|
  {
    if actions == [] then c else Run(Next(c, actions[0]), actions[1..])
  }

  predicate Fresh(c: Cluster) {
    forall k <- c.hooks :: c.hooks[k] == Begin(c.hooks[k].namespaces)
  }

  // ---------------------------------------------------------------------------------------------
  // Any start: a stored value never changes and a run that succeeds leaves one value everywhere.
  // ---------------------------------------------------------------------------------------------

  predicate Kept(before: Secrets, after: Secrets) {
    forall ns <- before :: ns in after && after[ns] == before[ns]
  }

  predicate Holds(secrets: Secrets, namespaces: seq<string>, master: Bytes) {
    forall ns <- namespaces :: ns != "" ==> ns in secrets && secrets[ns] == master
  }

  ghost predicate Uniform(secrets: Secrets, namespaces: seq<string>) {
    exists master: Bytes :: master != [] && Holds(secrets, namespaces, master)
  }

  ghost predicate HookValid(secrets: Secrets, h: Hook) {
    && h.attempt < PROVISION_ATTEMPTS
    && match h.phase
       case Scan(i) => i <= |h.namespaces|
       case Write(i, m) => m != [] && i <= |h.namespaces| && Holds(secrets, h.namespaces[..i], m)
       case Confirm(i, m) =>
         && m != [] && i < |h.namespaces| && Holds(secrets, h.namespaces[..i], m)
         && h.namespaces[i] != "" && h.namespaces[i] in secrets
       case Done(o) => o.Provisioned? ==> Uniform(secrets, h.namespaces)
  }

  ghost predicate Valid(c: Cluster) {
    forall k <- c.hooks :: HookValid(c.secrets, c.hooks[k])
  }

  lemma HookValidKept(before: Secrets, after: Secrets, h: Hook)
    requires Kept(before, after) && HookValid(before, h)
    ensures HookValid(after, h)
  {
    if h.phase == Done(Provisioned) {
      var m: Bytes :| m != [] && Holds(before, h.namespaces, m);
      assert Holds(after, h.namespaces, m);
    }
  }

  lemma HoldsMore(secrets: Secrets, namespaces: seq<string>, i: nat, master: Bytes)
    requires i < |namespaces| && Holds(secrets, namespaces[..i], master)
    requires namespaces[i] != "" ==> namespaces[i] in secrets && secrets[namespaces[i]] == master
    ensures Holds(secrets, namespaces[..i + 1], master)
  {
    assert namespaces[..i + 1] == namespaces[..i] + [namespaces[i]];
  }

  lemma AdvanceWriteValid(secrets: Secrets, h: Hook, reply: Reply, minted: Minted)
    requires HookValid(secrets, h) && h.phase.Write?
    ensures var (after, next) := Advance(secrets, h, reply, minted); Kept(secrets, after) && HookValid(after, next)
  {
    var i, m := h.phase.i, h.phase.master;
    if i == |h.namespaces| {
      assert h.namespaces[..i] == h.namespaces;
      assert Uniform(secrets, h.namespaces);
    } else {
      var ns := h.namespaces[i];
      if ns == "" {
        HoldsMore(secrets, h.namespaces, i, m);
      } else if ns !in secrets {
        HoldsMore(secrets[ns := m], h.namespaces, i, m);
      }
    }
  }

  lemma AdvanceValid(secrets: Secrets, h: Hook, reply: Reply, minted: Minted)
    requires HookValid(secrets, h)
    ensures Kept(secrets, Advance(secrets, h, reply, minted).0)
    ensures HookValid(Advance(secrets, h, reply, minted).0, Advance(secrets, h, reply, minted).1)
  {
    match h.phase
    case Write(_, _) => AdvanceWriteValid(secrets, h, reply, minted);
    case Confirm(i, m) =>
      if h.namespaces[i] in secrets && secrets[h.namespaces[i]] == m { HoldsMore(secrets, h.namespaces, i, m); }
    case _ =>
  }

  lemma NextValid(c: Cluster, a: Action)
    requires Valid(c)
    ensures Valid(Next(c, a)) && Kept(c.secrets, Next(c, a).secrets)
    ensures Next(c, a).hooks.Keys == c.hooks.Keys
    ensures forall k <- c.hooks :: Next(c, a).hooks[k].namespaces == c.hooks[k].namespaces
  {
    if a.hook in c.hooks {
      AdvanceValid(c.secrets, c.hooks[a.hook], a.reply, a.minted);
      forall k | k in c.hooks && k != a.hook
        ensures HookValid(Next(c, a).secrets, c.hooks[k])
      {
        HookValidKept(c.secrets, Next(c, a).secrets, c.hooks[k]);
      }
    }
  }

  lemma {:induction false} RunValid(c: Cluster, actions: seq<Action>)
    requires Valid(c)
    ensures Valid(Run(c, actions)) && Kept(c.secrets, Run(c, actions).secrets)
    ensures Run(c, actions).hooks.Keys == c.hooks.Keys
    ensures forall k <- c.hooks :: Run(c, actions).hooks[k].namespaces == c.hooks[k].namespaces
    decreases |actions|
  {
    if actions != [] {
      NextValid(c, actions[0]);
      RunValid(Next(c, actions[0]), actions[1..]);
    }
  }

  lemma FreshValid(c: Cluster)
    requires Fresh(c)
    ensures Valid(c)
  {
    forall k | k in c.hooks
      ensures HookValid(c.secrets, c.hooks[k])
    {
      var some: Minted := seq(MASTER_LENGTH, _ => 65);
      assert c.hooks[k].namespaces == [] ==> Holds(c.secrets, c.hooks[k].namespaces, some);
    }
  }

  lemma {:induction false} RunConcat(c: Cluster, first: seq<Action>, second: seq<Action>)
    ensures Run(c, first + second) == Run(Run(c, first), second)
    decreases |first|
  {
    if first == [] {
      assert first + second == second;
    } else {
      assert (first + second)[1..] == first[1..] + second;
      RunConcat(Next(c, first[0]), first[1..], second);
    }
  }

  /**
   * From any start, divergent ones included: whatever was stored is stored unchanged, and whenever
   * a run has reported success its namespaces hold one same non-empty value, then and at every
   * later moment.
   */
  lemma SuccessMeansOneValue(c: Cluster, actions: seq<Action>, later: seq<Action>, k: nat)
    requires Fresh(c) && k in c.hooks
    ensures Kept(c.secrets, Run(c, actions).secrets)
    ensures Kept(Run(c, actions).secrets, Run(c, actions + later).secrets)
    ensures k in Run(c, actions).hooks
    ensures Run(c, actions).hooks[k].phase == Done(Provisioned) ==>
              exists master: Bytes :: && master != []
                                      && Holds(Run(c, actions).secrets, c.hooks[k].namespaces, master)
                                      && Holds(Run(c, actions + later).secrets, c.hooks[k].namespaces, master)
  {
    FreshValid(c);
    RunValid(c, actions);
    RunValid(Run(c, actions), later);
    RunConcat(c, actions, later);
    var mid, end := Run(c, actions), Run(c, actions + later);
    if mid.hooks[k].phase == Done(Provisioned) {
      var master: Bytes :| master != [] && Holds(mid.secrets, mid.hooks[k].namespaces, master);
      assert Holds(end.secrets, c.hooks[k].namespaces, master);
    }
  }

  /** Two runs that succeed, at whatever moments, agree if their lists share a namespace. */
  lemma SuccessfulRunsAgree(c: Cluster, actions: seq<Action>, later: seq<Action>, j: nat, k: nat, ns: string)
    requires Fresh(c) && j in c.hooks && k in c.hooks
    requires ns != "" && ns in c.hooks[j].namespaces && ns in c.hooks[k].namespaces
    requires j in Run(c, actions).hooks && Run(c, actions).hooks[j].phase == Done(Provisioned)
    requires k in Run(c, actions + later).hooks && Run(c, actions + later).hooks[k].phase == Done(Provisioned)
    ensures Uniform(Run(c, actions + later).secrets, c.hooks[j].namespaces + c.hooks[k].namespaces)
  {
    SuccessMeansOneValue(c, actions, later, j);
    SuccessMeansOneValue(c, actions + later, [], k);
    assert actions + later + [] == actions + later;
    var end := Run(c, actions + later).secrets;
    var x: Bytes :| x != [] && Holds(end, c.hooks[j].namespaces, x);
    var y: Bytes :| y != [] && Holds(end, c.hooks[k].namespaces, y);
    assert Holds(end, c.hooks[j].namespaces, x);
    assert end[ns] == x;
    assert end[ns] == y;
    assert Holds(end, c.hooks[j].namespaces + c.hooks[k].namespaces, x);
  }

  // ---------------------------------------------------------------------------------------------
  // A consistent start stays consistent, and nobody loses more than one attempt.
  // ---------------------------------------------------------------------------------------------

  /** The first namespace from i on that is not blank; every create of a run goes through it first. */
  function First(namespaces: seq<string>, i: nat): (r: Option<string>)
    ensures r.Some? ==> r.value != "" && r.value in namespaces
    ensures r.None? <==> forall t | i <= t < |namespaces| :: namespaces[t] == ""
    decreases |namespaces| - i
  {
    if i >= |namespaces| then None
    else if namespaces[i] != "" then Some(namespaces[i]) else First(namespaces, i + 1)
  }

  predicate Listed(c: Cluster, ns: string) {
    ns != "" && exists k <- c.hooks :: ns in c.hooks[k].namespaces
  }

  /** No listed Secret is keyless and all listed masters are equal. */
  ghost predicate Consistent(c: Cluster) {
    && (forall ns | ns in c.secrets && Listed(c, ns) :: c.secrets[ns] != [])
    && (forall ns, ns' | ns in c.secrets && ns' in c.secrets && Listed(c, ns) && Listed(c, ns') ::
          c.secrets[ns] == c.secrets[ns'])
  }

  /** A listed namespace from i on has the Secret. */
  ghost predicate Populated(secrets: Secrets, namespaces: seq<string>, i: nat) {
    exists t | i <= t < |namespaces| :: Present(secrets, namespaces[t])
  }

  predicate Present(secrets: Secrets, ns: string) {
    ns != "" && ns in secrets
  }

  /**
   * What the lists must have in common: either no list holds a master yet and all lists begin with
   * the same namespace, or every list already reaches one. One list shared by all runs meets it.
   */
  ghost predicate Coordinated(c: Cluster) {
    || (&& (forall ns | ns in c.secrets :: !Listed(c, ns))
        && (forall j, k | j in c.hooks && k in c.hooks ::
              var f, g := First(c.hooks[j].namespaces, 0), First(c.hooks[k].namespaces, 0);
              f.Some? && g.Some? ==> f == g))
    || (forall k <- c.hooks :: First(c.hooks[k].namespaces, 0).Some? ==> Populated(c.secrets, c.hooks[k].namespaces, 0))
  }

  /** A run that has not been told otherwise carries, or will find, the value `v`. */
  ghost predicate Follows(secrets: Secrets, h: Hook, v: Bytes) {
    && h.attempt == 0
    && match h.phase
       case Scan(i) => i <= |h.namespaces| && Populated(secrets, h.namespaces, i)
       case Write(_, m) => m == v
       case Confirm(_, m) => m == v
       case Done(o) => o.Provisioned? || o.ApiFailure?
  }

  /** The anchored start: nothing is stored before the namespace `f` that every run writes first. */
  ghost predicate Anchored(secrets: Secrets, h: Hook, f: string) {
    && h.attempt <= 1
    && match h.phase
       case Scan(i) => i <= |h.namespaces| && (h.attempt == 1 ==> f in secrets && First(h.namespaces, i) == Some(f))
       case Write(i, m) => i <= |h.namespaces| && Committed(secrets, h, f, i, m)
       case Confirm(i, m) => i < |h.namespaces| && f in secrets && Committed(secrets, h, f, i, m)
       case Done(o) => o.Provisioned? || o.ApiFailure?
  }

  /** The run's value is the one at `f`, unless the run has yet to reach `f` in its first attempt. */
  ghost predicate Committed(secrets: Secrets, h: Hook, f: string, i: nat, m: Bytes)
    requires i <= |h.namespaces|
  {
    || (f in secrets && secrets[f] == m)
    || (h.attempt == 0 && First(h.namespaces, i) == Some(f))
  }

  ghost predicate AllAre(c: Cluster, v: Bytes) {
    v != [] && forall ns | ns in c.secrets && Listed(c, ns) :: c.secrets[ns] == v
  }

  ghost predicate FollowsAll(c: Cluster, v: Bytes) {
    && AllAre(c, v)
    && forall k <- c.hooks :: First(c.hooks[k].namespaces, 0).Some? ==> Follows(c.secrets, c.hooks[k], v)
  }

  ghost predicate AnchoredAll(c: Cluster, f: string) {
    && (forall ns | ns in c.secrets && Listed(c, ns) :: f in c.secrets)
    && (f in c.secrets ==> AllAre(c, c.secrets[f]))
    && (forall k <- c.hooks :: First(c.hooks[k].namespaces, 0).Some? ==>
          First(c.hooks[k].namespaces, 0) == Some(f) && Anchored(c.secrets, c.hooks[k], f))
  }

  /** A list of blanks makes a run that neither reads nor writes. */
  ghost predicate Idle(h: Hook) {
    && h.attempt == 0
    && (h.phase.Done? ==> h.phase.outcome.Provisioned? || h.phase.outcome.ApiFailure?)
    && !h.phase.Confirm?
  }

  ghost predicate Settled(c: Cluster) {
    && Valid(c)
    && (forall k <- c.hooks :: First(c.hooks[k].namespaces, 0).None? ==> Idle(c.hooks[k]))
    && ((exists v :: FollowsAll(c, v)) || (exists f :: AnchoredAll(c, f)))
  }

  lemma ListedByHook(c: Cluster, k: nat, i: nat)
    requires k in c.hooks && i < |c.hooks[k].namespaces| && c.hooks[k].namespaces[i] != ""
    ensures Listed(c, c.hooks[k].namespaces[i])
  {
  }

  lemma ListedSame(c: Cluster, a: Action)
    ensures forall ns :: Listed(Next(c, a), ns) <==> Listed(c, ns)
  {
    if a.hook in c.hooks {
      var d := Next(c, a);
      assert d.hooks[a.hook].namespaces == c.hooks[a.hook].namespaces;
      forall ns
        ensures Listed(d, ns) <==> Listed(c, ns)
      {
        if k :| k in c.hooks && ns in c.hooks[k].namespaces {
          assert ns in d.hooks[k].namespaces;
        }
        if k :| k in d.hooks && ns in d.hooks[k].namespaces {
          assert ns in c.hooks[k].namespaces;
        }
      }
    }
  }

  /** A run over blanks changes nothing. */
  lemma IdleStep(secrets: Secrets, h: Hook, reply: Reply, minted: Minted)
    requires First(h.namespaces, 0).None? && Idle(h)
    ensures Advance(secrets, h, reply, minted).0 == secrets && Idle(Advance(secrets, h, reply, minted).1)
  {
    assert forall i | 0 <= i < |h.namespaces| :: h.namespaces[i] in h.namespaces;
  }

  /** The stored values a run can come across are all `v`. */
  ghost predicate Sees(secrets: Secrets, h: Hook, v: Bytes) {
    forall i | 0 <= i < |h.namespaces| && h.namespaces[i] != "" &&
        h.namespaces[i] in secrets :: secrets[h.namespaces[i]] == v
  }

  ghost predicate Stores(secrets: Secrets, h: Hook, v: Bytes, after: Secrets) {
    || after == secrets
    || (&& h.phase.Write? && h.phase.i < |h.namespaces| && h.namespaces[h.phase.i] != ""
        && after == secrets[h.namespaces[h.phase.i] := v])
  }

  lemma FollowsMove(secrets: Secrets, h: Hook, reply: Reply, minted: Minted, v: Bytes)
    requires HookValid(secrets, h) && Follows(secrets, h, v) && Sees(secrets, h, v) && v != []
    ensures Follows(Advance(secrets, h, reply, minted).0, Advance(secrets, h, reply, minted).1, v)
    ensures Stores(secrets, h, v, Advance(secrets, h, reply, minted).0)
  {
  }

  lemma FollowsKept(before: Secrets, after: Secrets, h: Hook, v: Bytes)
    requires Kept(before, after) && Follows(before, h, v)
    ensures Follows(after, h, v)
  {
  }

  lemma SeesAll(c: Cluster, v: Bytes, k: nat)
    requires AllAre(c, v) && k in c.hooks
    ensures Sees(c.secrets, c.hooks[k], v)
  {
    forall i | 0 <= i < |c.hooks[k].namespaces| && c.hooks[k].namespaces[i] != ""
      ensures Listed(c, c.hooks[k].namespaces[i])
    {
      ListedByHook(c, k, i);
    }
  }

  lemma FollowsStep(c: Cluster, a: Action, v: Bytes)
    requires Valid(c) && FollowsAll(c, v) && a.hook in c.hooks
    requires First(c.hooks[a.hook].namespaces, 0).Some?
    ensures FollowsAll(Next(c, a), v)
  {
    var d := Next(c, a);
    ListedSame(c, a);
    NextValid(c, a);
    SeesAll(c, v, a.hook);
    FollowsMove(c.secrets, c.hooks[a.hook], a.reply, a.minted, v);
    forall k | k in c.hooks && k != a.hook && First(c.hooks[k].namespaces, 0).Some?
      ensures Follows(d.secrets, d.hooks[k], v)
    {
      FollowsKept(c.secrets, d.secrets, c.hooks[k], v);
    }
  }

  lemma AnchoredKept(before: Secrets, after: Secrets, h: Hook, f: string)
    requires Kept(before, after) && Anchored(before, h, f)
    ensures Anchored(after, h, f)
  {
  }

  /** What HookValid says about the run's next call. */
  ghost predicate Poised(secrets: Secrets, h: Hook) {
    && (h.phase.Write? ==> h.phase.master != [])
    && (h.phase.Confirm? ==>
        h.phase.i < |h.namespaces| && h.namespaces[h.phase.i] != "" && h.namespaces[h.phase.i] in secrets)
  }

  /** What the store shows a run before its next call: nothing listed, or the value at `f`. */
  ghost predicate Faces(secrets: Secrets, h: Hook, f: string) {
    && Poised(secrets, h) && Anchored(secrets, h, f) && First(h.namespaces, 0) == Some(f)
    && (f in secrets ==> secrets[f] != [] && Sees(secrets, h, secrets[f]))
    && (f !in secrets ==> forall i | 0 <= i < |h.namespaces| :: !Present(secrets, h.namespaces[i]))
  }

  lemma AnchoredScan(secrets: Secrets, h: Hook, reply: Reply, minted: Minted, f: string)
    requires Faces(secrets, h, f) && h.phase.Scan?
    ensures var (after, h') := Advance(secrets, h, reply, minted); after == secrets && Anchored(after, h', f)
  {
    var i := h.phase.i;
    assert i < |h.namespaces| && !Present(secrets, h.namespaces[i]) && h.attempt == 1 ==>
        First(h.namespaces, i + 1) == Some(f);
  }

  lemma AnchoredWrite(secrets: Secrets, h: Hook, reply: Reply, minted: Minted, f: string)
    requires Faces(secrets, h, f) && h.phase.Write?
    ensures var (after, h') := Advance(secrets, h, reply, minted);
            && Anchored(after, h', f)
            && (after != secrets ==> f in after && after[f] != [] && Stores(secrets, h, after[f], after))
  {
  }

  lemma AnchoredConfirm(secrets: Secrets, h: Hook, reply: Reply, minted: Minted, f: string)
    requires Faces(secrets, h, f) && h.phase.Confirm?
    ensures var (after, h') := Advance(secrets, h, reply, minted); after == secrets && Anchored(after, h', f)
  {
  }

  /** The run that moves stays anchored, and what it stores is what `f` then holds. */
  lemma AnchoredMove(secrets: Secrets, h: Hook, reply: Reply, minted: Minted, f: string)
    requires Faces(secrets, h, f)
    ensures var (after, h') := Advance(secrets, h, reply, minted);
            && Anchored(after, h', f)
            && (after != secrets ==> f in after && after[f] != [] && Stores(secrets, h, after[f], after))
  {
    match h.phase
    case Scan(_) => AnchoredScan(secrets, h, reply, minted, f);
    case Write(_, _) => AnchoredWrite(secrets, h, reply, minted, f);
    case Confirm(_, _) => AnchoredConfirm(secrets, h, reply, minted, f);
    case Done(_) =>
  }

  lemma AnchoredStep(c: Cluster, a: Action, f: string)
    requires Valid(c) && AnchoredAll(c, f) && a.hook in c.hooks
    requires First(c.hooks[a.hook].namespaces, 0).Some?
    ensures AnchoredAll(Next(c, a), f)
  {
    var d, h := Next(c, a), c.hooks[a.hook];
    forall i | 0 <= i < |h.namespaces| && h.namespaces[i] != ""
      ensures Listed(c, h.namespaces[i])
    {
      ListedByHook(c, a.hook, i);
    }
    ListedSame(c, a);
    NextValid(c, a);
    AnchoredMove(c.secrets, h, a.reply, a.minted, f);
    forall k | k in c.hooks && k != a.hook && First(c.hooks[k].namespaces, 0).Some?
      ensures Anchored(d.secrets, d.hooks[k], f)
    {
      AnchoredKept(c.secrets, d.secrets, c.hooks[k], f);
    }
  }

  lemma SettledStep(c: Cluster, a: Action)
    requires Settled(c)
    ensures Settled(Next(c, a))
  {
    NextValid(c, a);
    if a.hook in c.hooks {
      var idle := First(c.hooks[a.hook].namespaces, 0).None?;
      if idle {
        IdleStep(c.secrets, c.hooks[a.hook], a.reply, a.minted);
        ListedSame(c, a);
      }
      if v :| FollowsAll(c, v) {
        if !idle { FollowsStep(c, a, v); }
        assert FollowsAll(Next(c, a), v);
      } else {
        var f :| AnchoredAll(c, f);
        if !idle { AnchoredStep(c, a, f); }
        assert AnchoredAll(Next(c, a), f);
      }
    }
  }

  lemma {:induction false} SettledRun(c: Cluster, actions: seq<Action>)
    requires Settled(c)
    ensures Settled(Run(c, actions))
    decreases |actions|
  {
    if actions != [] {
      SettledStep(c, actions[0]);
      SettledRun(Next(c, actions[0]), actions[1..]);
    }
  }

  lemma FreshSettled(c: Cluster)
    requires Fresh(c) && Consistent(c) && Coordinated(c)
    ensures Settled(c)
  {
    FreshValid(c);
    if forall ns | ns in c.secrets :: !Listed(c, ns) {
      if k :| k in c.hooks && First(c.hooks[k].namespaces, 0).Some? && !Populated(c.secrets, c.hooks[k].namespaces, 0) {
        var f := First(c.hooks[k].namespaces, 0).value;
        assert Listed(c, f);
        assert AnchoredAll(c, f);
      } else {
        assert forall k <- c.hooks :: First(c.hooks[k].namespaces, 0).None?;
        assert FollowsAll(c, [0]);
      }
    } else {
      var ns :| ns in c.secrets && Listed(c, ns);
      assert FollowsAll(c, c.secrets[ns]);
    }
  }

  /**
   * However the single API calls of any number of runs interleave, and whichever of them fail, the
   * listed masters are equal at every moment, nobody loses a second attempt, and the only ways a
   * run can end are success and an API error.
   */
  lemma ConsistencyIsKept(c: Cluster, actions: seq<Action>)
    requires Fresh(c) && Consistent(c) && Coordinated(c)
    ensures Consistent(Run(c, actions))
    ensures Run(c, actions).hooks.Keys == c.hooks.Keys
    ensures forall k <- c.hooks ::
              && Run(c, actions).hooks[k].attempt <= 1
              && Run(c, actions).hooks[k].phase != Done(Disagreement)
              && Run(c, actions).hooks[k].phase != Done(KeylessSecret)
  {
    FreshSettled(c);
    SettledRun(c, actions);
    RunValid(c, actions);
    SettledIsConsistent(Run(c, actions));
    forall k <- c.hooks ensures Unharmed(Run(c, actions).hooks[k]) { SettledIsUnharmed(Run(c, actions), k); }
  }

  /** At most one attempt lost, and no end but success and an API error. */
  predicate Unharmed(h: Hook) {
    h.attempt <= 1 && h.phase != Done(Disagreement) && h.phase != Done(KeylessSecret)
  }

  lemma SettledIsConsistent(c: Cluster)
    requires Settled(c)
    ensures Consistent(c)
  {
    if v :| FollowsAll(c, v) {
      assert AllAre(c, v);
    } else {
      var f :| AnchoredAll(c, f);
      assert f in c.secrets ==> AllAre(c, c.secrets[f]);
    }
  }

  lemma SettledIsUnharmed(c: Cluster, k: nat)
    requires Settled(c) && k in c.hooks
    ensures Unharmed(c.hooks[k])
  {
    if First(c.hooks[k].namespaces, 0).Some? {
      if v :| FollowsAll(c, v) {
        assert Follows(c.secrets, c.hooks[k], v);
      } else {
        var f :| AnchoredAll(c, f);
        assert Anchored(c.secrets, c.hooks[k], f);
      }
    }
  }

  /** The hypothesis as the chart meets it: every run is given the same ordered list. */
  lemma SharedListIsCoordinated(c: Cluster, list: seq<string>)
    requires Fresh(c) && (forall k <- c.hooks :: c.hooks[k].namespaces == list)
    ensures Coordinated(c)
  {
    if ns :| ns in c.secrets && Listed(c, ns) {
      assert Populated(c.secrets, list, 0);
    }
  }

  // ---------------------------------------------------------------------------------------------
  // Coordination is also necessary: without it some interleaving stores two different masters.
  // ---------------------------------------------------------------------------------------------

  function Repeat(a: Action, n: nat): seq<Action> {
    seq(n, _ => a)
  }

  lemma RepeatOnce(c: Cluster, a: Action, n: nat)
    requires n > 0
    ensures Run(c, Repeat(a, n)) == Run(Next(c, a), Repeat(a, n - 1))
  {
    assert Repeat(a, n)[1..] == Repeat(a, n - 1);
  }

  /** A run that finds nothing mints its own value. */
  lemma {:induction false} ScanThrough(c: Cluster, a: Action)
    requires a.reply.Served? && a.hook in c.hooks && c.hooks[a.hook].phase.Scan?
    requires c.hooks[a.hook].phase.i <= |c.hooks[a.hook].namespaces|
    requires !Populated(c.secrets, c.hooks[a.hook].namespaces, 0)
    ensures var h := c.hooks[a.hook];
            Run(c, Repeat(a, |h.namespaces| - h.phase.i + 1)) ==
            c.(hooks := c.hooks[a.hook := h.(phase := Write(0, a.minted))])
    decreases |c.hooks[a.hook].namespaces| - c.hooks[a.hook].phase.i
  {
    var h := c.hooks[a.hook];
    RepeatOnce(c, a, |h.namespaces| - h.phase.i + 1);
    if h.phase.i < |h.namespaces| {
      ScanThrough(Next(c, a), a);
    }
  }

  /** A run that is writing stores its value in the first namespace if that is still free. */
  lemma {:induction false} WriteFirst(c: Cluster, a: Action, f: string) returns (n: nat)
    requires a.reply.Served? && a.hook in c.hooks && c.hooks[a.hook].phase.Write?
    requires c.hooks[a.hook].phase.i <= |c.hooks[a.hook].namespaces|
    requires First(c.hooks[a.hook].namespaces, c.hooks[a.hook].phase.i) == Some(f) && f !in c.secrets
    ensures Run(c, Repeat(a, n)).secrets == c.secrets[f := c.hooks[a.hook].phase.master]
    ensures forall k | k in c.hooks && k != a.hook ::
              k in Run(c, Repeat(a, n)).hooks && Run(c, Repeat(a, n)).hooks[k] == c.hooks[k]
    decreases |c.hooks[a.hook].namespaces| - c.hooks[a.hook].phase.i
  {
    var h := c.hooks[a.hook];
    if h.namespaces[h.phase.i] != "" {
      n := 1;
    } else {
      n := WriteFirst(Next(c, a), a, f);
      n := n + 1;
    }
    RepeatOnce(c, a, n);
  }

  lemma OtherMaster(v: Bytes) returns (m: Minted)
    ensures m != v
  {
    m := seq(MASTER_LENGTH, _ => 65);
    if m == v {
      m := seq(MASTER_LENGTH, _ => 66);
      assert m[0] != v[0];
    }
  }

  /** Two stored listed values that differ. */
  lemma Split(c: Cluster, ns: string, ns': string)
    requires Listed(c, ns) && Listed(c, ns') && ns in c.secrets && ns' in c.secrets && c.secrets[ns] != c.secrets[ns']
    ensures !Consistent(c)
  {
  }

  lemma {:induction false} ListedRun(c: Cluster, actions: seq<Action>, ns: string)
    ensures Listed(Run(c, actions), ns) <==> Listed(c, ns)
    decreases |actions|
  {
    if actions != [] {
      ListedSame(c, actions[0]);
      ListedRun(Next(c, actions[0]), actions[1..], ns);
    }
  }

  /** A run whose list reaches no master, while another list does, mints a second one. */
  lemma LateListSplits(c: Cluster, ns: string, q: nat) returns (actions: seq<Action>)
    requires Fresh(c) && ns in c.secrets && Listed(c, ns)
    requires q in c.hooks && First(c.hooks[q].namespaces, 0).Some? && !Populated(c.secrets, c.hooks[q].namespaces, 0)
    ensures !Consistent(Run(c, actions))
  {
    var list := c.hooks[q].namespaces;
    var g := First(list, 0).value;
    var m := OtherMaster(c.secrets[ns]);
    var a := Action(q, Served, m);
    var scan := Repeat(a, |list| + 1);
    ScanThrough(c, a);
    var n := WriteFirst(Run(c, scan), a, g);
    actions := scan + Repeat(a, n);
    RunConcat(c, scan, Repeat(a, n));
    assert Listed(c, g);
    ListedRun(c, actions, g);
    ListedRun(c, actions, ns);
    Split(Run(c, actions), g, ns);
  }

  /** Two runs that begin at different free namespaces each store their own master. */
  lemma DifferentFirstsSplit(c: Cluster, p: nat, q: nat) returns (actions: seq<Action>)
    requires Fresh(c) && forall ns | ns in c.secrets :: !Listed(c, ns)
    requires p in c.hooks && q in c.hooks
    requires First(c.hooks[p].namespaces, 0).Some? && First(c.hooks[q].namespaces, 0).Some?
    requires First(c.hooks[p].namespaces, 0) != First(c.hooks[q].namespaces, 0)
    ensures !Consistent(Run(c, actions))
  {
    var lp, lq := c.hooks[p].namespaces, c.hooks[q].namespaces;
    var f, g := First(lp, 0).value, First(lq, 0).value;
    assert Listed(c, f) && Listed(c, g);
    var x: Minted := seq(MASTER_LENGTH, _ => 65);
    var y := OtherMaster(x);
    var a, b := Action(p, Served, x), Action(q, Served, y);
    var scanP, scanQ := Repeat(a, |lp| + 1), Repeat(b, |lq| + 1);
    ScanThrough(c, a);
    var c1 := Run(c, scanP);
    ScanThrough(c1, b);
    var c2 := Run(c1, scanQ);
    var n := WriteFirst(c2, a, f);
    var c3 := Run(c2, Repeat(a, n));
    var m := WriteFirst(c3, b, g);
    var c4 := Run(c3, Repeat(b, m));
    RunConcat(c, scanP, scanQ);
    RunConcat(c, scanP + scanQ, Repeat(a, n));
    RunConcat(c, scanP + scanQ + Repeat(a, n), Repeat(b, m));
    actions := scanP + scanQ + Repeat(a, n) + Repeat(b, m);
    ListedRun(c, actions, f);
    ListedRun(c, actions, g);
    Split(c4, f, g);
  }

  /** For runs that have not begun and a consistent store: consistency is kept exactly under coordination. */
  lemma ConsistencyExactlyWhenCoordinated(c: Cluster)
    requires Fresh(c) && Consistent(c)
    ensures Coordinated(c) <==> forall actions :: Consistent(Run(c, actions))
  {
    if Coordinated(c) {
      forall actions
        ensures Consistent(Run(c, actions))
      {
        ConsistencyIsKept(c, actions);
      }
    } else {
      var q :| q in c.hooks && First(c.hooks[q].namespaces, 0).Some? && !Populated(c.secrets, c.hooks[q].namespaces, 0);
      var bad: seq<Action>;
      if ns :| ns in c.secrets && Listed(c, ns) {
        bad := LateListSplits(c, ns, q);
      } else {
        var j, k :| j in c.hooks && k in c.hooks && First(c.hooks[j].namespaces, 0).Some? &&
                    First(c.hooks[k].namespaces, 0).Some? &&
                    First(c.hooks[j].namespaces, 0) != First(c.hooks[k].namespaces, 0);
        bad := DifferentFirstsSplit(c, j, k);
      }
      assert !Consistent(Run(c, bad));
    }
  }

  // ---------------------------------------------------------------------------------------------
  // Every run finishes.
  // ---------------------------------------------------------------------------------------------

  function Taken(actions: seq<Action>, k: nat): nat {
    if actions == [] then 0 else (if actions[0].hook == k then 1 else 0) + Taken(actions[1..], k)
  }

  /** An upper bound on the steps a run still has to take; zero exactly when it is done. */
  function Remaining(h: Hook): int {
    var n := |h.namespaces|;
    var round := if h.attempt == 0 then 6 * n + 6 else if h.attempt == 1 then 3 * n + 3 else 0;
    match h.phase
    case Scan(i) => round + (n - i) + 2 * n + 2
    case Write(i, _) => round + 2 * (n - i) + 1
    case Confirm(i, _) => round + 2 * (n - i)
    case Done(_) => 0
  }

  lemma AdvanceProgress(secrets: Secrets, h: Hook, reply: Reply, minted: Minted)
    requires HookValid(secrets, h)
    ensures Remaining(h) >= 0 && (Remaining(h) == 0 <==> h.phase.Done?)
    ensures !h.phase.Done? ==> Remaining(Advance(secrets, h, reply, minted).1) < Remaining(h)
  {
  }

  lemma {:induction false} RunProgress(c: Cluster, actions: seq<Action>, k: nat)
    requires Valid(c) && k in c.hooks
    ensures k in Run(c, actions).hooks
    ensures Run(c, actions).hooks[k].phase.Done? ||
            Remaining(Run(c, actions).hooks[k]) + Taken(actions, k) <= Remaining(c.hooks[k])
    ensures c.hooks[k].phase.Done? ==> Run(c, actions).hooks[k] == c.hooks[k]
    decreases |actions|
  {
    if actions != [] {
      NextValid(c, actions[0]);
      RunProgress(Next(c, actions[0]), actions[1..], k);
      AdvanceProgress(c.secrets, c.hooks[k], actions[0].reply, actions[0].minted);
    }
  }

  ghost predicate AllServed(actions: seq<Action>, k: nat) {
    forall a <- actions :: a.hook == k ==> a.reply.Served?
  }

  lemma {:induction false} ServedNeverFails(c: Cluster, actions: seq<Action>, k: nat)
    requires Valid(c) && k in c.hooks && AllServed(actions, k) && c.hooks[k].phase != Done(ApiFailure)
    ensures k in Run(c, actions).hooks && Run(c, actions).hooks[k].phase != Done(ApiFailure)
    decreases |actions|
  {
    if actions != [] {
      NextValid(c, actions[0]);
      assert actions[0] in actions;
      ServedNeverFails(Next(c, actions[0]), actions[1..], k);
    }
  }

  /** A run makes at most three attempts, and gives up on disagreement in the third only. */
  lemma {:induction false} ThreeAttempts(c: Cluster, actions: seq<Action>, k: nat)
    requires k in c.hooks && WithinThree(c.hooks[k])
    ensures k in Run(c, actions).hooks && WithinThree(Run(c, actions).hooks[k])
    decreases |actions|
  {
    if actions != [] { ThreeAttempts(Next(c, actions[0]), actions[1..], k); }
  }

  predicate WithinThree(h: Hook) {
    h.attempt <= 2 && (h.phase == Done(Disagreement) ==> h.attempt == 2)
  }

  lemma {:induction false} EveryRunEnds(c: Cluster, actions: seq<Action>, k: nat)
    requires Fresh(c) && k in c.hooks
    requires Taken(actions, k) >= 9 * |c.hooks[k].namespaces| + 8
    ensures k in Run(c, actions).hooks && Run(c, actions).hooks[k].phase.Done?
  {
    FreshValid(c);
    RunProgress(c, actions, k);
    RunValid(c, actions);
    AdvanceProgress(Run(c, actions).secrets, Run(c, actions).hooks[k], Served, seq(MASTER_LENGTH, _ => 65));
  }

  lemma {:induction false} ServedRunSucceeds(c: Cluster, actions: seq<Action>, k: nat)
    requires Fresh(c) && k in c.hooks && Consistent(c) && Coordinated(c) && AllServed(actions, k)
    requires k in Run(c, actions).hooks && Run(c, actions).hooks[k].phase.Done?
    ensures Run(c, actions).hooks[k].phase == Done(Provisioned)
  {
    var outcome := Run(c, actions).hooks[k].phase.outcome;
    assert outcome != ApiFailure by {
      FreshValid(c);
      ServedNeverFails(c, actions, k);
    }
    assert outcome != Disagreement && outcome != KeylessSecret by {
      ConsistencyIsKept(c, actions);
    }
  }

  /**
   * A run that has taken 9n + 8 steps of its own, n the length of its list, is over, whatever the
   * others do; and from a consistent, coordinated start, if the API serves it, it has succeeded.
   */
  lemma {:induction false} EveryRunFinishes(c: Cluster, actions: seq<Action>, k: nat)
    requires Fresh(c) && k in c.hooks
    requires Taken(actions, k) >= 9 * |c.hooks[k].namespaces| + 8
    ensures k in Run(c, actions).hooks && Run(c, actions).hooks[k].phase.Done?
    ensures Consistent(c) && Coordinated(c) && AllServed(actions, k) ==>
            Run(c, actions).hooks[k].phase == Done(Provisioned)
  {
    EveryRunEnds(c, actions, k);
    if Consistent(c) && Coordinated(c) && AllServed(actions, k) {
      ServedRunSucceeds(c, actions, k);
    }
  }

  // ---------------------------------------------------------------------------------------------
  // The code itself, without interference. The API and the random source may fail at any call.
  // ---------------------------------------------------------------------------------------------

  /** What the environment answers at each step. */
  type Replies = nat -> Reply

  /** The steps of one run taken in a row, with the store and the outcome they end in. */
  ghost function Solo(secrets: Secrets, h: Hook, minted: Minted, replies: Replies, t: nat): (Secrets, Outcome)
    requires HookValid(secrets, h)
    decreases Remaining(h)
  {
    if h.phase.Done? then (secrets, h.phase.outcome)
    else
      AdvanceValid(secrets, h, replies(t), minted);
      AdvanceProgress(secrets, h, replies(t), minted);
      var (secrets', h') := Advance(secrets, h, replies(t), minted);
      AdvanceProgress(secrets', h', replies(t), minted);
      Solo(secrets', h', minted, replies, t + 1)
  }

  lemma SoloOnce(secrets: Secrets, h: Hook, minted: Minted, replies: Replies, t: nat)
    requires HookValid(secrets, h) && !h.phase.Done?
    ensures var (after, next) := Advance(secrets, h, replies(t), minted);
            && HookValid(after, next) && 0 <= Remaining(next) < Remaining(h)
            && Solo(secrets, h, minted, replies, t) == Solo(after, next, minted, replies, t + 1)
  {
    AdvanceValid(secrets, h, replies(t), minted);
    AdvanceProgress(secrets, h, replies(t), minted);
    var (after, next) := Advance(secrets, h, replies(t), minted);
    AdvanceProgress(after, next, replies(t), minted);
  }

  /** `n` steps of run `k` from time `t`. */
  function Steps(k: nat, minted: Minted, replies: Replies, t: nat, n: nat): seq<Action>
    decreases n
  {
    if n == 0 then [] else [Action(k, replies(t), minted)] + Steps(k, minted, replies, t + 1, n - 1)
  }

  lemma {:induction false} SoloIsARun(c: Cluster, k: nat, minted: Minted, replies: Replies, t: nat) returns (n: nat)
    requires Valid(c) && k in c.hooks
    ensures var end := Run(c, Steps(k, minted, replies, t, n));
            k in end.hooks && end.hooks[k].phase.Done? &&
            (end.secrets, end.hooks[k].phase.outcome) == Solo(c.secrets, c.hooks[k], minted, replies, t)
    decreases Remaining(c.hooks[k])
  {
    if c.hooks[k].phase.Done? {
      n := 0;
    } else {
      var a := Action(k, replies(t), minted);
      NextValid(c, a);
      SoloOnce(c.secrets, c.hooks[k], minted, replies, t);
      n := SoloIsARun(Next(c, a), k, minted, replies, t + 1);
      n := n + 1;
      assert Steps(k, minted, replies, t, n)[1..] == Steps(k, minted, replies, t + 1, n - 1);
    }
  }

  /** What one namespace of the write loop contributes. */
  lemma SoloWriteStep(secrets: Secrets, h: Hook, minted: Minted, replies: Replies, t: nat)
    requires HookValid(secrets, h) && h.phase.Write? && h.phase.i < |h.namespaces|
    ensures var ns, m, r := h.namespaces[h.phase.i], h.phase.master, Solo(secrets, h, minted, replies, t);
            var next := h.(phase := Write(h.phase.i + 1, m));
            if ns == "" then HookValid(secrets, next) && r == Solo(secrets, next, minted, replies, t + 1)
            else if replies(t).Failed? then r == (secrets, ApiFailure)
            else if ns !in secrets then
              if replies(t).Served?
              then HookValid(secrets[ns := m], next) && r == Solo(secrets[ns := m], next, minted, replies, t + 1)
              else r == (secrets[ns := m], ApiFailure)
            else if !replies(t).Served? || !replies(t + 1).Served? then r == (secrets, ApiFailure)
            else if secrets[ns] == m then HookValid(secrets, next) && r == Solo(secrets, next, minted, replies, t + 2)
            else if secrets[ns] == [] then r == (secrets, KeylessSecret)
            else if h.attempt + 1 < PROVISION_ATTEMPTS
            then r == Solo(secrets, Hook(h.namespaces, h.attempt + 1, Scan(0)), minted, replies, t + 2)
            else r == (secrets, Disagreement)
  {
    var ns := h.namespaces[h.phase.i];
    AdvanceValid(secrets, h, replies(t), minted);
    if ns != "" && ns in secrets && replies(t).Served? {
      var confirm := h.(phase := Confirm(h.phase.i, h.phase.master));
      AdvanceValid(secrets, confirm, replies(t + 1), minted);
      assert Solo(secrets, h, minted, replies, t) == Solo(secrets, confirm, minted, replies, t + 1);
      var after := Advance(secrets, confirm, replies(t + 1), minted).1;
      assert Solo(secrets, confirm, minted, replies, t + 1) == Solo(secrets, after, minted, replies, t + 2);
    }
  }

  // ---------------------------------------------------------------------------------------------
  // When a keyless Secret is refused before anything is written.
  // ---------------------------------------------------------------------------------------------

  ghost predicate AllServedFrom(replies: Replies) {
    forall t: nat :: replies(t).Served?
  }

  /** Namespace j is the first keyless one of the list. */
  predicate KeylessAt(secrets: Secrets, list: seq<string>, j: nat) {
    && j < |list| && Present(secrets, list[j]) && secrets[list[j]] == []
    && forall t | 0 <= t < j && Present(secrets, list[t]) :: secrets[list[t]] != []
  }

  predicate NoneAbsent(secrets: Secrets, list: seq<string>, i: nat, j: nat)
    requires j <= |list|
  {
    forall t | i <= t < j :: list[t] == "" || list[t] in secrets
  }

  predicate NonePresent(secrets: Secrets, list: seq<string>, i: nat, j: nat)
    requires j <= |list|
  {
    forall t | i <= t < j :: !Present(secrets, list[t])
  }

  predicate AllHold(secrets: Secrets, list: seq<string>, m: Bytes, i: nat, j: nat)
    requires j <= |list|
  {
    forall t | i <= t < j && Present(secrets, list[t]) :: secrets[list[t]] == m
  }

  /** No two masters of the first j namespaces differ. */
  predicate Agree(secrets: Secrets, list: seq<string>, j: nat)
    requires j <= |list|
  {
    forall t, u | 0 <= t < j && 0 <= u < j && Present(secrets, list[t]) && Present(secrets, list[u]) ::
      secrets[list[t]] == secrets[list[u]]
  }

  /** The scan of this store adopts `m`. */
  predicate Leads(secrets: Secrets, list: seq<string>, m: Bytes, p: nat) {
    p < |list| && Present(secrets, list[p]) && secrets[list[p]] == m != [] && NonePresent(secrets, list, 0, p)
  }

  lemma {:induction false} SoloScan(secrets: Secrets, h: Hook, minted: Minted, replies: Replies, t: nat, m: Bytes,
                                    p: nat)
    returns (u: nat)
    requires HookValid(secrets, h) && h.phase.Scan? && h.phase.i <= p && AllServedFrom(replies)
    requires Leads(secrets, h.namespaces, m, p)
    ensures HookValid(secrets, h.(phase := Write(0, m)))
    ensures Solo(secrets, h, minted, replies, t) == Solo(secrets, h.(phase := Write(0, m)), minted, replies, u)
    decreases p - h.phase.i
  {
    AdvanceValid(secrets, h, Served, minted);
    if h.phase.i < p {
      assert !Present(secrets, h.namespaces[h.phase.i]);
      u := SoloScan(secrets, h.(phase := Scan(h.phase.i + 1)), minted, replies, t + 1, m, p);
    } else {
      u := t + 1;
    }
  }

  lemma {:induction false} SoloScanNothing(secrets: Secrets, h: Hook, minted: Minted, replies: Replies, t: nat, j: nat)
    requires HookValid(secrets, h) && h.phase.Scan? && h.phase.i <= j && AllServedFrom(replies)
    requires KeylessAt(secrets, h.namespaces, j) && NonePresent(secrets, h.namespaces, 0, j)
    ensures Solo(secrets, h, minted, replies, t) == (secrets, KeylessSecret)
    decreases j - h.phase.i
  {
    AdvanceValid(secrets, h, Served, minted);
    if h.phase.i < j {
      assert !Present(secrets, h.namespaces[h.phase.i]);
      SoloScanNothing(secrets, h.(phase := Scan(h.phase.i + 1)), minted, replies, t + 1, j);
    }
  }

  /** With agreeing masters the write loop gets to the keyless Secret, filling what is absent before it. */
  lemma {:induction false} SoloWriteToKeyless(secrets: Secrets, h: Hook, minted: Minted, replies: Replies, t: nat,
                                              j: nat)
    requires HookValid(secrets, h) && h.phase.Write? && h.phase.i <= j && AllServedFrom(replies)
    requires KeylessAt(secrets, h.namespaces, j) && AllHold(secrets, h.namespaces, h.phase.master, h.phase.i, j)
    ensures var r := Solo(secrets, h, minted, replies, t);
            && r.1 == KeylessSecret && Kept(secrets, r.0)
            && (r.0 == secrets <==> NoneAbsent(secrets, h.namespaces, h.phase.i, j))
    decreases j - h.phase.i
  {
    var i, m := h.phase.i, h.phase.master;
    var ns, next := h.namespaces[i], h.(phase := Write(i + 1, m));
    SoloWriteStep(secrets, h, minted, replies, t);
    if i < j {
      if Present(secrets, ns) {
        SoloWriteToKeyless(secrets, next, minted, replies, t + 2, j);
      } else if ns == "" {
        SoloWriteToKeyless(secrets, next, minted, replies, t + 1, j);
      } else {
        SoloWriteToKeyless(secrets[ns := m], next, minted, replies, t + 1, j);
        assert ns in Solo(secrets, h, minted, replies, t).0;
      }
    }
  }

  /** With a rival master at d the run adopts its leader in every attempt and never gets past d. */
  lemma {:induction false} SoloRival(secrets: Secrets, h: Hook, minted: Minted, replies: Replies, t: nat, d: nat,
                                     p: nat)
    requires HookValid(secrets, h) && h.phase.Write? && h.phase.i <= d < |h.namespaces| && AllServedFrom(replies)
    requires Leads(secrets, h.namespaces, h.phase.master, p) && AllHold(secrets, h.namespaces, h.phase.master, 0, d)
    requires var ns := h.namespaces[d]; Present(secrets, ns) && secrets[ns] != [] && secrets[ns] != h.phase.master
    ensures Solo(secrets, h, minted, replies, t).1 == Disagreement
    decreases PROVISION_ATTEMPTS - h.attempt, d - h.phase.i
  {
    var i, m := h.phase.i, h.phase.master;
    var ns, next := h.namespaces[i], h.(phase := Write(i + 1, m));
    SoloWriteStep(secrets, h, minted, replies, t);
    if i < d {
      if Present(secrets, ns) {
        SoloRival(secrets, next, minted, replies, t + 2, d, p);
      } else if ns == "" {
        SoloRival(secrets, next, minted, replies, t + 1, d, p);
      } else {
        var after := secrets[ns := m];
        LeadsStill(secrets, h, p);
        SoloRival(after, next, minted, replies, t + 1, d, if i < p then i else p);
      }
    } else if h.attempt + 1 < PROVISION_ATTEMPTS {
      var again := Hook(h.namespaces, h.attempt + 1, Scan(0));
      var u := SoloScan(secrets, again, minted, replies, t + 2, m, p);
      SoloRival(secrets, again.(phase := Write(0, m)), minted, replies, u, d, p);
    }
  }

  /** Filling an absent namespace leaves the leader's value in the lead. */
  lemma LeadsStill(secrets: Secrets, h: Hook, p: nat)
    requires HookValid(secrets, h) && h.phase.Write? && h.phase.i < |h.namespaces|
    requires Leads(secrets, h.namespaces, h.phase.master, p)
    requires h.namespaces[h.phase.i] != "" && h.namespaces[h.phase.i] !in secrets
    ensures var i, m := h.phase.i, h.phase.master;
            Leads(secrets[h.namespaces[i] := m], h.namespaces, m, if i < p then i else p)
  {
    var i, list := h.phase.i, h.namespaces;
    forall t | 0 <= t < i && t < p ensures list[t] == "" {
      assert list[t] in list[..i];
      assert !Present(secrets, list[t]);
    }
    if p < i {
      assert list[p] in list[..i];
    }
  }

  /**
   * The scan's documented purpose is to refuse a keyless Secret before anything is written. For the
   * first keyless namespace j of any list and store, it does so exactly when the namespaces before
   * it are all absent, or all provisioned with one master. Where masters before it differ the run
   * ends in disagreement instead; where they agree and some are absent, those are written first.
   */
  lemma KeylessSecretRefused(secrets: Secrets, list: seq<string>, minted: Minted, replies: Replies, j: nat)
    requires KeylessAt(secrets, list, j) && AllServedFrom(replies)
    ensures HookValid(secrets, Begin(list))
    ensures Solo(secrets, Begin(list), minted, replies, 0) == (secrets, KeylessSecret) <==>
            NonePresent(secrets, list, 0, j) || (NoneAbsent(secrets, list, 0, j) && Agree(secrets, list, j))
    ensures Solo(secrets, Begin(list), minted, replies, 0).1 ==
            if Agree(secrets, list, j) then KeylessSecret else Disagreement
  {
    if NonePresent(secrets, list, 0, j) {
      SoloScanNothing(secrets, Begin(list), minted, replies, 0, j);
    } else {
      var p := Leader(secrets, list, j);
      var m := secrets[list[p]];
      var u := SoloScan(secrets, Begin(list), minted, replies, 0, m, p);
      var h := Hook(list, 0, Write(0, m));
      if AllHold(secrets, list, m, 0, j) {
        SoloWriteToKeyless(secrets, h, minted, replies, u, j);
      } else {
        var d := Rival(secrets, list, m, j);
        SoloRival(secrets, h, minted, replies, u, d, p);
      }
    }
  }

  lemma {:induction false} Leader(secrets: Secrets, list: seq<string>, j: nat) returns (p: nat)
    requires KeylessAt(secrets, list, j) && !NonePresent(secrets, list, 0, j)
    ensures p < j && Present(secrets, list[p]) && Leads(secrets, list, secrets[list[p]], p)
  {
    p := 0;
    while !Present(secrets, list[p])
      invariant p < j && NonePresent(secrets, list, 0, p)
      decreases j - p
    {
      assert NonePresent(secrets, list, 0, p + 1);
      p := p + 1;
    }
  }

  lemma Rival(secrets: Secrets, list: seq<string>, m: Bytes, j: nat) returns (d: nat)
    requires j <= |list| && !AllHold(secrets, list, m, 0, j)
    ensures d < j && Present(secrets, list[d]) && secrets[list[d]] != m && AllHold(secrets, list, m, 0, d)
  {
    d := 0;
    while !Present(secrets, list[d]) || secrets[list[d]] == m
      invariant d < j && AllHold(secrets, list, m, 0, d)
      decreases j - d
    {
      assert AllHold(secrets, list, m, 0, d + 1);
      d := d + 1;
    }
  }

  lemma KeylessSecretRefusedTooLate(minted: Minted, replies: Replies)
    requires AllServedFrom(replies)
    ensures var secrets: Secrets, list := map["b" := [1], "c" := []], ["a", "b", "c"];
            && HookValid(secrets, Begin(list))
            && Solo(secrets, Begin(list), minted, replies, 0).1 == KeylessSecret
            && Solo(secrets, Begin(list), minted, replies, 0).0 != secrets
  {
    var secrets: Secrets := map["b" := [1], "c" := []];
    var list := ["a", "b", "c"];
    assert KeylessAt(secrets, list, 2);
    KeylessSecretRefused(secrets, list, minted, replies, 2);
    assert list[0] !in secrets && Present(secrets, list[1]);
  }

  // ---------------------------------------------------------------------------------------------
  // The hook.
  // ---------------------------------------------------------------------------------------------

  datatype Found = Existing(master: Bytes) | Absent | Refused(outcome: Outcome)

  class SecretStore {
    var data: Secrets
    var time: nat
    const replies: Replies

    constructor (data: Secrets, replies: Replies)
      ensures this.data == data && this.time == 0 && this.replies == replies
    {
      this.data, this.time, this.replies := data, 0, replies;
    }

    /** Reads in list order; the first Secret that exists decides, a keyless one or a failing read refuses. */
    method ExistingMaster(namespaces: seq<string>, ghost attempt: nat, minted: Minted) returns (found: Found)
      requires attempt < PROVISION_ATTEMPTS
      modifies this`time
      ensures found.Existing? ==> found.master != []
      ensures Solo(data, Hook(namespaces, attempt, Scan(0)), minted, replies, old(time)) ==
              match found
              case Existing(m) => Solo(data, Hook(namespaces, attempt, Write(0, m)), minted, replies, time)
              case Absent => Solo(data, Hook(namespaces, attempt, Scan(|namespaces|)), minted, replies, time)
              case Refused(outcome) => (data, outcome)
    {
      for i := 0 to |namespaces|
        invariant Solo(data, Hook(namespaces, attempt, Scan(0)), minted, replies, old(time)) ==
                  Solo(data, Hook(namespaces, attempt, Scan(i)), minted, replies, time)
      {
        var ns, reply := namespaces[i], replies(time);
        time := time + 1;
        if ns == "" {
          continue;
        }
        if !reply.Served? {
          return Refused(ApiFailure);
        }
        if ns in data {
          if data[ns] == [] {
            return Refused(KeylessSecret);
          }
          return Existing(data[ns]);
        }
      }
      return Absent;
    }

    /** Creates the Secret unless one exists; then the live value decides whether this run agrees. */
    method CreateIfAbsent(ns: string, master: Bytes) returns (created: bool, agreed: bool, failure: Option<Outcome>)
      requires ns != "" && master != []
      modifies this
      ensures data == if ns in old(data) || replies(old(time)).Failed? then old(data) else old(data)[ns := master]
      ensures created <==> ns !in old(data) && replies(old(time)).Served?
      ensures failure ==
              if !replies(old(time)).Served? then Some(ApiFailure)
              else if ns !in old(data) then None
              else if !replies(old(time) + 1).Served? then Some(ApiFailure)
              else if old(data)[ns] == [] then Some(KeylessSecret)
              else None
      ensures agreed <==> failure.None? && data[ns] == master
      ensures time == old(time) + if replies(old(time)).Served? && ns in old(data) then 2 else 1
    {
      var reply := replies(time);
      time := time + 1;
      if !reply.Failed? && ns !in data {
        data := data[ns := master];
        return reply.Served?, reply.Served?, if reply.Served? then None else Some(ApiFailure);
      }
      if !reply.Served? {
        return false, false, Some(ApiFailure);
      }
      var read := replies(time);
      time := time + 1;
      if !read.Served? {
        return false, false, Some(ApiFailure);
      }
      if data[ns] == [] {
        return false, false, Some(KeylessSecret);
      }
      return false, data[ns] == master, None;
    }

    /** Stops at the first namespace that holds a different master, or at a failure. */
    method WriteMaster(namespaces: seq<string>, ghost attempt: nat, master: Bytes, minted: Minted)
      returns (lost: bool, failure: Option<Outcome>)
      requires attempt < PROVISION_ATTEMPTS && master != []
      modifies this
      ensures Solo(old(data), Hook(namespaces, attempt, Write(0, master)), minted, replies, old(time)) ==
              if failure.Some? then (data, failure.value)
              else if !lost then (data, Provisioned)
              else if attempt + 1 < PROVISION_ATTEMPTS
                then Solo(data, Hook(namespaces, attempt + 1, Scan(0)), minted, replies, time)
              else (data, Disagreement)
    {
      for i := 0 to |namespaces|
        invariant Holds(data, namespaces[..i], master)
        invariant Solo(old(data), Hook(namespaces, attempt, Write(0, master)), minted, replies, old(time)) ==
                  Solo(data, Hook(namespaces, attempt, Write(i, master)), minted, replies, time)
      {
        lost, failure := WriteOne(Hook(namespaces, attempt, Write(i, master)), namespaces[i], master, minted);
        if lost || failure.Some? {
          return;
        }
      }
      assert namespaces[..|namespaces|] == namespaces;
      assert Uniform(data, namespaces);
      return false, None;
    }

    /** One turn of the write loop. */
    method WriteOne(ghost h: Hook, ns: string, master: Bytes, minted: Minted)
      returns (lost: bool, failure: Option<Outcome>)
      requires HookValid(data, h) && h.phase.Write? && h.phase.master == master
      requires h.phase.i < |h.namespaces| && ns == h.namespaces[h.phase.i]
      modifies this
      ensures !lost && failure.None? ==> Holds(data, h.namespaces[..h.phase.i + 1], master)
      ensures Solo(old(data), h, minted, replies, old(time)) ==
              if failure.Some? then (data, failure.value)
              else if !lost then Solo(data, h.(phase := Write(h.phase.i + 1, master)), minted, replies, time)
              else if h.attempt + 1 < PROVISION_ATTEMPTS
                then Solo(data, Hook(h.namespaces, h.attempt + 1, Scan(0)), minted, replies, time)
              else (data, Disagreement)
    {
      SoloWriteStep(data, h, minted, replies, time);
      if ns == "" {
        time := time + 1;
        return false, None;
      }
      var created, agreed;
      created, agreed, failure := CreateIfAbsent(ns, master);
      lost := failure.None? && !agreed;
    }

    /** Up to three attempts, each adopting what the scan finds. */
    method GenerateAuthSecret(namespaces: seq<string>, secretName: string, minted: Minted) returns (outcome: Outcome)
      modifies this
      ensures HookValid(old(data), Begin(namespaces))
      ensures (data, outcome) ==
              if secretName == "" then (old(data), Provisioned)
              else Solo(old(data), Begin(namespaces), minted, replies, old(time))
      ensures namespaces == [] ==> data == old(data) && outcome.Provisioned? && time == old(time)
    {
      assert Holds(data, [], minted);
      if namespaces == [] || secretName == "" {
        return Provisioned;
      }
      for attempt := 0 to PROVISION_ATTEMPTS
        invariant Solo(old(data), Begin(namespaces), minted, replies, old(time)) ==
                  if attempt < PROVISION_ATTEMPTS
                    then Solo(data, Hook(namespaces, attempt, Scan(0)), minted, replies, time)
                  else (data, Disagreement)
      {
        var found := ExistingMaster(namespaces, attempt, minted);
        if found.Refused? {
          return found.outcome;
        }
        var master: Bytes := minted;
        if found.Existing? {
          master := found.master;
        } else {
          var entropy := replies(time);
          time := time + 1;
          if !entropy.Served? {
            return ApiFailure;
          }
        }
        var lost, failure := WriteMaster(namespaces, attempt, master, minted);
        if failure.Some? {
          return failure.value;
        }
        if !lost {
          return Provisioned;
        }
      }
      return Disagreement;
    }
  }
}
