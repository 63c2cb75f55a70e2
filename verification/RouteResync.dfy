/**
 * The router's incremental route table and the resync that guards it against missed events: one
 * pass applies every listed function, alias, version and trigger and sweeps what nothing claims.
 */
module RouteResync {
  import opened Common
  import opened Resolver

  datatype Shape = Shape(exactPath: string, prefixPath: string, host: string, methods: seq<string>)

  /** `valid` says that the CORS, ingress and template configuration passes. */
  datatype Trigger = Trigger(uid: string, generation: int, reference: Reference, valid: bool, shape: Shape)

  datatype Cluster = Cluster(objects: Objects, triggers: map<Key, Trigger>)

  /** A trigger's route: its identity, the generations it was built from, and its match shape. */
  datatype RouteSpec = RouteSpec(key: Key, triggerGen: int, fnGens: map<string, int>, aliasGens: map<string, int>,
                                 stickyGen: int, shape: Shape)

  /** The suffix is empty for a function's own route, else the name of an alias or a version. */
  datatype InternalKey = InternalKey(fn: Key, suffix: string)

  datatype ApplyResult = NoChange | HandlerSwapped | ShapeChanged

  function Lookup<K, V>(m: map<K, V>, k: K): Option<V> {
    if k in m then Some(m[k]) else None
  }

  lemma LookupDetermines<K, V>(m: map<K, V>, n: map<K, V>)
    requires forall k :: Lookup(m, k) == Lookup(n, k)
    ensures m == n
  {
    forall k
      ensures k in m <==> k in n
      ensures k in m && k in n ==> m[k] == n[k]
    {
      assert Lookup(m, k) == Lookup(n, k);
    }
  }

  // ---------------------------------------------------------------------------------------------
  // What the cluster admits
  // ---------------------------------------------------------------------------------------------

  /** How an alias's generation and its backends' generations become one revision: a hash in the code. */
  type Fold = (int, map<string, int>) -> int

  function AliasRevision(o: Objects, fold: Fold, k: Key): Option<int>
    requires k in o.aliases
  {
    match ResolveByAlias(o, k.namespace, o.aliases[k].functionName, k.name)
    case Resolved(backends, _, _, _) => Some(fold(o.aliases[k].generation, backends))
    case _ => None
  }

  function VersionRevision(o: Objects, k: Key): Option<int>
    requires k in o.versions
  {
    VersionGeneration(o, k.namespace, o.versions[k].functionName, k.name)
  }

  /** The alias or version that an internal key with a suffix would belong to. */
  function Tag(key: InternalKey): Key {
    Key(key.fn.namespace, key.suffix)
  }

  predicate AliasClaims(o: Objects, key: InternalKey) {
    key.suffix != "" && Tag(key) in o.aliases && o.aliases[Tag(key)].functionName == key.fn.name
  }

  predicate VersionClaims(o: Objects, key: InternalKey) {
    key.suffix != "" && Tag(key) in o.versions && o.versions[Tag(key)].functionName == key.fn.name
  }

  predicate Claimed(o: Objects, key: InternalKey) {
    AliasClaims(o, key) || VersionClaims(o, key)
  }

  /** The internal route the cluster admits at a key: versions are applied after aliases. */
  function WantedInternal(o: Objects, fold: Fold, key: InternalKey): Option<int> {
    if key.suffix == "" then
      if key.fn in o.functions then Some(o.functions[key.fn].generation) else None
    else if VersionClaims(o, key) then VersionRevision(o, Tag(key))
    else if AliasClaims(o, key) then AliasRevision(o, fold, Tag(key))
    else None
  }

  /** No alias shares its route with a version of the same function, unless both want the same. */
  predicate NoFlapping(o: Objects, fold: Fold) {
    forall k <- o.aliases :: k in o.versions && o.versions[k].functionName == o.aliases[k].functionName ==>
                               AliasRevision(o, fold, k) == VersionRevision(o, k)
  }

  datatype Admission = Admitted(spec: RouteSpec) | Rejected | Kept

  /** An unrecognised reference is an error that leaves the last route in place. */
  function Admit(c: Cluster, k: Key): Admission
    requires k in c.triggers
  {
    var t := c.triggers[k];
    if !t.valid then Rejected
    else
      match Resolve(c.objects, k.namespace, t.reference)
      case NotFound => Rejected
      case Unsupported => Kept
      case Resolved(backends, _, aliasGens, stickyGen) =>
        Admitted(RouteSpec(k, t.generation, backends, aliasGens, stickyGen, t.shape))
  }

  /** Names are not empty and a UID names one trigger. */
  predicate WellFormed(c: Cluster) {
    && (forall k <- c.objects.aliases :: k.name != "")
    && (forall k <- c.objects.versions :: k.name != "")
    && (forall j, k | j in c.triggers && k in c.triggers && j != k :: c.triggers[j].uid != c.triggers[k].uid)
  }

  /** A route never carries another name than the trigger with its UID. */
  predicate Reachable(c: Cluster, public: map<string, RouteSpec>) {
    forall k <- c.triggers :: c.triggers[k].uid in public ==> public[c.triggers[k].uid].key == k
  }

  predicate Live(c: Cluster, uid: string) {
    exists k <- c.triggers :: c.triggers[k].uid == uid
  }

  /** The entry a trigger has after it was applied to a table where it had `before`. */
  function WantedPublic(c: Cluster, k: Key, before: Option<RouteSpec>): Option<RouteSpec>
    requires k in c.triggers
  {
    match Admit(c, k)
    case Admitted(spec) => Some(spec)
    case Rejected => None
    case Kept => before
  }

  predicate SameRoute(was: RouteSpec, spec: RouteSpec) {
    was.(key := spec.key) == spec
  }

  function WithoutName(public: map<string, RouteSpec>, key: Key): map<string, RouteSpec> {
    map u | u in public && public[u].key != key :: public[u]
  }

  /** The public table after one trigger was applied. */
  function AfterTrigger(c: Cluster, public: map<string, RouteSpec>, k: Key): map<string, RouteSpec>
    requires k in c.triggers
  {
    match Admit(c, k)
    case Admitted(spec) => public[c.triggers[k].uid := spec]
    case Rejected => WithoutName(public, k)
    case Kept => public
  }

  /** `k` has its own entry settled, and otherwise only entries that belong to no live trigger are gone. */
  predicate Stepped(c: Cluster, public: map<string, RouteSpec>, after: map<string, RouteSpec>, k: Key)
    requires k in c.triggers
  {
    && Reachable(c, after)
    && Lookup(after, c.triggers[k].uid) == WantedPublic(c, k, Lookup(public, c.triggers[k].uid))
    && (forall j <- c.triggers :: j != k ==> Lookup(after, c.triggers[j].uid) == Lookup(public, c.triggers[j].uid))
    && (forall u <- after :: Live(c, u) || (u in public && after[u] == public[u]))
  }

  lemma AfterTriggerStep(c: Cluster, public: map<string, RouteSpec>, k: Key)
    requires WellFormed(c) && k in c.triggers && Reachable(c, public)
    ensures Stepped(c, public, AfterTrigger(c, public, k), k)
  {
    if Admit(c, k).Admitted? {
      assert Admit(c, k).spec.key == k;
    }
    assert Live(c, c.triggers[k].uid);
  }

  /** A change made by applying a trigger shows at its own entry or at an entry of no live trigger. */
  lemma AfterTriggerChange(c: Cluster, public: map<string, RouteSpec>, k: Key)
    requires WellFormed(c) && k in c.triggers && Reachable(c, public) && AfterTrigger(c, public, k) != public
    ensures var after := AfterTrigger(c, public, k);
            || Lookup(after, c.triggers[k].uid) != Lookup(public, c.triggers[k].uid)
            || exists u :: u in public && u !in after && !Live(c, u)
  {
    AfterTriggerStep(c, public, k);
    assert (forall u <- public :: u in WithoutName(public, k)) ==> WithoutName(public, k) == public;
  }

  /** The triggers outside `left` have been applied to what was `before`. */
  predicate Partway(c: Cluster, before: map<string, RouteSpec>, public: map<string, RouteSpec>, left: set<Key>) {
    && left <= c.triggers.Keys && Reachable(c, public)
    && (forall k <- c.triggers :: Lookup(public, c.triggers[k].uid) ==
                                  if k in left then Lookup(before, c.triggers[k].uid)
                                  else WantedPublic(c, k, Lookup(before, c.triggers[k].uid)))
    && (forall u <- public :: Live(c, u) || (u in before && public[u] == before[u]))
  }

  /** Something has changed that no later step of the loop can change back. */
  predicate Corrected(c: Cluster, before: map<string, RouteSpec>, public: map<string, RouteSpec>, left: set<Key>) {
    || (exists k <- c.triggers :: k !in left && Lookup(public, c.triggers[k].uid) != Lookup(before, c.triggers[k].uid))
    || (exists u <- before :: u !in public && !Live(c, u))
  }

  lemma PartwayStep(c: Cluster, before: map<string, RouteSpec>, public: map<string, RouteSpec>, left: set<Key>, k: Key)
    requires WellFormed(c) && Partway(c, before, public, left) && k in left
    ensures var after := AfterTrigger(c, public, k);
            && Partway(c, before, after, left - {k})
            && (Corrected(c, before, public, left) || after != public ==> Corrected(c, before, after, left - {k}))
  {
    var after := AfterTrigger(c, public, k);
    AfterTriggerStep(c, public, k);
    PartwayKept(c, before, public, after, left, k);
    if Corrected(c, before, public, left) { CorrectedKept(c, before, public, after, left, k); }
    if after != public { CorrectedNow(c, before, public, left, k); }
  }

  lemma PartwayKept(c: Cluster, before: map<string, RouteSpec>, public: map<string, RouteSpec>,
                    after: map<string, RouteSpec>, left: set<Key>, k: Key)
    requires Partway(c, before, public, left) && k in left && Stepped(c, public, after, k)
    ensures Partway(c, before, after, left - {k})
  {
  }

  lemma CorrectedKept(c: Cluster, before: map<string, RouteSpec>, public: map<string, RouteSpec>,
                      after: map<string, RouteSpec>, left: set<Key>, k: Key)
    requires Partway(c, before, public, left) && k in left && Stepped(c, public, after, k) &&
             Corrected(c, before, public, left)
    ensures Corrected(c, before, after, left - {k})
  {
    if j :| j in c.triggers && j !in left && Lookup(public, c.triggers[j].uid) != Lookup(before, c.triggers[j].uid) {
      assert Lookup(after, c.triggers[j].uid) != Lookup(before, c.triggers[j].uid);
    } else {
      var u :| u in before && u !in public && !Live(c, u);
      assert u !in after;
    }
  }

  lemma CorrectedNow(c: Cluster, before: map<string, RouteSpec>, public: map<string, RouteSpec>, left: set<Key>, k: Key)
    requires WellFormed(c) && Partway(c, before, public, left) && k in left && AfterTrigger(c, public, k) != public
    ensures Corrected(c, before, AfterTrigger(c, public, k), left - {k})
  {
    var after := AfterTrigger(c, public, k);
    AfterTriggerChange(c, public, k);
    if u :| u in public && u !in after && !Live(c, u) {
      assert u in before;
    }
  }

  ghost predicate InternalMatches(o: Objects, fold: Fold, internal: map<InternalKey, int>) {
    forall key :: Lookup(internal, key) == WantedInternal(o, fold, key)
  }

  /** `public` is what the cluster admits, given the routes `before` of triggers with an unrecognised reference. */
  ghost predicate PublicMatches(c: Cluster, before: map<string, RouteSpec>, public: map<string, RouteSpec>) {
    && (forall k <- c.triggers ::
          Lookup(public, c.triggers[k].uid) == WantedPublic(c, k, Lookup(before, c.triggers[k].uid)))
    && (forall uid <- public :: Live(c, uid))
  }

  function FunctionWants(o: Objects): (w: map<InternalKey, Option<int>>)
    ensures forall key :: key in w <==> key.suffix == "" && key.fn in o.functions
    ensures forall key <- w :: w[key] == Some(o.functions[key.fn].generation)
  {
    var keys := set k | k in o.functions :: InternalKey(k, "");
    map key | key in keys :: Some(o.functions[key.fn].generation)
  }

  function AliasWants(o: Objects, fold: Fold): (w: map<InternalKey, Option<int>>)
    requires forall k <- o.aliases :: k.name != ""
    ensures forall key :: key in w <==> AliasClaims(o, key)
    ensures forall key <- w :: AliasClaims(o, key) && w[key] == AliasRevision(o, fold, Tag(key))
  {
    var keys := set k | k in o.aliases :: InternalKey(Key(k.namespace, o.aliases[k].functionName), k.name);
    assert forall key | AliasClaims(o, key) ::
             key == InternalKey(Key(Tag(key).namespace, o.aliases[Tag(key)].functionName), Tag(key).name);
    map key | key in keys :: AliasRevision(o, fold, Tag(key))
  }

  function VersionWants(o: Objects): (w: map<InternalKey, Option<int>>)
    requires forall k <- o.versions :: k.name != ""
    ensures forall key :: key in w <==> VersionClaims(o, key)
    ensures forall key <- w :: VersionClaims(o, key) && w[key] == VersionRevision(o, Tag(key))
  {
    var keys := set k | k in o.versions :: InternalKey(Key(k.namespace, o.versions[k].functionName), k.name);
    assert forall key | VersionClaims(o, key) ::
             key == InternalKey(Key(Tag(key).namespace, o.versions[Tag(key)].functionName), Tag(key).name);
    map key | key in keys :: VersionRevision(o, Tag(key))
  }

  // ---------------------------------------------------------------------------------------------
  // The table and the code that applies objects to it
  // ---------------------------------------------------------------------------------------------

  class RouteTable {
    var public: map<string, RouteSpec>
    var internal: map<InternalKey, int>

    constructor ()
      ensures public == map[] && internal == map[]
    {
      public, internal := map[], map[];
    }

    method ApplyFunction(key: InternalKey, revision: int) returns (res: ApplyResult)
      modifies this`internal
      ensures internal == old(internal)[key := revision]
      ensures res.NoChange? <==> Lookup(old(internal), key) == Some(revision)
      ensures res.ShapeChanged? <==> key !in old(internal)
    {
      if key !in internal {
        internal := internal[key := revision];
        return ShapeChanged;
      }
      if internal[key] == revision {
        assert internal == internal[key := revision];
        return NoChange;
      }
      internal := internal[key := revision];
      return HandlerSwapped;
    }

    method DeleteFunction(key: InternalKey) returns (res: ApplyResult)
      modifies this`internal
      ensures internal == old(internal) - {key}
      ensures res == if key in old(internal) then ShapeChanged else NoChange
    {
      if key !in internal {
        assert internal == internal - {key};
        return NoChange;
      }
      internal := internal - {key};
      return ShapeChanged;
    }

    /** Upserts the internal route of an object that resolves, drops that of one that does not. */
    method ApplyInternal(key: InternalKey, want: Option<int>) returns (res: ApplyResult)
      modifies this`internal
      ensures forall k :: Lookup(internal, k) == if k == key then want else Lookup(old(internal), k)
      ensures res.NoChange? <==> Lookup(old(internal), key) == want
    {
      match want
      case Some(revision) => res := ApplyFunction(key, revision);
      case None => res := DeleteFunction(key);
    }

    /** An entry that differs in nothing but the name is left as it is. */
    method ApplyTrigger(uid: string, spec: RouteSpec) returns (res: ApplyResult)
      modifies this`public
      ensures public == if uid in old(public) &&
              SameRoute(old(public)[uid], spec) then old(public) else old(public)[uid := spec]
      ensures uid in public && public[uid].(key := spec.key) == spec && public - {uid} == old(public) - {uid}
      ensures res.NoChange? <==> public == old(public)
    {
      if uid !in public {
        public := public[uid := spec];
        return ShapeChanged;
      }
      var was := public[uid];
      if was.shape == spec.shape {
        if && was.triggerGen == spec.triggerGen && was.fnGens == spec.fnGens
           && was.aliasGens == spec.aliasGens && was.stickyGen == spec.stickyGen {
          return NoChange;
        }
        public := public[uid := was.(triggerGen := spec.triggerGen, fnGens := spec.fnGens, aliasGens := spec.aliasGens,
                                     stickyGen := spec.stickyGen, key := spec.key)];
        assert public[uid] != was;
        return HandlerSwapped;
      }
      public := public[uid := spec];
      assert public[uid] != was;
      return ShapeChanged;
    }

    /** Removes every entry with the name: a missed delete and a recreate can leave two. */
    method DeleteTriggerByName(key: Key) returns (res: ApplyResult)
      modifies this`public
      ensures public == WithoutName(old(public), key)
      ensures res.NoChange? <==> public == old(public)
    {
      res := NoChange;
      var left := public.Keys;
      while left != {}
        invariant left <= public.Keys <= old(public).Keys
        invariant forall u <- public :: public[u] == old(public)[u] && (u in left || public[u].key != key)
        invariant forall u <- old(public) :: u in public || old(public)[u].key == key
        invariant res.NoChange? ==> public == old(public)
        invariant !res.NoChange? ==> exists u :: u in old(public) && u !in public
        decreases left
      {
        var u :| u in left;
        left := left - {u};
        if public[u].key == key {
          public := public - {u};
          res := ShapeChanged;
          assert u in old(public) && u !in public;
        }
      }
      assert public == WithoutName(old(public), key);
    }

    method DeleteTrigger(uid: string) returns (res: ApplyResult)
      modifies this`public
      ensures public == old(public) - {uid}
      ensures res == if uid in old(public) then ShapeChanged else NoChange
    {
      if uid !in public {
        assert public == public - {uid};
        return NoChange;
      }
      public := public - {uid};
      return ShapeChanged;
    }

    /** Validate, resolve, apply. `failed` reports a reference that cannot be resolved at all. */
    method ApplyTriggerIncremental(c: Cluster, k: Key) returns (res: ApplyResult, failed: bool)
      requires k in c.triggers && Reachable(c, public)
      modifies this`public
      ensures public == AfterTrigger(c, old(public), k)
      ensures res.NoChange? <==> public == old(public)
      ensures failed <==> Admit(c, k).Kept?
    {
      var t := c.triggers[k];
      if !t.valid {
        res := DeleteTriggerByName(k);
        return res, false;
      }
      var resolution := Resolve(c.objects, k.namespace, t.reference);
      if resolution.NotFound? {
        res := DeleteTriggerByName(k);
        return res, false;
      }
      if resolution.Unsupported? {
        return NoChange, true;
      }
      var spec := RouteSpec(k, t.generation, resolution.backends, resolution.aliasGens, resolution.stickyGen, t.shape);
      assert t.uid in public && SameRoute(public[t.uid], spec) ==> public == public[t.uid := spec];
      res := ApplyTrigger(t.uid, spec);
      return res, false;
    }

    /** One listing loop of the resync: every listed object's internal route, in list order. */
    method ReconcileInternal(wants: map<InternalKey, Option<int>>) returns (drift: nat)
      modifies this`internal
      ensures forall key :: Lookup(internal, key) == if key in wants then wants[key] else Lookup(old(internal), key)
      ensures drift == 0 <==> internal == old(internal)
    {
      drift := 0;
      var left := wants.Keys;
      while left != {}
        invariant left <= wants.Keys
        invariant forall key :: Lookup(internal, key) == if key in wants &&
                  key !in left then wants[key] else Lookup(old(internal), key)
        invariant drift == 0 ==> internal == old(internal)
        invariant drift > 0 ==> exists key :: key in wants && key !in left && Lookup(old(internal), key) != wants[key]
        decreases left
      {
        var key :| key in left;
        ghost var before := internal;
        var res := ApplyInternal(key, wants[key]);
        left := left - {key};
        if !res.NoChange? {
          drift := drift + 1;
          assert key in wants && key !in left && Lookup(old(internal), key) != wants[key];
        } else {
          LookupDetermines(internal, before);
        }
      }
    }

    /** Drops internal routes that no listed object claims. The re-read before a delete finds what the list found. */
    method SweepInternal(o: Objects) returns (drift: nat)
      modifies this`internal
      ensures forall key :: Lookup(internal, key) ==
                            if (if key.suffix == "" then key.fn in o.functions else Claimed(o, key))
                              then Lookup(old(internal), key) else None
      ensures drift == 0 <==> internal == old(internal)
    {
      drift := 0;
      var left := internal.Keys;
      while left != {}
        invariant left <= old(internal).Keys
        invariant forall key :: Lookup(internal, key) ==
                                if key in left || (if key.suffix == "" then key.fn in o.functions else Claimed(o, key))
                                then Lookup(old(internal), key) else None
        invariant drift == 0 ==> internal == old(internal)
        invariant drift > 0 ==> exists key :: key in old(internal) && key !in internal && key !in left
        decreases left
      {
        var key :| key in left;
        assert Lookup(internal, key) == Lookup(old(internal), key);
        left := left - {key};
        var live := if key.suffix == "" then key.fn in o.functions else Claimed(o, key);
        if !live {
          var res := DeleteFunction(key);
          if res.ShapeChanged? {
            drift := drift + 1;
            assert key in old(internal) && key !in internal && key !in left;
          }
        }
      }
    }

    /** The listing loop over triggers. */
    method ReconcileTriggers(c: Cluster) returns (drift: nat)
      requires WellFormed(c) && Reachable(c, public)
      modifies this`public
      ensures Reachable(c, public)
      ensures forall k <- c.triggers ::
                Lookup(public, c.triggers[k].uid) == WantedPublic(c, k, Lookup(old(public), c.triggers[k].uid))
      ensures forall u <- public :: Live(c, u) || (u in old(public) && public[u] == old(public)[u])
      ensures drift == 0 <==> public == old(public)
    {
      drift := 0;
      var left := c.triggers.Keys;
      while left != {}
        invariant Partway(c, old(public), public, left)
        invariant drift == 0 ==> public == old(public)
        invariant drift > 0 ==> Corrected(c, old(public), public, left)
        decreases left
      {
        var k :| k in left;
        PartwayStep(c, old(public), public, left, k);
        var res, failed := ApplyTriggerIncremental(c, k);
        left := left - {k};
        if !failed && !res.NoChange? {
          drift := drift + 1;
        }
      }
    }

    /** Drops routes whose trigger is gone or was recreated under another UID. */
    method SweepTriggers(c: Cluster) returns (drift: nat)
      modifies this`public
      ensures forall u :: Lookup(public, u) == if Live(c, u) then Lookup(old(public), u) else None
      ensures drift == 0 <==> public == old(public)
    {
      drift := 0;
      var liveUids := set k | k in c.triggers :: c.triggers[k].uid;
      var left := public.Keys;
      while left != {}
        invariant left <= old(public).Keys
        invariant forall u :: Lookup(public, u) == if u in left || u in liveUids then Lookup(old(public), u) else None
        invariant drift == 0 ==> public == old(public)
        invariant drift > 0 ==> exists u :: u in old(public) && u !in public && u !in left
        decreases left
      {
        var u :| u in left;
        assert Lookup(public, u) == Lookup(old(public), u);
        left := left - {u};
        if u !in liveUids {
          var res := DeleteTrigger(u);
          if res.ShapeChanged? {
            drift := drift + 1;
            assert u in old(public) && u !in public && u !in left;
          }
        }
      }
    }

    /**
     * One full pass over a cluster that does not change meanwhile. The table becomes exactly what
     * the cluster admits; and the drift counter is zero exactly when the table was that already and
     * no alias and version contend for one route.
     */
    method Resync(c: Cluster, fold: Fold) returns (drift: nat)
      requires WellFormed(c) && Reachable(c, public)
      modifies this
      ensures InternalMatches(c.objects, fold, internal)
      ensures Reachable(c, public) && PublicMatches(c, old(public), public)
      ensures drift == 0 <==>
              && InternalMatches(c.objects, fold, old(internal)) && PublicMatches(c, old(public), old(public))
              && NoFlapping(c.objects, fold)
    {
      var internalDrift := ResyncInternal(c.objects, fold);
      var publicDrift := ResyncPublic(c);
      drift := internalDrift + publicDrift;
    }

    /** The half of the pass over functions, aliases and versions. */
    method ResyncInternal(o: Objects, fold: Fold) returns (drift: nat)
      requires (forall k <- o.aliases :: k.name != "") && (forall k <- o.versions :: k.name != "")
      modifies this`internal
      ensures InternalMatches(o, fold, internal)
      ensures drift == 0 <==> InternalMatches(o, fold, old(internal)) && NoFlapping(o, fold)
    {
      var d1 := ReconcileInternal(FunctionWants(o));
      ghost var i1 := internal;
      var d2 := ReconcileInternal(AliasWants(o, fold));
      ghost var i2 := internal;
      var d3 := ReconcileInternal(VersionWants(o));
      ghost var i3 := internal;
      var d4 := SweepInternal(o);
      InternalPass(o, fold, old(internal), i1, i2, i3, internal);
      drift := d1 + d2 + d3 + d4;
    }

    /** The half of the pass over triggers. */
    method ResyncPublic(c: Cluster) returns (drift: nat)
      requires WellFormed(c) && Reachable(c, public)
      modifies this`public
      ensures Reachable(c, public) && PublicMatches(c, old(public), public)
      ensures drift == 0 <==> PublicMatches(c, old(public), old(public))
    {
      var d5 := ReconcileTriggers(c);
      ghost var p1 := public;
      var d6 := SweepTriggers(c);
      PublicPass(c, old(public), p1, public);
      drift := d5 + d6;
    }

    /** A second pass finds nothing to correct exactly when no alias and version contend for one route. */
    method ResyncTwice(c: Cluster, fold: Fold) returns (first: nat, second: nat)
      requires WellFormed(c) && Reachable(c, public)
      modifies this
      ensures InternalMatches(c.objects, fold, internal) && PublicMatches(c, old(public), public)
      ensures second == 0 <==> NoFlapping(c.objects, fold)
    {
      first := Resync(c, fold);
      PublicMatchesAgain(c, old(public), public);
      ghost var settled := public;
      second := Resync(c, fold);
      PublicSettled(c, old(public), settled, public);
    }

    /**
     * A delete event carries only namespace and name, so every function's route with that suffix is
     * a candidate; the ones still claimed by an alias or version of their own function stay, and so
     * do those whose claim cannot be read, which fails the event.
     */
    method DeleteInternalRouteBySuffix(o: Objects, namespace: string, suffix: string, unreadable: set<InternalKey>)
      returns (res: ApplyResult, failed: bool)
      requires suffix != ""
      modifies this`internal
      ensures forall key :: Lookup(internal, key) ==
                            if Orphaned(o, namespace, suffix, key) &&
                              key !in unreadable then None else Lookup(old(internal), key)
      ensures res.NoChange? <==> internal == old(internal)
      ensures failed <==> exists key <- old(internal) :: HasSuffix(namespace, suffix, key) && key in unreadable
    {
      res, failed := NoChange, false;
      var left := set key | key in internal && HasSuffix(namespace, suffix, key);
      while left != {}
        invariant forall key <- left :: key in old(internal) && HasSuffix(namespace, suffix, key)
        invariant forall key :: Lookup(internal, key) ==
                                if Orphaned(o, namespace, suffix, key) && key !in unreadable && key !in left then None
                                else Lookup(old(internal), key)
        invariant res.NoChange? ==> internal == old(internal)
        invariant !res.NoChange? ==> exists key :: key in old(internal) && key !in internal && key !in left
        invariant failed ==> exists key <- old(internal) :: HasSuffix(namespace, suffix, key) && key in unreadable
        invariant !failed ==> forall key <- old(internal) :: HasSuffix(namespace, suffix, key) && key in unreadable ==>
                  key in left
        decreases left
      {
        var key :| key in left;
        assert Lookup(internal, key) == Lookup(old(internal), key);
        left := left - {key};
        if key in unreadable {
          failed := true;
        } else if !Claimed(o, key) {
          var deleted := DeleteFunction(key);
          if deleted.ShapeChanged? {
            res := ShapeChanged;
            assert key in old(internal) && key !in internal && key !in left;
          }
        }
      }
    }
  }

  predicate HasSuffix(namespace: string, suffix: string, key: InternalKey) {
    key.fn.namespace == namespace && key.suffix == suffix
  }

  predicate Orphaned(o: Objects, namespace: string, suffix: string, key: InternalKey) {
    HasSuffix(namespace, suffix, key) && !Claimed(o, key)
  }

  lemma PublicMatchesAgain(c: Cluster, before: map<string, RouteSpec>, public: map<string, RouteSpec>)
    requires PublicMatches(c, before, public)
    ensures PublicMatches(c, public, public)
  {
  }

  lemma PublicSettled(c: Cluster, before: map<string, RouteSpec>, mid: map<string, RouteSpec>,
                      after: map<string, RouteSpec>)
    requires PublicMatches(c, before, mid) && PublicMatches(c, mid, after)
    ensures PublicMatches(c, before, after)
  {
  }

  /** The admission webhook's rule, no alias named like a version of its own function, rules flapping out. */
  lemma DisjointNamesNeverFlap(o: Objects, fold: Fold)
    requires forall k <- o.aliases :: k in o.versions ==> o.versions[k].functionName != o.aliases[k].functionName
    ensures NoFlapping(o, fold)
  {
  }

  /** Without it a resync corrects the same route in every pass. */
  lemma ContendedRouteFlaps(fold: Fold)
    ensures var k := Key("ns", "hello-v1");
            var o := Objects(map[Key("ns", "hello") := Function(1)], map[k := Version("hello", 1)],
                             map[k := Alias("hello", "gone", "", None, "", "", false, 1)]);
            !NoFlapping(o, fold)
  {
    var k := Key("ns", "hello-v1");
    var o := Objects(map[Key("ns", "hello") := Function(1)], map[k := Version("hello", 1)],
                     map[k := Alias("hello", "gone", "", None, "", "", false, 1)]);
    assert k.name == "hello-v1" && Key("ns", "gone") != k by { assert |"gone"| == 4 && |"hello-v1"| == 8; }
    assert AliasRevision(o, fold, k) == None && VersionRevision(o, k) == Some(1);
  }

  lemma InternalPass(o: Objects, fold: Fold, i0: map<InternalKey, int>, i1: map<InternalKey, int>,
                     i2: map<InternalKey, int>,
                     i3: map<InternalKey, int>, i4: map<InternalKey, int>)
    requires (forall k <- o.aliases :: k.name != "") && (forall k <- o.versions :: k.name != "")
    requires forall key :: Lookup(i1, key) == if key in FunctionWants(o) then FunctionWants(o)[key] else Lookup(i0, key)
    requires forall key ::
               Lookup(i2, key) == if key in AliasWants(o, fold) then AliasWants(o, fold)[key] else Lookup(i1, key)
    requires forall key :: Lookup(i3, key) == if key in VersionWants(o) then VersionWants(o)[key] else Lookup(i2, key)
    requires forall key :: Lookup(i4, key) ==
                           if (if key.suffix == "" then key.fn in o.functions else Claimed(o, key))
                             then Lookup(i3, key) else None
    ensures InternalMatches(o, fold, i4)
    ensures i0 == i1 == i2 == i3 == i4 <==> InternalMatches(o, fold, i0) && NoFlapping(o, fold)
  {
    assert InternalMatches(o, fold, i4);
    if i0 == i1 == i2 == i3 == i4 {
      forall k | k in o.aliases && k in o.versions && o.versions[k].functionName == o.aliases[k].functionName
        ensures AliasRevision(o, fold, k) == VersionRevision(o, k)
      {
        var key := InternalKey(Key(k.namespace, o.aliases[k].functionName), k.name);
        assert key in AliasWants(o, fold) && key in VersionWants(o) && Tag(key) == k;
        assert Lookup(i2, key) == Lookup(i3, key);
      }
    }
    if InternalMatches(o, fold, i0) && NoFlapping(o, fold) {
      assert forall key :: Lookup(i1, key) == Lookup(i0, key);
      LookupDetermines(i1, i0);
      assert forall key :: Lookup(i2, key) == Lookup(i1, key);
      LookupDetermines(i2, i1);
      LookupDetermines(i3, i2);
      LookupDetermines(i4, i3);
    }
  }

  /** The triggers were applied to `p0`, giving `p1`, and what is not live was swept, giving `p2`. */
  ghost predicate Passed(c: Cluster, p0: map<string, RouteSpec>, p1: map<string, RouteSpec>,
                         p2: map<string, RouteSpec>) {
    && (forall k <- c.triggers :: Lookup(p1, c.triggers[k].uid) == WantedPublic(c, k, Lookup(p0, c.triggers[k].uid)))
    && (forall u <- p1 :: Live(c, u) || (u in p0 && p1[u] == p0[u]))
    && (forall u :: Lookup(p2, u) == if Live(c, u) then Lookup(p1, u) else None)
  }

  lemma PublicPass(c: Cluster, p0: map<string, RouteSpec>, p1: map<string, RouteSpec>, p2: map<string, RouteSpec>)
    requires Passed(c, p0, p1, p2)
    ensures PublicMatches(c, p0, p2)
    ensures p0 == p1 == p2 <==> PublicMatches(c, p0, p0)
  {
    forall k <- c.triggers ensures Lookup(p2, c.triggers[k].uid) == Lookup(p1, c.triggers[k].uid) {
      assert Live(c, c.triggers[k].uid);
    }
    forall u <- p2 ensures Live(c, u) { assert Lookup(p2, u).Some?; }
    if PublicMatches(c, p0, p0) { NothingToPass(c, p0, p1, p2); }
  }

  lemma NothingToPass(c: Cluster, p0: map<string, RouteSpec>, p1: map<string, RouteSpec>, p2: map<string, RouteSpec>)
    requires Passed(c, p0, p1, p2) && PublicMatches(c, p0, p0)
    ensures p0 == p1 == p2
  {
    forall u ensures Lookup(p1, u) == Lookup(p0, u) && Lookup(p2, u) == Lookup(p1, u) {
      if Live(c, u) {
        var k :| k in c.triggers && c.triggers[k].uid == u;
      } else {
        assert u !in p0;
      }
    }
    LookupDetermines(p1, p0);
    LookupDetermines(p2, p1);
  }
}
