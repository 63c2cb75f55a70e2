/**
 * The router's event handlers: what a table that is in step with the cluster looks like after a
 * function, alias or version was created, changed or deleted and its event handled. Alias and
 * function events re-apply the triggers that refer to the object; version events re-apply nothing.
 */
module RouteEvents {
  import opened Common
  import opened Resolver
  import opened RouteResync
  import opened RouteIndex

  // ---------------------------------------------------------------------------------------------
  // Reachable tables
  // ---------------------------------------------------------------------------------------------

  /** What happens to the public table over the life of the router. */
  datatype TableEvent = Applied(cluster: Cluster, key: Key) | NameDeleted(key: Key) | Swept(cluster: Cluster)

  function AfterEvent(public: map<string, RouteSpec>, e: TableEvent): map<string, RouteSpec> {
    match e
    case Applied(c, k) => if k in c.triggers then AfterTrigger(c, public, k) else public
    case NameDeleted(k) => WithoutName(public, k)
    case Swept(c) => map u <- public | Live(c, u) :: public[u]
  }

  function History(public: map<string, RouteSpec>, events: seq<TableEvent>): map<string, RouteSpec>
    decreases |events|
  {
    if events == [] then public else History(AfterEvent(public, events[0]), events[1..])
  }

  /** A UID stands for one name for ever. */
  predicate Stable(names: map<string, Key>, c: Cluster) {
    forall k <- c.triggers :: c.triggers[k].uid in names && names[c.triggers[k].uid] == k
  }

  predicate StableEvent(names: map<string, Key>, e: TableEvent) {
    !e.NameDeleted? ==> Stable(names, e.cluster)
  }

  predicate Named(names: map<string, Key>, public: map<string, RouteSpec>) {
    forall u <- public :: u in names && public[u].key == names[u]
  }

  lemma {:induction false} HistoryNamed(names: map<string, Key>, public: map<string, RouteSpec>,
                                        events: seq<TableEvent>)
    requires Named(names, public) && forall e <- events :: StableEvent(names, e)
    ensures Named(names, History(public, events))
    decreases |events|
  {
    if events != [] {
      assert StableEvent(names, events[0]);
      HistoryNamed(names, AfterEvent(public, events[0]), events[1..]);
    }
  }

  /** Whatever the clusters were, a table that grew from the empty one is reachable in the present cluster. */
  lemma HistoryIsReachable(names: map<string, Key>, events: seq<TableEvent>, c: Cluster)
    requires (forall e <- events :: StableEvent(names, e)) && Stable(names, c)
    ensures Reachable(c, History(map[], events))
  {
    HistoryNamed(names, map[], events);
  }

  // ---------------------------------------------------------------------------------------------
  // Versions: what goes through one
  // ---------------------------------------------------------------------------------------------

  /** The alias resolves to this version, alone or in a split. */
  predicate Relies(a: Alias, version: string) {
    a.EffectiveTarget() == version || (a.weight.Some? && a.secondaryVersion == version)
  }

  /** The trigger names the version, or an alias that relies on it. */
  predicate Through(o: Objects, j: Key, t: Trigger, kv: Key) {
    && j.namespace == kv.namespace && t.reference.ByName?
    && var r, alias := t.reference, Key(j.namespace, t.reference.alias);
       if r.version != "" then r.version == kv.name
       else r.alias != "" && alias in o.aliases && Relies(o.aliases[alias], kv.name)
  }

  lemma VersionMatters(o: Objects, p: Objects, kv: Key, j: Key, t: Trigger)
    requires p.functions == o.functions && p.aliases == o.aliases && SameBut(o.versions, p.versions, kv)
    requires !Through(o, j, t, kv)
    ensures Resolve(o, j.namespace, t.reference) == Resolve(p, j.namespace, t.reference)
  {
  }

  // ---------------------------------------------------------------------------------------------
  // The internal routes after each kind of event
  // ---------------------------------------------------------------------------------------------

  function AliasKey(k: Key, a: Alias): InternalKey {
    InternalKey(Key(k.namespace, a.functionName), k.name)
  }

  function VersionKey(k: Key, v: Version): InternalKey {
    InternalKey(Key(k.namespace, v.functionName), k.name)
  }

  /** One route was set, the others are as they were. */
  ghost predicate Set(before: map<InternalKey, int>, after: map<InternalKey, int>, mine: InternalKey,
                      want: Option<int>) {
    forall key :: Lookup(after, key) == if key == mine then want else Lookup(before, key)
  }

  /** Functions: the routes of its versions and aliases come and go with a function. */
  predicate HasVersion(o: Objects, k: Key) {
    exists v <- o.versions :: v.namespace == k.namespace && o.versions[v].functionName == k.name
  }

  /** The event changes whether a function with published versions exists. */
  predicate Strands(o: Objects, p: Objects, k: Key) {
    !(k in o.functions <==> k in p.functions) && HasVersion(o, k)
  }

  lemma FunctionKeepsRoute(o: Objects, p: Objects, fold: Fold, k: Key, key: InternalKey)
    requires p.versions == o.versions && p.aliases == o.aliases && SameBut(o.functions, p.functions, k)
    requires key != InternalKey(k, "") && !Strands(o, p, k)
    ensures WantedInternal(o, fold, key) == WantedInternal(p, fold, key)
  {
    if key.suffix != "" {
      if k in o.functions <==> k in p.functions {
        VersionsAlike(o, p, k, key.fn);
      } else if key.fn != k {
        VersionsAlike(o, p, k, key.fn);
      } else {
        assert forall v ::
                 VersionGeneration(o, k.namespace, k.name, v).None? &&
                 VersionGeneration(p, k.namespace, k.name, v).None?;
      }
    }
  }

  lemma VersionsAlike(o: Objects, p: Objects, k: Key, fn: Key)
    requires p.versions == o.versions && SameBut(o.functions, p.functions, k)
    requires fn != k || (k in o.functions <==> k in p.functions)
    ensures forall v :: VersionGeneration(o, fn.namespace, fn.name, v) == VersionGeneration(p, fn.namespace, fn.name, v)
  {
    assert fn == Key(fn.namespace, fn.name);
    assert fn in o.functions <==> fn in p.functions;
  }

  lemma FunctionApplied(o: Objects, p: Objects, fold: Fold, k: Key, before: map<InternalKey, int>,
                        after: map<InternalKey, int>)
    requires p.versions == o.versions && p.aliases == o.aliases && SameBut(o.functions, p.functions, k)
    requires (forall v <- o.versions :: v.name != "") && InternalMatches(o, fold, before)
    requires Set(before, after, InternalKey(k, ""), WantedInternal(p, fold, InternalKey(k, "")))
    ensures InternalMatches(p, fold, after) <==> !Strands(o, p, k)
  {
    if Strands(o, p, k) {
      var v :| v in o.versions && v.namespace == k.namespace && o.versions[v].functionName == k.name;
      var key := InternalKey(k, v.name);
      assert Tag(key) == v && VersionClaims(o, key) && VersionClaims(p, key);
      assert Lookup(after, key) == Lookup(before, key) == WantedInternal(o, fold, key) != WantedInternal(p, fold, key);
    } else {
      forall key ensures Lookup(after, key) == WantedInternal(p, fold, key) {
        if key != InternalKey(k, "") { FunctionKeepsRoute(o, p, fold, k, key); }
        assert Lookup(before, key) == WantedInternal(o, fold, key);
      }
    }
  }

  // Aliases

  /** An alias has no say in what other aliases and versions resolve to. */
  lemma OtherAliasesResolveAlike(o: Objects, p: Objects, fold: Fold, k: Key, key: InternalKey)
    requires p.functions == o.functions && p.versions == o.versions && SameBut(o.aliases, p.aliases, k)
    ensures Tag(key) != k || key.suffix == "" ==> WantedInternal(p, fold, key) == WantedInternal(o, fold, key)
    ensures VersionClaims(o, key) ==> WantedInternal(p, fold, key) == WantedInternal(o, fold, key)
  {
  }

  /** No version of the alias's function has its name, unless both want the same route. */
  predicate Undisputed(o: Objects, fold: Fold, k: Key, a: Alias) {
    k in o.versions && o.versions[k].functionName == a.functionName ==>
      VersionRevision(o, k) == AliasRevision(o.(aliases := o.aliases[k := a]), fold, k)
  }

  /** The alias had a route under another function that no version claims. */
  predicate Abandons(o: Objects, fold: Fold, k: Key, a: Alias) {
    && k in o.aliases && o.aliases[k].functionName != a.functionName
    && AliasRevision(o, fold, k).Some? && !VersionClaims(o, AliasKey(k, o.aliases[k]))
  }

  lemma AliasApplied(o: Objects, fold: Fold, k: Key, a: Alias, before: map<InternalKey, int>,
                     after: map<InternalKey, int>)
    requires k.name != "" && InternalMatches(o, fold, before)
    requires Set(before, after, AliasKey(k, a), AliasRevision(o.(aliases := o.aliases[k := a]), fold, k))
    ensures InternalMatches(o.(aliases := o.aliases[k := a]), fold, after) <==>
            Undisputed(o, fold, k, a) && !Abandons(o, fold, k, a)
  {
    var now, mine := o.(aliases := o.aliases[k := a]), AliasKey(k, a);
    forall key | key != mine
      ensures Lookup(after, key) == WantedInternal(now, fold, key) <==>
              !(Abandons(o, fold, k, a) && key == AliasKey(k, o.aliases[k]))
    {
      OtherAliasesResolveAlike(o, now, fold, k, key);
      assert Lookup(before, key) == WantedInternal(o, fold, key);
    }
    assert Tag(mine) == k && AliasClaims(now, mine);
    assert VersionClaims(now, mine) <==> k in o.versions && o.versions[k].functionName == a.functionName;
    assert Lookup(after, mine) == WantedInternal(now, fold, mine) <==> Undisputed(o, fold, k, a);
    if Abandons(o, fold, k, a) {
      var gone := AliasKey(k, o.aliases[k]);
      assert gone != mine && Lookup(after, gone) != WantedInternal(now, fold, gone);
    }
  }

  /** The routes of a deleted object that nothing else claims were dropped. */
  ghost predicate Dropped(p: Objects, k: Key, before: map<InternalKey, int>, after: map<InternalKey, int>) {
    forall key :: Lookup(after, key) == if Orphaned(p, k.namespace, k.name, key) then None else Lookup(before, key)
  }

  lemma AliasDeleted(o: Objects, p: Objects, fold: Fold, k: Key, before: map<InternalKey, int>,
                     after: map<InternalKey, int>)
    requires p.functions == o.functions && p.versions == o.versions && SameBut(o.aliases, p.aliases, k) &&
             k !in p.aliases
    requires k.name != "" && InternalMatches(o, fold, before) && Dropped(p, k, before, after)
    ensures InternalMatches(p, fold, after)
  {
    forall key ensures Lookup(after, key) == WantedInternal(p, fold, key) {
      OtherAliasesResolveAlike(o, p, fold, k, key);
      assert Lookup(before, key) == WantedInternal(o, fold, key);
    }
  }

  // Versions

  /** An alias that does not rely on the version resolves as before. */
  lemma OtherVersionsResolveAlike(o: Objects, p: Objects, fold: Fold, kv: Key, k: Key)
    requires p.functions == o.functions && p.aliases == o.aliases && SameBut(o.versions, p.versions, kv)
    requires k in o.aliases && (k.namespace == kv.namespace ==> !Relies(o.aliases[k], kv.name))
    ensures AliasRevision(o, fold, k) == AliasRevision(p, fold, k)
  {
  }

  lemma ReliantNeedsVersion(p: Objects, fold: Fold, kv: Key, k: Key)
    requires k in p.aliases && k.namespace == kv.namespace && Relies(p.aliases[k], kv.name) && kv !in p.versions
    ensures AliasRevision(p, fold, k).None?
  {
  }

  /** Aliases whose route may change with the version: those that rely on it and the one named like it. */
  predicate Concerned(o: Objects, kv: Key, k: Key)
    requires k in o.aliases
  {
    k == kv || (k.namespace == kv.namespace && Relies(o.aliases[k], kv.name))
  }

  lemma UnconcernedKeepsRoute(o: Objects, p: Objects, fold: Fold, kv: Key, key: InternalKey)
    requires p.functions == o.functions && p.aliases == o.aliases && SameBut(o.versions, p.versions, kv)
    requires Tag(key) in o.aliases ==> !AliasClaims(o, key) || !Concerned(o, kv, Tag(key))
    requires !VersionClaims(o, key) || Tag(key) != kv
    requires !VersionClaims(p, key) || Tag(key) != kv
    ensures WantedInternal(o, fold, key) == WantedInternal(p, fold, key)
  {
    if AliasClaims(o, key) { OtherVersionsResolveAlike(o, p, fold, kv, Tag(key)); }
  }

  /** The version had a route under another function that no alias claims. */
  predicate AbandonsVersion(o: Objects, kv: Key, v: Version) {
    && kv in o.versions && o.versions[kv].functionName != v.functionName
    && VersionRevision(o, kv).Some? && !AliasClaims(o, VersionKey(kv, o.versions[kv]))
  }

  /** Every concerned alias wants the route it has. */
  predicate AliasesUnmoved(o: Objects, fold: Fold, kv: Key, v: Version) {
    forall k <- o.aliases :: Concerned(o, kv, k) && AliasKey(k, o.aliases[k]) != VersionKey(kv, v) ==>
      var key := AliasKey(k, o.aliases[k]);
      WantedInternal(o, fold, key) == WantedInternal(o.(versions := o.versions[kv := v]), fold, key)
  }

  lemma VersionApplied(o: Objects, fold: Fold, kv: Key, v: Version, before: map<InternalKey, int>,
                       after: map<InternalKey, int>)
    requires kv.name != "" && InternalMatches(o, fold, before)
    requires Set(before, after, VersionKey(kv, v), VersionRevision(o.(versions := o.versions[kv := v]), kv))
    ensures InternalMatches(o.(versions := o.versions[kv := v]), fold, after) <==>
            AliasesUnmoved(o, fold, kv, v) && !AbandonsVersion(o, kv, v)
  {
    var p, mine := o.(versions := o.versions[kv := v]), VersionKey(kv, v);
    assert Tag(mine) == kv && VersionClaims(p, mine) && Lookup(after, mine) == WantedInternal(p, fold, mine);
    if AbandonsVersion(o, kv, v) {
      var gone := VersionKey(kv, o.versions[kv]);
      assert Tag(gone) == kv && VersionClaims(o, gone) && !VersionClaims(p, gone) && gone != mine;
      assert Lookup(before, gone) == WantedInternal(o, fold, gone) != WantedInternal(p, fold, gone);
    }
    if InternalMatches(p, fold, after) {
      forall k <- o.aliases | Concerned(o, kv, k) && AliasKey(k, o.aliases[k]) != mine
        ensures var key := AliasKey(k, o.aliases[k]); WantedInternal(o, fold, key) == WantedInternal(p, fold, key)
      {
        var key := AliasKey(k, o.aliases[k]);
        assert Lookup(after, key) == Lookup(before, key);
      }
    }
    if AliasesUnmoved(o, fold, kv, v) && !AbandonsVersion(o, kv, v) {
      forall key ensures Lookup(after, key) == WantedInternal(p, fold, key) {
        if key != mine {
          UnmovedKeepsRoute(o, fold, kv, v, key);
          assert Lookup(before, key) == WantedInternal(o, fold, key);
        }
      }
    }
  }

  lemma UnmovedKeepsRoute(o: Objects, fold: Fold, kv: Key, v: Version, key: InternalKey)
    requires AliasesUnmoved(o, fold, kv, v) && !AbandonsVersion(o, kv, v) && key != VersionKey(kv, v)
    ensures WantedInternal(o, fold, key) == WantedInternal(o.(versions := o.versions[kv := v]), fold, key)
  {
    var p := o.(versions := o.versions[kv := v]);
    if AliasClaims(o, key) && Concerned(o, kv, Tag(key)) {
      assert key == AliasKey(Tag(key), o.aliases[Tag(key)]);
    } else if Tag(key) == kv && key.suffix != "" {
      assert !VersionClaims(p, key);
      assert VersionClaims(o, key) ==> key == VersionKey(kv, o.versions[kv]);
    } else {
      UnconcernedKeepsRoute(o, p, fold, kv, key);
    }
  }

  /**
   * The version can go: no alias that relies on it has a route of its own, and an alias named like
   * it wants what the version has.
   */
  predicate Expendable(o: Objects, fold: Fold, kv: Key) {
    forall k <- o.aliases :: Concerned(o, kv, k) && (k == kv || !VersionClaims(o, AliasKey(k, o.aliases[k]))) ==>
      WantedInternal(o, fold, AliasKey(k, o.aliases[k])) ==
          if Relies(o.aliases[k], kv.name) then None else AliasRevision(o, fold, k)
  }

  lemma DeletedVersionRoute(o: Objects, p: Objects, fold: Fold, kv: Key, k: Key)
    requires p.functions == o.functions && p.aliases == o.aliases && SameBut(o.versions, p.versions, kv) &&
             kv !in p.versions
    requires k in o.aliases && k.name != "" && Concerned(o, kv, k)
    ensures var key := AliasKey(k, o.aliases[k]);
            WantedInternal(p, fold, key) ==
            if k != kv && VersionClaims(o, key) then WantedInternal(o, fold, key)
            else if Relies(o.aliases[k], kv.name) then None else AliasRevision(o, fold, k)
  {
    var key := AliasKey(k, o.aliases[k]);
    assert Tag(key) == k && AliasClaims(p, key) && AliasClaims(o, key);
    if Relies(o.aliases[k], kv.name) {
      ReliantNeedsVersion(p, fold, kv, k);
    } else {
      OtherVersionsResolveAlike(o, p, fold, kv, k);
    }
  }

  lemma VersionDeleted(o: Objects, p: Objects, fold: Fold, kv: Key, before: map<InternalKey, int>,
                       after: map<InternalKey, int>)
    requires p.functions == o.functions && p.aliases == o.aliases && SameBut(o.versions, p.versions, kv) &&
             kv !in p.versions
    requires kv.name != "" && (forall k <- o.aliases :: k.name != "")
    requires InternalMatches(o, fold, before) && Dropped(p, kv, before, after)
    ensures InternalMatches(p, fold, after) <==> Expendable(o, fold, kv)
  {
    forall k <- o.aliases | Concerned(o, kv, k)
      ensures var key := AliasKey(k, o.aliases[k]); Lookup(after, key) == WantedInternal(o, fold, key)
    {
      var key := AliasKey(k, o.aliases[k]);
      assert Tag(key) == k && AliasClaims(p, key) && Lookup(before, key) == WantedInternal(o, fold, key);
    }
    forall k <- o.aliases | Concerned(o, kv, k)
      ensures var key := AliasKey(k, o.aliases[k]);
              WantedInternal(p, fold, key) ==
              if k != kv && VersionClaims(o, key) then WantedInternal(o, fold, key)
              else if Relies(o.aliases[k], kv.name) then None else AliasRevision(o, fold, k)
    {
      DeletedVersionRoute(o, p, fold, kv, k);
    }
    if Expendable(o, fold, kv) {
      forall key ensures Lookup(after, key) == WantedInternal(p, fold, key) {
        assert Lookup(before, key) == WantedInternal(o, fold, key);
        if AliasClaims(o, key) && Concerned(o, kv, Tag(key)) {
          assert key == AliasKey(Tag(key), o.aliases[Tag(key)]);
        } else if Tag(key) == kv && key.suffix != "" {
          assert !Claimed(p, key) && Orphaned(p, kv.namespace, kv.name, key);
        } else {
          UnconcernedKeepsRoute(o, p, fold, kv, key);
          assert key.suffix == "" || Tag(key) != kv;
        }
      }
    }
  }

  // ---------------------------------------------------------------------------------------------
  // What a version decides
  // ---------------------------------------------------------------------------------------------

  /** The fold is a hash: this says that it meets no collision. */
  ghost predicate TellsApart(fold: Fold) {
    forall g, a, b :: fold(g, a) == fold(g, b) ==> a == b
  }

  /** The event brings the version that is stored already. */
  predicate Stored(o: Objects, kv: Key, v: Version) {
    kv in o.versions && o.versions[kv] == v
  }

  /** No admitted trigger goes through the version. */
  predicate Unused(c: Cluster, kv: Key) {
    forall j <- c.triggers :: Through(c.objects, j, c.triggers[j], kv) ==> !Admit(c, j).Admitted?
  }

  /** No alias that relies on the version resolves, other than one whose route a version has. */
  predicate Unserved(o: Objects, kv: Key, v: Version) {
    forall k <- o.aliases :: Dependent(o, kv, v, k) ==>
      ResolveByAlias(o, k.namespace, o.aliases[k].functionName, k.name).NotFound?
  }

  /** The alias relies on the version and its route is its own. */
  predicate Dependent(o: Objects, kv: Key, v: Version, k: Key)
    requires k in o.aliases
  {
    && k.namespace == kv.namespace && Relies(o.aliases[k], kv.name)
    && AliasKey(k, o.aliases[k]) != VersionKey(kv, v) && !VersionClaims(o, AliasKey(k, o.aliases[k]))
  }

  /** An alias that resolves through a version shows its generation among the backends. */
  lemma BackendShowsVersion(o: Objects, kv: Key, k: Key)
    requires k in o.aliases && k.namespace == kv.namespace && Relies(o.aliases[k], kv.name) && kv.name != ""
    requires ResolveByAlias(o, k.namespace, o.aliases[k].functionName, k.name).Resolved?
    ensures var name := o.aliases[k].functionName;
            var backends := ResolveByAlias(o, k.namespace, name, k.name).backends;
            && kv in o.versions && o.versions[kv].functionName == name && BackendKey(name, kv.name) in backends
            && backends[BackendKey(name, kv.name)] == o.versions[kv].functionGeneration
  {
    var a := o.aliases[k];
    assert k == Key(k.namespace, k.name) && kv == Key(k.namespace, kv.name);
    BackendKeyInjective(a.functionName, a.EffectiveTarget(), a.secondaryVersion);
  }

  /** So a resolution that stays tells that the version stayed. */
  lemma AliasTells(o: Objects, p: Objects, kv: Key, k: Key)
    requires p.functions == o.functions && p.aliases == o.aliases && SameBut(o.versions, p.versions, kv)
    requires k in o.aliases && k.namespace == kv.namespace && Relies(o.aliases[k], kv.name) && kv.name != ""
    requires kv in p.versions
    ensures var name := o.aliases[k].functionName;
            var was, now := ResolveByAlias(o, k.namespace, name, k.name), ResolveByAlias(p, k.namespace, name, k.name);
            && !was.Unsupported? && !now.Unsupported?
            && (Stored(o, kv, p.versions[kv]) ==> was == now)
            && (was.Resolved? && now.Resolved? && was.backends == now.backends ==> Stored(o, kv, p.versions[kv]))
  {
    var name := o.aliases[k].functionName;
    if ResolveByAlias(o, k.namespace, name, k.name).Resolved? { BackendShowsVersion(o, kv, k); }
    if ResolveByAlias(p, k.namespace, name, k.name).Resolved? { BackendShowsVersion(p, kv, k); }
    if Stored(o, kv, p.versions[kv]) {
      assert forall v :: VersionGeneration(o, k.namespace, name, v) == VersionGeneration(p, k.namespace, name, v);
    }
  }

  lemma TriggerTells(c: Cluster, d: Cluster, kv: Key, j: Key)
    requires VersionChanged(c, d, kv) && kv in d.objects.versions && j in c.triggers
    requires Through(c.objects, j, c.triggers[j], kv)
    ensures Admit(c, j) == Admit(d, j) <==>
            Stored(c.objects, kv, d.objects.versions[kv]) || (!Admit(c, j).Admitted? && !Admit(d, j).Admitted?)
  {
    var r, o, p := c.triggers[j].reference, c.objects, d.objects;
    if r.version == "" {
      var k := Key(j.namespace, r.alias);
      AliasTells(o, p, kv, k);
      assert r.name != o.aliases[k].functionName ==>
          Resolve(o, j.namespace, r).NotFound? && Resolve(p, j.namespace, r).NotFound?;
    } else {
      assert kv == Key(j.namespace, r.version);
      PinTells(o, p, kv, r.name);
    }
  }

  lemma PinTells(o: Objects, p: Objects, kv: Key, name: string)
    requires p.functions == o.functions && kv.name != "" && kv in p.versions
    ensures var was, now := VersionGeneration(o, kv.namespace, name, kv.name),
                            VersionGeneration(p, kv.namespace, name, kv.name);
            was == now <==> Stored(o, kv, p.versions[kv]) || (was.None? && now.None?)
  {
    assert kv == Key(kv.namespace, kv.name);
  }

  // ---------------------------------------------------------------------------------------------
  // The handlers
  // ---------------------------------------------------------------------------------------------

  function WithAliases(c: Cluster, aliases: map<Key, Alias>): Cluster {
    c.(objects := c.objects.(aliases := aliases))
  }

  function WithFunctions(c: Cluster, functions: map<Key, Function>): Cluster {
    c.(objects := c.objects.(functions := functions))
  }

  function WithVersions(c: Cluster, versions: map<Key, Version>): Cluster {
    c.(objects := c.objects.(versions := versions))
  }

  /** One version was created, edited or deleted. */
  ghost predicate VersionChanged(c: Cluster, d: Cluster, kv: Key) {
    && d.triggers == c.triggers && d.objects.functions == c.objects.functions
    && d.objects.aliases == c.objects.aliases && SameBut(c.objects.versions, d.objects.versions, kv) && kv.name != ""
  }

  /**
   * An alias was created or edited. Every trigger that can be read is in step afterwards; and unless
   * resolving the alias itself failed, the internal table is exactly when no version wants another
   * route there and no route is left under a former function.
   */
  method ApplyAliasIncremental(t: IndexedTable, c: Cluster, fold: Fold, k: Key, a: Alias, transient: bool,
                               unreadable: set<Key>) returns (res: ApplyResult, failed: bool)
    requires WellFormed(c) && k.name != "" && t.InStep(c) && InternalMatches(c.objects, fold, t.table.internal)
    modifies t.table, t.fnIndex, t.aliasIndex, t.unresolved, t.unresolvedAlias
    ensures var d := WithAliases(c, c.objects.aliases[k := a]);
            && t.InStepBut(d, unreadable) && (!failed ==> t.InStep(d))
            && (failed ==> transient || exists j <- c.triggers :: Hindered(d, unreadable, j))
            && (!transient ==> (InternalMatches(d.objects, fold, t.table.internal) <==>
                                Undisputed(c.objects, fold, k, a) && !Abandons(c.objects, fold, k, a)))
    ensures transient ==> failed && t.table.internal == old(t.table.internal)
    ensures res.NoChange? <==> t.table.internal == old(t.table.internal)
  {
    var d := WithAliases(c, c.objects.aliases[k := a]);
    res := ApplyAliasInternalRoute(t.table, c.objects, fold, k, a, transient);
    failed := t.ReapplyTriggersForAlias(c, d, k, unreadable);
    failed := failed || transient;
  }

  method ApplyAliasInternalRoute(table: RouteTable, o: Objects, fold: Fold, k: Key, a: Alias, transient: bool)
    returns (res: ApplyResult)
    requires k.name != "" && InternalMatches(o, fold, table.internal)
    modifies table`internal
    ensures !transient ==> (InternalMatches(o.(aliases := o.aliases[k := a]), fold, table.internal) <==>
                            Undisputed(o, fold, k, a) && !Abandons(o, fold, k, a))
    ensures transient ==> table.internal == old(table.internal)
    ensures res.NoChange? <==> table.internal == old(table.internal)
  {
    if transient {
      return NoChange;
    }
    ghost var before := table.internal;
    res := table.ApplyInternal(AliasKey(k, a), AliasRevision(o.(aliases := o.aliases[k := a]), fold, k));
    if res.NoChange? { LookupDetermines(table.internal, before); }
    AliasApplied(o, fold, k, a, before, table.internal);
  }

  /** An alias was deleted. Likewise, and the internal table is in step unless a claim could not be read. */
  method DeleteAliasIncremental(t: IndexedTable, c: Cluster, fold: Fold, k: Key, unreadable: set<Key>,
                                unclear: set<InternalKey>) returns (failed: bool)
    requires WellFormed(c) && k.name != "" && t.InStep(c) && InternalMatches(c.objects, fold, t.table.internal)
    modifies t.table, t.fnIndex, t.aliasIndex, t.unresolved, t.unresolvedAlias
    ensures var d := WithAliases(c, c.objects.aliases - {k});
            && t.InStepBut(d, unreadable) && (!failed ==> t.InStep(d))
            && (failed ==> Unclear(k, unclear, old(t.table.internal)) ||
                           exists j <- c.triggers :: Hindered(d, unreadable, j))
            && (!Unclear(k, unclear, old(t.table.internal)) ==> InternalMatches(d.objects, fold, t.table.internal))
    ensures Unclear(k, unclear, old(t.table.internal)) ==> failed
  {
    var d := WithAliases(c, c.objects.aliases - {k});
    ghost var before := t.table.internal;
    var res, unread := t.table.DeleteInternalRouteBySuffix(d.objects, k.namespace, k.name, unclear);
    if !unread {
      DroppedWhenRead(d.objects, k, unclear, before, t.table.internal);
      AliasDeleted(c.objects, d.objects, fold, k, before, t.table.internal);
    }
    failed := t.ReapplyTriggersForAlias(c, d, k, unreadable);
    failed := failed || unread;
  }

  /** Whether some route with the deleted object's name is still claimed could not be read. */
  predicate Unclear(k: Key, unclear: set<InternalKey>, internal: map<InternalKey, int>) {
    exists key <- internal :: HasSuffix(k.namespace, k.name, key) && key in unclear
  }

  lemma DroppedWhenRead(p: Objects, k: Key, unclear: set<InternalKey>, before: map<InternalKey, int>,
                        after: map<InternalKey, int>)
    requires forall key :: Lookup(after, key) ==
                           if Orphaned(p, k.namespace, k.name, key) && key !in unclear then None
                           else Lookup(before, key)
    requires !Unclear(k, unclear, before)
    ensures Dropped(p, k, before, after)
  {
  }

  /**
   * A function was created or edited. Every trigger that can be read is in step afterwards, and the
   * internal table exactly unless the function is new and has versions already: their routes and
   * those of its aliases are not re-applied.
   */
  method ApplyFunctionIncremental(t: IndexedTable, c: Cluster, fold: Fold, k: Key, f: Function, unreadable: set<Key>)
      returns (res: ApplyResult, failed: bool)
    requires WellFormed(c) && PlainNames(c.objects)
    requires t.InStep(c) && InternalMatches(c.objects, fold, t.table.internal)
    modifies t.table, t.fnIndex, t.aliasIndex, t.unresolved, t.unresolvedAlias
    ensures var d := WithFunctions(c, c.objects.functions[k := f]);
            && t.InStepBut(d, unreadable) && (!failed ==> t.InStep(d))
            && (failed ==> exists j <- c.triggers :: Hindered(d, unreadable, j))
            && (InternalMatches(d.objects, fold, t.table.internal) <==>
                k in c.objects.functions || !HasVersion(c.objects, k))
  {
    var d := WithFunctions(c, c.objects.functions[k := f]);
    ghost var before := t.table.internal;
    res := t.table.ApplyFunction(InternalKey(k, ""), f.generation);
    FunctionApplied(c.objects, d.objects, fold, k, before, t.table.internal);
    failed := t.ReapplyTriggersForFunction(c, d, k, unreadable);
  }

  /** A function was deleted. Likewise, exactly unless it existed and versions of it remain. */
  method DeleteFunctionIncremental(t: IndexedTable, c: Cluster, fold: Fold, k: Key, unreadable: set<Key>)
      returns (failed: bool)
    requires WellFormed(c) && PlainNames(c.objects)
    requires t.InStep(c) && InternalMatches(c.objects, fold, t.table.internal)
    modifies t.table, t.fnIndex, t.aliasIndex, t.unresolved, t.unresolvedAlias
    ensures var d := WithFunctions(c, c.objects.functions - {k});
            && t.InStepBut(d, unreadable) && (!failed ==> t.InStep(d))
            && (failed ==> exists j <- c.triggers :: Hindered(d, unreadable, j))
            && (InternalMatches(d.objects, fold, t.table.internal) <==>
                k !in c.objects.functions || !HasVersion(c.objects, k))
  {
    var d := WithFunctions(c, c.objects.functions - {k});
    ghost var before := t.table.internal;
    var _ := t.table.DeleteFunction(InternalKey(k, ""));
    FunctionApplied(c.objects, d.objects, fold, k, before, t.table.internal);
    failed := t.ReapplyTriggersForFunction(c, d, k, unreadable);
  }

  /** A settled entry stays settled exactly when its trigger is admitted as before. */
  lemma EntryTells(c: Cluster, d: Cluster, j: Key, public: map<string, RouteSpec>)
    requires d.triggers == c.triggers && j in c.triggers && Settled(c, j, public)
    ensures Settled(d, j, public) <==> Admit(c, j) == Admit(d, j)
  {
    assert Admit(c, j).Kept? <==> c.triggers[j].valid && c.triggers[j].reference.Unrecognised?;
    assert Admit(d, j).Kept? <==> c.triggers[j].valid && c.triggers[j].reference.Unrecognised?;
  }

  lemma NothingReapplied(c: Cluster, d: Cluster, kv: Key, public: map<string, RouteSpec>, fns: map<Key, seq<Key>>,
                         aliases: map<Key, seq<Key>>)
    requires VersionChanged(c, d, kv) && Synced(c, public, fns, aliases, {})
    ensures Synced(d, public, fns, aliases, {}) <==>
            forall j <- c.triggers :: Through(c.objects, j, c.triggers[j], kv) ==> Admit(c, j) == Admit(d, j)
  {
    assert forall u <- public :: Live(c, u) ==> Live(d, u);
    forall j <- c.triggers
      ensures Settled(d, j, public) && Tracked(d, j, fns, aliases) <==> Admit(c, j) == Admit(d, j)
    {
      EntryTells(c, d, j, public);
      if Admit(c, j) == Admit(d, j) { TrackedStill(c, d, j, fns, aliases); }
    }
    forall j <- c.triggers | !Through(c.objects, j, c.triggers[j], kv) ensures Admit(c, j) == Admit(d, j) {
      VersionMatters(c.objects, d.objects, kv, j, c.triggers[j]);
    }
  }

  lemma VersionSettles(c: Cluster, d: Cluster, kv: Key, public: map<string, RouteSpec>, fns: map<Key, seq<Key>>,
                       aliases: map<Key, seq<Key>>)
    requires VersionChanged(c, d, kv) && Synced(c, public, fns, aliases, {}) && kv in d.objects.versions
    ensures Synced(d, public, fns, aliases, {}) <==>
            Stored(c.objects, kv, d.objects.versions[kv]) || (Unused(c, kv) && Unused(d, kv))
  {
    NothingReapplied(c, d, kv, public, fns, aliases);
    forall j <- c.triggers | Through(c.objects, j, c.triggers[j], kv)
      ensures Admit(c, j) == Admit(d, j) <==>
              Stored(c.objects, kv, d.objects.versions[kv]) || (!Admit(c, j).Admitted? && !Admit(d, j).Admitted?)
    {
      TriggerTells(c, d, kv, j);
    }
  }

  /** Without hash collisions, aliases move exactly when the version is new or edited and one resolves through it. */
  lemma DependentsTell(o: Objects, fold: Fold, kv: Key, v: Version)
    requires kv.name != "" && TellsApart(fold) && (forall k <- o.aliases :: k.name != "")
    requires kv in o.versions ==> o.versions[kv].functionName == v.functionName
    ensures var p := o.(versions := o.versions[kv := v]);
            AliasesUnmoved(o, fold, kv, v) <==> Stored(o, kv, v) || (Unserved(o, kv, v) && Unserved(p, kv, v))
  {
    var p := o.(versions := o.versions[kv := v]);
    forall k <- o.aliases | Concerned(o, kv, k) && AliasKey(k, o.aliases[k]) != VersionKey(kv, v)
      ensures var key := AliasKey(k, o.aliases[k]);
              WantedInternal(o, fold, key) == WantedInternal(p, fold, key) <==>
              Stored(o, kv, v) || (Dependent(o, kv, v, k) ==>
                ResolveByAlias(o, k.namespace, o.aliases[k].functionName, k.name).NotFound? &&
                ResolveByAlias(p, k.namespace, o.aliases[k].functionName, k.name).NotFound?)
      ensures Dependent(o, kv, v, k) <==> Dependent(p, kv, v, k)
    {
      OneDependentTells(o, fold, kv, v, k);
    }
    assert forall k <- o.aliases :: Dependent(o, kv, v, k) ==>
        Concerned(o, kv, k) && AliasKey(k, o.aliases[k]) != VersionKey(kv, v);
    assert forall k <- o.aliases :: Dependent(p, kv, v, k) ==>
        Concerned(o, kv, k) && AliasKey(k, o.aliases[k]) != VersionKey(kv, v);
  }

  lemma OneDependentTells(o: Objects, fold: Fold, kv: Key, v: Version, k: Key)
    requires kv.name != "" && TellsApart(fold) && k in o.aliases && k.name != "" && Concerned(o, kv, k)
    requires kv in o.versions ==> o.versions[kv].functionName == v.functionName
    requires AliasKey(k, o.aliases[k]) != VersionKey(kv, v)
    ensures var p, key := o.(versions := o.versions[kv := v]), AliasKey(k, o.aliases[k]);
            && (Dependent(o, kv, v, k) <==> Dependent(p, kv, v, k))
            && (WantedInternal(o, fold, key) == WantedInternal(p, fold, key) <==>
                Stored(o, kv, v) || (Dependent(o, kv, v, k) ==>
                  ResolveByAlias(o, k.namespace, o.aliases[k].functionName, k.name).NotFound? &&
                  ResolveByAlias(p, k.namespace, o.aliases[k].functionName, k.name).NotFound?))
  {
    var p, key := o.(versions := o.versions[kv := v]), AliasKey(k, o.aliases[k]);
    assert Tag(key) == k && AliasClaims(o, key) && AliasClaims(p, key);
    assert VersionClaims(o, key) <==> VersionClaims(p, key);
    if Relies(o.aliases[k], kv.name) && k.namespace == kv.namespace {
      AliasTells(o, p, kv, k);
    } else {
      OtherVersionsResolveAlike(o, p, fold, kv, k);
    }
  }

  /**
   * A version was created or edited; no trigger or alias is re-applied. Triggers stay in step exactly
   * when the version was stored already or none is admitted through it, before or now. The internal
   * table stays so exactly when no concerned alias moves and no route is left under a former
   * function: without hash collisions, when no alias resolves through the version, before or now.
   */
  method ApplyVersionIncremental(t: IndexedTable, c: Cluster, fold: Fold, kv: Key, v: Version, transient: bool)
      returns (res: ApplyResult, failed: bool)
    requires WellFormed(c) && kv.name != "" && t.InStep(c) && InternalMatches(c.objects, fold, t.table.internal)
    modifies t.table`internal
    ensures var o, d := c.objects, WithVersions(c, c.objects.versions[kv := v]);
            && (t.InStep(d) <==> Stored(o, kv, v) || (Unused(c, kv) && Unused(d, kv)))
            && (!failed ==> (InternalMatches(d.objects, fold, t.table.internal) <==>
                             AliasesUnmoved(o, fold, kv, v) && !AbandonsVersion(o, kv, v)))
            && (!failed && TellsApart(fold) && (kv in o.versions ==> o.versions[kv].functionName == v.functionName) ==>
                (InternalMatches(d.objects, fold, t.table.internal) <==>
                 Stored(o, kv, v) || (Unserved(o, kv, v) && Unserved(d.objects, kv, v))))
    ensures failed <==> transient
    ensures failed ==> res.NoChange? && t.table.internal == old(t.table.internal)
  {
    var d := WithVersions(c, c.objects.versions[kv := v]);
    VersionSettles(c, d, kv, t.table.public, t.unresolved.reverse, t.unresolvedAlias.reverse);
    if transient {
      return NoChange, true;
    }
    failed := false;
    res := ApplyVersionRoute(t.table, c.objects, fold, kv, v);
  }

  method ApplyVersionRoute(table: RouteTable, o: Objects, ghost fold: Fold, kv: Key, v: Version)
      returns (res: ApplyResult)
    requires kv.name != "" && (forall k <- o.aliases :: k.name != "") && InternalMatches(o, fold, table.internal)
    modifies table`internal
    ensures var p := o.(versions := o.versions[kv := v]);
            && (InternalMatches(p, fold, table.internal) <==>
                AliasesUnmoved(o, fold, kv, v) && !AbandonsVersion(o, kv, v))
            && (TellsApart(fold) && (kv in o.versions ==> o.versions[kv].functionName == v.functionName) ==>
                (InternalMatches(p, fold, table.internal) <==>
                 Stored(o, kv, v) || (Unserved(o, kv, v) && Unserved(p, kv, v))))
  {
    ghost var before := table.internal;
    res := table.ApplyInternal(VersionKey(kv, v), VersionRevision(o.(versions := o.versions[kv := v]), kv));
    VersionApplied(o, fold, kv, v, before, table.internal);
    if TellsApart(fold) && (kv in o.versions ==> o.versions[kv].functionName == v.functionName) {
      DependentsTell(o, fold, kv, v);
    }
  }

  /**
   * A version was deleted. Triggers stay in step exactly when no admitted one goes through it, the
   * internal table exactly when it was expendable.
   */
  method DeleteVersionIncremental(t: IndexedTable, c: Cluster, fold: Fold, kv: Key, unclear: set<InternalKey>)
      returns (failed: bool)
    requires WellFormed(c) && kv.name != "" && t.InStep(c) && InternalMatches(c.objects, fold, t.table.internal)
    modifies t.table`internal
    ensures var d := WithVersions(c, c.objects.versions - {kv});
            && (t.InStep(d) <==> Unused(c, kv))
            && (!failed ==> (InternalMatches(d.objects, fold, t.table.internal) <==> Expendable(c.objects, fold, kv)))
    ensures failed <==> Unclear(kv, unclear, old(t.table.internal))
  {
    var d := WithVersions(c, c.objects.versions - {kv});
    VersionLeaves(c, d, kv, t.table.public, t.unresolved.reverse, t.unresolvedAlias.reverse);
    failed := DeleteVersionRoutes(t.table, c.objects, fold, kv, unclear);
  }

  method DeleteVersionRoutes(table: RouteTable, o: Objects, ghost fold: Fold, kv: Key, unclear: set<InternalKey>)
      returns (failed: bool)
    requires kv.name != "" && (forall k <- o.aliases :: k.name != "") && InternalMatches(o, fold, table.internal)
    modifies table`internal
    ensures !failed ==> (InternalMatches(o.(versions := o.versions - {kv}), fold, table.internal) <==>
                         Expendable(o, fold, kv))
    ensures failed <==> Unclear(kv, unclear, old(table.internal))
  {
    var p := o.(versions := o.versions - {kv});
    ghost var before := table.internal;
    var res;
    res, failed := table.DeleteInternalRouteBySuffix(p, kv.namespace, kv.name, unclear);
    if !failed {
      DroppedWhenRead(p, kv, unclear, before, table.internal);
      VersionDeleted(o, p, fold, kv, before, table.internal);
    }
  }

  lemma VersionLeaves(c: Cluster, d: Cluster, kv: Key, public: map<string, RouteSpec>, fns: map<Key, seq<Key>>,
                      aliases: map<Key, seq<Key>>)
    requires VersionChanged(c, d, kv) && Synced(c, public, fns, aliases, {}) && kv !in d.objects.versions
    ensures Synced(d, public, fns, aliases, {}) <==> Unused(c, kv)
  {
    NothingReapplied(c, d, kv, public, fns, aliases);
    forall j <- c.triggers | Through(c.objects, j, c.triggers[j], kv)
      ensures Admit(d, j).Rejected? && !Admit(c, j).Kept?
    {
      ThroughNeedsVersion(c, d, kv, j);
    }
  }

  lemma ThroughNeedsVersion(c: Cluster, d: Cluster, kv: Key, j: Key)
    requires d.triggers == c.triggers && d.objects.aliases == c.objects.aliases && kv !in d.objects.versions
    requires j in c.triggers && Through(c.objects, j, c.triggers[j], kv)
    ensures Admit(d, j).Rejected? && !Admit(c, j).Kept?
  {
  }
}
