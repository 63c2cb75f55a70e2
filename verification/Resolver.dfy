/** The cluster objects a function reference goes through, and how the router resolves one. */
module Resolver {
  import opened Common
  import opened WeightedPick

  datatype Key = Key(namespace: string, name: string)

  datatype Function = Function(generation: int)

  /** A published snapshot of `function`, taken at its generation `functionGeneration`. */
  datatype Version = Version(functionName: string, functionGeneration: int)

  datatype Alias = Alias(functionName: string, version: string, resolvedVersion: string,
                         weight: Option<int>, secondaryVersion: string,
                         packageDigest: string, specManaged: bool, generation: int)
  {
    /** The version the alias means right now; empty when it has not resolved yet. */
    function EffectiveTarget(): string {
      if version != "" then version else resolvedVersion
    }
  }

  datatype Reference =
    | ByName(name: string, alias: string, version: string)
    | ByWeights(weights: map<string, int>)
    | Unrecognised

  datatype Objects = Objects(functions: map<Key, Function>, versions: map<Key, Version>, aliases: map<Key, Alias>)

  /**
   * `backends` maps each backend key to the generation it was resolved at. `slots` is the weight
   * distribution of a split and empty for a single backend.
   */
  datatype Resolution =
    | Resolved(backends: map<string, int>, slots: seq<Slot>, aliasGens: map<string, int>, stickyGen: int)
    | NotFound
    | Unsupported

  function BackendKey(name: string, version: string): string {
    if version == "" then name else name + "@" + version
  }

  lemma BackendKeyInjective(name: string, v: string, w: string)
    ensures BackendKey(name, v) == BackendKey(name, w) ==> v == w
  {
    assert v != "" ==> BackendKey(name, v)[|name| + 1..] == v;
    assert w != "" ==> BackendKey(name, w)[|name| + 1..] == w;
  }

  /** The generation of a version's projection, provided the function is live and owns the version. */
  function VersionGeneration(o: Objects, namespace: string, name: string, version: string): Option<int> {
    var key := Key(namespace, version);
    if Key(namespace, name) in o.functions && key in o.versions && o.versions[key].functionName == name
    then Some(o.versions[key].functionGeneration)
    else None
  }

  /** A name-pinned alias resolves to one backend, a weighted one to both its targets. */
  function ResolveByAlias(o: Objects, namespace: string, name: string, alias: string): Resolution {
    var key := Key(namespace, alias);
    if key !in o.aliases then NotFound
    else
      var a := o.aliases[key];
      var target := a.EffectiveTarget();
      if a.functionName != name || target == "" then NotFound
      else
        var primary := VersionGeneration(o, namespace, name, target);
        if primary.None? then NotFound
        else
          var live := o.functions[Key(namespace, name)].generation;
          var primaryKey := BackendKey(name, target);
          if a.weight.None? then Resolved(map[primaryKey := primary.value], [], map[alias := a.generation], live)
          else if a.secondaryVersion == "" then NotFound
          else
            var secondary := VersionGeneration(o, namespace, name, a.secondaryVersion);
            if secondary.None? then NotFound
            else
              var secondaryKey := BackendKey(name, a.secondaryVersion);
              Resolved(map[primaryKey := primary.value, secondaryKey := secondary.value],
                       [Slot(primaryKey, a.weight.value, a.weight.value),
                        Slot(secondaryKey, 100 - a.weight.value, 100)],
                       map[alias := a.generation], live)
  }

  /** A trigger's reference. The slots of a weighted reference are built by ResolveByFunctionWeights. */
  function Resolve(o: Objects, namespace: string, reference: Reference): Resolution {
    match reference
    case Unrecognised => Unsupported
    case ByWeights(weights) =>
      if forall f <- weights :: Key(namespace, f) in o.functions
      then Resolved(map f | f in weights :: o.functions[Key(namespace, f)].generation, [], map[], 0)
      else NotFound
    case ByName(name, alias, version) =>
      if version != "" then
        var generation := VersionGeneration(o, namespace, name, version);
        if generation.None? then NotFound
        else Resolved(map[BackendKey(name, version) := generation.value], [], map[], generation.value)
      else if alias != "" then ResolveByAlias(o, namespace, name, alias)
      else if Key(namespace, name) in o.functions then
        var live := o.functions[Key(namespace, name)].generation;
        Resolved(map[name := live], [], map[], live)
      else NotFound
  }

  /** The backend that a request with a sticky key reaches through an alias. */
  function Serves(o: Objects, namespace: string, name: string, alias: string, key: Bytes): Option<string> {
    match ResolveByAlias(o, namespace, name, alias)
    case Resolved(backends, slots, _, _) =>
      if slots == [] then Some(BackendKey(name, o.aliases[Key(namespace, alias)].EffectiveTarget()))
        else Some(Backend(slots, key))
    case _ => None
  }

  /** The slots of an alias's split share out one hundred draws, running totals when the weight is one of them. */
  lemma SplitIsCumulative(o: Objects, namespace: string, name: string, alias: string)
    requires ResolveByAlias(o, namespace, name, alias).Resolved?
    ensures var slots, a := ResolveByAlias(o, namespace, name, alias).slots, o.aliases[Key(namespace, alias)];
            if a.weight.None? then slots == []
            else
              && |slots| == 2 && slots[0].weight == a.weight.value && slots[0].weight + slots[1].weight == 100
              && Total(slots) == 100 && (Cumulative(slots) <==> 0 <= a.weight.value <= 100)
  {
    var slots, a := ResolveByAlias(o, namespace, name, alias).slots, o.aliases[Key(namespace, alias)];
    if a.weight.Some? {
      assert Summed(slots, 0) <==> a.weight.value >= 0;
      assert Summed(slots, 1) <==> a.weight.value <= 100;
    }
  }

  /** During a split the primary keeps exactly the sticky keys whose draw is below its weight. */
  lemma SplitServes(o: Objects, namespace: string, name: string, alias: string, key: Bytes)
    requires Key(namespace, alias) in o.aliases && ResolveByAlias(o, namespace, name, alias).Resolved?
    requires o.aliases[Key(namespace, alias)].EffectiveTarget() != o.aliases[Key(namespace, alias)].secondaryVersion
    ensures var a := o.aliases[Key(namespace, alias)];
            Serves(o, namespace, name, alias, key) ==
            Some(BackendKey(name, if a.weight.Some? && StickyDraw(key, 100) >= a.weight.value then a.secondaryVersion
                                  else a.EffectiveTarget()))
  {
    var a := o.aliases[Key(namespace, alias)];
    if a.weight.Some? {
      BackendKeyInjective(name, a.EffectiveTarget(), a.secondaryVersion);
      TwoWaySplit(BackendKey(name, a.EffectiveTarget()), BackendKey(name, a.secondaryVersion), a.weight.value,
                  StickyDraw(key, 100));
    }
  }
}
