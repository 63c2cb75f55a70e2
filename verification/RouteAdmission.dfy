/**
 * What the route of an admitted trigger is built from, told from the objects: the functions and
 * versions the reference reaches, and the generation each of them has.
 */
module RouteAdmission {
  import opened Common
  import opened Resolver
  import opened RouteResync

  /** A function that requests are sent to, at a version or live. */
  datatype Target = Target(fn: string, version: string)

  predicate ThroughAlias(r: Reference) {
    r.ByName? && r.version == "" && r.alias != ""
  }

  /** What a reference reaches. */
  function Targets(o: Objects, namespace: string, r: Reference): set<Target> {
    match r
    case ByWeights(weights) => set f <- weights :: Target(f, "")
    case ByName(name, alias, version) =>
      if !ThroughAlias(r) then {Target(name, version)}
      else if Key(namespace, alias) !in o.aliases then {}
      else
        var a := o.aliases[Key(namespace, alias)];
        {Target(name, if a.version != "" then a.version else a.resolvedVersion)} +
        if a.weight.Some? then {Target(name, a.secondaryVersion)} else {}
    case Unrecognised => {}
  }

  /** The function is live and, at a version, owns it. */
  predicate Reaches(o: Objects, namespace: string, t: Target) {
    && Key(namespace, t.fn) in o.functions
    && (t.version != "" ==> Key(namespace, t.version) in o.versions &&
                            o.versions[Key(namespace, t.version)].functionName == t.fn)
  }

  /** Everything the reference reaches is there; an alias belongs to the function and has its targets. */
  predicate Resolvable(o: Objects, namespace: string, r: Reference) {
    && !r.Unrecognised?
    && (forall t <- Targets(o, namespace, r) :: Reaches(o, namespace, t))
    && (ThroughAlias(r) ==>
          && Key(namespace, r.alias) in o.aliases && o.aliases[Key(namespace, r.alias)].functionName == r.name
          && forall t <- Targets(o, namespace, r) :: t.version != "")
  }

  function GenerationOf(o: Objects, namespace: string, t: Target): int
    requires Reaches(o, namespace, t)
  {
    if t.version == "" then o.functions[Key(namespace, t.fn)].generation
    else o.versions[Key(namespace, t.version)].functionGeneration
  }

  lemma NameIsLive(o: Objects, namespace: string, r: Reference)
    requires r.ByName? && Resolvable(o, namespace, r)
    ensures Key(namespace, r.name) in o.functions
    ensures r.version != "" ==> Key(namespace, r.version) in o.versions
  {
    if ThroughAlias(r) {
      var a := o.aliases[Key(namespace, r.alias)];
      assert Target(r.name, if a.version != "" then a.version else a.resolvedVersion) in Targets(o, namespace, r);
    } else {
      assert Target(r.name, r.version) in Targets(o, namespace, r);
    }
  }

  /** Where the sticky configuration comes from: a version pin's snapshot, else the live function. */
  function StickyGeneration(o: Objects, namespace: string, r: Reference): int
    requires Resolvable(o, namespace, r)
  {
    match r
    case ByWeights(_) => 0
    case ByName(name, alias, version) =>
      NameIsLive(o, namespace, r);
      if version != "" then o.versions[Key(namespace, version)].functionGeneration
      else o.functions[Key(namespace, name)].generation
  }

  /** The route is built from the trigger as it is and from what its reference reaches. */
  predicate Describes(o: Objects, k: Key, t: Trigger, spec: RouteSpec)
    requires Resolvable(o, k.namespace, t.reference)
  {
    var targets := Targets(o, k.namespace, t.reference);
    && spec.key == k && spec.triggerGen == t.generation && spec.shape == t.shape
    && (forall b <- spec.fnGens :: exists x <- targets :: b == BackendKey(x.fn, x.version))
    && (forall x <- targets :: BackendKey(x.fn, x.version) in spec.fnGens &&
                               spec.fnGens[BackendKey(x.fn, x.version)] == GenerationOf(o, k.namespace, x))
    && spec.aliasGens == (if ThroughAlias(t.reference)
                          then map[t.reference.alias := o.aliases[Key(k.namespace, t.reference.alias)].generation]
                          else map[])
    && spec.stickyGen == StickyGeneration(o, k.namespace, t.reference)
  }

  lemma DescribedOnce(o: Objects, k: Key, t: Trigger, a: RouteSpec, b: RouteSpec)
    requires Resolvable(o, k.namespace, t.reference) && Describes(o, k, t, a) && Describes(o, k, t, b)
    ensures a == b
  {
    var targets := Targets(o, k.namespace, t.reference);
    forall key ensures key in a.fnGens <==> key in b.fnGens
      ensures key in a.fnGens && key in b.fnGens ==> a.fnGens[key] == b.fnGens[key]
    {
      if key in a.fnGens {
        var x :| x in targets && key == BackendKey(x.fn, x.version);
      }
    }
    assert a.fnGens == b.fnGens;
  }

  lemma WeightsDescribed(c: Cluster, k: Key)
    requires k in c.triggers && c.triggers[k].valid && c.triggers[k].reference.ByWeights?
    ensures Resolvable(c.objects, k.namespace, c.triggers[k].reference) <==> Admit(c, k).Admitted?
    ensures Admit(c, k).Admitted? ==> Describes(c.objects, k, c.triggers[k], Admit(c, k).spec)
  {
    var o, weights := c.objects, c.triggers[k].reference.weights;
    forall f <- weights ensures Target(f, "") in Targets(o, k.namespace, c.triggers[k].reference) {
    }
    forall f <- weights
      ensures Reaches(o, k.namespace, Target(f, "")) <==> Key(k.namespace, f) in o.functions
    {
    }
  }

  lemma NameDescribed(c: Cluster, k: Key)
    requires k in c.triggers && c.triggers[k].valid && c.triggers[k].reference.ByName?
    requires !ThroughAlias(c.triggers[k].reference)
    ensures Resolvable(c.objects, k.namespace, c.triggers[k].reference) <==> Admit(c, k).Admitted?
    ensures Admit(c, k).Admitted? ==> Describes(c.objects, k, c.triggers[k], Admit(c, k).spec)
  {
    var r := c.triggers[k].reference;
    assert Targets(c.objects, k.namespace, r) == {Target(r.name, r.version)};
  }

  lemma AliasDescribed(c: Cluster, k: Key)
    requires k in c.triggers && c.triggers[k].valid && ThroughAlias(c.triggers[k].reference)
    ensures Resolvable(c.objects, k.namespace, c.triggers[k].reference) <==> Admit(c, k).Admitted?
    ensures Admit(c, k).Admitted? ==> Describes(c.objects, k, c.triggers[k], Admit(c, k).spec)
  {
    var o, r := c.objects, c.triggers[k].reference;
    if Key(k.namespace, r.alias) in o.aliases {
      var a := o.aliases[Key(k.namespace, r.alias)];
      var first, second := Target(r.name, a.EffectiveTarget()), Target(r.name, a.secondaryVersion);
      assert first in Targets(o, k.namespace, r) && (a.weight.Some? ==> second in Targets(o, k.namespace, r));
      BackendKeyInjective(r.name, first.version, second.version);
    }
  }

  lemma ResolvableIsAdmitted(c: Cluster, k: Key)
    requires k in c.triggers && c.triggers[k].valid
    ensures Resolvable(c.objects, k.namespace, c.triggers[k].reference) <==> Admit(c, k).Admitted?
    ensures Admit(c, k).Admitted? ==> Describes(c.objects, k, c.triggers[k], Admit(c, k).spec)
    ensures Admit(c, k).Kept? <==> c.triggers[k].reference.Unrecognised?
  {
    match c.triggers[k].reference {
      case ByWeights(_) => WeightsDescribed(c, k);
      case ByName(_, _, _) =>
        if ThroughAlias(c.triggers[k].reference) { AliasDescribed(c, k); } else { NameDescribed(c, k); }
      case Unrecognised =>
    }
  }

  /** A valid trigger is admitted exactly when its reference can be resolved, with exactly that route. */
  lemma AdmittedExactly(c: Cluster, k: Key, spec: RouteSpec)
    requires k in c.triggers
    ensures var t := c.triggers[k];
            Admit(c, k) == Admitted(spec) <==>
            t.valid && Resolvable(c.objects, k.namespace, t.reference) && Describes(c.objects, k, t, spec)
  {
    var t := c.triggers[k];
    if t.valid {
      ResolvableIsAdmitted(c, k);
      if Resolvable(c.objects, k.namespace, t.reference) && Describes(c.objects, k, t, spec) {
        DescribedOnce(c.objects, k, t, Admit(c, k).spec, spec);
      }
    }
  }
}
