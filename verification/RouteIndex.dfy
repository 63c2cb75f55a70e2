/**
 * The indexes of the route table: which triggers resolve through a function or an alias, and which
 * refer to one that could not be resolved. They tell the event handlers what to re-apply.
 */
module RouteIndex {
  import opened Common
  import opened Resolver
  import opened RouteResync
  import opened RouteAdmission
  import Paths

  /** Edges between functions or aliases and triggers, kept in both directions. */
  class BiIndex<K(==, !new)> {
    var forward: map<Key, set<K>>
    var reverse: map<K, seq<Key>>

    /** The two directions hold the same edges, and no empty set is kept. */
    ghost predicate Valid()
      reads this
    {
      && (forall key: Key, t: K :: t in Edges(key) <==> t in reverse && key in reverse[t])
      && (forall key <- forward :: forward[key] != {})
    }

    function Edges(key: Key): set<K>
      reads this
    {
      if key in forward then forward[key] else {}
    }

    constructor ()
      ensures Valid() && reverse == map[]
    {
      forward, reverse := map[], map[];
    }

    method Add(key: Key, t: K)
      modifies this`forward
      ensures forall k :: Edges(k) == if k == key then old(Edges(k)) + {t} else old(Edges(k))
      ensures (forall k <- old(forward) :: old(forward)[k] != {}) ==> forall k <- forward :: forward[k] != {}
    {
      forward := forward[key := (if key in forward then forward[key] else {}) + {t}];
    }

    method Remove(key: Key, t: K)
      modifies this`forward
      ensures forall k :: Edges(k) == if k == key then old(Edges(k)) - {t} else old(Edges(k))
      ensures (forall k <- old(forward) :: old(forward)[k] != {}) ==> forall k <- forward :: forward[k] != {}
    {
      if key in forward {
        var rest := forward[key] - {t};
        forward := if rest == {} then forward - {key} else forward[key := rest];
      }
    }

    /** Finds the trigger's edges through the reverse direction instead of a scan. */
    method DropTrigger(t: K)
      requires Valid()
      modifies this
      ensures Valid() && reverse == old(reverse) - {t}
    {
      var keys := if t in reverse then reverse[t] else [];
      for i := 0 to |keys|
        invariant reverse == old(reverse) && forall key <- forward :: forward[key] != {}
        invariant forall key :: Edges(key) == if key in keys[..i] then old(Edges(key)) - {t} else old(Edges(key))
      {
        Remove(keys[i], t);
        assert keys[..i + 1] == keys[..i] + [keys[i]];
      }
      assert keys[..|keys|] == keys;
      reverse := reverse - {t};
      forall key: Key, u: K ensures u in Edges(key) <==> u in reverse && key in reverse[u] {
        assert u in old(Edges(key)) <==> u in old(reverse) && key in old(reverse)[u];
        assert key in keys <==> t in old(reverse) && key in old(reverse)[t];
      }
    }

    method Reindex(t: K, keys: seq<Key>)
      requires Valid()
      modifies this
      ensures Valid() && reverse == old(reverse)[t := keys]
    {
      DropTrigger(t);
      label Dropped:
      for i := 0 to |keys|
        invariant reverse == old@Dropped(reverse) && forall key <- forward :: forward[key] != {}
        invariant forall key ::
                    Edges(key) == old@Dropped(Edges(key)) + if key in keys[..i] then {t} else {}
      {
        Add(keys[i], t);
        assert keys[..i + 1] == keys[..i] + [keys[i]];
      }
      assert keys[..|keys|] == keys;
      reverse := reverse[t := keys];
      forall key: Key, u: K ensures u in Edges(key) <==> u in reverse && key in reverse[u] {
        assert u in old@Dropped(Edges(key)) <==> u in old@Dropped(reverse) && key in old@Dropped(reverse)[u];
      }
    }
  }

  function Elements<T>(s: seq<T>): set<T> {
    set x <- s
  }

  method Listing<T(==)>(items: set<T>) returns (list: seq<T>)
    ensures Elements(list) == items
  {
    list := [];
    var left := items;
    while left != {}
      invariant left <= items && Elements(list) == items - left
      decreases left
    {
      var x :| x in left;
      assert Elements(list + [x]) == Elements(list) + {x};
      list := list + [x];
      left := left - {x};
    }
  }

  lemma Removed<V>(m: map<string, V>, gone: set<string>, left: set<string>, u: string)
    requires u in left && left <= gone
    ensures (m - (gone - left)) - {u} == m - (gone - (left - {u}))
  {
  }

  // ---------------------------------------------------------------------------------------------
  // What an entry was resolved through and what a reference names
  // ---------------------------------------------------------------------------------------------

  /** The function name of a backend key. */
  function FunctionOf(backend: string): string {
    backend[..Paths.IndexOf(backend, '@')]
  }

  /** The functions and aliases an entry was resolved through. */
  function FnKeys(spec: RouteSpec): set<Key> {
    set b <- spec.fnGens :: Key(spec.key.namespace, FunctionOf(b))
  }

  function AliasKeys(spec: RouteSpec): set<Key> {
    set a <- spec.aliasGens :: Key(spec.key.namespace, a)
  }

  /** The functions and aliases a trigger's reference names. */
  function ReferencedFunctions(k: Key, r: Reference): set<Key> {
    match r
    case ByName(name, _, _) => {Key(k.namespace, name)}
    case ByWeights(weights) => set f <- weights :: Key(k.namespace, f)
    case Unrecognised => {}
  }

  function ReferencedAliases(k: Key, r: Reference): set<Key> {
    if r.ByName? && r.alias != "" then {Key(k.namespace, r.alias)} else {}
  }

  /** The resolved indexes hold, for every stored entry, what it was resolved through. */
  ghost predicate Mirrors(public: map<string, RouteSpec>, fns: map<string, seq<Key>>, aliases: map<string, seq<Key>>) {
    && fns.Keys == public.Keys && aliases.Keys == public.Keys
    && forall u <- public :: Elements(fns[u]) == FnKeys(public[u]) && Elements(aliases[u]) == AliasKeys(public[u])
  }

  lemma MirrorsLess(public: map<string, RouteSpec>, fns: map<string, seq<Key>>, aliases: map<string, seq<Key>>,
                    key: Key, gone: set<string>)
    requires Mirrors(public, fns, aliases) && gone == set u <- public | public[u].key == key
    ensures Mirrors(WithoutName(public, key), fns - gone, aliases - gone)
  {
    assert WithoutName(public, key) == public - gone;
  }

  lemma MirrorsMore(public: map<string, RouteSpec>, fns: map<string, seq<Key>>, aliases: map<string, seq<Key>>,
                    uid: string, spec: RouteSpec, fnKeys: seq<Key>, aliasKeys: seq<Key>)
    requires Mirrors(public, fns, aliases)
    requires Elements(fnKeys) == FnKeys(spec) && Elements(aliasKeys) == AliasKeys(spec)
    ensures Mirrors(public[uid := spec], fns[uid := fnKeys], aliases[uid := aliasKeys])
  {
  }

  function NamesOf(public: map<string, RouteSpec>, uids: set<string>): set<Key> {
    set u | u in uids && u in public :: public[u].key
  }

  /** The triggers whose entry was resolved through a function or an alias. */
  function FunctionUsers(public: map<string, RouteSpec>, key: Key): set<Key> {
    set u <- public | key in FnKeys(public[u]) :: public[u].key
  }

  function AliasUsers(public: map<string, RouteSpec>, key: Key): set<Key> {
    set u <- public | key in AliasKeys(public[u]) :: public[u].key
  }

  function Waiting(marks: map<Key, seq<Key>>, key: Key): set<Key> {
    set j <- marks | key in marks[j]
  }

  // ---------------------------------------------------------------------------------------------
  // What changes when one object changes
  // ---------------------------------------------------------------------------------------------

  predicate SameBut<K(!new), V(==)>(m: map<K, V>, n: map<K, V>, k: K) {
    (forall x <- m :: x != k ==> x in n && n[x] == m[x]) && (forall x <- n :: x != k ==> x in m)
  }

  predicate RefersToAlias(j: Key, r: Reference, k: Key) {
    j.namespace == k.namespace && r.ByName? && r.version == "" && r.alias == k.name
  }

  predicate RefersToFunction(j: Key, r: Reference, k: Key) {
    j.namespace == k.namespace &&
    match r
    case ByName(name, _, _) => name == k.name
    case ByWeights(weights) => k.name in weights
    case Unrecognised => false
  }

  lemma AliasMatters(o: Objects, p: Objects, k: Key, j: Key, r: Reference)
    requires p.functions == o.functions && p.versions == o.versions && SameBut(o.aliases, p.aliases, k)
    requires !RefersToAlias(j, r, k)
    ensures Resolve(o, j.namespace, r) == Resolve(p, j.namespace, r)
  {
  }

  lemma FunctionMatters(o: Objects, p: Objects, k: Key, j: Key, r: Reference)
    requires p.versions == o.versions && p.aliases == o.aliases && SameBut(o.functions, p.functions, k)
    requires !RefersToFunction(j, r, k)
    ensures Resolve(o, j.namespace, r) == Resolve(p, j.namespace, r)
  {
    match r {
      case ByWeights(weights) => WeightsAlike(o, p, k, j.namespace, weights);
      case ByName(name, _, _) => NameAlike(o, p, j.namespace, r);
      case Unrecognised =>
    }
  }

  lemma WeightsAlike(o: Objects, p: Objects, k: Key, namespace: string, weights: map<string, int>)
    requires SameBut(o.functions, p.functions, k) && (namespace == k.namespace ==> k.name !in weights)
    ensures Resolve(o, namespace, ByWeights(weights)) == Resolve(p, namespace, ByWeights(weights))
  {
    forall f <- weights ensures Lookup(o.functions, Key(namespace, f)) == Lookup(p.functions, Key(namespace, f)) {
      assert Key(namespace, f) != k;
    }
    if forall f <- weights :: Key(namespace, f) in o.functions {
      assert (map f | f in weights :: o.functions[Key(namespace, f)].generation) ==
             map f | f in weights :: p.functions[Key(namespace, f)].generation;
    }
  }

  lemma NameAlike(o: Objects, p: Objects, namespace: string, r: Reference)
    requires r.ByName? && p.versions == o.versions && p.aliases == o.aliases
    requires Lookup(o.functions, Key(namespace, r.name)) == Lookup(p.functions, Key(namespace, r.name))
    ensures Resolve(o, namespace, r) == Resolve(p, namespace, r)
  {
    assert forall v :: VersionGeneration(o, namespace, r.name, v) == VersionGeneration(p, namespace, r.name, v);
  }

  /** One function was created, edited or deleted. */
  ghost predicate FunctionChanged(c: Cluster, d: Cluster, k: Key) {
    && d.triggers == c.triggers && d.objects.versions == c.objects.versions && d.objects.aliases == c.objects.aliases
    && SameBut(c.objects.functions, d.objects.functions, k)
  }

  ghost predicate AliasChanged(c: Cluster, d: Cluster, k: Key) {
    && d.triggers == c.triggers && d.objects.versions == c.objects.versions
    && d.objects.functions == c.objects.functions
    && SameBut(c.objects.aliases, d.objects.aliases, k) && k.name != ""
  }

  /**
   * What the edit of a function means for a trigger that names it: its route changes exactly with the
   * function's generation, unless the trigger is pinned to a version.
   */
  lemma FunctionTells(c: Cluster, d: Cluster, k: Key, j: Key)
    requires FunctionChanged(c, d, k) && j in c.triggers && RefersToFunction(j, c.triggers[j].reference, k)
    requires Admit(c, j).Admitted? && Admit(d, j).Admitted?
    ensures k in c.objects.functions && k in d.objects.functions
    ensures var r := c.triggers[j].reference;
            Admit(c, j) == Admit(d, j) <==>
            || c.objects.functions[k].generation == d.objects.functions[k].generation
            || (r.ByName? && r.version != "")
  {
    var r := c.triggers[j].reference;
    assert k == Key(j.namespace, k.name);
    match r {
      case ByWeights(weights) =>
        forall f <- weights | f != k.name
          ensures Lookup(c.objects.functions, Key(j.namespace, f)) == Lookup(d.objects.functions, Key(j.namespace, f))
        {
          assert Key(j.namespace, f) != k;
        }
        assert Admit(c, j).spec.fnGens[k.name] == c.objects.functions[k].generation;
        assert Admit(d, j).spec.fnGens[k.name] == d.objects.functions[k].generation;
      case ByName(_, _, _) =>
        assert forall v :: VersionGeneration(c.objects, j.namespace, r.name, v) ==
                           VersionGeneration(d.objects, j.namespace, r.name, v);
    }
  }

  /** So a table that was in step before an edit is not after it: a resync counts drift. */
  lemma EditIsDrift(c: Cluster, d: Cluster, k: Key, j: Key, public: map<string, RouteSpec>)
    requires FunctionChanged(c, d, k) && j in c.triggers && RefersToFunction(j, c.triggers[j].reference, k)
    requires Admit(c, j).Admitted? && Admit(d, j).Admitted? && PublicMatches(c, public, public)
    requires c.triggers[j].reference.ByName? ==> c.triggers[j].reference.version == ""
    requires Lookup(c.objects.functions, k) != Lookup(d.objects.functions, k)
    ensures !PublicMatches(d, public, public)
  {
    FunctionTells(c, d, k, j);
    assert Lookup(public, c.triggers[j].uid) == Some(Admit(c, j).spec) != WantedPublic(d, j, None);
  }

  /** Applying a trigger changes nothing exactly when the stored route is built from what is there now. */
  lemma UnchangedExactly(d: Cluster, public: map<string, RouteSpec>, k: Key)
    requires k in d.triggers && d.triggers[k].valid && Resolvable(d.objects, k.namespace, d.triggers[k].reference)
    ensures var t := d.triggers[k];
            AfterTrigger(d, public, k) == public <==> t.uid in public && Describes(d.objects, k, t, public[t.uid])
  {
    var t := d.triggers[k];
    ResolvableIsAdmitted(d, k);
    var spec := Admit(d, k).spec;
    if t.uid in public {
      AdmittedExactly(d, k, public[t.uid]);
      assert public[t.uid] == spec ==> public[t.uid := spec] == public;
    }
    assert public[t.uid := spec][t.uid] == spec;
  }

  // ---------------------------------------------------------------------------------------------
  // Triggers that are in step
  // ---------------------------------------------------------------------------------------------

  /** The unresolved indexes hold what the reference names. */
  ghost predicate Marked(k: Key, r: Reference, fns: map<Key, seq<Key>>, aliases: map<Key, seq<Key>>) {
    && k in fns && Elements(fns[k]) == ReferencedFunctions(k, r)
    && k in aliases && Elements(aliases[k]) == ReferencedAliases(k, r)
  }

  predicate Unresolvable(c: Cluster, k: Key)
    requires k in c.triggers
  {
    c.triggers[k].valid && Resolve(c.objects, k.namespace, c.triggers[k].reference).NotFound?
  }

  ghost predicate Tracked(c: Cluster, k: Key, fns: map<Key, seq<Key>>, aliases: map<Key, seq<Key>>)
    requires k in c.triggers
  {
    Unresolvable(c, k) ==> Marked(k, c.triggers[k].reference, fns, aliases)
  }

  lemma TrackedApart(c: Cluster, j: Key, k: Key, fns: map<Key, seq<Key>>, aliases: map<Key, seq<Key>>,
                     fns': map<Key, seq<Key>>, aliases': map<Key, seq<Key>>)
    requires j in c.triggers && j != k && Tracked(c, j, fns, aliases)
    requires SameBut(fns, fns', k) && SameBut(aliases, aliases', k)
    ensures Tracked(c, j, fns', aliases')
  {
  }

  lemma TrackedStill(c: Cluster, d: Cluster, j: Key, fns: map<Key, seq<Key>>, aliases: map<Key, seq<Key>>)
    requires d.triggers == c.triggers && j in c.triggers && Admit(c, j) == Admit(d, j) && Tracked(c, j, fns, aliases)
    ensures Tracked(d, j, fns, aliases)
  {
  }

  /** The trigger has the entry it wants. */
  predicate Settled(c: Cluster, j: Key, public: map<string, RouteSpec>)
    requires j in c.triggers
  {
    var entry := Lookup(public, c.triggers[j].uid); entry == WantedPublic(c, j, entry)
  }

  /** All entries belong to live triggers, and those outside `stale` have what they want. */
  ghost predicate Synced(c: Cluster, public: map<string, RouteSpec>, fns: map<Key, seq<Key>>,
                         aliases: map<Key, seq<Key>>, stale: set<Key>) {
    && Reachable(c, public) && (forall u <- public :: Live(c, u))
    && forall j <- c.triggers :: j !in stale ==> Settled(c, j, public) && Tracked(c, j, fns, aliases)
  }

  /** The trigger cannot be applied now. */
  predicate Hindered(d: Cluster, unreadable: set<Key>, k: Key)
    requires k in d.triggers
  {
    k in unreadable || Admit(d, k).Kept?
  }

  lemma OneLess(todo: set<Key>, keys: set<Key>, unreadable: set<Key>, k: Key)
    requires k in todo && todo <= keys
    ensures todo + keys * unreadable - ({k} - unreadable) == (todo - {k}) + keys * unreadable
  {
  }

  /** The triggers outside `left` have been applied, and those that cannot be resolved are marked. */
  ghost predicate Caught(d: Cluster, before: map<string, RouteSpec>, public: map<string, RouteSpec>,
                         fns: map<Key, seq<Key>>, aliases: map<Key, seq<Key>>, left: set<Key>) {
    Partway(d, before, public, left) && forall j <- d.triggers :: j !in left ==> Tracked(d, j, fns, aliases)
  }

  lemma CaughtSettles(d: Cluster, before: map<string, RouteSpec>, public: map<string, RouteSpec>,
                      fns: map<Key, seq<Key>>, aliases: map<Key, seq<Key>>, left: set<Key>)
    requires Caught(d, before, public, fns, aliases, left) && forall u <- before :: Live(d, u)
    ensures Reachable(d, public) && forall u <- public :: Live(d, u)
    ensures forall j <- d.triggers :: j !in left ==> Settled(d, j, public) && Tracked(d, j, fns, aliases)
  {
  }

  // ---------------------------------------------------------------------------------------------
  // The lookups find every trigger that an event can touch
  // ---------------------------------------------------------------------------------------------

  /** Function names hold no version separator. */
  predicate PlainNames(o: Objects) {
    forall k <- o.functions :: '@' !in k.name
  }

  lemma FunctionOfBackend(name: string, version: string)
    requires '@' !in name
    ensures FunctionOf(BackendKey(name, version)) == name
  {
    IndexOfAt(name, version);
    assert BackendKey(name, version)[..|name|] == name;
  }

  lemma {:induction false} IndexOfAt(name: string, version: string)
    requires '@' !in name
    ensures Paths.IndexOf(BackendKey(name, version), '@') == |name|
  {
    var key := BackendKey(name, version);
    if name == "" {
      assert version != "" ==> key == "@" + version;
    } else {
      assert name[0] in name && key[1..] == BackendKey(name[1..], version);
      IndexOfAt(name[1..], version);
    }
  }

  /** An admitted entry was resolved through every function its trigger names. */
  lemma EntryNamesFunction(o: Objects, j: Key, r: Reference, spec: RouteSpec, k: Key)
    requires PlainNames(o) && RefersToFunction(j, r, k) && spec.key == j
    requires Resolve(o, j.namespace, r).Resolved? && spec.fnGens == Resolve(o, j.namespace, r).backends
    ensures k in FnKeys(spec)
  {
    assert k == Key(j.namespace, k.name) && k in o.functions;
    match r {
      case ByWeights(weights) =>
        FunctionOfBackend(k.name, "");
        assert k.name in spec.fnGens;
      case ByName(name, alias, version) =>
        var target := if version != "" then version
                      else if alias != "" then o.aliases[Key(j.namespace, alias)].EffectiveTarget() else "";
        FunctionOfBackend(name, target);
        assert BackendKey(name, target) in spec.fnGens;
    }
  }

  lemma EntryNamesAlias(o: Objects, j: Key, r: Reference, spec: RouteSpec, k: Key)
    requires RefersToAlias(j, r, k) && k.name != "" && spec.key == j
    requires Resolve(o, j.namespace, r).Resolved? && spec.aliasGens == Resolve(o, j.namespace, r).aliasGens
    ensures k in AliasKeys(spec)
  {
    assert k == Key(j.namespace, k.name) && k.name in spec.aliasGens;
  }

  lemma ReferenceNamesFunction(j: Key, r: Reference, k: Key)
    requires RefersToFunction(j, r, k)
    ensures k in ReferencedFunctions(j, r)
  {
    assert k == Key(j.namespace, k.name);
  }

  lemma ReferenceNamesAlias(j: Key, r: Reference, k: Key)
    requires RefersToAlias(j, r, k) && k.name != ""
    ensures k in ReferencedAliases(j, r)
  {
    assert k == Key(j.namespace, k.name);
  }

  /** A trigger that the lookup of a function does not list is admitted as before the function's change. */
  lemma FunctionListed(c: Cluster, d: Cluster, k: Key, j: Key, public: map<string, RouteSpec>,
                       fns: map<Key, seq<Key>>, aliases: map<Key, seq<Key>>)
    requires FunctionChanged(c, d, k) && PlainNames(c.objects) && j in c.triggers
    requires Settled(c, j, public) && Reachable(c, public) && Tracked(c, j, fns, aliases)
    requires j !in FunctionUsers(public, k) + Waiting(fns, k)
    ensures Admit(c, j) == Admit(d, j)
  {
    var t := c.triggers[j];
    if RefersToFunction(j, t.reference, k) {
      ReferenceNamesFunction(j, t.reference, k);
      if Admit(c, j).Admitted? {
        EntryNamesFunction(c.objects, j, t.reference, public[t.uid], k);
      }
    } else {
      FunctionMatters(c.objects, d.objects, k, j, t.reference);
    }
  }

  /** Likewise for an alias. */
  lemma AliasListed(c: Cluster, d: Cluster, k: Key, j: Key, public: map<string, RouteSpec>,
                    fns: map<Key, seq<Key>>, aliases: map<Key, seq<Key>>)
    requires AliasChanged(c, d, k) && j in c.triggers
    requires Settled(c, j, public) && Reachable(c, public) && Tracked(c, j, fns, aliases)
    requires j !in AliasUsers(public, k) + Waiting(aliases, k)
    ensures Admit(c, j) == Admit(d, j)
  {
    var t := c.triggers[j];
    if RefersToAlias(j, t.reference, k) {
      ReferenceNamesAlias(j, t.reference, k);
      if Admit(c, j).Admitted? {
        EntryNamesAlias(c.objects, j, t.reference, public[t.uid], k);
      }
    } else {
      AliasMatters(c.objects, d.objects, k, j, t.reference);
    }
  }

  // ---------------------------------------------------------------------------------------------
  // The resync's sweep
  // ---------------------------------------------------------------------------------------------

  /** No entry carries the name of a trigger outside `left` that is not admitted. */
  ghost predicate Shed(c: Cluster, public: map<string, RouteSpec>, left: set<Key>) {
    forall j <- c.triggers, u <- public :: j !in left && Admit(c, j).Rejected? ==> public[u].key != j
  }

  lemma ShedStep(c: Cluster, public: map<string, RouteSpec>, left: set<Key>, k: Key)
    requires k in left && k in c.triggers && Shed(c, public, left)
    ensures Shed(c, AfterTrigger(c, public, k), left - {k})
  {
  }

  /** What the sweep finds: every live trigger has what it wants, other entries may be there too. */
  ghost predicate Sweepable(c: Cluster, public: map<string, RouteSpec>, fns: map<Key, seq<Key>>,
                            aliases: map<Key, seq<Key>>) {
    && Reachable(c, public) && Shed(c, public, {})
    && forall j <- c.triggers :: Settled(c, j, public) && Tracked(c, j, fns, aliases)
  }

  lemma CaughtIsSweepable(c: Cluster, before: map<string, RouteSpec>, public: map<string, RouteSpec>,
                          fns: map<Key, seq<Key>>, aliases: map<Key, seq<Key>>)
    requires Caught(c, before, public, fns, aliases, {}) && Shed(c, public, {})
    ensures Sweepable(c, public, fns, aliases)
  {
  }

  lemma StillSweepable(c: Cluster, public: map<string, RouteSpec>, fns: map<Key, seq<Key>>, aliases: map<Key, seq<Key>>,
                       fns': map<Key, seq<Key>>, aliases': map<Key, seq<Key>>, u: string)
    requires Sweepable(c, public, fns, aliases) && u in public && !Live(c, u)
    requires SameBut(fns, fns', public[u].key) && SameBut(aliases, aliases', public[u].key)
    ensures Sweepable(c, public - {u}, fns', aliases')
  {
    var key := public[u].key;
    assert key in c.triggers ==> !Admit(c, key).Rejected?;
    forall j <- c.triggers ensures Settled(c, j, public - {u}) && Tracked(c, j, fns', aliases') {
      assert c.triggers[j].uid != u && Settled(c, j, public);
      if j != key { TrackedApart(c, j, key, fns, aliases, fns', aliases'); }
    }
  }

  // ---------------------------------------------------------------------------------------------
  // A trigger's own events
  // ---------------------------------------------------------------------------------------------

  /** The trigger came back under a new UID, is not rejected, and has its old route still. */
  predicate Outlived(c: Cluster, d: Cluster, public: map<string, RouteSpec>, k: Key)
    requires k in d.triggers
  {
    && k in c.triggers && c.triggers[k].uid != d.triggers[k].uid && c.triggers[k].uid in public
    && !Admit(d, k).Rejected?
  }

  lemma EntriesStillNamed(c: Cluster, d: Cluster, public: map<string, RouteSpec>, k: Key)
    requires WellFormed(d) && SameBut(c.triggers, d.triggers, k)
    requires Reachable(c, public) && forall u <- public :: Live(c, u)
    ensures Reachable(d, public)
  {
  }

  lemma OldRouteLingers(c: Cluster, d: Cluster, k: Key, before: map<string, RouteSpec>)
    requires WellFormed(c) && SameBut(c.triggers, d.triggers, k) && k in d.triggers && Outlived(c, d, before, k)
    ensures c.triggers[k].uid in AfterTrigger(d, before, k) && !Live(d, c.triggers[k].uid)
  {
    forall j <- d.triggers ensures d.triggers[j].uid != c.triggers[k].uid {
      if j != k { assert d.triggers[j] == c.triggers[j]; }
    }
  }

  lemma StillLive(c: Cluster, d: Cluster, k: Key, before: map<string, RouteSpec>, u: string)
    requires WellFormed(c) && SameBut(c.triggers, d.triggers, k) && k in d.triggers && Reachable(c, before)
    requires (forall v <- before :: Live(c, v)) && !Outlived(c, d, before, k) && u in AfterTrigger(d, before, k)
    ensures Live(d, u)
  {
    if u == d.triggers[k].uid {
      assert Live(d, u);
    } else {
      var j :| j in c.triggers && c.triggers[j].uid == u;
      if j != k { assert d.triggers[j].uid == u; }
    }
  }

  /** What another trigger's event leaves alone. */
  lemma OtherSettled(c: Cluster, d: Cluster, j: Key, k: Key, before: map<string, RouteSpec>,
                     after: map<string, RouteSpec>, fns: map<Key, seq<Key>>, aliases: map<Key, seq<Key>>,
                     fns': map<Key, seq<Key>>, aliases': map<Key, seq<Key>>)
    requires d.objects == c.objects && j in c.triggers && j in d.triggers && c.triggers[j] == d.triggers[j] && j != k
    requires Lookup(after, c.triggers[j].uid) == Lookup(before, c.triggers[j].uid)
    requires SameBut(fns, fns', k) && SameBut(aliases, aliases', k)
    requires Settled(c, j, before) && Tracked(c, j, fns, aliases)
    ensures Settled(d, j, after) && Tracked(d, j, fns', aliases')
  {
    assert Admit(c, j) == Admit(d, j);
    TrackedApart(c, j, k, fns, aliases, fns', aliases');
  }

  lemma TriggerHandled(c: Cluster, d: Cluster, k: Key, before: map<string, RouteSpec>, fns: map<Key, seq<Key>>,
                       aliases: map<Key, seq<Key>>, fns': map<Key, seq<Key>>, aliases': map<Key, seq<Key>>)
    requires WellFormed(c) && WellFormed(d) && d.objects == c.objects && SameBut(c.triggers, d.triggers, k)
    requires k in d.triggers && Reachable(d, before) && Synced(c, before, fns, aliases, {})
    requires Tracked(d, k, fns', aliases') && SameBut(fns, fns', k) && SameBut(aliases, aliases', k)
    ensures Synced(d, AfterTrigger(d, before, k), fns', aliases', {}) <==> !Outlived(c, d, before, k)
  {
    var after := AfterTrigger(d, before, k);
    AfterTriggerStep(d, before, k);
    forall j <- d.triggers ensures Settled(d, j, after) && Tracked(d, j, fns', aliases') {
      if j != k { OtherSettled(c, d, j, k, before, after, fns, aliases, fns', aliases'); }
    }
    if Outlived(c, d, before, k) {
      OldRouteLingers(c, d, k, before);
    } else {
      forall u <- after ensures Live(d, u) { StillLive(c, d, k, before, u); }
    }
  }

  lemma LiveAfterDelete(c: Cluster, d: Cluster, k: Key, public: map<string, RouteSpec>, u: string)
    requires d.triggers == c.triggers - {k} && Reachable(c, public) && u in public && public[u].key != k && Live(c, u)
    ensures Live(d, u)
  {
    var j :| j in c.triggers && c.triggers[j].uid == u;
    assert j in d.triggers;
  }

  lemma TriggerDeleted(c: Cluster, d: Cluster, k: Key, public: map<string, RouteSpec>, fns: map<Key, seq<Key>>,
                       aliases: map<Key, seq<Key>>)
    requires WellFormed(c) && d.objects == c.objects && d.triggers == c.triggers - {k}
    requires Synced(c, public, fns, aliases, {})
    ensures Synced(d, WithoutName(public, k), fns - {k}, aliases - {k}, {})
  {
    var after := WithoutName(public, k);
    forall j <- d.triggers ensures Settled(d, j, after) && Tracked(d, j, fns - {k}, aliases - {k}) {
      OtherSettled(c, d, j, k, public, after, fns, aliases, fns - {k}, aliases - {k});
    }
    forall u <- after ensures Live(d, u) {
      LiveAfterDelete(c, d, k, public, u);
    }
  }

  // ---------------------------------------------------------------------------------------------
  // The table and its indexes
  // ---------------------------------------------------------------------------------------------

  class IndexedTable {
    const table: RouteTable
    const fnIndex: BiIndex<string>
    const aliasIndex: BiIndex<string>
    const unresolved: BiIndex<Key>
    const unresolvedAlias: BiIndex<Key>

    ghost predicate Valid()
      reads this, table, fnIndex, aliasIndex, unresolved, unresolvedAlias
    {
      && fnIndex != aliasIndex && unresolved != unresolvedAlias
      && fnIndex.Valid() && aliasIndex.Valid() && unresolved.Valid() && unresolvedAlias.Valid()
      && Mirrors(table.public, fnIndex.reverse, aliasIndex.reverse)
    }

    constructor ()
      ensures Valid() && table.public == map[] && table.internal == map[]
      ensures unresolved.reverse == map[] && unresolvedAlias.reverse == map[]
      ensures fresh(table) && fresh(fnIndex) && fresh(aliasIndex) && fresh(unresolved) && fresh(unresolvedAlias)
    {
      table := new RouteTable();
      fnIndex := new BiIndex();
      aliasIndex := new BiIndex();
      unresolved := new BiIndex();
      unresolvedAlias := new BiIndex();
    }

    method ClearUnresolved(k: Key)
      requires Valid()
      modifies unresolved, unresolvedAlias
      ensures Valid()
      ensures unresolved.reverse == old(unresolved.reverse) - {k}
      ensures unresolvedAlias.reverse == old(unresolvedAlias.reverse) - {k}
    {
      unresolved.DropTrigger(k);
      unresolvedAlias.DropTrigger(k);
    }

    method MarkUnresolved(k: Key, r: Reference)
      requires Valid()
      modifies unresolved, unresolvedAlias
      ensures Valid() && Marked(k, r, unresolved.reverse, unresolvedAlias.reverse)
      ensures SameBut(old(unresolved.reverse), unresolved.reverse, k)
      ensures SameBut(old(unresolvedAlias.reverse), unresolvedAlias.reverse, k)
    {
      var fns := Listing(ReferencedFunctions(k, r));
      unresolved.Reindex(k, fns);
      var aliases := Listing(ReferencedAliases(k, r));
      unresolvedAlias.Reindex(k, aliases);
    }

    method ApplyTrigger(uid: string, spec: RouteSpec) returns (res: ApplyResult)
      requires Valid()
      modifies table`public, fnIndex, aliasIndex, unresolved, unresolvedAlias
      ensures Valid()
      ensures table.public ==
              if uid in old(table.public) && SameRoute(old(table.public)[uid], spec) then old(table.public)
              else old(table.public)[uid := spec]
      ensures res.NoChange? <==> table.public == old(table.public)
      ensures unresolved.reverse == old(unresolved.reverse) - {spec.key}
      ensures unresolvedAlias.reverse == old(unresolvedAlias.reverse) - {spec.key}
    {
      ClearUnresolved(spec.key);
      ghost var before := table.public;
      res := table.ApplyTrigger(uid, spec);
      if !res.NoChange? {
        ReindexEntry(before, uid, spec);
      }
    }

    method ReindexEntry(ghost public: map<string, RouteSpec>, uid: string, spec: RouteSpec)
      requires fnIndex != aliasIndex && fnIndex.Valid() && aliasIndex.Valid()
      requires Mirrors(public, fnIndex.reverse, aliasIndex.reverse)
      modifies fnIndex, aliasIndex
      ensures fnIndex.Valid() && aliasIndex.Valid()
      ensures Mirrors(public[uid := spec], fnIndex.reverse, aliasIndex.reverse)
    {
      var fns := Listing(FnKeys(spec));
      var aliases := Listing(AliasKeys(spec));
      MirrorsMore(public, fnIndex.reverse, aliasIndex.reverse, uid, spec, fns, aliases);
      fnIndex.Reindex(uid, fns);
      aliasIndex.Reindex(uid, aliases);
    }

    method DeleteTrigger(uid: string) returns (res: ApplyResult)
      requires Valid()
      modifies table`public, fnIndex, aliasIndex, unresolved, unresolvedAlias
      ensures Valid() && table.public == old(table.public) - {uid}
      ensures res == if uid in old(table.public) then ShapeChanged else NoChange
      ensures uid in old(table.public) ==>
                && SameBut(old(unresolved.reverse), unresolved.reverse, old(table.public)[uid].key)
                && SameBut(old(unresolvedAlias.reverse), unresolvedAlias.reverse, old(table.public)[uid].key)
      ensures uid !in old(table.public) ==>
                unresolved.reverse == old(unresolved.reverse) && unresolvedAlias.reverse == old(unresolvedAlias.reverse)
    {
      if uid in table.public {
        ClearUnresolved(table.public[uid].key);
        fnIndex.DropTrigger(uid);
        aliasIndex.DropTrigger(uid);
      }
      res := table.DeleteTrigger(uid);
    }

    method DeleteTriggerByName(key: Key) returns (res: ApplyResult)
      requires Valid()
      modifies table`public, fnIndex, aliasIndex, unresolved, unresolvedAlias
      ensures Valid() && table.public == WithoutName(old(table.public), key)
      ensures res.NoChange? <==> table.public == old(table.public)
      ensures unresolved.reverse == old(unresolved.reverse) - {key}
      ensures unresolvedAlias.reverse == old(unresolvedAlias.reverse) - {key}
    {
      var gone := set u <- table.public | table.public[u].key == key;
      MirrorsLess(table.public, fnIndex.reverse, aliasIndex.reverse, key, gone);
      ClearUnresolved(key);
      DropEntries(gone);
      res := table.DeleteTriggerByName(key);
    }

    method DropEntries(gone: set<string>)
      requires fnIndex != aliasIndex && fnIndex.Valid() && aliasIndex.Valid()
      modifies fnIndex, aliasIndex
      ensures fnIndex.Valid() && aliasIndex.Valid()
      ensures fnIndex.reverse == old(fnIndex.reverse) - gone && aliasIndex.reverse == old(aliasIndex.reverse) - gone
    {
      var left := gone;
      while left != {}
        invariant left <= gone && fnIndex.Valid() && aliasIndex.Valid()
        invariant fnIndex.reverse == old(fnIndex.reverse) - (gone - left)
        invariant aliasIndex.reverse == old(aliasIndex.reverse) - (gone - left)
        decreases left
      {
        var u :| u in left;
        fnIndex.DropTrigger(u);
        aliasIndex.DropTrigger(u);
        Removed(old(fnIndex.reverse), gone, left, u);
        Removed(old(aliasIndex.reverse), gone, left, u);
        left := left - {u};
      }
      assert gone - {} == gone;
    }

    /** Validate, resolve, apply; a trigger that cannot be resolved is marked with what it names. */
    method ApplyTriggerIncremental(c: Cluster, k: Key) returns (res: ApplyResult, failed: bool)
      requires Valid() && k in c.triggers && Reachable(c, table.public)
      modifies table`public, fnIndex, aliasIndex, unresolved, unresolvedAlias
      ensures Valid() && table.public == AfterTrigger(c, old(table.public), k)
      ensures res.NoChange? <==> table.public == old(table.public)
      ensures failed <==> Admit(c, k).Kept?
      ensures Tracked(c, k, unresolved.reverse, unresolvedAlias.reverse)
      ensures SameBut(old(unresolved.reverse), unresolved.reverse, k)
      ensures SameBut(old(unresolvedAlias.reverse), unresolvedAlias.reverse, k)
    {
      var t := c.triggers[k];
      var resolution := Resolve(c.objects, k.namespace, t.reference);
      failed := t.valid && resolution.Unsupported?;
      res := NoChange;
      if !t.valid {
        res := DeleteTriggerByName(k);
      } else if resolution.NotFound? {
        res := DeleteTriggerByName(k);
        MarkUnresolved(k, t.reference);
      } else if resolution.Resolved? {
        var spec := RouteSpec(k, t.generation, resolution.backends, resolution.aliasGens, resolution.stickyGen,
                              t.shape);
        assert t.uid in table.public && SameRoute(table.public[t.uid], spec) ==>
            table.public == table.public[t.uid := spec];
        res := ApplyTrigger(t.uid, spec);
      }
    }

    /** The triggers whose entry resolved through the function, and those that name it in vain. */
    method TriggersForFunction(key: Key) returns (keys: set<Key>)
      requires Valid()
      ensures keys == FunctionUsers(table.public, key) + Waiting(unresolved.reverse, key)
    {
      keys := CollectNames(fnIndex.Edges(key));
      assert NamesOf(table.public, fnIndex.Edges(key)) == FunctionUsers(table.public, key);
      assert unresolved.Edges(key) == Waiting(unresolved.reverse, key);
      keys := keys + unresolved.Edges(key);
    }

    method TriggersForAlias(key: Key) returns (keys: set<Key>)
      requires Valid()
      ensures keys == AliasUsers(table.public, key) + Waiting(unresolvedAlias.reverse, key)
    {
      keys := CollectNames(aliasIndex.Edges(key));
      assert NamesOf(table.public, aliasIndex.Edges(key)) == AliasUsers(table.public, key);
      assert unresolvedAlias.Edges(key) == Waiting(unresolvedAlias.reverse, key);
      keys := keys + unresolvedAlias.Edges(key);
    }

    method CollectNames(uids: set<string>) returns (keys: set<Key>)
      ensures keys == NamesOf(table.public, uids)
    {
      keys := {};
      var left := uids;
      while left != {}
        invariant left <= uids && keys == NamesOf(table.public, uids - left)
        decreases left
      {
        var u :| u in left;
        left := left - {u};
        if u in table.public {
          keys := keys + {table.public[u].key};
        }
      }
      assert uids - {} == uids;
    }

    /** Table and indexes are what the cluster admits, but for the triggers in `stale`. */
    ghost predicate InStepBut(c: Cluster, stale: set<Key>)
      reads this, table, fnIndex, aliasIndex, unresolved, unresolvedAlias
    {
      Valid() && Synced(c, table.public, unresolved.reverse, unresolvedAlias.reverse, stale)
    }

    ghost predicate InStep(c: Cluster)
      reads this, table, fnIndex, aliasIndex, unresolved, unresolvedAlias
    {
      InStepBut(c, {})
    }

    method ReapplyOne(d: Cluster, ghost before: map<string, RouteSpec>, ghost left: set<Key>, k: Key)
        returns (kept: bool)
      requires Valid() && WellFormed(d) && k in left
      requires Caught(d, before, table.public, unresolved.reverse, unresolvedAlias.reverse, left)
      modifies table`public, fnIndex, aliasIndex, unresolved, unresolvedAlias
      ensures Valid() && Caught(d, before, table.public, unresolved.reverse, unresolvedAlias.reverse, left - {k})
      ensures table.public == AfterTrigger(d, old(table.public), k)
      ensures kept <==> Admit(d, k).Kept?
    {
      PartwayStep(d, before, table.public, left, k);
      ghost var fns, aliases := unresolved.reverse, unresolvedAlias.reverse;
      var res;
      res, kept := ApplyTriggerIncremental(d, k);
      forall j <- d.triggers | j !in left ensures Tracked(d, j, unresolved.reverse, unresolvedAlias.reverse) {
        TrackedApart(d, j, k, fns, aliases, unresolved.reverse, unresolvedAlias.reverse);
      }
    }

    /** Reads one trigger and re-applies it, unless the read or the resolution fails. */
    method ReapplyRead(d: Cluster, ghost before: map<string, RouteSpec>, ghost left: set<Key>, k: Key,
                       unreadable: set<Key>) returns (error: bool)
      requires Valid() && WellFormed(d) && k in left
      requires Caught(d, before, table.public, unresolved.reverse, unresolvedAlias.reverse, left)
      modifies table`public, fnIndex, aliasIndex, unresolved, unresolvedAlias
      ensures Valid()
      ensures Caught(d, before, table.public, unresolved.reverse, unresolvedAlias.reverse, left - ({k} - unreadable))
      ensures error <==> Hindered(d, unreadable, k)
    {
      error := true;
      if k !in unreadable {
        error := ReapplyOne(d, before, left, k);
        assert left - ({k} - unreadable) == left - {k};
      } else {
        assert left - ({k} - unreadable) == left;
      }
    }

    /** Re-applies the listed triggers and joins the errors. */
    method Reapply(d: Cluster, keys: set<Key>, unreadable: set<Key>) returns (errors: set<Key>)
      requires Valid() && WellFormed(d)
      requires Caught(d, table.public, table.public, unresolved.reverse, unresolvedAlias.reverse, keys)
      modifies table`public, fnIndex, aliasIndex, unresolved, unresolvedAlias
      ensures Valid()
      ensures Caught(d, old(table.public), table.public, unresolved.reverse, unresolvedAlias.reverse, keys * unreadable)
      ensures errors <= keys && forall k <- keys :: k in errors <==> Hindered(d, unreadable, k)
    {
      ghost var before := table.public;
      errors := {};
      var todo := keys;
      assert todo + keys * unreadable == keys;
      while todo != {}
        invariant Valid() && todo <= keys && errors <= keys - todo
        invariant Caught(d, before, table.public, unresolved.reverse, unresolvedAlias.reverse, todo + keys * unreadable)
        invariant forall k <- keys :: k !in todo ==> (k in errors <==> Hindered(d, unreadable, k))
        decreases todo
      {
        var k :| k in todo;
        OneLess(todo, keys, unreadable, k);
        var error := ReapplyRead(d, before, todo + keys * unreadable, k, unreadable);
        todo := todo - {k};
        errors := if error then errors + {k} else errors;
      }
      assert {} + keys * unreadable == keys * unreadable;
    }

    /** Re-applies what the lookup lists: every trigger that could be read is in step afterwards. */
    method ReapplyListed(ghost c: Cluster, d: Cluster, listed: set<Key>, unreadable: set<Key>) returns (failed: bool)
      requires InStep(c) && WellFormed(d) && d.triggers == c.triggers
      requires forall j <- c.triggers :: j !in listed ==> Admit(c, j) == Admit(d, j)
      modifies table`public, fnIndex, aliasIndex, unresolved, unresolvedAlias
      ensures InStepBut(d, listed * unreadable) && (!failed ==> InStep(d))
      ensures failed <==> exists k <- listed :: k in d.triggers && Hindered(d, unreadable, k)
    {
      var keys := listed * d.triggers.Keys;
      forall j <- d.triggers | j !in keys
        ensures Settled(d, j, table.public) && Tracked(d, j, unresolved.reverse, unresolvedAlias.reverse)
      {
        TrackedStill(c, d, j, unresolved.reverse, unresolvedAlias.reverse);
      }
      ghost var before := table.public;
      var errors := Reapply(d, keys, unreadable);
      failed := errors != {};
      CaughtSettles(d, before, table.public, unresolved.reverse, unresolvedAlias.reverse, keys * unreadable);
      if failed {
        var k :| k in errors;
        assert k in listed && k in d.triggers && Hindered(d, unreadable, k);
      } else {
        assert forall k <- keys :: !Hindered(d, unreadable, k);
        assert keys * unreadable == {};
      }
    }

    method ReapplyTriggersForFunction(ghost c: Cluster, d: Cluster, k: Key, unreadable: set<Key>) returns (failed: bool)
      requires InStep(c) && WellFormed(d) && FunctionChanged(c, d, k) && PlainNames(c.objects)
      modifies table`public, fnIndex, aliasIndex, unresolved, unresolvedAlias
      ensures InStepBut(d, unreadable) && (!failed ==> InStep(d))
      ensures failed ==> exists j <- c.triggers :: Hindered(d, unreadable, j)
    {
      var listed := TriggersForFunction(k);
      forall j <- c.triggers | j !in listed ensures Admit(c, j) == Admit(d, j) {
        FunctionListed(c, d, k, j, table.public, unresolved.reverse, unresolvedAlias.reverse);
      }
      failed := ReapplyListed(c, d, listed, unreadable);
    }

    method ReapplyTriggersForAlias(ghost c: Cluster, d: Cluster, k: Key, unreadable: set<Key>) returns (failed: bool)
      requires InStep(c) && WellFormed(d) && AliasChanged(c, d, k)
      modifies table`public, fnIndex, aliasIndex, unresolved, unresolvedAlias
      ensures InStepBut(d, unreadable) && (!failed ==> InStep(d))
      ensures failed ==> exists j <- c.triggers :: Hindered(d, unreadable, j)
    {
      var listed := TriggersForAlias(k);
      forall j <- c.triggers | j !in listed ensures Admit(c, j) == Admit(d, j) {
        AliasListed(c, d, k, j, table.public, unresolved.reverse, unresolvedAlias.reverse);
      }
      failed := ReapplyListed(c, d, listed, unreadable);
    }

    /**
     * The resync's pass over triggers puts table and indexes in step, whatever they were: a sweep
     * drops the marks of the name it sweeps, but never those of a trigger that waits.
     */
    method ResyncTriggers(c: Cluster)
      requires Valid() && WellFormed(c) && Reachable(c, table.public)
      modifies table`public, fnIndex, aliasIndex, unresolved, unresolvedAlias
      ensures InStep(c)
    {
      ghost var before := table.public;
      var left := c.triggers.Keys;
      while left != {}
        invariant Valid() && Caught(c, before, table.public, unresolved.reverse, unresolvedAlias.reverse, left)
        invariant Shed(c, table.public, left)
        decreases left
      {
        var k :| k in left;
        ShedStep(c, table.public, left, k);
        var _ := ReapplyOne(c, before, left, k);
        left := left - {k};
      }
      CaughtIsSweepable(c, before, table.public, unresolved.reverse, unresolvedAlias.reverse);
      SweepTriggers(c);
    }

    method SweepTriggers(c: Cluster)
      requires Valid() && Sweepable(c, table.public, unresolved.reverse, unresolvedAlias.reverse)
      modifies table`public, fnIndex, aliasIndex, unresolved, unresolvedAlias
      ensures InStep(c)
    {
      var liveUids := set k | k in c.triggers :: c.triggers[k].uid;
      var left := table.public.Keys;
      while left != {}
        invariant Valid() && Sweepable(c, table.public, unresolved.reverse, unresolvedAlias.reverse)
        invariant forall u <- table.public :: u in left || u in liveUids
        decreases left
      {
        var u :| u in left;
        left := left - {u};
        if u in table.public && u !in liveUids {
          SweepOne(c, u);
        }
      }
    }

    method SweepOne(c: Cluster, u: string)
      requires Valid() && u in table.public && !Live(c, u)
      requires Sweepable(c, table.public, unresolved.reverse, unresolvedAlias.reverse)
      modifies table`public, fnIndex, aliasIndex, unresolved, unresolvedAlias
      ensures Valid() && table.public == old(table.public) - {u}
      ensures Sweepable(c, table.public, unresolved.reverse, unresolvedAlias.reverse)
    {
      ghost var public, fns, aliases := table.public, unresolved.reverse, unresolvedAlias.reverse;
      var _ := DeleteTrigger(u);
      StillSweepable(c, public, fns, aliases, unresolved.reverse, unresolvedAlias.reverse, u);
    }

    /**
     * A trigger was created, edited or recreated. In step afterwards, exactly unless it came back
     * under a new UID, is not rejected, and its old route is still there.
     */
    method HandleTrigger(ghost c: Cluster, d: Cluster, k: Key) returns (res: ApplyResult, failed: bool)
      requires InStep(c) && WellFormed(c) && WellFormed(d) && d.objects == c.objects
      requires SameBut(c.triggers, d.triggers, k) && k in d.triggers
      modifies table`public, fnIndex, aliasIndex, unresolved, unresolvedAlias
      ensures InStep(d) <==> !Outlived(c, d, old(table.public), k)
      ensures failed <==> Admit(d, k).Kept?
      ensures var t := d.triggers[k]; t.valid && Resolvable(d.objects, k.namespace, t.reference) ==>
                (res.NoChange? <==>
                 t.uid in old(table.public) && Describes(d.objects, k, t, old(table.public)[t.uid]))
    {
      ghost var before, fns, aliases := table.public, unresolved.reverse, unresolvedAlias.reverse;
      if d.triggers[k].valid && Resolvable(d.objects, k.namespace, d.triggers[k].reference) {
        UnchangedExactly(d, before, k);
      }
      EntriesStillNamed(c, d, before, k);
      res, failed := ApplyTriggerIncremental(d, k);
      TriggerHandled(c, d, k, before, fns, aliases, unresolved.reverse, unresolvedAlias.reverse);
    }

    method DeleteTriggerIncremental(ghost c: Cluster, ghost d: Cluster, k: Key) returns (res: ApplyResult)
      requires InStep(c) && WellFormed(c) && d.objects == c.objects && d.triggers == c.triggers - {k}
      modifies table`public, fnIndex, aliasIndex, unresolved, unresolvedAlias
      ensures InStep(d)
    {
      ghost var before, fns, aliases := table.public, unresolved.reverse, unresolvedAlias.reverse;
      res := DeleteTriggerByName(k);
      TriggerDeleted(c, d, k, before, fns, aliases);
    }
  }
}
