/**
 * The MCP tool registry: which function owns which tool name, and the mirrored tool set of the
 * protocol server. Reconciles run one at a time.
 */
module ToolRegistry {
  import opened Common
  import opened Resolver

  datatype ToolEntry = ToolEntry(toolName: string, owner: Key, description: string, inputSchema: string, alias: string)

  /** What the protocol server advertises under a name. */
  datatype Tool = Tool(description: string, inputSchema: string)

  datatype Registry = Registry(byName: map<string, ToolEntry>, byFn: map<Key, string>)

  datatype UpsertResult = NoChange | Applied | Conflict

  /** `oldName` is empty when the function had no tool. */
  datatype Upserted = Upserted(registry: Registry, result: UpsertResult, oldName: string, evicted: Option<Key>)

  const EMPTY: Registry := Registry(map[], map[])

  /** The order that decides a contested name. */
  function FnKey(k: Key): string {
    k.namespace + "/" + k.name
  }

  function OldName(r: Registry, k: Key): string {
    if k in r.byFn then r.byFn[k] else ""
  }

  function Upsert(r: Registry, e: ToolEntry): Upserted {
    var oldName := OldName(r, e.owner);
    var contested := e.toolName in r.byName && r.byName[e.toolName].owner != e.owner;
    if contested && !Before(FnKey(e.owner), FnKey(r.byName[e.toolName].owner)) then
      Upserted(r, Conflict, oldName, None)
    else
      var evicted := if contested then Some(r.byName[e.toolName].owner) else None;
      var byFn := if contested then r.byFn - {r.byName[e.toolName].owner} else r.byFn;
      var byName := if oldName != "" && oldName != e.toolName then r.byName - {oldName} else r.byName;
      var same := !contested && e.toolName in byName && oldName == e.toolName && byName[e.toolName] == e;
      Upserted(Registry(byName[e.toolName := e], byFn[e.owner := e.toolName]), if same then NoChange else Applied,
               oldName, evicted)
  }

  function RemoveByFunction(r: Registry, k: Key): Registry {
    if k in r.byFn then Registry(r.byName - {r.byFn[k]}, r.byFn - {k}) else r
  }

  /** The registry together with the server's tool set. */
  datatype Catalog = Catalog(registry: Registry, tools: map<string, Tool>)

  /** What a reconcile finds: the tool to expose, none, an alias without a target, or a failed read. */
  datatype Wanted = Gone | Exposed(entry: ToolEntry) | Unresolved(fallback: ToolEntry) | Unreadable

  function View(e: ToolEntry): Tool {
    Tool(e.description, e.inputSchema)
  }

  function RemoveTool(c: Catalog, k: Key): Catalog {
    if k in c.registry.byFn then Catalog(RemoveByFunction(c.registry, k), c.tools - {c.registry.byFn[k]}) else c
  }

  function Expose(c: Catalog, e: ToolEntry): Catalog {
    var u := Upsert(c.registry, e);
    match u.result
    case Conflict => RemoveTool(c.(registry := u.registry), e.owner)
    case _ =>
      var tools := if u.oldName != "" && u.oldName != e.toolName then c.tools - {u.oldName} else c.tools;
      Catalog(u.registry, if u.result.Applied? then tools[e.toolName := View(e)] else tools)
  }

  function Reconcile(c: Catalog, k: Key, w: Wanted): Catalog {
    match w
    case Gone => RemoveTool(c, k)
    case Unreadable => c
    case Exposed(e) => Expose(c, e)
    case Unresolved(e) => if k in c.registry.byFn then c else Expose(c, e)
  }

  // ---------------------------------------------------------------------------------------------
  // What a function object asks for
  // ---------------------------------------------------------------------------------------------

  /** A missing or empty schema advertises an open object. */
  datatype ToolConfig = ToolConfig(toolName: string, description: string, inputSchema: string, alias: string)

  /** `snapshots` holds the tool configuration recorded in each published version, if any. */
  datatype Tools = Tools(functions: map<Key, Option<ToolConfig>>, targets: map<Key, string>,
                         snapshots: map<Key, Option<ToolConfig>>)

  const DEFAULT_SCHEMA := "{\"type\":\"object\"}"

  function DefaultToolName(k: Key): string {
    k.namespace + "-" + k.name
  }

  function EntryFor(k: Key, t: ToolConfig): ToolEntry {
    ToolEntry(if t.toolName == "" then DefaultToolName(k) else t.toolName, k, t.description,
              if t.inputSchema == "" then DEFAULT_SCHEMA else t.inputSchema, t.alias)
  }

  /** A snapshot without a configuration fails the reconcile. */
  function Wants(t: Tools, k: Key): Wanted {
    if k !in t.functions || t.functions[k].None? then Gone
    else
      var config := t.functions[k].value;
      var alias := Key(k.namespace, config.alias);
      if config.alias == "" then Exposed(EntryFor(k, config))
      else if alias in t.targets && t.targets[alias] != "" && Key(k.namespace, t.targets[alias]) in t.snapshots then
        match t.snapshots[Key(k.namespace, t.targets[alias])]
        case None => Unreadable
        case Some(snapshot) => Exposed(EntryFor(k, snapshot).(alias := config.alias))
      else Unresolved(EntryFor(k, config).(alias := ""))
  }

  /** A reconcile of `k` registers `k` only, and under a name. */
  predicate Proper(k: Key, w: Wanted) {
    match w
    case Exposed(e) => e.owner == k && e.toolName != ""
    case Unresolved(e) => e.owner == k && e.toolName != ""
    case _ => true
  }

  /** The default name is never empty, so what an object asks for is always proper. */
  lemma WantsProper(t: Tools, k: Key)
    ensures Proper(k, Wants(t, k))
  {
    assert |DefaultToolName(k)| > 0;
  }

  /**
   * The default names of two functions coincide exactly when the functions are the same or one
   * namespace extends the other by "-x" and the names make up for it.
   */
  lemma DefaultNamesCollide(a: Key, b: Key)
    ensures DefaultToolName(a) == DefaultToolName(b) <==>
            || a == b
            || (exists x :: b.namespace == a.namespace + "-" + x && a.name == x + "-" + b.name)
            || (exists x :: a.namespace == b.namespace + "-" + x && b.name == x + "-" + a.name)
  {
    if DefaultToolName(a) == DefaultToolName(b) {
      if |a.namespace| <= |b.namespace| { SplitDefault(a, b); } else { SplitDefault(b, a); }
    }
    if x :| b.namespace == a.namespace + "-" + x && a.name == x + "-" + b.name {
      assert DefaultToolName(a) == a.namespace + "-" + x + "-" + b.name == DefaultToolName(b);
    } else if x :| a.namespace == b.namespace + "-" + x && b.name == x + "-" + a.name {
      assert DefaultToolName(b) == b.namespace + "-" + x + "-" + a.name == DefaultToolName(a);
    }
  }

  lemma SplitDefault(a: Key, b: Key)
    requires DefaultToolName(a) == DefaultToolName(b) && |a.namespace| <= |b.namespace|
    ensures a == b || exists x :: b.namespace == a.namespace + "-" + x && a.name == x + "-" + b.name
  {
    var s, n := DefaultToolName(a), |a.namespace|;
    assert s[..n] == a.namespace && s[n] == '-' && s[n + 1..] == a.name;
    assert s[..|b.namespace|] == b.namespace && s[|b.namespace|] == '-' && s[|b.namespace| + 1..] == b.name;
    if n < |b.namespace| {
      var x := s[n + 1..|b.namespace|];
      assert b.namespace == a.namespace + "-" + x;
      assert a.name == x + "-" + b.name;
    }
  }

  /** The documentation rules such a collision out; these two functions have one. */
  lemma DefaultNamesCanCollide()
    ensures DefaultToolName(Key("a-b", "c")) == DefaultToolName(Key("a", "b-c"))
  {
  }

  // ---------------------------------------------------------------------------------------------
  // The invariant over every serial run
  // ---------------------------------------------------------------------------------------------

  /** The two maps are inverse to each other. */
  predicate Inverse(r: Registry) {
    NamesHaveOwners(r) && OwnersHaveNames(r)
  }

  predicate NamesHaveOwners(r: Registry) {
    forall t <- r.byName :: t != "" && r.byName[t].toolName == t && r.byName[t].owner in r.byFn &&
        r.byFn[r.byName[t].owner] == t
  }

  predicate OwnersHaveNames(r: Registry) {
    forall k <- r.byFn :: r.byFn[k] in r.byName && r.byName[r.byFn[k]].owner == k
  }

  predicate Mirrored(c: Catalog) {
    && c.tools.Keys == c.registry.byName.Keys
    && forall t <- c.tools :: var e := c.registry.byName[t]; c.tools[t] == Tool(e.description, e.inputSchema)
  }

  predicate Sound(c: Catalog) {
    Inverse(c.registry) && Mirrored(c)
  }

  lemma UpsertInverse(r: Registry, e: ToolEntry)
    requires Inverse(r) && e.toolName != ""
    ensures Inverse(Upsert(r, e).registry)
  {
    UpsertNames(r, e);
    UpsertOwners(r, e);
  }

  lemma UpsertNames(r: Registry, e: ToolEntry)
    requires Inverse(r) && e.toolName != ""
    ensures NamesHaveOwners(Upsert(r, e).registry)
  {
  }

  lemma UpsertOwners(r: Registry, e: ToolEntry)
    requires Inverse(r) && e.toolName != ""
    ensures OwnersHaveNames(Upsert(r, e).registry)
  {
  }

  lemma RemoveSound(c: Catalog, k: Key)
    requires Sound(c)
    ensures Sound(RemoveTool(c, k))
  {
  }

  lemma ExposeMirrored(c: Catalog, e: ToolEntry)
    requires Sound(c) && !Upsert(c.registry, e).result.Conflict?
    ensures Mirrored(Expose(c, e))
  {
    var r, d := c.registry, Expose(c, e);
    forall t ensures t in d.tools <==> t in d.registry.byName { assert t in c.tools <==> t in r.byName; }
    forall t <- d.tools | t != e.toolName ensures d.tools[t] == View(d.registry.byName[t]) {
      assert d.tools[t] == c.tools[t] && d.registry.byName[t] == r.byName[t];
    }
  }

  lemma ExposeSound(c: Catalog, e: ToolEntry)
    requires Sound(c) && e.toolName != ""
    ensures Sound(Expose(c, e))
  {
    UpsertInverse(c.registry, e);
    if Upsert(c.registry, e).result.Conflict? { RemoveSound(c, e.owner); } else { ExposeMirrored(c, e); }
  }

  lemma ReconcileSound(c: Catalog, k: Key, w: Wanted)
    requires Sound(c) && Proper(k, w)
    ensures Sound(Reconcile(c, k, w))
  {
    match w
    case Exposed(e) => ExposeSound(c, e);
    case Unresolved(e) => if k !in c.registry.byFn { ExposeSound(c, e); }
    case _ =>
  }

  /** The name is free, the function's own, or held by a larger function. */
  predicate Wins(r: Registry, e: ToolEntry) {
    e.toolName in r.byName && r.byName[e.toolName].owner != e.owner ==>
      Before(FnKey(e.owner), FnKey(r.byName[e.toolName].owner))
  }

  /** The entry is registered, the function's former name is gone, and other names are as they were. */
  ghost predicate Registered(before: map<string, ToolEntry>, after: map<string, ToolEntry>, e: ToolEntry) {
    forall t ::
      && (t in after <==> t == e.toolName || (t in before && before[t].owner != e.owner))
      && (t in after ==> after[t] == if t == e.toolName then e else before[t])
  }

  /** The function has no name, and other names are as they were. */
  ghost predicate Unregistered(before: map<string, ToolEntry>, after: map<string, ToolEntry>, k: Key) {
    forall t ::
      (t in after <==> t in before && before[t].owner != k) && (t in after ==> after[t] == before[t])
  }

  /** What an upsert does and reports. */
  lemma UpsertMeans(r: Registry, e: ToolEntry)
    requires Inverse(r) && e.toolName != ""
    ensures var u := Upsert(r, e);
            && (u.result.Conflict? <==> !Wins(r, e)) && (u.result.Conflict? ==> u.registry == r && u.evicted.None?)
            && (Wins(r, e) ==> Registered(r.byName, u.registry.byName, e))
            && (Wins(r, e) ==> (u.result.NoChange? <==> e.toolName in r.byName && r.byName[e.toolName] == e))
            && (Wins(r, e) ==> u.evicted == if e.toolName in r.byName && r.byName[e.toolName].owner != e.owner
                                            then Some(r.byName[e.toolName].owner) else None)
            && u.oldName == if e.owner in r.byFn then r.byFn[e.owner] else ""
  {
  }

  /** What a reconcile does to the names. */
  lemma ReconcileMeans(c: Catalog, k: Key, w: Wanted)
    requires Sound(c) && Proper(k, w)
    ensures var d := Reconcile(c, k, w);
            match w
            case Unreadable => d == c
            case Gone => Unregistered(c.registry.byName, d.registry.byName, k)
            case Exposed(e) => Exposes(c, d, e)
            case Unresolved(e) => if k in c.registry.byFn then d == c else Exposes(c, d, e)
  {
    match w
    case Exposed(e) => ExposeMeans(c, e);
    case Unresolved(e) => if k !in c.registry.byFn { ExposeMeans(c, e); }
    case _ =>
  }

  ghost predicate Exposes(c: Catalog, d: Catalog, e: ToolEntry) {
    if Wins(c.registry, e) then Registered(c.registry.byName, d.registry.byName, e)
    else Unregistered(c.registry.byName, d.registry.byName, e.owner)
  }

  lemma ExposeMeans(c: Catalog, e: ToolEntry)
    requires Sound(c) && e.toolName != ""
    ensures Exposes(c, Expose(c, e), e)
  {
    UpsertMeans(c.registry, e);
  }

  /** The configuration that counts: the live one, or the one recorded in the version the alias means. */
  function Configured(t: Tools, k: Key): Option<ToolConfig> {
    if k !in t.functions || t.functions[k].None? then None
    else
      var live := t.functions[k].value;
      if live.alias != "" && Published(t, Key(k.namespace, live.alias))
      then t.snapshots[Key(k.namespace, t.targets[Key(k.namespace, live.alias)])]
      else Some(live)
  }

  /** The alias means a version that was published. */
  predicate Published(t: Tools, alias: Key) {
    alias in t.targets && t.targets[alias] != "" && Key(alias.namespace, t.targets[alias]) in t.snapshots
  }

  /** A tool is advertised under its configured name and schema, or under the defaults. */
  lemma WantsMeans(t: Tools, k: Key)
    ensures Wants(t, k).Gone? <==> k !in t.functions || t.functions[k].None?
    ensures Wants(t, k).Unreadable? <==> !Wants(t, k).Gone? && Configured(t, k).None?
    ensures var w := Wants(t, k); w.Exposed? || w.Unresolved? ==>
              var e, config := (if w.Exposed? then w.entry else w.fallback), Configured(t, k).value;
              && e.owner == k && e.description == config.description
              && (config.toolName != "" ==> e.toolName == config.toolName)
              && (config.toolName == "" ==> e.toolName == k.namespace + "-" + k.name)
              && (config.inputSchema != "" ==> e.inputSchema == config.inputSchema)
              && (config.inputSchema == "" ==> e.inputSchema == "{\"type\":\"object\"}")
              && e.alias == if w.Exposed? then t.functions[k].value.alias else ""
    ensures Wants(t, k).Unresolved? <==>
            && !Wants(t, k).Gone? && t.functions[k].value.alias != ""
            && !Published(t, Key(k.namespace, t.functions[k].value.alias))
  {
  }

  datatype Event = Event(key: Key, wanted: Wanted)

  function Serve(c: Catalog, events: seq<Event>): Catalog
    decreases |events|
  {
    if events == [] then c else Serve(Reconcile(c, events[0].key, events[0].wanted), events[1..])
  }

  /** Through renames, evictions, conflicts, deletions and unresolved aliases. */
  lemma {:induction false} EveryRunIsSound(c: Catalog, events: seq<Event>)
    requires Sound(c) && forall e <- events :: Proper(e.key, e.wanted)
    ensures Sound(Serve(c, events))
    decreases |events|
  {
    if events != [] {
      ReconcileSound(c, events[0].key, events[0].wanted);
      EveryRunIsSound(Reconcile(c, events[0].key, events[0].wanted), events[1..]);
    }
  }

  // ---------------------------------------------------------------------------------------------
  // Convergence
  // ---------------------------------------------------------------------------------------------

  /** Namespaces hold no slash, so the order on functions is total. */
  predicate Named(k: Key) {
    '/' !in k.namespace
  }

  lemma FnKeyInjective(a: Key, b: Key)
    requires Named(a) && Named(b) && FnKey(a) == FnKey(b)
    ensures a == b
  {
    var s, n, m := FnKey(a), |a.namespace|, |b.namespace|;
    assert s[n] == '/' && s[..n] == a.namespace && s[n + 1..] == a.name;
    assert s[m] == '/' && s[..m] == b.namespace && s[m + 1..] == b.name;
    assert forall i | 0 <= i < n :: a.namespace[i] == s[i] && a.namespace[i] != '/';
    assert forall i | 0 <= i < m :: b.namespace[i] == s[i] && b.namespace[i] != '/';
  }

  predicate Smaller(a: Key, b: Key) {
    Before(FnKey(a), FnKey(b))
  }

  /** Every function wants one fixed entry of its own. */
  predicate Desires(desired: map<Key, ToolEntry>) {
    forall k <- desired :: Named(k) && desired[k].owner == k && desired[k].toolName != ""
  }

  function Asks(desired: map<Key, ToolEntry>, k: Key): Wanted {
    if k in desired then Exposed(desired[k]) else Gone
  }

  function Pass(c: Catalog, desired: map<Key, ToolEntry>, order: seq<Key>): Catalog
    decreases |order|
  {
    if order == [] then c else Pass(Reconcile(c, order[0], Asks(desired, order[0])), desired, order[1..])
  }

  /** `k` wants the name `t` and no function that wants it is smaller. */
  ghost predicate Winner(desired: map<Key, ToolEntry>, t: string, k: Key) {
    && k in desired && desired[k].toolName == t
    && forall j <- desired :: desired[j].toolName == t ==> j == k || Smaller(k, j)
  }

  /** Each wanted name is held by its winner, and nothing else is registered. */
  ghost predicate Converged(desired: map<Key, ToolEntry>, c: Catalog) {
    && Sound(c)
    && (forall t <- c.registry.byName ::
          c.registry.byName[t].owner in desired && c.registry.byName[t] == desired[c.registry.byName[t].owner] &&
          Winner(desired, t, c.registry.byName[t].owner))
    && (forall k <- desired :: desired[k].toolName in c.registry.byName)
  }

  /** Nothing stale is registered. */
  predicate Tidy(desired: map<Key, ToolEntry>, byName: map<string, ToolEntry>) {
    forall t <- byName :: byName[t].toolName == t && byName[t].owner in desired && byName[t] == desired[byName[t].owner]
  }

  /** The name `k` wants is held by `k` or a smaller function. */
  predicate Settled(desired: map<Key, ToolEntry>, byName: map<string, ToolEntry>, k: Key)
    requires k in desired
  {
    && desired[k].toolName in byName
    && !Smaller(k, byName[desired[k].toolName].owner)
  }

  function Claim(byName: map<string, ToolEntry>, e: ToolEntry): map<string, ToolEntry> {
    if e.toolName in byName && byName[e.toolName].owner != e.owner &&
      !Smaller(e.owner, byName[e.toolName].owner) then byName
    else byName[e.toolName := e]
  }

  /** With nothing stale around, a reconcile claims the name or leaves everything as it is. */
  lemma TidyExpose(desired: map<Key, ToolEntry>, c: Catalog, k: Key)
    requires Desires(desired) && Sound(c) && Tidy(desired, c.registry.byName) && k in desired
    ensures Expose(c, desired[k]).registry.byName == Claim(c.registry.byName, desired[k])
  {
    assert k in c.registry.byFn ==> c.registry.byFn[k] == desired[k].toolName;
  }

  lemma ClaimSettles(desired: map<Key, ToolEntry>, byName: map<string, ToolEntry>, k: Key)
    requires Desires(desired) && Tidy(desired, byName) && k in desired
    ensures Tidy(desired, Claim(byName, desired[k])) && Settled(desired, Claim(byName, desired[k]), k)
  {
    BeforeTotal(FnKey(k), FnKey(k));
  }

  lemma ClaimKeepsSettled(desired: map<Key, ToolEntry>, byName: map<string, ToolEntry>, k: Key, j: Key)
    requires Desires(desired) && k in desired && j in desired && Settled(desired, byName, j)
    ensures Settled(desired, Claim(byName, desired[k]), j)
  {
    if desired[j].toolName == desired[k].toolName {
      var owner := byName[desired[k].toolName].owner;
      if Smaller(k, owner) && Smaller(j, k) { BeforeTransitive(FnKey(j), FnKey(k), FnKey(owner)); }
    }
  }

  lemma TidyStep(desired: map<Key, ToolEntry>, c: Catalog, k: Key)
    requires Desires(desired) && Sound(c) && Tidy(desired, c.registry.byName)
    ensures var d := Reconcile(c, k, Asks(desired, k));
            && Sound(d) && Tidy(desired, d.registry.byName)
            && (k in desired ==> Settled(desired, d.registry.byName, k))
            && (forall j <- desired :: Settled(desired, c.registry.byName, j) ==>
                Settled(desired, d.registry.byName, j))
  {
    ReconcileSound(c, k, Asks(desired, k));
    if k in desired {
      TidyExpose(desired, c, k);
      ClaimSettles(desired, c.registry.byName, k);
      forall j | j in desired && Settled(desired, c.registry.byName, j)
        ensures Settled(desired, Claim(c.registry.byName, desired[k]), j)
      {
        ClaimKeepsSettled(desired, c.registry.byName, k, j);
      }
    } else {
      assert k !in c.registry.byFn;
    }
  }

  lemma {:induction false} TidyPass(desired: map<Key, ToolEntry>, c: Catalog, order: seq<Key>)
    requires Desires(desired) && Sound(c) && Tidy(desired, c.registry.byName)
    ensures var d := Pass(c, desired, order);
            && Sound(d) && Tidy(desired, d.registry.byName)
            && (forall j <- desired :: j in order || Settled(desired, c.registry.byName, j) ==>
                Settled(desired, d.registry.byName, j))
    decreases |order|
  {
    if order != [] {
      TidyStep(desired, c, order[0]);
      TidyPass(desired, Reconcile(c, order[0], Asks(desired, order[0])), order[1..]);
      assert order == [order[0]] + order[1..];
    }
  }

  lemma SettledConverges(desired: map<Key, ToolEntry>, c: Catalog)
    requires Desires(desired) && Sound(c) && Tidy(desired, c.registry.byName)
    requires forall k <- desired :: Settled(desired, c.registry.byName, k)
    ensures Converged(desired, c)
  {
    forall t | t in c.registry.byName
      ensures Winner(desired, t, c.registry.byName[t].owner)
    {
      var k := c.registry.byName[t].owner;
      forall j | j in desired && desired[j].toolName == t
        ensures j == k || Smaller(k, j)
      {
        assert Settled(desired, c.registry.byName, j);
        BeforeTotal(FnKey(j), FnKey(k));
        if FnKey(j) == FnKey(k) { FnKeyInjective(j, k); }
      }
    }
  }

  /** From an empty registry one covering sequence of reconciles, repeats allowed, hands every name to its winner. */
  lemma ConvergesFromEmpty(desired: map<Key, ToolEntry>, order: seq<Key>)
    requires Desires(desired) && forall k <- desired :: k in order
    ensures Converged(desired, Pass(Catalog(EMPTY, map[]), desired, order))
  {
    TidyPass(desired, Catalog(EMPTY, map[]), order);
    SettledConverges(desired, Pass(Catalog(EMPTY, map[]), desired, order));
  }

  lemma WinnerUnique(desired: map<Key, ToolEntry>, t: string, j: Key, k: Key)
    requires Winner(desired, t, j) && Winner(desired, t, k)
    ensures j == k
  {
    BeforeTotal(FnKey(j), FnKey(k));
  }

  lemma InverseDetermined(r: Registry, q: Registry)
    requires Inverse(r) && Inverse(q) && r.byName == q.byName
    ensures r.byFn == q.byFn
  {
    forall k
      ensures k in r.byFn <==> k in q.byFn
      ensures k in r.byFn && k in q.byFn ==> r.byFn[k] == q.byFn[k]
    {
      if k in r.byFn { assert r.byFn[k] in q.byName; }
      if k in q.byFn { assert q.byFn[k] in r.byName; }
    }
  }

  lemma ConvergedNames(desired: map<Key, ToolEntry>, c: Catalog, d: Catalog, t: string)
    requires Converged(desired, c) && Converged(desired, d) && t in c.registry.byName
    ensures t in d.registry.byName && c.registry.byName[t] == d.registry.byName[t]
  {
    WinnerUnique(desired, t, c.registry.byName[t].owner, d.registry.byName[t].owner);
  }

  lemma ConvergedSameNames(desired: map<Key, ToolEntry>, c: Catalog, d: Catalog)
    requires Converged(desired, c) && Converged(desired, d)
    ensures c.registry.byName == d.registry.byName
  {
    forall t | t in c.registry.byName
      ensures t in d.registry.byName && c.registry.byName[t] == d.registry.byName[t]
    {
      ConvergedNames(desired, c, d, t);
    }
    forall t | t in d.registry.byName
      ensures t in c.registry.byName
    {
      ConvergedNames(desired, d, c, t);
    }
  }

  lemma MirroredSame(c: Catalog, d: Catalog)
    requires Mirrored(c) && Mirrored(d) && c.registry.byName == d.registry.byName
    ensures c.tools == d.tools
  {
  }

  /** The converged catalog is determined by what is wanted, so the order of reconciles leaves no trace. */
  lemma ConvergedUnique(desired: map<Key, ToolEntry>, c: Catalog, d: Catalog)
    requires Converged(desired, c) && Converged(desired, d)
    ensures c == d
  {
    ConvergedSameNames(desired, c, d);
    InverseDetermined(c.registry, d.registry);
    MirroredSame(c, d);
  }

  /** What is registered for functions already reconciled is what they want. */
  predicate Refreshed(desired: map<Key, ToolEntry>, r: Registry, done: set<Key>) {
    forall k <- r.byFn :: k in done && r.byFn[k] in r.byName ==> k in desired && r.byName[r.byFn[k]] == desired[k]
  }

  /** What `r` holds for `j` is still held, unchanged, in `q`. */
  predicate Kept(r: Registry, q: Registry, j: Key) {
    && j in r.byFn && j in q.byFn && q.byFn[j] == r.byFn[j]
    && r.byFn[j] in r.byName && r.byFn[j] in q.byName && q.byName[r.byFn[j]] == r.byName[r.byFn[j]]
  }

  lemma RemoveKeepsOthers(r: Registry, k: Key, j: Key)
    requires Inverse(r) && j != k && j in RemoveByFunction(r, k).byFn
    ensures Kept(r, RemoveByFunction(r, k), j)
  {
  }

  lemma UpsertKeepsOthers(r: Registry, e: ToolEntry, j: Key)
    requires Inverse(r) && e.toolName != "" && j != e.owner && j in Upsert(r, e).registry.byFn
    ensures Kept(r, Upsert(r, e).registry, j)
  {
  }

  /** A reconcile of `k` can take a tool away from another function, but not change it. */
  lemma OthersKeptOrDropped(c: Catalog, k: Key, w: Wanted, j: Key)
    requires Sound(c) && Proper(k, w) && j != k && j in Reconcile(c, k, w).registry.byFn
    ensures Kept(c.registry, Reconcile(c, k, w).registry, j)
  {
    var e := if w.Exposed? then Some(w.entry) else if w.Unresolved? then Some(w.fallback) else None;
    if e.None? || Upsert(c.registry, e.value).result.Conflict? {
      if j in RemoveByFunction(c.registry, k).byFn { RemoveKeepsOthers(c.registry, k, j); }
    } else if j in Upsert(c.registry, e.value).registry.byFn {
      UpsertKeepsOthers(c.registry, e.value, j);
    }
  }

  lemma OwnRefreshed(desired: map<Key, ToolEntry>, c: Catalog, k: Key)
    requires Desires(desired) && Sound(c)
    ensures var r := Reconcile(c, k, Asks(desired, k)).registry;
            k in r.byFn ==> k in desired && r.byFn[k] in r.byName && r.byName[r.byFn[k]] == desired[k]
  {
  }

  lemma RefreshStep(desired: map<Key, ToolEntry>, c: Catalog, k: Key, done: set<Key>)
    requires Desires(desired) && Sound(c) && Refreshed(desired, c.registry, done)
    ensures var d := Reconcile(c, k, Asks(desired, k));
            Sound(d) && Refreshed(desired, d.registry, done + {k}) && d.registry.byFn.Keys <= c.registry.byFn.Keys + {k}
  {
    var d := Reconcile(c, k, Asks(desired, k));
    ReconcileSound(c, k, Asks(desired, k));
    OwnRefreshed(desired, c, k);
    forall j | j in d.registry.byFn && j != k
      ensures j in c.registry.byFn
      ensures j in done ==> j in desired && d.registry.byName[d.registry.byFn[j]] == desired[j]
    {
      OthersKeptOrDropped(c, k, Asks(desired, k), j);
    }
  }

  lemma {:induction false} RefreshPass(desired: map<Key, ToolEntry>, c: Catalog, order: seq<Key>, done: set<Key>)
    requires Desires(desired) && Sound(c) && Refreshed(desired, c.registry, done)
    ensures var d := Pass(c, desired, order);
            && Sound(d) && Refreshed(desired, d.registry, done + set k <- order)
            && d.registry.byFn.Keys <= c.registry.byFn.Keys + set k <- order
    decreases |order|
  {
    if order == [] {
      assert done + (set k <- order) == done;
    } else {
      RefreshStep(desired, c, order[0], done);
      RefreshPass(desired, Reconcile(c, order[0], Asks(desired, order[0])), order[1..], done + {order[0]});
      assert order == [order[0]] + order[1..];
      assert done + {order[0]} + (set k <- order[1..]) == done + set k <- order;
    }
  }

  /** From any sound state, with stale and deleted functions registered, two passes suffice. */
  lemma ConvergesInTwoPasses(desired: map<Key, ToolEntry>, c: Catalog, first: seq<Key>, second: seq<Key>)
    requires Desires(desired) && Sound(c)
    requires forall k <- c.registry.byFn :: k in first
    requires forall k <- desired :: k in second
    ensures Converged(desired, Pass(Pass(c, desired, first), desired, second))
  {
    RefreshPass(desired, c, first, {});
    var d := Pass(c, desired, first);
    assert Tidy(desired, d.registry.byName);
    TidyPass(desired, d, second);
    SettledConverges(desired, Pass(d, desired, second));
  }

  /** One pass does not suffice: the loser of a name that is about to be given up stays unregistered. */
  lemma OnePassMayNotConverge()
    ensures var f, g := Key("b", "f"), Key("a", "g");
            var stale := ToolEntry("x", g, "", "", "");
            var desired := map[f := ToolEntry("x", f, "", "", ""), g := ToolEntry("y", g, "", "", "")];
            var c := Catalog(Registry(map["x" := stale], map[g := "x"]), map["x" := View(stale)]);
            Desires(desired) && Sound(c) && !Converged(desired, Pass(c, desired, [f, g]))
  {
    var f, g := Key("b", "f"), Key("a", "g");
    var stale := ToolEntry("x", g, "", "", "");
    var desired := map[f := ToolEntry("x", f, "", "", ""), g := ToolEntry("y", g, "", "", "")];
    var c := Catalog(Registry(map["x" := stale], map[g := "x"]), map["x" := View(stale)]);
    assert !Before(FnKey(f), FnKey(g));
    var c1 := Reconcile(c, f, Asks(desired, f));
    assert c1 == c;
    var c2 := Reconcile(c1, g, Asks(desired, g));
    assert "x" !in c2.registry.byName;
    assert Pass(c, desired, [f, g]) == Pass(c1, desired, [g]) == Pass(c2, desired, []) by {
      assert [f, g][1..] == [g] && [g][1..] == [];
    }
    assert desired[f].toolName == "x";
  }

  // ---------------------------------------------------------------------------------------------
  // The code, over the maps it changes in place
  // ---------------------------------------------------------------------------------------------

  // ---------------------------------------------------------------------------------------------
  // Who may see what
  // ---------------------------------------------------------------------------------------------

  /** What a caller's token authorizes. A wildcard overrides the list. */
  datatype AuthScope = AuthScope(namespaces: seq<string>, wildcard: bool)

  predicate Allows(scope: AuthScope, namespace: string) {
    scope.wildcard || namespace in scope.namespaces
  }

  /** The meaning of a scope. */
  predicate InScope(scope: AuthScope, namespace: string) {
    !scope.wildcard ==> exists i | 0 <= i < |scope.namespaces| :: scope.namespaces[i] == namespace
  }

  predicate ToolVisible(byName: map<string, ToolEntry>, scope: AuthScope, name: string) {
    name in byName && Allows(scope, byName[name].owner.namespace)
  }

  function VisibleOf(byName: map<string, ToolEntry>, scope: AuthScope, names: seq<string>): seq<string> {
    if names == [] then []
    else
      var rest := VisibleOf(byName, scope, names[..|names| - 1]);
      if ToolVisible(byName, scope, names[|names| - 1]) then rest + [names[|names| - 1]] else rest
  }

  /** `s` is what `t` holds at the increasing positions `at`. */
  predicate Embeds<T(==)>(at: seq<nat>, s: seq<T>, t: seq<T>) {
    && |at| == |s| && (forall i | 0 <= i < |at| :: at[i] < |t| && t[at[i]] == s[i])
    && (forall i, j | 0 <= i < j < |at| :: at[i] < at[j])
  }

  lemma {:induction false} VisibleEmbeds(byName: map<string, ToolEntry>, scope: AuthScope, names: seq<string>)
    returns (at: seq<nat>)
    ensures Embeds(at, VisibleOf(byName, scope, names), names)
  {
    at := [];
    if names != [] {
      var most := names[..|names| - 1];
      at := VisibleEmbeds(byName, scope, most);
      if ToolVisible(byName, scope, names[|names| - 1]) { at := at + [|most|]; }
    }
  }

  lemma {:induction false} VisibleCount(byName: map<string, ToolEntry>, scope: AuthScope, names: seq<string>, t: string)
    ensures multiset(VisibleOf(byName, scope, names))[t] ==
            if t in byName && InScope(scope, byName[t].owner.namespace) then multiset(names)[t] else 0
  {
    if names != [] {
      var most, last := names[..|names| - 1], names[|names| - 1];
      VisibleCount(byName, scope, most, t);
      assert names == most + [last];
    }
  }

  /** What lies outside the scope makes no difference to the caller. */
  lemma {:induction false} OutOfScopeUnobservable(a: map<string, ToolEntry>, b: map<string, ToolEntry>,
                                                  scope: AuthScope, names: seq<string>)
    requires forall t :: (t in a && InScope(scope, a[t].owner.namespace)) <==>
                         (t in b && InScope(scope, b[t].owner.namespace))
    ensures VisibleOf(a, scope, names) == VisibleOf(b, scope, names)
  {
    if names != [] {
      OutOfScopeUnobservable(a, b, scope, names[..|names| - 1]);
      var t := names[|names| - 1];
      assert (t in a && InScope(scope, a[t].owner.namespace)) <==> (t in b && InScope(scope, b[t].owner.namespace));
    }
  }

  class ToolServer {
    var byName: map<string, ToolEntry>
    var byFn: map<Key, string>
    var tools: map<string, Tool>

    function State(): Catalog
      reads this
    {
      Catalog(Registry(byName, byFn), tools)
    }

    constructor ()
      ensures State() == Catalog(EMPTY, map[])
    {
      byName, byFn, tools := map[], map[], map[];
    }

    method DoUpsert(e: ToolEntry) returns (result: UpsertResult, oldName: string, evicted: Option<Key>)
      modifies this`byName, this`byFn
      ensures Upserted(State().registry, result, oldName, evicted) == Upsert(old(State().registry), e)
    {
      oldName := if e.owner in byFn then byFn[e.owner] else "";
      evicted := None;
      if e.toolName in byName && byName[e.toolName].owner != e.owner {
        var existing := byName[e.toolName].owner;
        if !Before(FnKey(e.owner), FnKey(existing)) {
          return Conflict, oldName, None;
        }
        byFn := byFn - {existing};
        evicted := Some(existing);
      }
      if oldName != "" && oldName != e.toolName {
        byName := byName - {oldName};
      }
      var prev := if e.toolName in byName then Some(byName[e.toolName]) else None;
      byName := byName[e.toolName := e];
      byFn := byFn[e.owner := e.toolName];
      if evicted.None? && oldName == e.toolName && prev == Some(e) {
        return NoChange, oldName, None;
      }
      return Applied, oldName, evicted;
    }

    method DoRemoveTool(k: Key)
      modifies this
      ensures State() == RemoveTool(old(State()), k)
    {
      if k in byFn {
        var oldName := byFn[k];
        byFn := byFn - {k};
        byName := byName - {oldName};
        tools := tools - {oldName};
      }
    }

    method DoReconcile(k: Key, w: Wanted)
      requires Proper(k, w)
      modifies this
      ensures State() == Reconcile(old(State()), k, w)
      ensures old(Sound(State())) ==> Sound(State())
    {
      if old(Sound(State())) { ReconcileSound(State(), k, w); }
      if w.Unreadable? {
        return;
      }
      if w.Gone? {
        DoRemoveTool(k);
        return;
      }
      if w.Unresolved? && k in byFn {
        return;
      }
      var entry := if w.Exposed? then w.entry else w.fallback;
      var result, oldName, _ := DoUpsert(entry);
      if result.Conflict? {
        DoRemoveTool(k);
        return;
      }
      if oldName != "" && oldName != entry.toolName {
        tools := tools - {oldName};
      }
      if result.Applied? {
        tools := tools[entry.toolName := View(entry)];
      }
    }

    /** The check before a call is dispatched: an unknown tool and a forbidden one are answered alike. */
    method CallTool(scope: AuthScope, name: string) returns (entry: Option<ToolEntry>)
      ensures entry == if name in byName && InScope(scope, byName[name].owner.namespace) then Some(byName[name])
                       else None
    {
      if ToolVisible(byName, scope, name) {
        return Some(byName[name]);
      }
      return None;
    }

    /**
     * Compacts the listed tools in place to those whose namespace the caller may see: each of them as
     * often as it was listed and in that order, and nothing else.
     */
    method FilterTools(scope: AuthScope, names: array<string>) returns (n: nat)
      modifies names
      ensures n <= names.Length && names[..n] == VisibleOf(byName, scope, old(names[..]))
      ensures exists at: seq<nat> :: Embeds(at, names[..n], old(names[..]))
      ensures forall t :: multiset(names[..n])[t] ==
                          if t in byName && InScope(scope, byName[t].owner.namespace)
                          then multiset(old(names[..]))[t] else 0
    {
      n := 0;
      for i := 0 to names.Length
        invariant n <= i
        invariant names[..n] == VisibleOf(byName, scope, old(names[..])[..i])
        invariant forall k | i <= k < names.Length :: names[k] == old(names[k])
      {
        ghost var before := names[..n];
        assert old(names[..])[..i + 1][..i] == old(names[..])[..i];
        if ToolVisible(byName, scope, names[i]) {
          names[n] := names[i];
          n := n + 1;
          assert names[..n] == before + [old(names[i])];
        }
      }
      assert old(names[..])[..names.Length] == old(names[..]);
      ghost var at := VisibleEmbeds(byName, scope, old(names[..]));
      forall t
        ensures multiset(names[..n])[t] ==
                if t in byName && InScope(scope, byName[t].owner.namespace) then multiset(old(names[..]))[t] else 0
      {
        VisibleCount(byName, scope, old(names[..]), t);
      }
    }
  }
}
