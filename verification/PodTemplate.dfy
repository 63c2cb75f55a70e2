/**
 * The builder Deployment's drift check: the desired pod template, assembled in no particular order,
 * is put in canonical order and fingerprinted, and the live Deployment is updated only when the
 * fingerprint differs. A fingerprint is taken to be the canonical template itself.
 */
module PodTemplate {
  import opened Common
  import opened NameSort

  type EnvVar = Named<string>
  type Mount = Named<string>
  type Volume = Named<string>

  datatype Body = Body(rest: string, env: seq<EnvVar>, mounts: seq<Mount>)

  type Container = Named<Body>

  datatype Template = Template(rest: string, containers: seq<Container>, initContainers: seq<Container>,
                               volumes: seq<Volume>)

  // ---------------------------------------------------------------------------------------------
  // Canonical order
  // ---------------------------------------------------------------------------------------------

  ghost predicate InnerSort(x: Container, y: Container) {
    && y.name == x.name && y.body.rest == x.body.rest
    && IsSort(x.body.env, y.body.env) && IsSort(x.body.mounts, y.body.mounts)
  }

  ghost predicate Pointwise(mid: seq<Container>, out: seq<Container>) {
    |mid| == |out| && forall i | 0 <= i < |mid| :: InnerSort(mid[i], out[i])
  }

  ghost predicate ListCanonical(cs: seq<Container>, out: seq<Container>) {
    exists mid :: IsSort(cs, mid) && Pointwise(mid, out)
  }

  ghost predicate Canonical(t: Template, c: Template) {
    && c.rest == t.rest && IsSort(t.volumes, c.volumes)
    && ListCanonical(t.containers, c.containers) && ListCanonical(t.initContainers, c.initContainers)
  }

  /** What the sorts make of a container, a list of containers and a template: names decide. */
  ghost function Tidy(order: Order, x: Container): Container
    requires Orders(order)
  {
    Named(x.name, Body(x.body.rest, Arranged(order, x.body.env), Arranged(order, x.body.mounts)))
  }

  ghost function TidyAll(order: Order, cs: seq<Container>): seq<Container>
    requires Orders(order)
  {
    seq(|cs|, i requires 0 <= i < |cs| => Tidy(order, cs[i]))
  }

  ghost function FormList(order: Order, cs: seq<Container>): seq<Container>
    requires Orders(order)
  {
    TidyAll(order, Arranged(order, cs))
  }

  ghost function Form(order: Order, t: Template): Template
    requires Orders(order)
  {
    Template(t.rest, FormList(order, t.containers), FormList(order, t.initContainers), Arranged(order, t.volumes))
  }

  lemma FormListIsCanonical(order: Order, cs: seq<Container>)
    requires Orders(order)
    ensures ListCanonical(cs, FormList(order, cs))
  {
    var mid := Arranged(order, cs);
    ArrangedIsSort(order, cs);
    forall i | 0 <= i < |mid| ensures InnerSort(mid[i], Tidy(order, mid[i])) {
      ArrangedIsSort(order, mid[i].body.env);
      ArrangedIsSort(order, mid[i].body.mounts);
    }
    assert Pointwise(mid, FormList(order, cs));
  }

  lemma FormIsCanonical(order: Order, t: Template)
    requires Orders(order)
    ensures Canonical(t, Form(order, t))
  {
    FormListIsCanonical(order, t.containers);
    FormListIsCanonical(order, t.initContainers);
    ArrangedIsSort(order, t.volumes);
  }

  method SortedCopy<T>(s: seq<Named<T>>) returns (r: seq<Named<T>>)
    ensures Orders(Insertion) && r == Arranged(Insertion, s)
  {
    var a := new Named<T>[|s|](i requires 0 <= i < |s| => s[i]);
    assert a[..] == s;
    SortFunc(a);
    SortIsArranged(s);
    return a[..];
  }

  method TidyContainer(x: Container) returns (y: Container)
    ensures Orders(Insertion) && y == Tidy(Insertion, x)
  {
    var env := SortedCopy(x.body.env);
    var mounts := SortedCopy(x.body.mounts);
    return Named(x.name, Body(x.body.rest, env, mounts));
  }

  method SortByName(containers: array<Container>)
    modifies containers
    ensures Orders(Insertion) && containers[..] == FormList(Insertion, old(containers[..]))
  {
    SortFunc(containers);
    SortIsArranged(old(containers[..]));
    ghost var mid := containers[..];
    for i := 0 to containers.Length
      invariant containers[..] == TidyAll(Insertion, mid)[..i] + mid[i..]
    {
      var x := TidyContainer(containers[i]);
      TidyNext(mid, i);
      containers[i] := x;
      assert containers[..] == (TidyAll(Insertion, mid)[..i] + mid[i..])[i := x];
    }
    assert mid[containers.Length..] == [] && TidyAll(Insertion, mid)[..containers.Length] == TidyAll(Insertion, mid);
  }

  lemma TidyNext(mid: seq<Container>, i: nat)
    requires i < |mid| && Orders(Insertion)
    ensures var all := TidyAll(Insertion, mid);
            (all[..i] + mid[i..])[i := Tidy(Insertion, mid[i])] == all[..i + 1] + mid[i + 1..]
    ensures (TidyAll(Insertion, mid)[..i] + mid[i..])[i] == mid[i]
  {
  }

  method CanonicalList(cs: seq<Container>) returns (out: seq<Container>)
    ensures Orders(Insertion) && out == FormList(Insertion, cs)
  {
    var a := new Container[|cs|](i requires 0 <= i < |cs| => cs[i]);
    assert a[..] == cs;
    SortByName(a);
    return a[..];
  }

  method BuilderSpecHash(t: Template) returns (c: Template)
    ensures Orders(Insertion) && c == Form(Insertion, t) && Canonical(t, c)
  {
    var containers := CanonicalList(t.containers);
    var initContainers := CanonicalList(t.initContainers);
    var volumes := SortedCopy(t.volumes);
    FormIsCanonical(Insertion, t);
    return Template(t.rest, containers, initContainers, volumes);
  }

  // ---------------------------------------------------------------------------------------------
  // What a template says, order aside
  // ---------------------------------------------------------------------------------------------

  datatype Shape = Shape(name: string, rest: string, env: multiset<EnvVar>, mounts: multiset<Mount>)

  function ShapeOf(x: Container): Shape {
    Shape(x.name, x.body.rest, multiset(x.body.env), multiset(x.body.mounts))
  }

  function Shapes(cs: seq<Container>): multiset<Shape> {
    if cs == [] then multiset{} else multiset{ShapeOf(cs[0])} + Shapes(cs[1..])
  }

  datatype Look = Look(rest: string, containers: multiset<Shape>, initContainers: multiset<Shape>,
                       volumes: multiset<Volume>)

  function LookOf(t: Template): Look {
    Look(t.rest, Shapes(t.containers), Shapes(t.initContainers), multiset(t.volumes))
  }

  /** No two different entries with one name. */
  ghost predicate Unmistakable(m: multiset<Named<string>>) {
    forall x, y | x in m && y in m && x.name == y.name :: x == y
  }

  ghost predicate WellNamedShapes(shapes: multiset<Shape>) {
    && (forall s <- shapes :: Unmistakable(s.env) && Unmistakable(s.mounts))
    && (forall s, r | s in shapes && r in shapes && s.name == r.name :: s == r)
  }

  /** Names identify containers, init containers and volumes, and env vars and mounts within a container. */
  ghost predicate WellNamed(t: Template) {
    WellNamedShapes(Shapes(t.containers)) && WellNamedShapes(Shapes(t.initContainers)) &&
        Unmistakable(multiset(t.volumes))
  }

  lemma UnmistakableIsUnambiguous(s: seq<Named<string>>)
    ensures Unmistakable(multiset(s)) <==> Unambiguous(s)
  {
    assert forall x :: x in s <==> x in multiset(s);
  }

  lemma {:induction false} ShapeIn(cs: seq<Container>, i: nat)
    requires i < |cs|
    ensures ShapeOf(cs[i]) in Shapes(cs)
  {
    if i > 0 { ShapeIn(cs[1..], i - 1); }
  }

  lemma {:induction false} FindShape(cs: seq<Container>, s: Shape) returns (i: nat)
    requires s in Shapes(cs)
    ensures i < |cs| && ShapeOf(cs[i]) == s
  {
    if ShapeOf(cs[0]) == s {
      i := 0;
    } else {
      i := FindShape(cs[1..], s);
      i := i + 1;
    }
  }

  lemma {:induction false} ShapesRemove(cs: seq<Container>, j: nat)
    requires j < |cs|
    ensures Shapes(cs) == Shapes(cs[..j] + cs[j + 1..]) + multiset{ShapeOf(cs[j])}
  {
    if j == 0 {
      assert cs[..0] + cs[1..] == cs[1..];
    } else {
      var rest := cs[..j] + cs[j + 1..];
      assert rest[1..] == cs[1..][..j - 1] + cs[1..][j..];
      ShapesRemove(cs[1..], j - 1);
    }
  }

  lemma {:induction false} ShapesPermute(a: seq<Container>, b: seq<Container>)
    requires multiset(a) == multiset(b)
    ensures Shapes(a) == Shapes(b)
  {
    if a == [] {
      assert |multiset(b)| == |b|;
    } else {
      SameMembers(a, b, a[0]);
      var j :| 0 <= j < |b| && b[j] == a[0];
      RemoveBoth(a, b, j);
      ShapesPermute(a[1..], b[..j] + b[j + 1..]);
      ShapesRemove(b, j);
    }
  }

  lemma RemoveBoth<T>(a: seq<T>, b: seq<T>, j: nat)
    requires a != [] && j < |b| && b[j] == a[0] && multiset(a) == multiset(b)
    ensures multiset(a[1..]) == multiset(b[..j] + b[j + 1..])
  {
    assert a == [a[0]] + a[1..];
    assert b == b[..j] + [b[j]] + b[j + 1..];
    assert multiset(a[1..]) == multiset(a) - multiset{a[0]};
  }

  lemma {:induction false} ShapesPointwise(mid: seq<Container>, out: seq<Container>)
    requires Pointwise(mid, out)
    ensures Shapes(mid) == Shapes(out)
  {
    if mid != [] {
      assert InnerSort(mid[0], out[0]);
      ShapesPointwise(mid[1..], out[1..]);
    }
  }

  /** A container whose own lists are in order. */
  predicate Normal(x: Container) {
    Sorted(x.body.env) && Sorted(x.body.mounts)
  }

  /** What canonical order does to a list of containers: in order throughout, and nothing else. */
  lemma ListCanonicalMeans(cs: seq<Container>, out: seq<Container>)
    requires ListCanonical(cs, out)
    ensures Sorted(out) && (forall x <- out :: Normal(x)) && Shapes(out) == Shapes(cs)
  {
    var mid: seq<Container> :| IsSort(cs, mid) && Pointwise(mid, out);
    ShapesPermute(mid, cs);
    ShapesPointwise(mid, out);
    forall x <- out ensures Normal(x) {
      var i :| 0 <= i < |out| && out[i] == x;
      assert InnerSort(mid[i], out[i]);
    }
    forall i, j | 0 <= i < j < |out| ensures AtMost(out[i].name, out[j].name) {
      assert InnerSort(mid[i], out[i]) && InnerSort(mid[j], out[j]);
      assert AtMost(mid[i].name, mid[j].name);
    }
  }

  lemma NormalUnique(x: Container, y: Container)
    requires Normal(x) && Normal(y) && ShapeOf(x) == ShapeOf(y)
    requires Unmistakable(ShapeOf(x).env) && Unmistakable(ShapeOf(x).mounts)
    ensures x == y
  {
    UnmistakableIsUnambiguous(x.body.env);
    UnmistakableIsUnambiguous(x.body.mounts);
    SortUnique(x.body.env, y.body.env);
    SortUnique(x.body.mounts, y.body.mounts);
  }

  lemma SameFirst(c: seq<Container>, d: seq<Container>)
    requires Sorted(c) && Sorted(d) && Shapes(c) == Shapes(d) && WellNamedShapes(Shapes(c)) && c != []
    ensures d != [] && ShapeOf(c[0]) == ShapeOf(d[0])
  {
    ShapeIn(c, 0);
    var j := FindShape(d, ShapeOf(c[0]));
    ShapeIn(d, 0);
    var i := FindShape(c, ShapeOf(d[0]));
    BeforeTotal(c[0].name, d[0].name);
    BeforeTotal(c[0].name, c[0].name);
    assert i == 0 || AtMost(c[0].name, c[i].name);
    assert j == 0 || AtMost(d[0].name, d[j].name);
  }

  /** In order throughout, well named, and the same but for order. */
  ghost predicate Matching(c: seq<Container>, d: seq<Container>) {
    && Sorted(c) && Sorted(d) && (forall x <- c :: Normal(x)) && (forall x <- d :: Normal(x))
    && Shapes(c) == Shapes(d) && WellNamedShapes(Shapes(c))
  }

  lemma MatchingFirst(c: seq<Container>, d: seq<Container>)
    requires Matching(c, d) && c != []
    ensures d != [] && c[0] == d[0]
  {
    SameFirst(c, d);
    ShapeIn(c, 0);
    assert c[0] in c && d[0] in d;
    NormalUnique(c[0], d[0]);
  }

  lemma ShapesTail(cs: seq<Container>)
    requires cs != []
    ensures Shapes(cs[1..]) == Shapes(cs) - multiset{ShapeOf(cs[0])}
    ensures WellNamedShapes(Shapes(cs)) ==> WellNamedShapes(Shapes(cs[1..]))
  {
    assert forall s <- Shapes(cs[1..]) :: s in Shapes(cs);
  }

  lemma TailInOrder(cs: seq<Container>)
    requires cs != [] && Sorted(cs) && forall x <- cs :: Normal(x)
    ensures Sorted(cs[1..]) && forall x <- cs[1..] :: Normal(x)
  {
  }

  lemma MatchingRest(c: seq<Container>, d: seq<Container>)
    requires Matching(c, d) && c != [] && d != [] && c[0] == d[0]
    ensures Matching(c[1..], d[1..])
  {
    ShapesTail(c);
    ShapesTail(d);
    TailInOrder(c);
    TailInOrder(d);
  }

  lemma SameWhole<T>(a: seq<T>, b: seq<T>)
    requires a != [] && b != [] && a[0] == b[0] && a[1..] == b[1..]
    ensures a == b
  {
    assert a == [a[0]] + a[1..] && b == [b[0]] + b[1..];
  }

  lemma {:induction false} CanonicalUnique(c: seq<Container>, d: seq<Container>)
    requires Matching(c, d)
    ensures c == d
  {
    if c != [] {
      MatchingFirst(c, d);
      MatchingRest(c, d);
      CanonicalUnique(c[1..], d[1..]);
      SameWhole(c, d);
    }
  }

  lemma ListsAgree(cs: seq<Container>, c: seq<Container>, ds: seq<Container>, d: seq<Container>)
    requires WellNamedShapes(Shapes(cs)) && ListCanonical(cs, c) && ListCanonical(ds, d)
    ensures c == d <==> Shapes(cs) == Shapes(ds)
  {
    ListCanonicalMeans(cs, c);
    ListCanonicalMeans(ds, d);
    if Shapes(cs) == Shapes(ds) { CanonicalUnique(c, d); }
  }

  /** Of well-named templates, the fingerprints agree exactly when the templates agree up to order. */
  lemma FingerprintsAgree(t: Template, c: Template, u: Template, d: Template)
    requires WellNamed(t) && Canonical(t, c) && Canonical(u, d)
    ensures c == d <==> LookOf(t) == LookOf(u)
  {
    ListsAgree(t.containers, c.containers, u.containers, d.containers);
    ListsAgree(t.initContainers, c.initContainers, u.initContainers, d.initContainers);
    if multiset(t.volumes) == multiset(u.volumes) {
      UnmistakableIsUnambiguous(t.volumes);
      OneOutcome(t.volumes, c.volumes, d.volumes);
    }
  }

  // ---------------------------------------------------------------------------------------------
  // When the fingerprint does not depend on the order of assembly
  // ---------------------------------------------------------------------------------------------

  lemma ShapesReplace(cs: seq<Container>, c: nat, y: Container)
    requires c < |cs| && ShapeOf(y) == ShapeOf(cs[c])
    ensures Shapes(cs[c := y]) == Shapes(cs)
  {
    var ds := cs[c := y];
    ShapesRemove(cs, c);
    ShapesRemove(ds, c);
    assert ds[..c] + ds[c + 1..] == cs[..c] + cs[c + 1..];
  }

  /** A change inside a container that keeps its name shows where the container ends up. */
  lemma ReplaceShows(order: Order, cs: seq<Container>, c: nat, y: Container)
    requires Orders(order) && c < |cs| && y.name == cs[c].name && Tidy(order, y) != Tidy(order, cs[c])
    ensures FormList(order, cs[c := y]) != FormList(order, cs)
  {
    var ds := cs[c := y];
    assert Names(ds) == Names(cs) && |Names(cs)| == |cs|;
    var p := order(Names(cs));
    assert Permutes(p, |cs|) && c in p;
    var k :| 0 <= k < |p| && p[k] == c;
    assert FormList(order, ds)[k] == Tidy(order, y) && FormList(order, cs)[k] == Tidy(order, cs[c]);
  }

  function SwapEnv(x: Container, i: nat, j: nat): Container
    requires i < |x.body.env| && j < |x.body.env|
  {
    var env := x.body.env;
    x.(body := x.body.(env := env[i := env[j]][j := env[i]]))
  }

  function SwapMounts(x: Container, i: nat, j: nat): Container
    requires i < |x.body.mounts| && j < |x.body.mounts|
  {
    var mounts := x.body.mounts;
    x.(body := x.body.(mounts := mounts[i := mounts[j]][j := mounts[i]]))
  }

  lemma SwapEnvShows(order: Order, cs: seq<Container>, c: nat, i: nat, j: nat)
    requires Orders(order) && c < |cs| && i < |cs[c].body.env| && j < |cs[c].body.env|
    requires cs[c].body.env[i].name == cs[c].body.env[j].name && cs[c].body.env[i] != cs[c].body.env[j]
    ensures var ds := cs[c := SwapEnv(cs[c], i, j)];
            Shapes(ds) == Shapes(cs) && FormList(order, ds) != FormList(order, cs)
  {
    var y := SwapEnv(cs[c], i, j);
    var k := SwapShows(order, cs[c].body.env, i, j);
    assert Tidy(order, y).body.env[k] != Tidy(order, cs[c]).body.env[k];
    ShapesReplace(cs, c, y);
    ReplaceShows(order, cs, c, y);
  }

  lemma SwapMountsShows(order: Order, cs: seq<Container>, c: nat, i: nat, j: nat)
    requires Orders(order) && c < |cs| && i < |cs[c].body.mounts| && j < |cs[c].body.mounts|
    requires cs[c].body.mounts[i].name == cs[c].body.mounts[j].name && cs[c].body.mounts[i] != cs[c].body.mounts[j]
    ensures var ds := cs[c := SwapMounts(cs[c], i, j)];
            Shapes(ds) == Shapes(cs) && FormList(order, ds) != FormList(order, cs)
  {
    var y := SwapMounts(cs[c], i, j);
    var k := SwapShows(order, cs[c].body.mounts, i, j);
    assert Tidy(order, y).body.mounts[k] != Tidy(order, cs[c]).body.mounts[k];
    ShapesReplace(cs, c, y);
    ReplaceShows(order, cs, c, y);
  }

  lemma SwapContainersShows(order: Order, cs: seq<Container>, c: nat, d: nat)
    requires Orders(order) && c < |cs| && d < |cs| && cs[c].name == cs[d].name && ShapeOf(cs[c]) != ShapeOf(cs[d])
    ensures var ds := cs[c := cs[d]][d := cs[c]]; Shapes(ds) == Shapes(cs) && FormList(order, ds) != FormList(order, cs)
  {
    var ds := cs[c := cs[d]][d := cs[c]];
    var k := SwapShows(order, cs, c, d);
    ShapesPermute(ds, cs);
    TidyKeepsShape(order, cs[c]);
    TidyKeepsShape(order, cs[d]);
    assert FormList(order, cs)[k] == Tidy(order, cs[c]) && FormList(order, ds)[k] == Tidy(order, cs[d]);
  }

  lemma TidyKeepsShape(order: Order, x: Container)
    requires Orders(order)
    ensures ShapeOf(Tidy(order, x)) == ShapeOf(x)
  {
    ArrangedIsSort(order, x.body.env);
    ArrangedIsSort(order, x.body.mounts);
  }

  /** Containers that agree but for order come out alike. */
  ghost predicate Steady(order: Order, cs: seq<Container>)
    requires Orders(order)
  {
    forall ds | Shapes(ds) == Shapes(cs) :: FormList(order, ds) == FormList(order, cs)
  }

  lemma Clash<T>(s: seq<Named<T>>) returns (i: nat, j: nat)
    requires !Unambiguous(s)
    ensures i < |s| && j < |s| && s[i].name == s[j].name && s[i] != s[j]
  {
    var x, y :| x in s && y in s && x.name == y.name && x != y;
    i :| i < |s| && s[i] == x;
    j :| j < |s| && s[j] == y;
  }

  lemma Unsteady(order: Order, cs: seq<Container>, ds: seq<Container>)
    requires Orders(order) && Shapes(ds) == Shapes(cs) && FormList(order, ds) != FormList(order, cs)
    ensures !Steady(order, cs)
  {
  }

  lemma ClashingEnv(order: Order, cs: seq<Container>, c: nat)
    requires Orders(order) && c < |cs| && !Unambiguous(cs[c].body.env)
    ensures !Steady(order, cs)
  {
    var i, j := Clash(cs[c].body.env);
    SwapEnvShows(order, cs, c, i, j);
    Unsteady(order, cs, cs[c := SwapEnv(cs[c], i, j)]);
  }

  lemma ClashingMounts(order: Order, cs: seq<Container>, c: nat)
    requires Orders(order) && c < |cs| && !Unambiguous(cs[c].body.mounts)
    ensures !Steady(order, cs)
  {
    var i, j := Clash(cs[c].body.mounts);
    SwapMountsShows(order, cs, c, i, j);
    Unsteady(order, cs, cs[c := SwapMounts(cs[c], i, j)]);
  }

  lemma SteadyShape(order: Order, cs: seq<Container>, s: Shape)
    requires Orders(order) && Steady(order, cs) && s in Shapes(cs)
    ensures Unmistakable(s.env) && Unmistakable(s.mounts)
  {
    var c := FindShape(cs, s);
    if !Unambiguous(cs[c].body.env) { ClashingEnv(order, cs, c); }
    if !Unambiguous(cs[c].body.mounts) { ClashingMounts(order, cs, c); }
    UnmistakableIsUnambiguous(cs[c].body.env);
    UnmistakableIsUnambiguous(cs[c].body.mounts);
  }

  lemma ClashingContainers(order: Order, cs: seq<Container>, c: nat, d: nat)
    requires Orders(order) && c < |cs| && d < |cs| && cs[c].name == cs[d].name && ShapeOf(cs[c]) != ShapeOf(cs[d])
    ensures !Steady(order, cs)
  {
    SwapContainersShows(order, cs, c, d);
    Unsteady(order, cs, cs[c := cs[d]][d := cs[c]]);
  }

  lemma ClashingShapes(order: Order, cs: seq<Container>, s: Shape, r: Shape)
    requires Orders(order) && s in Shapes(cs) && r in Shapes(cs) && s.name == r.name && s != r
    ensures !Steady(order, cs)
  {
    var c := FindShape(cs, s);
    var d := FindShape(cs, r);
    ClashingContainers(order, cs, c, d);
  }

  lemma SteadyMeans(order: Order, cs: seq<Container>)
    requires Orders(order)
    ensures Steady(order, cs) <==> WellNamedShapes(Shapes(cs))
  {
    if Steady(order, cs) {
      forall s <- Shapes(cs) ensures Unmistakable(s.env) && Unmistakable(s.mounts) { SteadyShape(order, cs, s); }
      forall s, r | s in Shapes(cs) && r in Shapes(cs) && s.name == r.name ensures s == r {
        if s != r { ClashingShapes(order, cs, s, r); }
      }
    }
    if WellNamedShapes(Shapes(cs)) {
      forall ds | Shapes(ds) == Shapes(cs) ensures FormList(order, ds) == FormList(order, cs) {
        FormListIsCanonical(order, cs);
        FormListIsCanonical(order, ds);
        ListsAgree(cs, FormList(order, cs), ds, FormList(order, ds));
      }
    }
  }

  /** Every way of assembling what `t` says gets the fingerprint of `t`. */
  ghost predicate Invariant(order: Order, t: Template)
    requires Orders(order)
  {
    forall u | LookOf(u) == LookOf(t) :: Form(order, u) == Form(order, t)
  }

  /** For any sort by name, the order of assembly never shows exactly when names identify entries. */
  lemma FingerprintInvariant(order: Order, t: Template)
    requires Orders(order)
    ensures Invariant(order, t) <==> WellNamed(t)
  {
    if WellNamed(t) {
      forall u | LookOf(u) == LookOf(t) ensures Form(order, u) == Form(order, t) {
        FormIsCanonical(order, t);
        FormIsCanonical(order, u);
        FingerprintsAgree(t, Form(order, t), u, Form(order, u));
      }
    }
    if Invariant(order, t) {
      InvariantLists(order, t);
      SteadyMeans(order, t.containers);
      SteadyMeans(order, t.initContainers);
      OrderInvariant(order, t.volumes);
      UnmistakableIsUnambiguous(t.volumes);
    }
  }

  lemma InvariantLists(order: Order, t: Template)
    requires Orders(order) && Invariant(order, t)
    ensures Steady(order, t.containers) && Steady(order, t.initContainers)
    ensures forall r | multiset(r) == multiset(t.volumes) :: Arranged(order, r) == Arranged(order, t.volumes)
  {
    forall ds | Shapes(ds) == Shapes(t.containers) ensures FormList(order, ds) == FormList(order, t.containers) {
      var u := t.(containers := ds);
      assert LookOf(u) == LookOf(t) && Form(order, u) == Form(order, t);
    }
    forall ds | Shapes(ds) == Shapes(t.initContainers)
      ensures FormList(order, ds) == FormList(order, t.initContainers)
    {
      var u := t.(initContainers := ds);
      assert LookOf(u) == LookOf(t) && Form(order, u) == Form(order, t);
    }
    forall r | multiset(r) == multiset(t.volumes) ensures Arranged(order, r) == Arranged(order, t.volumes) {
      var u := t.(volumes := r);
      assert LookOf(u) == LookOf(t) && Form(order, u) == Form(order, t);
    }
  }

  /** Two mounts of one volume in a container: listing them the other way round changes the fingerprint. */
  lemma TwoMountsOfOneVolume(order: Order, t: Template, c: nat, i: nat, j: nat)
    requires Orders(order) && c < |t.containers|
    requires i < |t.containers[c].body.mounts| && j < |t.containers[c].body.mounts|
    requires var mounts := t.containers[c].body.mounts; mounts[i].name == mounts[j].name && mounts[i] != mounts[j]
    ensures var u := t.(containers := t.containers[c := SwapMounts(t.containers[c], i, j)]);
            LookOf(u) == LookOf(t) && Form(order, u) != Form(order, t)
  {
    SwapMountsShows(order, t.containers, c, i, j);
  }

  // ---------------------------------------------------------------------------------------------
  // Reconciling the live Deployment
  // ---------------------------------------------------------------------------------------------

  datatype Deployment = Deployment(template: Template, selector: string, hash: Option<Template>)

  datatype Outcome = NoOp | Updated | Rejected

  /** `want` is the fingerprint stamped on the desired Deployment; the live selector is kept. */
  function Rolled(live: Deployment, desired: Template, want: Template, accepted: bool): (Deployment, Outcome) {
    if live.hash == Some(want) then (live, NoOp)
    else if accepted then (live.(template := desired, hash := Some(want)), Updated)
    else (live, Rejected)
  }

  class Builder {
    var live: Deployment

    constructor (live: Deployment)
      ensures this.live == live
    {
      this.live := live;
    }

    method ReconcileBuilderDeployment(desired: Template, accepted: bool) returns (outcome: Outcome, want: Template)
      modifies this
      ensures Orders(Insertion) && want == Form(Insertion, desired) && Canonical(desired, want)
      ensures (live, outcome) == Rolled(old(live), desired, want, accepted)
      ensures outcome.Updated? ==>
                live.template == desired && live.selector == old(live).selector && live.hash == Some(want)
      ensures !outcome.Updated? ==> live == old(live)
      ensures outcome.NoOp? <==> old(live).hash == Some(want)
      ensures outcome.Rejected? <==> old(live).hash != Some(want) && !accepted
    {
      want := BuilderSpecHash(desired);
      if live.hash == Some(want) {
        return NoOp, want;
      }
      if !accepted {
        return Rejected, want;
      }
      live := Deployment(desired, live.selector, Some(want));
      return Updated, want;
    }
  }

  /** One reconcile: the template assembled, its fingerprint, and whether an update is accepted. */
  datatype Tick = Tick(desired: Template, want: Template, accepted: bool)

  ghost predicate Proper(k: Tick) {
    WellNamed(k.desired) && Canonical(k.desired, k.want)
  }

  function Run(live: Deployment, ticks: seq<Tick>): Deployment
    decreases |ticks|
  {
    if ticks == [] then live
    else Run(Rolled(live, ticks[0].desired, ticks[0].want, ticks[0].accepted).0, ticks[1..])
  }

  lemma {:induction false} RunLast(live: Deployment, ticks: seq<Tick>, k: Tick)
    ensures Run(live, ticks + [k]) == Rolled(Run(live, ticks), k.desired, k.want, k.accepted).0
    decreases |ticks|
  {
    if ticks == [] {
      assert (ticks + [k])[1..] == [];
    } else {
      assert (ticks + [k])[1..] == ticks[1..] + [k];
      RunLast(Rolled(live, ticks[0].desired, ticks[0].want, ticks[0].accepted).0, ticks[1..], k);
    }
  }

  /** A stored fingerprint is the live template's own. */
  ghost predicate Honest(live: Deployment) {
    live.hash.Some? ==> Canonical(live.template, live.hash.value)
  }

  /** Every reconcile keeps the fingerprint honest and the selector as it was. */
  lemma {:induction false} RunHonest(live: Deployment, ticks: seq<Tick>)
    requires Honest(live) && forall k <- ticks :: Canonical(k.desired, k.want)
    ensures Honest(Run(live, ticks)) && Run(live, ticks).selector == live.selector
    decreases |ticks|
  {
    if ticks != [] {
      assert Canonical(ticks[0].desired, ticks[0].want);
      RunHonest(Rolled(live, ticks[0].desired, ticks[0].want, ticks[0].accepted).0, ticks[1..]);
    }
  }

  lemma SameFormSameLook(t: Template, u: Template, c: Template)
    requires Canonical(t, c) && Canonical(u, c)
    ensures LookOf(t) == LookOf(u)
  {
    ListCanonicalMeans(t.containers, c.containers);
    ListCanonicalMeans(u.containers, c.containers);
    ListCanonicalMeans(t.initContainers, c.initContainers);
    ListCanonicalMeans(u.initContainers, c.initContainers);
  }

  /**
   * After any run from an honest start whose last update was not rejected, what runs says what was
   * desired last, up to order; after a rejected one it does not, provided that a fingerprint was
   * stored and names identify the desired entries.
   */
  lemma LastDesiredRuns(live: Deployment, ticks: seq<Tick>, k: Tick)
    requires Honest(live) && (forall x <- ticks :: Canonical(x.desired, x.want)) && Canonical(k.desired, k.want)
    ensures var before, after := Run(live, ticks), Run(live, ticks + [k]);
            var rejected := !k.accepted && before.hash != Some(k.want);
            && (!rejected ==> LookOf(after.template) == LookOf(k.desired) && after.hash == Some(k.want))
            && (rejected ==> after == before)
            && (rejected && before.hash.Some? && WellNamed(k.desired) ==>
                LookOf(after.template) != LookOf(k.desired))
  {
    var before := Run(live, ticks);
    RunHonest(live, ticks);
    RunLast(live, ticks, k);
    if before.hash == Some(k.want) {
      SameFormSameLook(before.template, k.desired, k.want);
    } else if before.hash.Some? && WellNamed(k.desired) {
      FingerprintsAgree(k.desired, k.want, before.template, before.hash.value);
    }
  }

  /** How many reconciles updated the Deployment. */
  function Updates(live: Deployment, ticks: seq<Tick>): nat
    decreases |ticks|
  {
    if ticks == [] then 0
    else
      var (next, outcome) := Rolled(live, ticks[0].desired, ticks[0].want, ticks[0].accepted);
      (if outcome.Updated? then 1 else 0) + Updates(next, ticks[1..])
  }

  /** How often the desired template changed by more than order. */
  function Changes(ticks: seq<Tick>): nat
    decreases |ticks|
  {
    if |ticks| < 2 then 0
    else (if LookOf(ticks[0].desired) == LookOf(ticks[1].desired) then 0 else 1) + Changes(ticks[1..])
  }

  function Stale(live: Deployment, ticks: seq<Tick>): nat {
    if ticks == [] || live.hash == Some(ticks[0].want) then 0 else 1
  }

  /** Along the ticks, the fingerprint changes exactly when the template does. */
  ghost predicate Faithful(ticks: seq<Tick>)
    decreases |ticks|
  {
    |ticks| < 2 ||
    ((ticks[0].want == ticks[1].want <==> LookOf(ticks[0].desired) == LookOf(ticks[1].desired)) && Faithful(ticks[1..]))
  }

  lemma {:induction false} ProperIsFaithful(ticks: seq<Tick>)
    requires forall k <- ticks :: Proper(k)
    ensures Faithful(ticks)
    decreases |ticks|
  {
    if |ticks| >= 2 {
      assert Proper(ticks[0]) && Proper(ticks[1]);
      FingerprintsAgree(ticks[0].desired, ticks[0].want, ticks[1].desired, ticks[1].want);
      ProperIsFaithful(ticks[1..]);
    }
  }

  lemma {:induction false} FaithfulUpdates(live: Deployment, ticks: seq<Tick>)
    requires Faithful(ticks)
    ensures Updates(live, ticks) <= Stale(live, ticks) + Changes(ticks)
    ensures (forall k <- ticks :: k.accepted) ==> Updates(live, ticks) == Stale(live, ticks) + Changes(ticks)
    decreases |ticks|
  {
    if ticks != [] {
      var next := Rolled(live, ticks[0].desired, ticks[0].want, ticks[0].accepted).0;
      FaithfulUpdates(next, ticks[1..]);
    }
  }

  /**
   * However the assemblies are ordered and whichever updates are rejected, the Deployment is
   * updated at most once for the start and once per real change of the desired template; exactly so
   * when no update is rejected.
   */
  lemma UpdatesAreRealChanges(live: Deployment, ticks: seq<Tick>)
    requires forall k <- ticks :: Proper(k)
    ensures Updates(live, ticks) <= Stale(live, ticks) + Changes(ticks)
    ensures (forall k <- ticks :: k.accepted) ==> Updates(live, ticks) == Stale(live, ticks) + Changes(ticks)
  {
    ProperIsFaithful(ticks);
    FaithfulUpdates(live, ticks);
  }

  /** After a reconcile that did not fail, reconciling the same template in any order does nothing. */
  lemma SettledIsNoOp(live: Deployment, k: Tick, again: Tick)
    requires Proper(k) && Proper(again) && LookOf(k.desired) == LookOf(again.desired)
    requires !Rolled(live, k.desired, k.want, k.accepted).1.Rejected?
    ensures var next := Rolled(live, k.desired, k.want, k.accepted).0;
            Rolled(next, again.desired, again.want, again.accepted) == (next, NoOp)
  {
    FingerprintsAgree(k.desired, k.want, again.desired, again.want);
  }

  /** Reassembling the settled template never rolls the builder again exactly when names identify entries. */
  lemma QuietExactlyWhenWellNamed(order: Order, live: Deployment, t: Template)
    requires Orders(order)
    ensures var settled := Rolled(live, t, Form(order, t), true).0;
            (forall u | LookOf(u) == LookOf(t) :: Rolled(settled, u, Form(order, u), true) == (settled, NoOp)) <==>
                WellNamed(t)
  {
    var settled := Rolled(live, t, Form(order, t), true).0;
    FingerprintInvariant(order, t);
    if WellNamed(t) {
      forall u | LookOf(u) == LookOf(t) ensures Rolled(settled, u, Form(order, u), true) == (settled, NoOp) {
        assert Form(order, u) == Form(order, t);
      }
    } else {
      var u :| LookOf(u) == LookOf(t) && Form(order, u) != Form(order, t);
      assert Rolled(settled, u, Form(order, u), true).1 == Updated;
    }
  }
}
