/**
 * Sorting named entries by name. A sort that compares nothing but names applies a permutation that
 * depends on the sequence of names alone; it need not be stable.
 */
module NameSort {
  import opened Common

  datatype Named<+T> = Named(name: string, body: T)

  /** `a` may stand before `b`. */
  predicate AtMost(a: string, b: string) {
    !Before(b, a)
  }

  lemma AtMostTransitive(a: string, b: string, c: string)
    requires AtMost(a, b) && AtMost(b, c)
    ensures AtMost(a, c)
  {
    BeforeTotal(a, b);
    BeforeTotal(b, c);
    BeforeTotal(a, c);
    if a != b && b != c { BeforeTransitive(a, b, c); }
  }

  predicate Sorted<T>(s: seq<Named<T>>) {
    forall i, j | 0 <= i < j < |s| :: AtMost(s[i].name, s[j].name)
  }

  /** `r` is `s` put in order. */
  ghost predicate IsSort<T>(s: seq<Named<T>>, r: seq<Named<T>>) {
    Sorted(r) && multiset(r) == multiset(s)
  }

  /** Entries with one name are the same entry. */
  ghost predicate Unambiguous<T>(s: seq<Named<T>>) {
    forall x, y | x in s && y in s && x.name == y.name :: x == y
  }

  lemma SameMembers<T>(a: seq<T>, b: seq<T>, x: T)
    requires multiset(a) == multiset(b)
    ensures |a| == |b| && (x in a <==> x in b)
  {
    assert |a| == |multiset(a)| && |b| == |multiset(b)|;
    assert x in a <==> x in multiset(a);
    assert x in b <==> x in multiset(b);
  }

  lemma SameHeads<T>(a: seq<Named<T>>, b: seq<Named<T>>)
    requires Sorted(a) && Sorted(b) && multiset(a) == multiset(b) && Unambiguous(a) && a != []
    ensures b != [] && a[0] == b[0]
  {
    SameMembers(a, b, a[0]);
    SameMembers(a, b, b[0]);
    BeforeTotal(a[0].name, b[0].name);
    BeforeTotal(a[0].name, a[0].name);
    var i :| 0 <= i < |a| && a[i] == b[0];
    var j :| 0 <= j < |b| && b[j] == a[0];
    assert i == 0 || AtMost(a[0].name, a[i].name);
    assert j == 0 || AtMost(b[0].name, b[j].name);
  }

  lemma SameTails<T>(a: seq<T>, b: seq<T>)
    requires a != [] && b != [] && a[0] == b[0] && multiset(a) == multiset(b)
    ensures multiset(a[1..]) == multiset(b[1..])
  {
    assert a == [a[0]] + a[1..] && b == [b[0]] + b[1..];
    assert multiset(a[1..]) == multiset(a) - multiset{a[0]};
  }

  lemma {:induction false} SortUnique<T>(a: seq<Named<T>>, b: seq<Named<T>>)
    requires Sorted(a) && Sorted(b) && multiset(a) == multiset(b) && Unambiguous(a)
    ensures a == b
  {
    if a == [] {
      assert |multiset(b)| == |b|;
    } else {
      SameHeads(a, b);
      SameTails(a, b);
      SortUnique(a[1..], b[1..]);
      assert a == [a[0]] + a[1..] && b == [b[0]] + b[1..];
    }
  }

  /** However the entries came, if names identify them there is one sorted list of them. */
  lemma OneOutcome<T>(s: seq<Named<T>>, a: seq<Named<T>>, b: seq<Named<T>>)
    requires Unambiguous(s) && multiset(a) == multiset(s) == multiset(b) && Sorted(a) && Sorted(b)
    ensures a == b
  {
    forall x, y | x in a && y in a && x.name == y.name ensures x == y {
      SameMembers(a, s, x);
      SameMembers(a, s, y);
    }
    SortUnique(a, b);
  }

  // ---------------------------------------------------------------------------------------------
  // Sorts that look at names only
  // ---------------------------------------------------------------------------------------------

  /** For a sequence of names, which position goes where. */
  type Order = seq<string> -> seq<nat>

  predicate Permutes(p: seq<nat>, n: nat) {
    && |p| == n && (forall i | 0 <= i < n :: p[i] < n)
    && (forall i, j | 0 <= i < j < n :: p[i] != p[j])
    && (forall k | 0 <= k < n :: k in p)
  }

  predicate InOrder(names: seq<string>, p: seq<nat>)
    requires Permutes(p, |names|)
  {
    forall i, j | 0 <= i < j < |p| :: AtMost(names[p[i]], names[p[j]])
  }

  ghost predicate Orders(order: Order) {
    forall names: seq<string> :: Permutes(order(names), |names|) && InOrder(names, order(names))
  }

  function Names<T>(s: seq<Named<T>>): seq<string> {
    seq(|s|, i requires 0 <= i < |s| => s[i].name)
  }

  function Pick<T>(s: seq<T>, p: seq<nat>): seq<T>
    requires forall i | 0 <= i < |p| :: p[i] < |s|
  {
    seq(|p|, i requires 0 <= i < |p| => s[p[i]])
  }

  ghost function Arranged<T>(order: Order, s: seq<Named<T>>): seq<Named<T>>
    requires Orders(order)
  {
    assert |Names(s)| == |s|;
    Pick(s, order(Names(s)))
  }

  lemma {:induction false} PickKeeps<T>(s: seq<T>, p: seq<nat>)
    requires Permutes(p, |s|)
    ensures multiset(Pick(s, p)) == multiset(s)
    decreases |s|
  {
    if s == [] {
      assert Pick(s, p) == s;
    } else {
      var n := |s| - 1;
      assert n in p;
      var k :| 0 <= k < |p| && p[k] == n;
      var q := p[..k] + p[k + 1..];
      Unplaced(p, |s|, k);
      PickKeeps(s[..n], q);
      PickAround(s, p, k);
      Around(Pick(s[..n], q), s[n], k);
      assert s == s[..n] + [s[n]];
    }
  }

  lemma PickAround<T>(s: seq<T>, p: seq<nat>, k: nat)
    requires Permutes(p, |s|) && k < |p| && p[k] == |s| - 1
    requires Permutes(p[..k] + p[k + 1..], |s| - 1)
    ensures var rest := Pick(s[..|s| - 1], p[..k] + p[k + 1..]); Pick(s, p) == rest[..k] + [s[|s| - 1]] + rest[k..]
  {
  }

  lemma Around<T>(s: seq<T>, x: T, k: nat)
    requires k <= |s|
    ensures multiset(s[..k] + [x] + s[k..]) == multiset(s) + multiset{x}
  {
    assert s == s[..k] + s[k..];
  }

  lemma Unplaced(p: seq<nat>, n: nat, k: nat)
    requires Permutes(p, n) && k < n && p[k] == n - 1
    ensures Permutes(p[..k] + p[k + 1..], n - 1)
  {
    var q := p[..k] + p[k + 1..];
    assert forall i | 0 <= i < |q| :: q[i] == p[if i < k then i else i + 1];
    forall m | 0 <= m < n - 1 ensures m in q {
      assert m in p;
      var i :| 0 <= i < n && p[i] == m;
      assert q[if i < k then i else i - 1] == m;
    }
  }

  lemma ArrangedIsSort<T>(order: Order, s: seq<Named<T>>)
    requires Orders(order)
    ensures IsSort(s, Arranged(order, s))
  {
    var names := Names(s);
    assert |names| == |s| && InOrder(names, order(names));
    PickKeeps(s, order(names));
  }

  lemma Swapped<T>(s: seq<T>, i: nat, j: nat)
    requires i < |s| && j < |s|
    ensures multiset(s[i := s[j]][j := s[i]]) == multiset(s)
  {
  }

  /** Swapping two different entries with one name shows in the outcome. */
  lemma SwapShows<T>(order: Order, s: seq<Named<T>>, i: nat, j: nat) returns (k: nat)
    requires Orders(order) && i < |s| && j < |s| && s[i].name == s[j].name
    ensures var r := s[i := s[j]][j := s[i]];
            && multiset(r) == multiset(s)
            && k < |s| == |Arranged(order, s)| == |Arranged(order, r)|
            && Arranged(order, s)[k] == s[i] && Arranged(order, r)[k] == s[j]
  {
    var r := s[i := s[j]][j := s[i]];
    Swapped(s, i, j);
    assert Names(r) == Names(s) && |Names(s)| == |s|;
    var p := order(Names(s));
    assert Permutes(p, |s|) && i in p;
    k :| 0 <= k < |p| && p[k] == i;
  }

  /** The outcome does not depend on the order of the entries exactly when names identify them. */
  lemma OrderInvariant<T>(order: Order, s: seq<Named<T>>)
    requires Orders(order)
    ensures (forall r | multiset(r) == multiset(s) :: Arranged(order, r) == Arranged(order, s)) <==> Unambiguous(s)
  {
    if Unambiguous(s) {
      forall r | multiset(r) == multiset(s) ensures Arranged(order, r) == Arranged(order, s) {
        ArrangedIsSort(order, r);
        ArrangedIsSort(order, s);
        OneOutcome(s, Arranged(order, r), Arranged(order, s));
      }
    } else {
      var x, y :| x in s && y in s && x.name == y.name && x != y;
      var i :| 0 <= i < |s| && s[i] == x;
      var j :| 0 <= j < |s| && s[j] == y;
      var k := SwapShows(order, s, i, j);
      var r := s[i := s[j]][j := s[i]];
      assert Arranged(order, r)[k] != Arranged(order, s)[k];
    }
  }

  // ---------------------------------------------------------------------------------------------
  // Insertion sort is such a sort
  // ---------------------------------------------------------------------------------------------

  function Insert<T>(s: seq<Named<T>>, x: Named<T>): seq<Named<T>> {
    var n := |s| - 1;
    if s == [] || AtMost(s[n].name, x.name) then s + [x] else Insert(s[..n], x) + [s[n]]
  }

  function Sort<T>(s: seq<Named<T>>): seq<Named<T>> {
    if s == [] then [] else Insert(Sort(s[..|s| - 1]), s[|s| - 1])
  }

  method SortFunc<T>(a: array<Named<T>>)
    modifies a
    ensures a[..] == Sort(old(a[..]))
  {
    ghost var was, done := a[..], [];
    for i := 0 to a.Length
      invariant a[..] == done + was[i..] && |done| == i && done == Sort(was[..i])
    {
      ghost var x, rest := was[i], was[i + 1..];
      StartSinking(done, was, i);
      Sink(a, i, done, x, rest);
      SortPrefix(was, i);
      InsertLength(done, x);
      done := Insert(done, x);
    }
    assert was[..a.Length] == was;
  }

  lemma StartSinking<T>(done: seq<Named<T>>, was: seq<Named<T>>, i: nat)
    requires i == |done| < |was|
    ensures done + was[i..] == Sinking(done, was[i], was[i + 1..], i)
  {
  }

  lemma SortPrefix<T>(s: seq<Named<T>>, i: nat)
    requires i < |s|
    ensures Sort(s[..i + 1]) == Insert(Sort(s[..i]), s[i])
  {
    assert s[..i + 1][..i] == s[..i] && s[..i + 1][i] == s[i];
  }

  lemma {:induction false} InsertLength<T>(s: seq<Named<T>>, x: Named<T>)
    ensures |Insert(s, x)| == |s| + 1
  {
    if s != [] { InsertLength(s[..|s| - 1], x); }
  }

  /** Moves the entry at i down past everything that must come after it. */
  method Sink<T>(a: array<Named<T>>, i: nat, ghost done: seq<Named<T>>, ghost x: Named<T>, ghost rest: seq<Named<T>>)
    requires i == |done| && a[..] == Sinking(done, x, rest, i)
    modifies a
    ensures a[..] == Insert(done, x) + rest
  {
    var j := i;
    assert done[..i] == done && Insert(done, x) + done[i..] == Insert(done, x);
    while j > 0 && Before(a[j].name, a[j - 1].name)
      invariant 0 <= j <= i && a[..] == Sinking(done, x, rest, j)
      invariant Insert(done, x) == Insert(done[..j], x) + done[j..]
    {
      SinkOnce(done, x, rest, j);
      assert a[..][j] == x && a[..][j - 1] == done[j - 1];
      InsertPast(done, x, j);
      a[j - 1], a[j] := a[j], a[j - 1];
      assert a[..] == Sinking(done, x, rest, j)[j - 1 := x][j := done[j - 1]];
      j := j - 1;
    }
    assert j > 0 ==> a[..][j] == x && a[..][j - 1] == done[j - 1] && done[..j][j - 1] == done[j - 1];
    assert Insert(done[..j], x) == done[..j] + [x];
  }

  /** `x` has come down to position j of `done`. */
  ghost function Sinking<T>(done: seq<Named<T>>, x: Named<T>, rest: seq<Named<T>>, j: nat): seq<Named<T>>
    requires j <= |done|
  {
    done[..j] + [x] + done[j..] + rest
  }

  lemma SinkOnce<T>(done: seq<Named<T>>, x: Named<T>, rest: seq<Named<T>>, j: nat)
    requires 0 < j <= |done|
    ensures var s := Sinking(done, x, rest, j);
            s[j] == x && s[j - 1] == done[j - 1] && s[j - 1 := x][j := done[j - 1]] == Sinking(done, x, rest, j - 1)
  {
  }

  lemma InsertPast<T>(s: seq<Named<T>>, x: Named<T>, j: nat)
    requires 0 < j <= |s| && Before(x.name, s[j - 1].name)
    ensures Insert(s[..j], x) + s[j..] == Insert(s[..j - 1], x) + s[j - 1..]
  {
    assert s[..j][..j - 1] == s[..j - 1] && s[j - 1..] == [s[j - 1]] + s[j..];
  }

  lemma {:induction false} InsertKeeps<T>(s: seq<Named<T>>, x: Named<T>)
    ensures multiset(Insert(s, x)) == multiset(s) + multiset{x}
  {
    var n := |s| - 1;
    if s != [] && !AtMost(s[n].name, x.name) {
      InsertKeeps(s[..n], x);
      assert s == s[..n] + [s[n]];
    }
  }

  lemma SnocSorted<T>(s: seq<Named<T>>, x: Named<T>)
    requires Sorted(s) && forall y <- s :: AtMost(y.name, x.name)
    ensures Sorted(s + [x])
  {
  }

  lemma {:induction false} InsertSorts<T>(s: seq<Named<T>>, x: Named<T>)
    requires Sorted(s)
    ensures Sorted(Insert(s, x))
  {
    if s != [] {
      var n := |s| - 1;
      if AtMost(s[n].name, x.name) {
        forall j | 0 <= j < |s| ensures AtMost(s[j].name, x.name) {
          if j < n { AtMostTransitive(s[j].name, s[n].name, x.name); }
        }
        SnocSorted(s, x);
      } else {
        InsertSorts(s[..n], x);
        InsertKeeps(s[..n], x);
        forall y <- Insert(s[..n], x) ensures AtMost(y.name, s[n].name) {
          assert y in multiset(s[..n]) + multiset{x};
          BeforeTotal(x.name, s[n].name);
        }
        SnocSorted(Insert(s[..n], x), s[n]);
      }
    }
  }

  lemma {:induction false} SortSorts<T>(s: seq<Named<T>>)
    ensures IsSort(s, Sort(s))
  {
    if s != [] {
      var n := |s| - 1;
      SortSorts(s[..n]);
      InsertSorts(Sort(s[..n]), s[n]);
      InsertKeeps(Sort(s[..n]), s[n]);
      assert s == s[..n] + [s[n]];
    }
  }

  /** The entry at position i is tagged with i. */
  function Tagged(names: seq<string>): seq<Named<nat>> {
    seq(|names|, i requires 0 <= i < |names| => Named(names[i], i))
  }

  function Bodies<T>(s: seq<Named<T>>): seq<T> {
    seq(|s|, i requires 0 <= i < |s| => s[i].body)
  }

  /** The positions in the order insertion sort puts the names. */
  function Insertion(names: seq<string>): seq<nat> {
    Bodies(Sort(Tagged(names)))
  }

  /** What the tags stand for. */
  function Untag<T>(s: seq<Named<T>>, r: seq<Named<nat>>): seq<Named<T>>
    requires forall i | 0 <= i < |r| :: r[i].body < |s|
  {
    seq(|r|, i requires 0 <= i < |r| => s[r[i].body])
  }

  predicate Faithful<T>(s: seq<Named<T>>, r: seq<Named<nat>>) {
    forall i | 0 <= i < |r| :: r[i].body < |s| && r[i].name == s[r[i].body].name
  }

  lemma UntagSnoc<T>(s: seq<Named<T>>, r: seq<Named<nat>>, x: Named<nat>)
    requires Faithful(s, r) && x.body < |s| && x.name == s[x.body].name
    ensures Faithful(s, r + [x]) && Untag(s, r + [x]) == Untag(s, r) + [s[x.body]]
  {
  }

  lemma UntagLast<T>(s: seq<Named<T>>, r: seq<Named<nat>>)
    requires Faithful(s, r) && r != []
    ensures var n := |r| - 1;
            Faithful(s, r[..n]) && Untag(s, r)[..n] == Untag(s, r[..n]) && Untag(s, r)[n] == s[r[n].body]
  {
  }

  lemma {:induction false} UntagInsert<T>(s: seq<Named<T>>, r: seq<Named<nat>>, x: Named<nat>)
    requires Faithful(s, r) && x.body < |s| && x.name == s[x.body].name
    ensures Faithful(s, Insert(r, x)) && Untag(s, Insert(r, x)) == Insert(Untag(s, r), s[x.body])
  {
    if r == [] || AtMost(r[|r| - 1].name, x.name) {
      UntagSnoc(s, r, x);
    } else {
      var n := |r| - 1;
      UntagLast(s, r);
      UntagInsert(s, r[..n], x);
      UntagSnoc(s, Insert(r[..n], x), r[n]);
    }
  }

  lemma {:induction false} UntagSort<T>(s: seq<Named<T>>, r: seq<Named<nat>>)
    requires Faithful(s, r)
    ensures Faithful(s, Sort(r)) && Untag(s, Sort(r)) == Sort(Untag(s, r))
  {
    if r != [] {
      var n := |r| - 1;
      UntagLast(s, r);
      UntagSort(s, r[..n]);
      UntagInsert(s, Sort(r[..n]), r[n]);
    }
  }

  /** In a list of distinct entries every entry occurs once. */
  lemma {:induction false} DistinctOnce<T>(s: seq<T>, x: T)
    requires forall i, j | 0 <= i < j < |s| :: s[i] != s[j]
    ensures multiset(s)[x] <= 1
  {
    if s != [] {
      var n := |s| - 1;
      assert s == s[..n] + [s[n]];
      DistinctOnce(s[..n], x);
      if x == s[n] { assert x !in s[..n]; }
    }
  }

  lemma OnceDistinct<T>(s: seq<T>, i: nat, j: nat)
    requires i < j < |s| && multiset(s)[s[i]] <= 1
    ensures s[i] != s[j]
  {
    assert s == s[..j] + s[j..] && s[i] in s[..j];
  }

  lemma TagsTell(names: seq<string>, r: seq<Named<nat>>, i: nat)
    requires multiset(r) == multiset(Tagged(names)) && i < |r|
    ensures r[i].body < |names| && r[i].name == names[r[i].body]
  {
    SameMembers(r, Tagged(names), r[i]);
  }

  lemma TagsDiffer(names: seq<string>, r: seq<Named<nat>>, i: nat, j: nat)
    requires multiset(r) == multiset(Tagged(names)) && i < j < |r|
    ensures r[i].body != r[j].body
  {
    TagsTell(names, r, i);
    TagsTell(names, r, j);
    DistinctOnce(Tagged(names), r[i]);
    OnceDistinct(r, i, j);
  }

  lemma TagsCover(names: seq<string>, r: seq<Named<nat>>, k: nat)
    requires multiset(r) == multiset(Tagged(names)) && k < |names|
    ensures k in Bodies(r)
  {
    var tags: seq<Named<nat>> := Tagged(names);
    SameMembers(r, tags, tags[k]);
    var i :| 0 <= i < |r| && r[i] == tags[k];
    assert Bodies(r)[i] == k;
  }

  lemma InsertionPermutes(names: seq<string>)
    ensures Permutes(Insertion(names), |names|) && InOrder(names, Insertion(names))
  {
    var r: seq<Named<nat>> := Sort(Tagged(names));
    SortSorts(Tagged(names));
    SameMembers(r, Tagged(names), Named("", 0));
    forall i | 0 <= i < |r| ensures r[i].body < |names| && r[i].name == names[r[i].body] { TagsTell(names, r, i); }
    forall i, j | 0 <= i < j < |r| ensures r[i].body != r[j].body { TagsDiffer(names, r, i, j); }
    forall k | 0 <= k < |names| ensures k in Insertion(names) { TagsCover(names, r, k); }
  }

  lemma InsertionOrders()
    ensures Orders(Insertion)
  {
    forall names: seq<string> ensures Permutes(Insertion(names), |names|) && InOrder(names, Insertion(names)) {
      InsertionPermutes(names);
    }
  }

  lemma UntagTagged<T>(s: seq<Named<T>>)
    ensures Faithful(s, Tagged(Names(s))) && Untag(s, Tagged(Names(s))) == s
  {
  }

  lemma UntagIsPick<T>(s: seq<Named<T>>, r: seq<Named<nat>>)
    requires Faithful(s, r)
    ensures Untag(s, r) == Pick(s, Bodies(r))
  {
  }

  /** Insertion sort compares nothing but names. */
  lemma SortIsArranged<T>(s: seq<Named<T>>)
    ensures Orders(Insertion) && Sort(s) == Arranged(Insertion, s)
  {
    InsertionOrders();
    var tags := Tagged(Names(s));
    UntagTagged(s);
    UntagSort(s, tags);
    UntagIsPick(s, Sort(tags));
  }
}
