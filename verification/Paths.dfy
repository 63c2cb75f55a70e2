/** Slash-separated paths as strings and as lists of components. */
module Paths {

  function IndexOf(s: string, c: char): (i: nat)
    ensures i <= |s|
  {
    if s == [] || s[0] == c then 0 else 1 + IndexOf(s[1..], c)
  }

  lemma {:induction false} IndexOfMeans(s: string, c: char)
    ensures c !in s[..IndexOf(s, c)]
    ensures IndexOf(s, c) < |s| <==> c in s
  {
    if s != [] && s[0] != c {
      IndexOfMeans(s[1..], c);
      var i := IndexOf(s[1..], c);
      assert s == [s[0]] + s[1..] && s[..i + 1] == [s[0]] + s[1..][..i];
    }
  }

  /** The pieces between slashes; the empty string has one empty piece. */
  function Split(s: string): (parts: seq<string>)
    ensures parts != []
    decreases |s|
  {
    var i := IndexOf(s, '/');
    if i == |s| then [s] else [s[..i]] + Split(s[i + 1..])
  }

  lemma {:induction false} SplitSlashFree(s: string)
    ensures forall p <- Split(s) :: '/' !in p
    decreases |s|
  {
    var i := IndexOf(s, '/');
    IndexOfMeans(s, '/');
    if i < |s| { SplitSlashFree(s[i + 1..]); }
  }

  function Join(parts: seq<string>): string {
    if parts == [] then "" else if |parts| == 1 then parts[0] else parts[0] + "/" + Join(parts[1..])
  }

  lemma {:induction false} IndexOfConcat(a: string, b: string)
    ensures IndexOf(a + "/" + b, '/') == IndexOf(a, '/')
  {
    if a != [] && a[0] != '/' {
      assert (a + "/" + b)[1..] == a[1..] + "/" + b;
      IndexOfConcat(a[1..], b);
    }
  }

  lemma ConcatPieces(a: string, b: string, i: nat)
    requires i <= |a|
    ensures (a + "/" + b)[..i] == a[..i]
    ensures i < |a| ==> (a + "/" + b)[i + 1..] == a[i + 1..] + "/" + b
    ensures i == |a| ==> (a + "/" + b)[i + 1..] == b && a[..i] == a
  {
  }

  lemma {:induction false} SplitAt(s: string)
    requires IndexOf(s, '/') < |s|
    ensures var i := IndexOf(s, '/'); Split(s) == [s[..i]] + Split(s[i + 1..])
  {
  }

  lemma {:induction false} SplitConcat(a: string, b: string)
    ensures Split(a + "/" + b) == Split(a) + Split(b)
    decreases |a|
  {
    var i := IndexOf(a, '/');
    IndexOfConcat(a, b);
    ConcatPieces(a, b, i);
    SplitAt(a + "/" + b);
    if i < |a| {
      SplitAt(a);
      SplitConcat(a[i + 1..], b);
      Associates([a[..i]], Split(a[i + 1..]), Split(b));
    }
  }

  lemma Associates<T>(a: seq<T>, b: seq<T>, c: seq<T>)
    ensures a + (b + c) == (a + b) + c
  {
  }

  predicate Plain(p: string) {
    p != "" && '/' !in p && p != "." && p != ".."
  }

  predicate AllPlain(parts: seq<string>) {
    forall p <- parts :: Plain(p)
  }

  lemma {:induction false} SplitJoin(parts: seq<string>)
    requires parts != [] && forall p <- parts :: '/' !in p
    ensures Split(Join(parts)) == parts
  {
    assert parts[0] in parts;
    IndexOfMeans(parts[0], '/');
    if |parts| > 1 {
      SplitConcat(parts[0], Join(parts[1..]));
      SplitJoin(parts[1..]);
      assert parts == [parts[0]] + parts[1..];
    } else {
      assert parts == [parts[0]];
    }
  }

  lemma {:induction false} JoinConcat(a: seq<string>, b: seq<string>)
    requires a != [] && b != []
    ensures Join(a + b) == Join(a) + "/" + Join(b)
  {
    if |a| == 1 {
      assert (a + b)[1..] == b;
    } else {
      assert (a + b)[1..] == a[1..] + b;
      JoinConcat(a[1..], b);
    }
  }

  /** One component of the lexical clean-up of a relative path. */
  function CleanStep(stack: seq<string>, p: string): seq<string> {
    if p == "" || p == "." then stack
    else if p == ".." && stack != [] && stack[|stack| - 1] != ".." then stack[..|stack| - 1]
    else stack + [p]
  }

  function CleanFrom(stack: seq<string>, parts: seq<string>): seq<string>
    decreases |parts|
  {
    if parts == [] then stack else CleanFrom(CleanStep(stack, parts[0]), parts[1..])
  }

  /** The components of the cleaned path; none stands for ".". */
  function Clean(s: string): seq<string> {
    CleanFrom([], Split(s))
  }

  /** Leading parent references, then plain components. */
  predicate Cleaned(stack: seq<string>) {
    && (forall i | 0 <= i < |stack| :: stack[i] == ".." || Plain(stack[i]))
    && (forall i | 0 < i < |stack| && stack[i] == ".." :: stack[i - 1] == "..")
  }

  lemma {:induction false} CleanFromCleaned(stack: seq<string>, parts: seq<string>)
    requires Cleaned(stack) && forall p <- parts :: '/' !in p
    ensures Cleaned(CleanFrom(stack, parts))
    decreases |parts|
  {
    if parts != [] {
      assert parts[0] in parts;
      CleanFromCleaned(CleanStep(stack, parts[0]), parts[1..]);
    }
  }

  /** A cleaned path that does not begin with a parent reference holds none. */
  lemma {:induction false} NoParents(stack: seq<string>)
    requires Cleaned(stack) && (stack == [] || stack[0] != "..")
    ensures AllPlain(stack)
  {
    if |stack| > 0 {
      NoParents(stack[..|stack| - 1]);
      assert stack == stack[..|stack| - 1] + [stack[|stack| - 1]];
      if |stack| > 1 { assert stack[|stack| - 2] in stack[..|stack| - 1]; }
    }
  }

  lemma {:induction false} CleanPlain(stack: seq<string>, parts: seq<string>)
    requires AllPlain(parts)
    ensures CleanFrom(stack, parts) == stack + parts
    ensures CleanFrom(stack, parts + [""]) == stack + parts
    decreases |parts|
  {
    if parts == [] {
      assert parts + [""] == [""] && [""][1..] == [];
    } else {
      assert parts[0] in parts && (parts + [""])[1..] == parts[1..] + [""];
      CleanPlain(stack + [parts[0]], parts[1..]);
      assert stack + [parts[0]] + parts[1..] == stack + parts;
    }
  }

  /** A rendered path cleans to its components, with or without a trailing slash. */
  lemma CleanJoin(parts: seq<string>)
    requires parts != [] && AllPlain(parts)
    ensures Clean(Join(parts)) == parts && Clean(Join(parts) + "/") == parts
  {
    SplitJoin(parts);
    CleanPlain([], parts);
    assert Join(parts) + "/" == Join(parts) + "/" + "";
    SplitConcat(Join(parts), "");
    assert Split("") == [""];
  }

  lemma {:induction false} JoinSplit(s: string)
    ensures Join(Split(s)) == s
    decreases |s|
  {
    var i := IndexOf(s, '/');
    IndexOfMeans(s, '/');
    IndexOfFound(s, '/');
    if i < |s| {
      JoinSplit(s[i + 1..]);
      var rest := Split(s[i + 1..]);
      assert ([s[..i]] + rest)[1..] == rest;
      assert s == s[..i] + [s[i]] + s[i + 1..];
    }
  }

  lemma {:induction false} IndexOfFound(s: string, c: char)
    ensures IndexOf(s, c) < |s| ==> s[IndexOf(s, c)] == c
  {
    if s != [] && s[0] != c { IndexOfFound(s[1..], c); }
  }

  // ---------------------------------------------------------------------------------------------
  // The laws of the clean-up. Together they determine it: the first three shorten every path that is
  // not clean, and the last keeps the clean ones.
  // ---------------------------------------------------------------------------------------------

  lemma {:induction false} CleanFromConcat(stack: seq<string>, a: seq<string>, b: seq<string>)
    ensures CleanFrom(stack, a + b) == CleanFrom(CleanFrom(stack, a), b)
    decreases |a|
  {
    if a == [] {
      assert a + b == b;
    } else {
      assert (a + b)[1..] == a[1..] + b;
      CleanFromConcat(CleanStep(stack, a[0]), a[1..], b);
    }
  }

  lemma CleanOne(stack: seq<string>, p: string)
    ensures CleanFrom(stack, [p]) == CleanStep(stack, p)
  {
    assert [p][1..] == [];
    assert CleanFrom(CleanStep(stack, p), []) == CleanStep(stack, p);
  }

  lemma CleanDropsDots(a: seq<string>, p: string, b: seq<string>)
    requires p == "" || p == "."
    ensures CleanFrom([], a + [p] + b) == CleanFrom([], a + b)
  {
    CleanFromConcat([], a + [p], b);
    CleanFromConcat([], a, [p]);
    CleanFromConcat([], a, b);
    CleanOne(CleanFrom([], a), p);
  }

  lemma CleanGoesBack(a: seq<string>, p: string, b: seq<string>)
    requires Plain(p)
    ensures CleanFrom([], a + [p, ".."] + b) == CleanFrom([], a + b)
  {
    var stack := CleanFrom([], a);
    CleanFromConcat([], a + [p, ".."], b);
    CleanFromConcat([], a, [p, ".."]);
    CleanFromConcat([], a, b);
    CleanFromConcat(stack, [p], [".."]);
    assert [p] + [".."] == [p, ".."];
    CleanOne(stack, p);
    CleanOne(stack + [p], "..");
    assert (stack + [p])[..|stack|] == stack;
  }

  lemma {:induction false} CleanKeepsClean(parts: seq<string>)
    requires Cleaned(parts)
    ensures CleanFrom([], parts) == parts
  {
    if parts != [] {
      var most, last := parts[..|parts| - 1], parts[|parts| - 1];
      assert Cleaned(most);
      CleanKeepsClean(most);
      CleanFromConcat([], most, [last]);
      CleanOne(most, last);
      assert parts == most + [last];
    }
  }
}
