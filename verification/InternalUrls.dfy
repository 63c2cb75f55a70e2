/**
 * The internal listener's URLs: which exact URLs a function, alias or version route registers, which
 * requests its subtree takes, and how the request path is trimmed back to what the pod sees.
 */
module InternalUrls {
  import opened Common
  import opened Paths

  const DEFAULT := "default"
  const SERVICE := "fission-function"
  const ROOT := "/" + SERVICE

  /** A function route, or with a suffix an alias or version route. */
  datatype InternalKey = InternalKey(ns: string, name: string, suffix: string)

  function UrlForFunction(name: string, ns: string): string {
    (if ns != DEFAULT then ROOT + "/" + ns else ROOT) + "/" + name
  }

  function Qualified(ns: string, name: string): string {
    ROOT + "/" + ns + "/" + name
  }

  function Tail(suffix: string): string {
    if suffix != "" then ":" + suffix else ""
  }

  function InternalRouteExactURLs(key: InternalKey): seq<string> {
    var name := key.name + Tail(key.suffix);
    var folded := UrlForFunction(name, key.ns);
    if key.suffix == "" || key.ns != DEFAULT then [folded] else [folded, Qualified(key.ns, name)]
  }

  function FunctionURLBases(name: string, ns: string): seq<string> {
    [UrlForFunction(name, ns)] + if ns == DEFAULT then [Qualified(ns, name)] else []
  }

  /** The URLs spelled out. */
  lemma UrlsSpelledOut(ns: string, name: string, tag: string)
    requires ns != "default" && tag != ""
    ensures var root, tagged := "/fission-function", name + ":" + tag;
            && InternalRouteExactURLs(InternalKey("default", name, "")) == [root + "/" + name]
            && InternalRouteExactURLs(InternalKey(ns, name, "")) == [root + "/" + ns + "/" + name]
            && InternalRouteExactURLs(InternalKey(ns, name, tag)) == [root + "/" + ns + "/" + tagged]
            && InternalRouteExactURLs(InternalKey("default", name, tag)) ==
               [root + "/" + tagged, root + "/" + "default" + "/" + tagged]
  {
    assert ROOT == "/fission-function";
    assert name + Tail("") == name && name + Tail(tag) == name + ":" + tag;
  }

  // ---------------------------------------------------------------------------------------------
  // Trimming
  // ---------------------------------------------------------------------------------------------

  /** What is left of a path after one base and the tag that may follow it. */
  function TryBase(path: string, base: string): Option<string> {
    if !(base <= path) then None
    else
      var rest := path[|base|..];
      if rest == "" || rest[0] == '/' then Some(rest)
      else if rest[0] == ':' then Some(rest[IndexOf(rest, '/')..])
      else None
  }

  function TryBases(path: string, bases: seq<string>): Option<string> {
    if bases == [] then None
    else if TryBase(path, bases[0]).Some? then TryBase(path, bases[0])
    else TryBases(path, bases[1..])
  }

  method TrimFunctionPrefix(path: string, bases: seq<string>) returns (trimmed: string, ok: bool)
    ensures TryBases(path, bases) == if ok then Some(trimmed) else None
  {
    for i := 0 to |bases|
      invariant TryBases(path, bases) == TryBases(path, bases[i..])
    {
      assert bases[i..][0] == bases[i] && bases[i..][1..] == bases[i + 1..];
      var base := bases[i];
      if !(base <= path) {
        continue;
      }
      var rest := path[|base|..];
      if rest == "" || rest[0] == '/' {
        return rest, true;
      }
      if rest[0] == ':' {
        var slash := IndexOf(rest, '/');
        return rest[slash..], true;
      }
    }
    return "", false;
  }

  predicate SlashFree(s: string) {
    '/' !in s
  }

  /** Kubernetes names hold neither separator. */
  predicate Proper(key: InternalKey) {
    SlashFree(key.ns) && SlashFree(key.name) && SlashFree(key.suffix) && ':' !in key.ns && ':' !in key.name
  }

  predicate SubPath(s: string) {
    s == "" || s[0] == '/'
  }

  lemma {:induction false} FirstSlash(s: string, sub: string)
    requires SlashFree(s) && SubPath(sub)
    ensures IndexOf(s + sub, '/') == |s|
  {
    if s == "" {
      assert s + sub == sub;
    } else {
      assert s[0] in s && (s + sub)[1..] == s[1..] + sub;
      FirstSlash(s[1..], sub);
    }
  }

  /** The base a URL was built from trims it. */
  lemma TryOwnBase(base: string, suffix: string, sub: string)
    requires SlashFree(suffix) && SubPath(sub)
    ensures TryBase(base + Tail(suffix) + sub, base) == Some(sub)
  {
    var path, rest := base + Tail(suffix) + sub, Tail(suffix) + sub;
    assert path == base + rest && path[|base|..] == rest;
    if suffix == "" {
      assert rest == sub;
    } else {
      FirstSlash(":" + suffix, sub);
      assert rest[|":" + suffix|..] == sub;
    }
  }

  /** The folded base of a default-namespace function only mistakes the qualified form of "default". */
  lemma TryFoldedBase(name: string, more: string)
    requires SlashFree(name)
    ensures TryBase(ROOT + "/" + DEFAULT + "/" + more, ROOT + "/" + name) ==
            if name == DEFAULT then Some("/" + more) else None
  {
    var path, base := ROOT + "/" + DEFAULT + "/" + more, ROOT + "/" + name;
    var n, rest := |ROOT| + 1, DEFAULT + "/" + more;
    assert path == (ROOT + "/") + rest;
    CommonPrefix(ROOT + "/", name, rest);
    if |name| >= 7 {
      NotPastSlash(name, DEFAULT, more);
      assert name == DEFAULT ==> path[|base|..] == "/" + more;
    } else {
      assert base <= path ==> path[|base|..][0] == rest[|name|] == DEFAULT[|name|];
    }
  }

  lemma CommonPrefix(p: string, a: string, b: string)
    ensures p + a <= p + b <==> a <= b
  {
    assert (p + b)[|p|..] == b;
    if a <= b {
      assert p + b == (p + a) + b[|a|..];
    }
    if p + a <= p + b {
      assert (p + b)[..|p + a|] == p + a;
      assert a == (p + a)[|p|..] == b[..|a|];
    }
  }

  lemma NotPastSlash(name: string, first: string, more: string)
    requires SlashFree(name) && |name| >= |first|
    ensures name <= first + "/" + more <==> name == first
  {
    var s := first + "/" + more;
    assert s[|first|] == '/';
    assert |name| > |first| ==> name[|first|] in name;
    assert s[..|first|] == first;
  }

  predicate Misread(key: InternalKey, url: string) {
    key.ns == DEFAULT && key.name == DEFAULT && url == Qualified(key.ns, key.name + Tail(key.suffix))
  }

  /**
   * Trimming any registered URL with any sub-path gives back exactly the sub-path, unless the URL is
   * the qualified form for the function "default" of the default namespace, and never then.
   */
  lemma TrimInverts(key: InternalKey, url: string, sub: string)
    requires Proper(key) && SubPath(sub) && url in InternalRouteExactURLs(key)
    ensures TryBases(url + sub, FunctionURLBases(key.name, key.ns)) == Some(sub) <==> !Misread(key, url)
  {
    if url == UrlForFunction(key.name + Tail(key.suffix), key.ns) {
      TrimFolded(key, sub);
    } else {
      TrimQualified(key, sub);
    }
  }

  /** There the pod sees the name and the tag before the sub-path. */
  lemma DefaultIsMisread(suffix: string, sub: string)
    ensures var name := DEFAULT + Tail(suffix);
            TryBases(Qualified(DEFAULT, name) + sub, FunctionURLBases(DEFAULT, DEFAULT)) == Some("/" + name + sub)
  {
    QualifiedPath(DEFAULT, Tail(suffix), sub);
    TryFoldedBase(DEFAULT, DEFAULT + Tail(suffix) + sub);
    assert "/" + (DEFAULT + Tail(suffix) + sub) == "/" + (DEFAULT + Tail(suffix)) + sub;
  }

  lemma TrimFolded(key: InternalKey, sub: string)
    requires Proper(key) && SubPath(sub)
    ensures var url := UrlForFunction(key.name + Tail(key.suffix), key.ns);
            TryBases(url + sub, FunctionURLBases(key.name, key.ns)) == Some(sub) && !Misread(key, url)
  {
    var base, tail := UrlForFunction(key.name, key.ns), Tail(key.suffix);
    assert UrlForFunction(key.name + tail, key.ns) == base + tail;
    TryOwnBase(base, key.suffix, sub);
  }

  lemma TrimQualified(key: InternalKey, sub: string)
    requires Proper(key) && SubPath(sub) && key.ns == DEFAULT
    ensures var url := Qualified(key.ns, key.name + Tail(key.suffix));
            TryBases(url + sub, FunctionURLBases(key.name, key.ns)) == Some(sub) <==> !Misread(key, url)
  {
    var base, tail, more := Qualified(key.ns, key.name), Tail(key.suffix), key.name + Tail(key.suffix) + sub;
    var path := Qualified(key.ns, key.name + tail) + sub;
    QualifiedPath(key.name, tail, sub);
    TryOwnBase(base, key.suffix, sub);
    TryFoldedBase(key.name, more);
    TryTwo(path, UrlForFunction(key.name, key.ns), base);
  }

  lemma QualifiedPath(name: string, tail: string, sub: string)
    ensures var path := Qualified(DEFAULT, name + tail) + sub;
            path == Qualified(DEFAULT, name) + tail + sub && path == ROOT + "/" + DEFAULT + "/" + (name + tail + sub)
  {
  }

  lemma TryTwo(path: string, a: string, b: string)
    ensures TryBases(path, [a] + [b]) == if TryBase(path, a).Some? then TryBase(path, a) else TryBase(path, b)
  {
    assert ([a] + [b])[1..] == [b];
    assert TryBases(path, [b]) == TryBase(path, b);
  }

  // ---------------------------------------------------------------------------------------------
  // Which requests belong to which route
  // ---------------------------------------------------------------------------------------------

  predicate Covers(url: string, path: string) {
    path == url || url + "/" <= path
  }

  /** A route takes its exact URLs and everything below them. */
  predicate Takes(key: InternalKey, path: string) {
    exists url <- InternalRouteExactURLs(key) :: Covers(url, path)
  }

  function Subtrees(urls: seq<string>): seq<string> {
    seq(|urls|, i requires 0 <= i < |urls| => urls[i] + "/")
  }

  /** The internal mux: exact patterns and subtree patterns, in registration order. */
  class Mux {
    var exact: seq<string>
    var below: seq<string>

    constructor ()
      ensures exact == [] && below == []
    {
      exact, below := [], [];
    }

    /** What the route matches is what `Takes` says. */
    method RegisterInternalRoute(key: InternalKey)
      modifies this
      ensures exact == old(exact) + InternalRouteExactURLs(key)
      ensures below == old(below) + Subtrees(InternalRouteExactURLs(key))
      ensures forall path :: Takes(key, path) <==>
              path in exact[|old(exact)|..] || exists p <- below[|old(below)|..] :: p <= path
    {
      var urls := InternalRouteExactURLs(key);
      for i := 0 to |urls|
        invariant exact == old(exact) + urls[..i] && below == old(below) + Subtrees(urls[..i])
      {
        exact := exact + [urls[i]];
        below := below + [urls[i] + "/"];
        assert urls[..i + 1] == urls[..i] + [urls[i]];
        assert Subtrees(urls[..i + 1]) == Subtrees(urls[..i]) + [urls[i] + "/"];
      }
      assert urls[..|urls|] == urls;
      assert exact[|old(exact)|..] == urls && below[|old(below)|..] == Subtrees(urls);
      forall path ensures Takes(key, path) <==> path in urls || exists p <- Subtrees(urls) :: p <= path {
        TakesByPatterns(key, path);
      }
    }
  }

  lemma TakesByPatterns(key: InternalKey, path: string)
    ensures var urls := InternalRouteExactURLs(key);
            Takes(key, path) <==> path in urls || exists p <- Subtrees(urls) :: p <= path
  {
    var urls := InternalRouteExactURLs(key);
    assert forall i | 0 <= i < |urls| :: Subtrees(urls)[i] == urls[i] + "/";
    if url :| url in urls && Covers(url, path) {
      var i :| 0 <= i < |urls| && urls[i] == url;
      assert Subtrees(urls)[i] in Subtrees(urls);
    }
    if path in urls { assert Covers(path, path); }
    if p :| p in Subtrees(urls) && p <= path {
      var i :| 0 <= i < |urls| && p == urls[i] + "/";
      assert Covers(urls[i], path);
    }
  }

  lemma {:induction false} JoinSplit(s: string)
    ensures Join(Split(s)) == s
    decreases |s|
  {
    var i := IndexOf(s, '/');
    if i < |s| {
      JoinSplit(s[i + 1..]);
      IndexOfHit(s, '/');
      assert s == s[..i] + "/" + s[i + 1..];
    }
  }

  lemma {:induction false} IndexOfHit(s: string, c: char)
    requires IndexOf(s, c) < |s|
    ensures s[IndexOf(s, c)] == c
  {
    if s[0] != c { IndexOfHit(s[1..], c); }
  }

  /** At or below a URL: its segments come first. */
  lemma AtOrBelow(url: string, path: string)
    ensures Covers(url, path) <==> Split(url) <= Split(path)
  {
    if url + "/" <= path {
      var rest := path[|url| + 1..];
      assert path == url + "/" + rest;
      SplitConcat(url, rest);
    } else if Split(url) <= Split(path) {
      var rest := Split(path)[|Split(url)|..];
      assert Split(path) == Split(url) + rest;
      JoinSplit(url);
      JoinSplit(path);
      if rest == [] {
        assert Split(path) == Split(url);
      } else {
        JoinConcat(Split(url), rest);
        assert false;
      }
    }
  }

  function Tag(key: InternalKey): string {
    key.name + Tail(key.suffix)
  }

  /** The segments of each registered URL. */
  function Places(key: InternalKey): seq<seq<string>> {
    var short, long := ["", SERVICE, Tag(key)], ["", SERVICE, key.ns, Tag(key)];
    if key.ns != DEFAULT then [long] else if key.suffix == "" then [short] else [short, long]
  }

  lemma SplitUrls(ns: string, tag: string)
    requires SlashFree(ns) && SlashFree(tag)
    ensures Split(ROOT + "/" + tag) == ["", SERVICE, tag]
    ensures Split(Qualified(ns, tag)) == ["", SERVICE, ns, tag]
  {
    SplitBelow(SERVICE, ns, tag);
  }

  lemma SplitBelow(service: string, ns: string, tag: string)
    requires SlashFree(service) && SlashFree(ns) && SlashFree(tag)
    ensures Split("/" + service + "/" + tag) == ["", service, tag]
    ensures Split("/" + service + "/" + ns + "/" + tag) == ["", service, ns, tag]
  {
    var root := "/" + service;
    SplitPlain("");
    SplitPlain(service);
    SplitPlain(tag);
    SplitPlain(ns);
    assert root == "" + "/" + service;
    SplitConcat("", service);
    SplitConcat(root, tag);
    SplitConcat(root, ns);
    SplitConcat(root + "/" + ns, tag);
  }

  lemma SplitPlain(s: string)
    requires SlashFree(s)
    ensures Split(s) == [s]
  {
    IndexOfMeans(s, '/');
  }

  lemma PlacesAreUrls(key: InternalKey)
    requires Proper(key)
    ensures |Places(key)| == |InternalRouteExactURLs(key)|
    ensures forall i | 0 <= i < |Places(key)| :: Split(InternalRouteExactURLs(key)[i]) == Places(key)[i]
  {
    SplitUrls(key.ns, Tag(key));
  }

  lemma TakesByPlaces(key: InternalKey, path: string)
    requires Proper(key)
    ensures Takes(key, path) <==> exists place <- Places(key) :: place <= Split(path)
  {
    var urls, places := InternalRouteExactURLs(key), Places(key);
    PlacesAreUrls(key);
    forall i | 0 <= i < |urls| ensures Covers(urls[i], path) <==> places[i] <= Split(path) {
      AtOrBelow(urls[i], path);
    }
    if place :| place in places && place <= Split(path) {
      var i :| 0 <= i < |places| && places[i] == place;
      assert urls[i] in urls && Covers(urls[i], path);
    }
    if url :| url in urls && Covers(url, path) {
      var i :| 0 <= i < |urls| && urls[i] == url;
      assert places[i] in places;
    }
  }

  lemma {:induction false} TagColon(name: string, suffix: string)
    requires ':' !in name
    ensures IndexOf(name + Tail(suffix), ':') == |name|
  {
    var tag := name + Tail(suffix);
    if name == "" {
      assert tag == Tail(suffix);
    } else {
      assert name[0] in name && tag[1..] == name[1..] + Tail(suffix);
      TagColon(name[1..], suffix);
    }
  }

  lemma TagInjective(a: InternalKey, b: InternalKey)
    requires Proper(a) && Proper(b) && Tag(a) == Tag(b)
    ensures a.name == b.name && a.suffix == b.suffix
  {
    TagColon(a.name, a.suffix);
    TagColon(b.name, b.suffix);
    assert Tag(a)[..|a.name|] == a.name && Tag(b)[..|b.name|] == b.name;
    assert Tag(a)[|a.name|..] == Tail(a.suffix) && Tag(b)[|b.name|..] == Tail(b.suffix);
    assert a.suffix != "" ==> Tail(a.suffix)[1..] == a.suffix;
    assert b.suffix != "" ==> Tail(b.suffix)[1..] == b.suffix;
  }

  /** A tag that is a namespace is a bare name. */
  lemma BareTag(a: InternalKey, ns: string)
    requires ':' !in ns
    ensures Tag(a) == ns <==> a.suffix == "" && a.name == ns
  {
    assert a.suffix != "" ==> Tag(a)[|a.name|] == ':' && ':' in Tag(a);
  }

  /** `a` is the plain function of the default namespace named like the namespace segment of `b`. */
  predicate Shadows(a: InternalKey, b: InternalKey) {
    && a.ns == DEFAULT && a.suffix == "" && a.name == b.ns
    && (b.ns != DEFAULT || b.suffix != "")
  }

  lemma NestedPlaces(a: InternalKey, b: InternalKey, p: seq<string>, q: seq<string>)
    requires Proper(a) && Proper(b) && a != b && p in Places(a) && q in Places(b) && p <= q
    ensures p != q && Shadows(a, b)
  {
    if Tag(a) == Tag(b) { TagInjective(a, b); }
    BareTag(a, b.ns);
    assert p[2] == q[2];
    assert |p| == |q| ==> p == q;
  }

  /** Distinct routes never register one URL. */
  lemma ExactURLsDisjoint(a: InternalKey, b: InternalKey, url: string)
    requires Proper(a) && Proper(b) && url in InternalRouteExactURLs(a) && url in InternalRouteExactURLs(b)
    ensures a == b
  {
    PlacesAreUrls(a);
    PlacesAreUrls(b);
    assert Split(url) in Places(a) && Split(url) in Places(b);
    if a != b { NestedPlaces(a, b, Split(url), Split(url)); assert false; }
  }

  /**
   * Two different routes take some request in common exactly when one of them is a plain function
   * of the default namespace whose name is the namespace segment of a URL of the other.
   */
  lemma OverlapExactly(a: InternalKey, b: InternalKey)
    requires Proper(a) && Proper(b) && a != b
    ensures (exists path :: Takes(a, path) && Takes(b, path)) <==> Shadows(a, b) || Shadows(b, a)
  {
    if path :| Takes(a, path) && Takes(b, path) {
      TakesByPlaces(a, path);
      TakesByPlaces(b, path);
      var p :| p in Places(a) && p <= Split(path);
      var q :| q in Places(b) && q <= Split(path);
      PrefixesNest(p, q, Split(path));
      if p <= q { NestedPlaces(a, b, p, q); } else { NestedPlaces(b, a, q, p); }
    }
    if Shadows(a, b) { ShadowTakes(a, b); }
    if Shadows(b, a) { ShadowTakes(b, a); }
  }

  lemma PrefixesNest<T>(p: seq<T>, q: seq<T>, s: seq<T>)
    requires p <= s && q <= s
    ensures p <= q || q <= p
  {
    assert p == s[..|p|] && q == s[..|q|];
    assert if |p| <= |q| then p == q[..|p|] else q == p[..|q|];
  }

  lemma ShadowTakes(a: InternalKey, b: InternalKey)
    requires Proper(a) && Proper(b) && Shadows(a, b)
    ensures var path := Qualified(b.ns, Tag(b)); Takes(a, path) && Takes(b, path)
  {
    var path := Qualified(b.ns, Tag(b));
    SplitUrls(b.ns, Tag(b));
    TakesByPlaces(a, path);
    TakesByPlaces(b, path);
    BareTag(a, b.ns);
    assert ["", SERVICE, Tag(a)] <= ["", SERVICE, b.ns, Tag(b)];
    assert ["", SERVICE, Tag(a)] in Places(a) && ["", SERVICE, b.ns, Tag(b)] in Places(b);
  }
}
