/**
 * The dynamic EndpointSlice cache of the router: every sync re-scopes the informers to the live
 * namespaces whose access review passed, caching passes while the namespace stays live and
 * tolerating a few failing reviews. A round lists the live namespaces with the verdict each review
 * would give.
 */
module InformerGate {
  import opened Common

  type Namespace = string

  const MAX_OPTIMISTIC_SAR_ERRORS := 3

  // ---------------------------------------------------------------------------------------------
  // The review of one namespace
  // ---------------------------------------------------------------------------------------------

  datatype Answer = Granted | Denied | ApiError | ContextError

  datatype Verdict = Passed | Refused | Flaky | Cancelled

  function VerdictOf(a: Answer): Verdict {
    match a
    case Granted => Passed
    case Denied => Refused
    case ApiError => Flaky
    case ContextError => Cancelled
  }

  /** The first answer that is not a grant is this one. */
  predicate Decides(answers: seq<Answer>, a: Answer) {
    a != Granted && exists i | 0 <= i < |answers| :: answers[i] == a && forall j | 0 <= j < i :: answers[j] == Granted
  }

  lemma FirstRefusal(answers: seq<Answer>, i: nat)
    requires i < |answers| && answers[i] != Granted && forall j | 0 <= j < i :: answers[j] == Granted
    ensures forall a :: Decides(answers, a) <==> a == answers[i]
  {
    forall a | Decides(answers, a) ensures a == answers[i] {
      var k :| 0 <= k < |answers| && answers[k] == a && forall j | 0 <= j < k :: answers[j] == Granted;
      assert !(k < i) && !(i < k);
    }
  }

  /** The first answer that is not a grant decides; the verbs are asked in order. */
  method SliceWatchAllowedForNamespace(answers: seq<Answer>) returns (v: Verdict)
    ensures v == Passed <==> forall a <- answers :: a == Granted
    ensures v == Refused <==> Decides(answers, Denied)
    ensures v == Flaky <==> Decides(answers, ApiError)
    ensures v == Cancelled <==> Decides(answers, ContextError)
  {
    for i := 0 to |answers|
      invariant forall j | 0 <= j < i :: answers[j] == Granted
    {
      if answers[i] != Granted {
        assert answers[i] in answers;
        FirstRefusal(answers, i);
        return VerdictOf(answers[i]);
      }
    }
    return Passed;
  }

  // ---------------------------------------------------------------------------------------------
  // One sync
  // ---------------------------------------------------------------------------------------------

  datatype Ask = Ask(ns: Namespace, verdict: Verdict)

  type Round = seq<Ask>

  /** The resolver lists a namespace once. */
  predicate Distinct(asks: Round) {
    forall i, j | 0 <= i < j < |asks| :: asks[i].ns != asks[j].ns
  }

  function Live(asks: Round): set<Namespace> {
    set a <- asks :: a.ns
  }

  /** The cached passes and the counts of consecutive failing reviews. */
  datatype Gate = Gate(checked: set<Namespace>, errors: map<Namespace, nat>)

  function Count(errors: map<Namespace, nat>, ns: Namespace): nat {
    if ns in errors then errors[ns] else 0
  }

  datatype Pass = Pass(gate: Gate, allowed: seq<Namespace>, pending: bool, cancelled: bool)

  function Prune(g: Gate, live: set<Namespace>): Gate {
    Gate(g.checked * live, map ns <- g.errors | ns in live :: g.errors[ns])
  }

  function Turn(p: Pass, ask: Ask): Pass {
    var Gate(checked, errors) := p.gate;
    var ns := ask.ns;
    if p.cancelled then p
    else if ns in checked then p.(allowed := p.allowed + [ns])
    else
      match ask.verdict
      case Cancelled => p.(cancelled := true)
      case Flaky =>
        var n := Count(errors, ns) + 1;
        Pass(Gate(checked, errors[ns := n]), if n <= MAX_OPTIMISTIC_SAR_ERRORS then p.allowed + [ns] else p.allowed,
             true, false)
      case Refused => Pass(Gate(checked, errors - {ns}), p.allowed, true, false)
      case Passed => Pass(Gate(checked + {ns}, errors - {ns}), p.allowed + [ns], p.pending, false)
  }

  function Turns(p: Pass, asks: Round): Pass
    decreases |asks|
  {
    if asks == [] then p else Turns(Turn(p, asks[0]), asks[1..])
  }

  function Sync(g: Gate, asks: Round): Pass {
    Turns(Pass(Prune(g, Live(asks)), [], false, false), asks)
  }

  class DynamicEndpointCache {
    var checked: set<Namespace>
    var errors: map<Namespace, nat>
    var informers: seq<Namespace>

    function Now(): Gate
      reads this
    {
      Gate(checked, errors)
    }

    /** The passes of the startup preflight seed the cache. */
    constructor (seed: set<Namespace>)
      ensures Now() == Gate(seed, map[]) && informers == []
    {
      checked, errors, informers := seed, map[], [];
    }

    method DropDeparted(live: set<Namespace>)
      modifies this
      ensures Now() == Prune(old(Now()), live) && informers == old(informers)
    {
      var left := checked;
      while left != {}
        invariant left <= checked <= old(checked) && checked == left + (old(checked) - left) * live
        invariant errors == old(errors) && informers == old(informers)
        decreases left
      {
        var ns :| ns in left;
        if ns !in live {
          checked := checked - {ns};
        }
        left := left - {ns};
      }
      var stale := errors.Keys;
      while stale != {}
        invariant stale <= errors.Keys && checked == old(checked) * live && informers == old(informers)
        invariant errors == map ns <- old(errors) | ns in live || ns in stale :: old(errors)[ns]
        decreases stale
      {
        var ns :| ns in stale;
        if ns !in live {
          errors := errors - {ns};
        }
        stale := stale - {ns};
      }
    }

    /** A cancelled sync returns without handing a set to the informers. */
    method SyncInformers(asks: Round) returns (pending: bool)
      modifies this
      ensures var p := Sync(old(Now()), asks);
              Now() == p.gate && pending == p.pending && informers == if p.cancelled then old(informers) else p.allowed
    {
      DropDeparted(Live(asks));
      ghost var goal := Sync(old(Now()), asks);
      pending := false;
      var allowed := [];
      for i := 0 to |asks|
        invariant informers == old(informers)
        invariant Turns(Pass(Now(), allowed, pending, false), asks[i..]) == goal
      {
        assert asks[i..][0] == asks[i] && asks[i..][1..] == asks[i + 1..];
        var ns := asks[i].ns;
        if ns in checked {
          allowed := allowed + [ns];
          continue;
        }
        match asks[i].verdict {
          case Cancelled =>
            CancelledStays(Pass(Now(), allowed, pending, true), asks[i + 1..]);
            return;
          case Flaky =>
            errors := errors[ns := Count(errors, ns) + 1];
            pending := true;
            if errors[ns] <= MAX_OPTIMISTIC_SAR_ERRORS {
              allowed := allowed + [ns];
            }
          case Refused =>
            errors := errors - {ns};
            pending := true;
          case Passed =>
            errors := errors - {ns};
            checked := checked + {ns};
            allowed := allowed + [ns];
        }
      }
      informers := allowed;
    }
  }

  lemma {:induction false} CancelledStays(p: Pass, asks: Round)
    requires p.cancelled
    ensures Turns(p, asks) == p
    decreases |asks|
  {
    if asks != [] { CancelledStays(p, asks[1..]); }
  }

  // ---------------------------------------------------------------------------------------------
  // What a sync does to one namespace
  // ---------------------------------------------------------------------------------------------

  /** The verdict of the review of `ns`, if the sync gets to it before being cancelled. */
  function Answered(checked: set<Namespace>, asks: Round, ns: Namespace): Option<Verdict>
    decreases |asks|
  {
    if asks == [] then None
    else if asks[0].ns in checked then (if asks[0].ns == ns then None else Answered(checked, asks[1..], ns))
    else if asks[0].verdict.Cancelled? then None
    else if asks[0].ns == ns then Some(asks[0].verdict)
    else Answered(checked, asks[1..], ns)
  }

  lemma {:induction false} AnsweredAlike(a: set<Namespace>, b: set<Namespace>, asks: Round, ns: Namespace)
    requires forall x <- Live(asks) :: x in a <==> x in b
    ensures Answered(a, asks, ns) == Answered(b, asks, ns)
    decreases |asks|
  {
    if asks != [] {
      assert asks[0].ns in Live(asks);
      assert forall x <- Live(asks[1..]) :: x in Live(asks);
      AnsweredAlike(a, b, asks[1..], ns);
    }
  }

  lemma {:induction false} AnsweredIsLive(checked: set<Namespace>, asks: Round, ns: Namespace)
    requires Answered(checked, asks, ns).Some?
    ensures ns in Live(asks) && ns !in checked
    decreases |asks|
  {
    if asks[0].ns == ns { assert asks[0] in asks; } else { AnsweredIsLive(checked, asks[1..], ns); }
  }

  function Counted(n: nat, a: Option<Verdict>): nat {
    if a.None? then n else if a.value.Flaky? then n + 1 else 0
  }

  lemma {:induction false} TurnsOn(p: Pass, asks: Round, ns: Namespace)
    requires Distinct(asks) && !p.cancelled
    ensures var q, a := Turns(p, asks), Answered(p.gate.checked, asks, ns);
            && (ns in q.gate.checked <==> ns in p.gate.checked || a == Some(Passed))
            && Count(q.gate.errors, ns) == Counted(Count(p.gate.errors, ns), a)
    decreases |asks|
  {
    if asks != [] {
      var q := Turn(p, asks[0]);
      if q.cancelled {
        CancelledStays(q, asks[1..]);
      } else {
        TurnsOn(q, asks[1..], ns);
        AnsweredLater(p, asks, ns);
      }
    }
  }

  /** The first turn does not bear on the reviews of the others, nor the others on it. */
  lemma AnsweredLater(p: Pass, asks: Round, ns: Namespace)
    requires asks != [] && Distinct(asks) && !p.cancelled
    ensures asks[0].ns !in Live(asks[1..])
    ensures Answered(p.gate.checked, asks[1..], ns) == Answered(Turn(p, asks[0]).gate.checked, asks[1..], ns)
    ensures asks[0].ns == ns ==> Answered(p.gate.checked, asks[1..], ns).None?
  {
    AnsweredAlike(p.gate.checked, Turn(p, asks[0]).gate.checked, asks[1..], ns);
    if Answered(p.gate.checked, asks[1..], ns).Some? { AnsweredIsLive(p.gate.checked, asks[1..], ns); }
  }

  /** Whether a sync that is not cancelled hands a namespace to the informers. */
  predicate Admitted(g: Gate, asks: Round, ns: Namespace) {
    var a := Answered(g.checked, asks, ns);
    ns in Live(asks) && (ns in g.checked || a == Some(Passed) ||
                         (a == Some(Flaky) && Count(g.errors, ns) < MAX_OPTIMISTIC_SAR_ERRORS))
  }

  lemma TurnAdmits(p: Pass, asks: Round, ns: Namespace)
    requires asks != [] && Distinct(asks) && !p.cancelled && !Turn(p, asks[0]).cancelled
    ensures var q := Turn(p, asks[0]);
            ns in q.allowed || Admitted(q.gate, asks[1..], ns) <==> ns in p.allowed || Admitted(p.gate, asks, ns)
  {
    AnsweredLater(p, asks, ns);
    assert Live(asks) == {asks[0].ns} + Live(asks[1..]);
  }

  lemma {:induction false} TurnsAdmit(p: Pass, asks: Round, ns: Namespace)
    requires Distinct(asks) && !Turns(p, asks).cancelled
    ensures ns in Turns(p, asks).allowed <==> ns in p.allowed || Admitted(p.gate, asks, ns)
    decreases |asks|
  {
    if p.cancelled { CancelledStays(p, asks); assert false; }
    if asks != [] {
      var q := Turn(p, asks[0]);
      if q.cancelled { CancelledStays(q, asks[1..]); assert false; }
      TurnsAdmit(q, asks[1..], ns);
      TurnAdmits(p, asks, ns);
    }
  }

  lemma {:induction false} TurnsPending(p: Pass, asks: Round)
    requires Distinct(asks) && !Turns(p, asks).cancelled
    ensures var q := Turns(p, asks); q.pending <==> p.pending || !(Live(asks) <= q.gate.checked)
    decreases |asks|
  {
    if p.cancelled { CancelledStays(p, asks); assert false; }
    if asks != [] {
      var q := Turn(p, asks[0]);
      if q.cancelled { CancelledStays(q, asks[1..]); assert false; }
      TurnsPending(q, asks[1..]);
      TurnsOn(q, asks[1..], asks[0].ns);
      AnsweredLater(p, asks, asks[0].ns);
      assert Live(asks) == {asks[0].ns} + Live(asks[1..]);
    }
  }

  /** A sync that is not cancelled has a review of every live namespace without a cached pass. */
  lemma {:induction false} AllAnswered(p: Pass, asks: Round, ns: Namespace)
    requires Distinct(asks) && !Turns(p, asks).cancelled && ns in Live(asks) && ns !in p.gate.checked
    ensures Answered(p.gate.checked, asks, ns).Some?
    decreases |asks|
  {
    var q := Turn(p, asks[0]);
    if q.cancelled { CancelledStays(q, asks[1..]); assert false; }
    if p.cancelled { CancelledStays(p, asks); assert false; }
    if asks[0].ns != ns {
      AllAnswered(q, asks[1..], ns);
      AnsweredLater(p, asks, ns);
    }
  }

  // ---------------------------------------------------------------------------------------------
  // Whole histories
  // ---------------------------------------------------------------------------------------------

  function Run(seed: set<Namespace>, rounds: seq<Round>): Gate
    decreases |rounds|
  {
    if rounds == [] then Gate(seed, map[]) else Sync(Run(seed, rounds[..|rounds| - 1]), rounds[|rounds| - 1]).gate
  }

  /** Seeded or passed, and live ever since. */
  predicate Cleared(seed: set<Namespace>, rounds: seq<Round>, ns: Namespace)
    decreases |rounds|, 1
  {
    if rounds == [] then ns in seed
    else
      var before, last := rounds[..|rounds| - 1], rounds[|rounds| - 1];
      ns in Live(last) && (Cleared(seed, before, ns) || LastAnswer(seed, rounds, ns) == Some(Passed))
  }

  /** The verdict the last round gave on `ns`: none if cleared before, absent or cut off. */
  function LastAnswer(seed: set<Namespace>, rounds: seq<Round>, ns: Namespace): Option<Verdict>
    requires rounds != []
    decreases |rounds|, 0
  {
    var before, last := rounds[..|rounds| - 1], rounds[|rounds| - 1];
    Answered(ClearedNames(seed, before, last), last, ns)
  }

  function ClearedNames(seed: set<Namespace>, rounds: seq<Round>, asks: Round): set<Namespace>
    decreases |rounds|, 2
  {
    set a <- asks | Cleared(seed, rounds, a.ns) :: a.ns
  }

  /** Failing reviews in a row, while live. */
  function Failures(seed: set<Namespace>, rounds: seq<Round>, ns: Namespace): nat
    decreases |rounds|
  {
    if rounds == [] then 0
    else
      var before, last := rounds[..|rounds| - 1], rounds[|rounds| - 1];
      if ns in Live(last) then Counted(Failures(seed, before, ns), LastAnswer(seed, rounds, ns)) else 0
  }

  lemma {:induction false} GateIsHistory(seed: set<Namespace>, rounds: seq<Round>, ns: Namespace)
    requires forall r <- rounds :: Distinct(r)
    ensures var g := Run(seed, rounds);
            (ns in g.checked <==> Cleared(seed, rounds, ns)) && Count(g.errors, ns) == Failures(seed, rounds, ns)
    decreases |rounds|
  {
    if rounds != [] {
      var before, last := rounds[..|rounds| - 1], rounds[|rounds| - 1];
      assert last in rounds && forall r <- before :: r in rounds;
      var g := Prune(Run(seed, before), Live(last));
      GateIsHistory(seed, before, ns);
      TurnsOn(Pass(g, [], false, false), last, ns);
      AnsweredFromHistory(seed, rounds, ns);
      if ns !in Live(last) && Answered(g.checked, last, ns).Some? { AnsweredIsLive(g.checked, last, ns); assert false; }
    }
  }

  lemma AnsweredFromHistory(seed: set<Namespace>, rounds: seq<Round>, ns: Namespace)
    requires rounds != [] && forall r <- rounds :: Distinct(r)
    ensures var before, last := rounds[..|rounds| - 1], rounds[|rounds| - 1];
            Answered(Prune(Run(seed, before), Live(last)).checked, last, ns) == LastAnswer(seed, rounds, ns)
    decreases |rounds|, 0
  {
    var before, last := rounds[..|rounds| - 1], rounds[|rounds| - 1];
    assert forall r <- before :: r in rounds;
    var cleared := ClearedNames(seed, before, last);
    forall x <- Live(last) ensures x in Run(seed, before).checked <==> x in cleared {
      GateIsHistory(seed, before, x);
    }
    AnsweredAlike(Prune(Run(seed, before), Live(last)).checked, cleared, last, ns);
  }

  /**
   * Over every history of live sets and reviews: the pass cache holds live namespaces only; a sync
   * that is not cancelled hands over exactly the live namespaces that are cleared or have failed at
   * most three reviews in a row, and reports pending exactly when some live namespace is not
   * cleared.
   */
  lemma OnlyReviewedAreWatched(seed: set<Namespace>, rounds: seq<Round>, last: Round)
    requires forall r <- rounds + [last] :: Distinct(r)
    ensures var p, all := Sync(Run(seed, rounds), last), rounds + [last];
            && p.gate.checked <= Live(last)
            && (!p.cancelled ==> forall ns :: ns in p.allowed <==>
                  ns in Live(last) && (Cleared(seed, all, ns) || 1 <= Failures(seed, all, ns) <= 3))
            && (!p.cancelled ==> (p.pending <==> exists ns <- Live(last) :: !Cleared(seed, all, ns)))
  {
    var p, all := Sync(Run(seed, rounds), last), rounds + [last];
    assert all[..|all| - 1] == rounds && last in all;
    forall ns ensures ns in p.gate.checked <==> Cleared(seed, all, ns) { GateIsHistory(seed, all, ns); }
    forall ns | !p.cancelled
      ensures ns in p.allowed <==>
              ns in Live(last) && (Cleared(seed, all, ns) || 1 <= Failures(seed, all, ns) <= MAX_OPTIMISTIC_SAR_ERRORS)
    {
      AllowedFromHistory(seed, rounds, last, ns);
    }
    if !p.cancelled { TurnsPending(Pass(Prune(Run(seed, rounds), Live(last)), [], false, false), last); }
  }

  lemma AllowedFromHistory(seed: set<Namespace>, rounds: seq<Round>, last: Round, ns: Namespace)
    requires (forall r <- rounds + [last] :: Distinct(r)) && !Sync(Run(seed, rounds), last).cancelled
    ensures var all := rounds + [last];
            ns in Sync(Run(seed, rounds), last).allowed <==>
            ns in Live(last) && (Cleared(seed, all, ns) || 1 <= Failures(seed, all, ns) <= MAX_OPTIMISTIC_SAR_ERRORS)
  {
    var all := rounds + [last];
    assert all[..|all| - 1] == rounds && last in all && forall r <- rounds :: r in all;
    var g := Prune(Run(seed, rounds), Live(last));
    var p := Pass(g, [], false, false);
    GateIsHistory(seed, rounds, ns);
    AnsweredFromHistory(seed, all, ns);
    TurnsAdmit(p, last, ns);
    if ns in Live(last) && ns !in g.checked { AllAnswered(p, last, ns); }
  }

  lemma {:induction false} AnsweredByAsk(checked: set<Namespace>, asks: Round, ask: Ask)
    requires Distinct(asks) && ask in asks && Answered(checked, asks, ask.ns).Some?
    ensures Answered(checked, asks, ask.ns) == Some(ask.verdict)
    decreases |asks|
  {
    if asks[0] != ask {
      var i :| 0 <= i < |asks| && asks[i] == ask;
      assert asks[0].ns != asks[i].ns && asks[1..][i - 1] == ask;
      AnsweredByAsk(checked, asks[1..], ask);
    }
  }

  /** A namespace that is denied and was not cleared before is not watched, whatever failed earlier. */
  lemma DeniedIsNotWatched(seed: set<Namespace>, rounds: seq<Round>, last: Round, ns: Namespace)
    requires (forall r <- rounds + [last] :: Distinct(r)) && !Sync(Run(seed, rounds), last).cancelled
    requires Ask(ns, Refused) in last && !Cleared(seed, rounds, ns)
    ensures var p := Sync(Run(seed, rounds), last);
            ns !in p.allowed && ns !in p.gate.checked && p.pending && Failures(seed, rounds + [last], ns) == 0
  {
    var all := rounds + [last];
    assert all[..|all| - 1] == rounds && last in all && forall r <- rounds :: r in all;
    var g := Prune(Run(seed, rounds), Live(last));
    var p := Pass(g, [], false, false);
    GateIsHistory(seed, rounds, ns);
    GateIsHistory(seed, all, ns);
    AnsweredFromHistory(seed, all, ns);
    AllAnswered(p, last, ns);
    AnsweredByAsk(g.checked, last, Ask(ns, Refused));
    AllowedFromHistory(seed, rounds, last, ns);
    TurnsPending(p, last);
  }

  predicate PassedIn(seed: set<Namespace>, rounds: seq<Round>, i: nat, ns: Namespace)
    requires i < |rounds|
  {
    LastAnswer(seed, rounds[..i + 1], ns) == Some(Passed)
  }

  /** Cleared since round `i`: by the seed, or by a passing review in the round before. */
  predicate ClearedSince(seed: set<Namespace>, rounds: seq<Round>, i: nat, ns: Namespace)
    requires i <= |rounds|
  {
    && (if i == 0 then ns in seed else PassedIn(seed, rounds, i - 1, ns))
    && (forall j | i <= j < |rounds| :: ns in Live(rounds[j]))
  }

  /** A cleared namespace was seeded or passed a review, and has not been seen outside the live set since. */
  lemma {:induction false} ClearedMeans(seed: set<Namespace>, rounds: seq<Round>, ns: Namespace)
    ensures Cleared(seed, rounds, ns) <==> exists i | 0 <= i <= |rounds| :: ClearedSince(seed, rounds, i, ns)
    decreases |rounds|
  {
    if rounds == [] {
      assert ClearedSince(seed, rounds, 0, ns) <==> ns in seed;
    } else {
      var n, before := |rounds|, rounds[..|rounds| - 1];
      ClearedMeans(seed, before, ns);
      assert rounds[..n] == rounds;
      forall i | 0 <= i < n
        ensures ClearedSince(seed, rounds, i, ns) <==> ClearedSince(seed, before, i, ns) && ns in Live(rounds[n - 1])
      {
        if i > 0 { assert before[..i] == rounds[..i]; }
      }
      assert ClearedSince(seed, rounds, n, ns) <==> LastAnswer(seed, rounds, ns) == Some(Passed);
      if LastAnswer(seed, rounds, ns) == Some(Passed) {
        AnsweredIsLive(ClearedNames(seed, before, rounds[n - 1]), rounds[n - 1], ns);
      }
    }
  }
}
