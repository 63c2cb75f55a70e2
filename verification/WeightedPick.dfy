/**
 * The router's weighted pick: cumulative weights, the binary search over them, and the draw that is
 * either random or a hash of the request's sticky key.
 */
module WeightedPick {
  import opened Common

  /** One backend's slot; `sumPrefix` is the running total up to and including its weight. */
  datatype Slot = Slot(name: string, weight: int, sumPrefix: int)

  function Prefix(list: seq<Slot>, i: nat): int
    requires i <= |list|
  {
    if i == 0 then 0 else list[i - 1].sumPrefix
  }

  predicate Summed(list: seq<Slot>, i: nat)
    requires i < |list|
  {
    list[i].weight >= 0 && list[i].sumPrefix == Prefix(list, i) + list[i].weight
  }

  /** Running totals of weights that are not negative. */
  predicate Cumulative(list: seq<Slot>) {
    forall i: nat | i < |list| :: Summed(list, i)
  }

  function Total(list: seq<Slot>): int {
    Prefix(list, |list|)
  }

  // ---------------------------------------------------------------------------------------------
  // Building the list
  // ---------------------------------------------------------------------------------------------

  predicate Carried(list: seq<Slot>, weights: map<string, int>, i: nat)
    requires i < |list|
  {
    && list[i].name in weights && list[i].weight == weights[list[i].name]
    && list[i].sumPrefix == Prefix(list, i) + list[i].weight
  }

  predicate Carries(list: seq<Slot>, weights: map<string, int>) {
    forall i: nat | i < |list| :: Carried(list, weights, i)
  }

  predicate Distinct(list: seq<Slot>) {
    forall i, j | 0 <= i < j < |list| :: list[i].name != list[j].name
  }

  ghost predicate Has(list: seq<Slot>, f: string) {
    exists i :: 0 <= i < |list| && list[i].name == f
  }

  /** The list gives every function of `weights` one slot with its weight, in some order. */
  ghost predicate Spreads(list: seq<Slot>, weights: map<string, int>) {
    Carries(list, weights) && Distinct(list) && forall f <- weights :: Has(list, f)
  }

  lemma SpreadsMore(list: seq<Slot>, weights: map<string, int>, f: string, w: int)
    requires Spreads(list, weights) && f !in weights
    ensures Spreads(list + [Slot(f, w, Total(list) + w)], weights[f := w])
  {
    var longer, more := list + [Slot(f, w, Total(list) + w)], weights[f := w];
    assert longer[|list|].name == f;
    forall i: nat | i < |longer|
      ensures Carried(longer, more, i)
    {
      if i < |list| { assert Carried(list, weights, i) && longer[i] == list[i]; }
    }
    forall i | 0 <= i < |list|
      ensures longer[i].name != f
    {
      assert Carried(list, weights, i);
    }
    forall g | g in weights
      ensures Has(longer, g)
    {
      var i :| 0 <= i < |list| && list[i].name == g;
      assert longer[i].name == g;
    }
  }

  /** Walks the weights in no particular order; a function that does not exist fails the resolution. */
  method ResolveByFunctionWeights(functions: set<string>, weights: map<string, int>) returns (r: Option<seq<Slot>>)
    ensures r.None? <==> !(weights.Keys <= functions)
    ensures r.Some? ==> Spreads(r.value, weights)
  {
    var left, list, sumPrefix := weights.Keys, [], 0;
    ghost var done: map<string, int> := map[];
    while left != {}
      invariant left == weights.Keys - done.Keys && done.Keys <= functions
      invariant forall f <- done :: f in weights && done[f] == weights[f]
      invariant Spreads(list, done) && sumPrefix == Total(list)
      decreases left
    {
      var f :| f in left;
      if f !in functions {
        return None;
      }
      SpreadsMore(list, done, f, weights[f]);
      sumPrefix := sumPrefix + weights[f];
      list := list + [Slot(f, weights[f], sumPrefix)];
      left := left - {f};
      done := done[f := weights[f]];
    }
    assert forall f :: f in weights.Keys - done.Keys <==> f in weights.Keys && f !in done.Keys;
    assert done == weights;
    return Some(list);
  }

  // ---------------------------------------------------------------------------------------------
  // Searching it
  // ---------------------------------------------------------------------------------------------

  /** Where the binary search between `low` and `high` ends. */
  function Ceil(list: seq<Slot>, draw: int, low: nat, high: nat): (r: nat)
    requires low <= high < |list|
    ensures low <= r <= high
    decreases high - low
  {
    if low == high then low
    else
      var mid := (low + high) / 2;
      if draw >= list[mid].sumPrefix then Ceil(list, draw, mid + 1, high) else Ceil(list, draw, low, mid)
  }

  function NameAt(list: seq<Slot>, draw: int): string
    requires list != []
  {
    var slot := list[Ceil(list, draw, 0, |list| - 1)];
    if slot.sumPrefix >= draw then slot.name else ""
  }

  method FindCeil(draw: int, list: seq<Slot>) returns (name: string)
    requires list != []
    ensures name == NameAt(list, draw)
  {
    var low, high := 0, |list| - 1;
    while low < high
      invariant 0 <= low <= high < |list|
      invariant Ceil(list, draw, low, high) == Ceil(list, draw, 0, |list| - 1)
    {
      var mid := (low + high) / 2;
      if draw >= list[mid].sumPrefix {
        low := mid + 1;
      } else {
        high := mid;
      }
    }
    return if list[low].sumPrefix >= draw then list[low].name else "";
  }

  /** The linear scan: the first slot whose running total exceeds the draw. */
  function FirstAbove(list: seq<Slot>, draw: int): nat {
    if list == [] || list[0].sumPrefix > draw then 0 else 1 + FirstAbove(list[1..], draw)
  }

  lemma {:induction false} FirstAboveIs(list: seq<Slot>, draw: int, i: nat)
    requires i < |list| && list[i].sumPrefix > draw
    requires forall j | 0 <= j < i :: list[j].sumPrefix <= draw
    ensures FirstAbove(list, draw) == i
  {
    if i > 0 { FirstAboveIs(list[1..], draw, i - 1); }
  }

  lemma {:induction false} PrefixesGrow(list: seq<Slot>, i: nat, j: nat)
    requires Cumulative(list) && i <= j <= |list|
    ensures Prefix(list, i) <= Prefix(list, j)
    decreases j - i
  {
    if i < j {
      assert Summed(list, j - 1);
      PrefixesGrow(list, i, j - 1);
    }
  }

  lemma {:induction false} CeilBracket(list: seq<Slot>, draw: int, low: nat, high: nat)
    requires Cumulative(list) && low <= high < |list|
    requires Prefix(list, low) <= draw < list[high].sumPrefix
    ensures var r := Ceil(list, draw, low, high); Prefix(list, r) <= draw < list[r].sumPrefix
    decreases high - low
  {
    if low < high {
      var mid := (low + high) / 2;
      if draw >= list[mid].sumPrefix { CeilBracket(list, draw, mid + 1, high); }
        else { CeilBracket(list, draw, low, mid); }
    }
  }

  /** For every draw below the total the binary search finds what the linear scan finds, never an empty slot. */
  lemma SearchIsScan(list: seq<Slot>, draw: int)
    requires Cumulative(list) && 0 <= draw < Total(list)
    ensures FirstAbove(list, draw) < |list|
    ensures NameAt(list, draw) == list[FirstAbove(list, draw)].name
    ensures list[FirstAbove(list, draw)].weight > 0
    ensures Prefix(list, FirstAbove(list, draw)) <= draw < Prefix(list, FirstAbove(list, draw) + 1)
  {
    CeilBracket(list, draw, 0, |list| - 1);
    var r := Ceil(list, draw, 0, |list| - 1);
    assert Summed(list, r);
    forall j | 0 <= j < r
      ensures list[j].sumPrefix <= draw
    {
      PrefixesGrow(list, j + 1, r);
    }
    FirstAboveIs(list, draw, r);
  }

  function Range(lo: int, hi: int): (r: set<int>)
    requires lo <= hi
    ensures forall d :: d in r <==> lo <= d < hi
    ensures |r| == hi - lo
    decreases hi - lo
  {
    if lo == hi then {} else Range(lo, hi - 1) + {hi - 1}
  }

  ghost function Draws(list: seq<Slot>, f: string): set<int>
    requires list != []
  {
    set d: int | 0 <= d < Total(list) && NameAt(list, d) == f
  }

  lemma SlotOwnsDraws(list: seq<Slot>, i: nat, d: int)
    requires Cumulative(list) && Distinct(list) && i < |list| && 0 <= d < Total(list)
    ensures NameAt(list, d) == list[i].name <==> Prefix(list, i) <= d < Prefix(list, i + 1)
  {
    SearchIsScan(list, d);
    var r := FirstAbove(list, d);
    if r < i {
      PrefixesGrow(list, r + 1, i);
    } else if i < r {
      PrefixesGrow(list, i + 1, r);
    }
  }

  /** A draw beyond the total finds nothing, and the total itself the last slot. */
  lemma BeyondTheTotal(list: seq<Slot>, draw: int)
    requires Cumulative(list) && list != [] && draw >= Total(list)
    ensures NameAt(list, draw) == if draw == Total(list) then list[|list| - 1].name else ""
  {
    forall i | 0 <= i < |list| ensures draw >= list[i].sumPrefix { PrefixesGrow(list, i + 1, |list|); }
    CeilAtEnd(list, draw, 0, |list| - 1);
  }

  lemma {:induction false} CeilAtEnd(list: seq<Slot>, draw: int, low: nat, high: nat)
    requires low <= high < |list| && forall i | 0 <= i < |list| :: draw >= list[i].sumPrefix
    ensures Ceil(list, draw, low, high) == high
    decreases high - low
  {
    if low < high { CeilAtEnd(list, draw, (low + high) / 2 + 1, high); }
  }

  lemma SlotShare(list: seq<Slot>, i: nat)
    requires Cumulative(list) && Distinct(list) && i < |list|
    ensures |Draws(list, list[i].name)| == list[i].weight
  {
    PrefixesGrow(list, 0, i);
    PrefixesGrow(list, i + 1, |list|);
    assert Summed(list, i);
    forall d
      ensures d in Draws(list, list[i].name) <==> d in Range(Prefix(list, i), Prefix(list, i + 1))
    {
      if 0 <= d < Total(list) { SlotOwnsDraws(list, i, d); }
    }
    assert Draws(list, list[i].name) == Range(Prefix(list, i), Prefix(list, i + 1));
  }

  lemma SpreadsCumulative(list: seq<Slot>, weights: map<string, int>)
    requires Spreads(list, weights) && forall g <- weights :: weights[g] >= 0
    ensures Cumulative(list) && Distinct(list)
  {
    forall k: nat | k < |list| ensures Summed(list, k) { assert Carried(list, weights, k); }
  }

  /**
   * Whatever order the slots came out in, exactly weights[f] of the equally likely draws select f:
   * a weight of zero is never picked and the shares are exact.
   */
  lemma FairShares(list: seq<Slot>, weights: map<string, int>, f: string)
    requires Spreads(list, weights) && f in weights
    requires forall g <- weights :: weights[g] >= 0
    ensures list != [] && |Draws(list, f)| == weights[f]
  {
    assert Has(list, f);
    var i :| 0 <= i < |list| && list[i].name == f;
    assert Carried(list, weights, i);
    SpreadsCumulative(list, weights);
    SlotShare(list, i);
  }

  // ---------------------------------------------------------------------------------------------
  // The draw
  // ---------------------------------------------------------------------------------------------

  const TWO64: int := 0x1_0000_0000_0000_0000

  newtype uint64 = x: int | 0 <= x < TWO64

  const OFFSET64: uint64 := 14695981039346656037
  const PRIME64: int := 1099511628211

  /** `h ^ b`: a byte only meets the low eight bits. */
  function XorByte(h: uint64, b: byte): uint64 {
    WithLowByte(h, Xor(h as int % 256, b as int))
  }

  /** The exclusive or of two bytes, bit by bit. */
  function Xor(a: nat, b: nat): (x: nat)
    ensures x < 256
  {
    Differ(a, b) + 2 * Differ(a / 2, b / 2) + 4 * Differ(a / 4, b / 4) + 8 * Differ(a / 8, b / 8) +
    16 * Differ(a / 16, b / 16) + 32 * Differ(a / 32, b / 32) + 64 * Differ(a / 64, b / 64) +
    128 * Differ(a / 128, b / 128)
  }

  /** Whether the last bits differ. */
  function Differ(a: nat, b: nat): nat {
    if a % 2 == b % 2 then 0 else 1
  }

  /** Four bits, the lowest first. */
  predicate Bits(x: nat, c: nat, d: nat, e: nat, f: nat) {
    x < 16 && x % 2 == c && x / 2 % 2 == d && x / 4 % 2 == e && x / 8 == f
  }

  /** Every bit of the result tells whether the two bits differ. */
  lemma XorByBits(a: nat, b: nat)
    ensures Bits(Xor(a, b) % 16, Differ(a, b), Differ(a / 2, b / 2), Differ(a / 4, b / 4), Differ(a / 8, b / 8))
    ensures Bits(Xor(a, b) / 16, Differ(a / 16, b / 16), Differ(a / 32, b / 32), Differ(a / 64, b / 64),
                 Differ(a / 128, b / 128))
  {
    var low := FourBits(Differ(a, b), Differ(a / 2, b / 2), Differ(a / 4, b / 4), Differ(a / 8, b / 8));
    var high := FourBits(Differ(a / 16, b / 16), Differ(a / 32, b / 32), Differ(a / 64, b / 64),
                         Differ(a / 128, b / 128));
    TwoNibbles(low, high);
    assert Xor(a, b) == low + 16 * high;
  }

  lemma FourBits(c: nat, d: nat, e: nat, f: nat) returns (x: nat)
    requires c < 2 && d < 2 && e < 2 && f < 2
    ensures x == c + 2 * d + 4 * e + 8 * f && Bits(x, c, d, e, f)
  {
    x := c + 2 * d + 4 * e + 8 * f;
  }

  lemma TwoNibbles(low: nat, high: nat)
    requires low < 16
    ensures (low + 16 * high) % 16 == low && (low + 16 * high) / 16 == high
  {
  }

  function WithLowByte(h: uint64, low: nat): uint64
    requires low < 256
  {
    (h as int / 256 * 256 + low) as uint64
  }

  function MulPrime(h: uint64): uint64 {
    (h as int * PRIME64 % TWO64) as uint64
  }

  /** FNV-1a over the rest of a key, from the hash of what precedes it. */
  function Fnv1a(h: uint64, key: Bytes): uint64
    decreases |key|
  {
    if key == [] then h else Fnv1a(MulPrime(XorByte(h, key[0])), key[1..])
  }

  method StickyWeightHash(key: Bytes) returns (h: uint64)
    ensures h == Fnv1a(OFFSET64, key)
  {
    h := OFFSET64;
    for i := 0 to |key|
      invariant Fnv1a(h, key[i..]) == Fnv1a(OFFSET64, key)
    {
      assert key[i..][1..] == key[i + 1..];
      h := XorByte(h, key[i]);
      h := MulPrime(h);
    }
  }

  /** One byte of the hash, with the quotients that the division and the wrap-around leave. */
  lemma MixIs(h: uint64, b: byte, high: int, low: nat, x: nat, q: int, next: uint64)
    requires h as int == high * 256 + low && low < 256 && Xor(low, b as int) == x
    requires (high * 256 + x) * PRIME64 == q * TWO64 + next as int
    ensures MulPrime(XorByte(h, b)) == next
  {
    LowByteIs(h as int, high, low);
    assert XorByte(h, b) as int == high * 256 + x;
    WrapsTo(q, next as int);
  }

  lemma LowByteIs(h: int, high: int, low: int)
    requires h == high * 256 + low && 0 <= low < 256
    ensures h % 256 == low && h / 256 == high
  {
  }

  lemma WrapsTo(q: int, r: int)
    requires 0 <= r < TWO64
    ensures (q * TWO64 + r) % TWO64 == r
  {
  }

  /** The published test vectors of 64-bit FNV-1a for the empty string, "a" and "fo". */
  lemma PublishedVectors()
    ensures Fnv1a(OFFSET64, []) == 0xcbf29ce484222325
    ensures Fnv1a(OFFSET64, [97]) == 0xaf63dc4c8601ec8c
    ensures Fnv1a(OFFSET64, [102, 111]) == 0x8985907b541d342
  {
    OneLetter();
    TwoLetters();
  }

  lemma OneLetter()
    ensures Fnv1a(OFFSET64, [97]) == 0xaf63dc4c8601ec8c
  {
    MixIs(0xcbf29ce484222325, 97, 0xcbf29ce4842223, 0x25, 0x44, 0xcbf29ce5de, 0xaf63dc4c8601ec8c);
    var key: Bytes := [97];
    assert key[1..] == [];
  }

  lemma TwoLetters()
    ensures Fnv1a(OFFSET64, [102, 111]) == 0x8985907b541d342
  {
    MixIs(0xcbf29ce484222325, 102, 0xcbf29ce4842223, 0x25, 0x43, 0xcbf29ce5de, 0xaf63db4c8601ead9);
    MixIs(0xaf63db4c8601ead9, 111, 0xaf63db4c8601ea, 0xd9, 0xb6, 0xaf63db4db0, 0x8985907b541d342);
    var key: Bytes := [102, 111];
    assert key[1..] == [111] && key[1..][1..] == [];
  }

  function StickyDraw(key: Bytes, total: int): (d: int)
    requires total > 0
    ensures 0 <= d < total
  {
    Fnv1a(OFFSET64, key) as int % total
  }

  /** The backend a request with this sticky key reaches. */
  function Backend(list: seq<Slot>, key: Bytes): string
    requires list != []
  {
    if Total(list) <= 0 then list[0].name else NameAt(list, StickyDraw(key, Total(list)))
  }

  /** `random` is the answer of the random source, used only without a sticky key. */
  method GetCanaryBackend(list: seq<Slot>, key: Bytes, random: nat) returns (name: string)
    requires list != []
    requires Total(list) > 0 ==> random < Total(list)
    ensures key != [] ==> name == Backend(list, key)
    ensures key == [] && Total(list) > 0 ==> name == NameAt(list, random)
    ensures Total(list) <= 0 ==> name == list[0].name
  {
    var total := list[|list| - 1].sumPrefix;
    if total <= 0 {
      return list[0].name;
    }
    var pick := random;
    if key != [] {
      var h := StickyWeightHash(key);
      pick := h as int % total;
    }
    name := FindCeil(pick, list);
  }

  /** The alias split: the second backend is reached exactly by the draws at or above the first's weight. */
  lemma TwoWaySplit(first: string, second: string, weight: int, draw: int)
    requires 0 <= draw < 100 && first != second
    ensures NameAt([Slot(first, weight, weight), Slot(second, 100 - weight, 100)], draw) ==
            if draw >= weight then second else first
  {
  }
}
