/** Small vocabulary shared by the models: optional values, bytes, and the byte-wise order of names. */
module Common {

  datatype Option<+T> = None | Some(value: T)

  newtype byte = x: int | 0 <= x < 256

  type Bytes = seq<byte>

  /** Go's `a < b` on strings: the first differing character decides, a proper prefix is smaller. */
  predicate Before(a: string, b: string) {
    b != [] && (a == [] || a[0] < b[0] || (a[0] == b[0] && Before(a[1..], b[1..])))
  }

  lemma {:induction false} BeforeTotal(a: string, b: string)
    ensures Before(a, b) || a == b || Before(b, a)
    ensures !(Before(a, b) && Before(b, a))
    ensures Before(a, b) ==> a != b
  {
    if a != [] && b != [] && a[0] == b[0] {
      BeforeTotal(a[1..], b[1..]);
      assert a == [a[0]] + a[1..] && b == [b[0]] + b[1..];
    }
  }

  lemma {:induction false} BeforeTransitive(a: string, b: string, c: string)
    requires Before(a, b) && Before(b, c)
    ensures Before(a, c)
  {
    if a != [] && a[0] == b[0] == c[0] {
      BeforeTransitive(a[1..], b[1..], c[1..]);
    }
  }

  function TrimLeft<T(==)>(s: seq<T>, c: T): seq<T> {
    if s != [] && s[0] == c then TrimLeft(s[1..], c) else s
  }

  function TrimRight<T(==)>(s: seq<T>, c: T): seq<T> {
    if s != [] && s[|s| - 1] == c then TrimRight(s[..|s| - 1], c) else s
  }

  /** Without the surrounding occurrences of `c`. */
  function Trim<T(==)>(s: seq<T>, c: T): seq<T> {
    TrimRight(TrimLeft(s, c), c)
  }
}
