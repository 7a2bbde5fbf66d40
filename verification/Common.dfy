/** Result types, JavaScript numbers and byte strings shared by every module of the model. */
module Common {

  datatype Option<+T> = None | Some(value: T)

  /** A call that returned normally, or one that threw. */
  datatype Result<+T, +E> = Success(value: T) | Failure(error: E)

  /** A JavaScript number, as far as `Number.isFinite` and `Math.floor` can see it. */
  datatype JsNumber = Finite(value: real) | NonFinite

  type Byte = b: int | 0 <= b < 256
  type Bytes = seq<Byte>

  function Min(a: int, b: int): int {
    if a < b then a else b
  }

  function Max(a: int, b: int): int {
    if a > b then a else b
  }

  /** `Math.max(least, Math.floor(value))`. */
  predicate FlooredFrom(least: int, value: real, n: int) {
    if value < least as real then n == least else n as real <= value < n as real + 1.0
  }

  function Pow2(n: nat): (r: int)
    ensures r >= 1
  {
    if n == 0 then 1 else 2 * Pow2(n - 1)
  }

  lemma {:induction false} Pow2Monotone(k: nat, l: nat)
    requires k <= l
    ensures Pow2(k) <= Pow2(l)
    decreases l - k
  {
    if k < l {
      Pow2Monotone(k, l - 1);
    }
  }

  /** The concatenation of a list of byte strings. */
  function Flatten(chunks: seq<Bytes>): Bytes {
    if chunks == [] then [] else chunks[0] + Flatten(chunks[1..])
  }

  lemma FlattenFirst(chunks: seq<Bytes>)
    requires chunks != []
    ensures Flatten(chunks) == chunks[0] + Flatten(chunks[1..])
  {
  }

  lemma DropFirst(a: seq<Bytes>, b: seq<Bytes>)
    requires a != []
    ensures (a + b)[0] == a[0] && (a + b)[1..] == a[1..] + b
  {
  }

  lemma Reassociate(a: Bytes, b: Bytes, c: Bytes)
    ensures a + (b + c) == (a + b) + c
  {
  }

  lemma {:induction false} FlattenAppend(a: seq<Bytes>, b: seq<Bytes>)
    ensures Flatten(a + b) == Flatten(a) + Flatten(b)
  {
    if a == [] {
      assert a + b == b;
    } else {
      calc {
        Flatten(a + b);
        { FlattenFirst(a + b); DropFirst(a, b); }
        a[0] + Flatten(a[1..] + b);
        { FlattenAppend(a[1..], b); }
        a[0] + (Flatten(a[1..]) + Flatten(b));
        { Reassociate(a[0], Flatten(a[1..]), Flatten(b)); }
        (a[0] + Flatten(a[1..])) + Flatten(b);
        { FlattenFirst(a); }
        Flatten(a) + Flatten(b);
      }
    }
  }

  lemma FlattenSnoc(a: seq<Bytes>, b: Bytes)
    ensures Flatten(a + [b]) == Flatten(a) + b
  {
    FlattenAppend(a, [b]);
    assert Flatten([b]) == b;
  }
}
