/** Types and small helpers shared by every component of the model. */
module Prelude {

  type byte = x: int | 0 <= x < 256
  type bytes = seq<byte>

  const MAX_INT32 := 0x7FFF_FFFF

  /** Go's uint32: every operation wraps modulo 2^32. */
  type uint32 = x: int | 0 <= x < 0x1_0000_0000

  datatype Option<+T> = None | Some(value: T)

  datatype Result<+T, +E> = Ok(value: T) | Err(error: E)

  function Min(x: int, y: int): int {
    if x <= y then x else y
  }

  function Max(x: int, y: int): int {
    if x <= y then y else x
  }

  /** The last n elements of s, or all of it when it is shorter. */
  function LastN<T>(s: seq<T>, n: nat): seq<T> {
    if |s| <= n then s else s[|s| - n..]
  }

  lemma LastNAppend<T>(s: seq<T>, x: T, n: nat)
    requires 0 < n
    ensures LastN(s + [x], n) == (if |s| >= n then LastN(s, n)[1..] else s) + [x]
  {
  }

  /**
   * Brings x into 0..m by adding or subtracting m. It is x % m (WrapIsModulo); the recursive
   * form keeps proofs about wrapping free of division.
   */
  function Wrap(x: int, m: nat): (r: nat)
    requires 0 < m
    ensures r < m
    ensures x < 0 <= x + m ==> r == x + m
    ensures m <= x < m + m ==> r == x - m
    decreases if x < 0 then m - x else x
  {
    if x < 0 then Wrap(x + m, m) else if x < m then x else Wrap(x - m, m)
  }

  lemma {:induction false} WrapIsModulo(x: int, m: nat)
    requires 0 < m
    ensures Wrap(x, m) == x % m
    decreases if x < 0 then m - x else x
  {
    if x < 0 {
      WrapIsModulo(x + m, m);
      ModuloShift(x + m, m);
    } else if x >= m {
      WrapIsModulo(x - m, m);
      ModuloShift(x, m);
    } else {
      ModuloSmall(x, m);
    }
  }

  lemma ModuloShift(x: int, m: nat)
    requires 0 < m
    ensures x % m == (x - m) % m
  {
    var q := (x - m) / m;
    assert x - m == q * m + (x - m) % m;
    assert x == (q + 1) * m + (x - m) % m;
    UniqueQuotient(x, m, q + 1, (x - m) % m);
  }

  lemma ModuloSmall(x: nat, m: nat)
    requires x < m
    ensures x % m == x
  {
    UniqueQuotient(x, m, 0, x);
  }

  lemma UniqueQuotient(x: int, m: nat, q: int, r: nat)
    requires r < m && x == q * m + r
    ensures x % m == r
  {
    var q', r' := x / m, x % m;
    var d := q' - q;
    assert d * m == r - r' by { assert x == q' * m + r'; }
    AtLeastOnce(d, m);
    AtLeastOnce(-d, m);
  }

  lemma AtLeastOnce(k: int, m: nat)
    ensures k > 0 ==> k * m >= m
  {
  }

  lemma WrapOnce(x: int, m: nat)
    requires 0 < m
    ensures Wrap(x + m, m) == Wrap(x, m)
  {
  }

  /** Wrapping early makes no difference to a later wrap. */
  lemma {:induction false} WrapAdd(x: int, y: int, m: nat)
    requires 0 < m
    ensures Wrap(Wrap(x, m) + y, m) == Wrap(x + y, m)
    decreases if x < 0 then m - x else x
  {
    hide Wrap;
    if x < 0 {
      WrapAdd(x + m, y, m);
      WrapOnce(x, m);
      WrapOnce(x + y, m);
      assert x + y + m == x + m + y;
    } else if x >= m {
      WrapAdd(x - m, y, m);
      WrapOnce(x - m, m);
      WrapOnce(x - m + y, m);
      assert x - m + y + m == x + y;
    } else {
      WrapSmall(x, m);
    }
  }

  lemma WrapSmall(x: nat, m: nat)
    requires x < m
    ensures Wrap(x, m) == x
  {
  }

  lemma {:induction false} WrapMany(x: int, k: nat, m: nat)
    requires 0 < m
    ensures Wrap(x + k * m, m) == Wrap(x, m)
  {
    if k > 0 {
      WrapMany(x, k - 1, m);
      WrapOnce(x + (k - 1) * m, m);
      assert (k - 1) * m + m == k * m;
    }
  }

  lemma {:induction false} WrapQuotient(x: nat, m: nat) returns (k: nat)
    requires 0 < m
    ensures x == Wrap(x, m) + k * m
  {
    if x < m {
      k := 0;
    } else {
      k := WrapQuotient(x - m, m);
      assert k * m + m == (k + 1) * m;
      k := k + 1;
    }
  }

  /** Conversion to uint32 keeps the low 32 bits. */
  function ToU32(x: int): uint32 {
    Wrap(x, 0x1_0000_0000)
  }

  function Add32(x: uint32, y: uint32): uint32 {
    ToU32(x + y)
  }

  function Sub32(x: uint32, y: uint32): uint32 {
    ToU32(x - y)
  }

  /** Go's int32(x): keep the low 32 bits and read them as a signed number. */
  function ToI32(x: int): int {
    if ToU32(x) <= MAX_INT32 then ToU32(x) else ToU32(x) - 0x1_0000_0000
  }
}
