/** The weak checksum: Adler-32 as RFC 1950 defines it, and the one-pass computation of it. */
module Adler32 {
  import opened Prelude

  /** Reduction modulo the largest prime below 2^16. */
  function Residue(x: int): (r: nat)
    ensures r < 65521
  {
    Wrap(x, 65521)
  }

  /** Sum of all bytes of w. */
  ghost function ByteSum(w: bytes): nat {
    if w == [] then 0 else ByteSum(w[..|w| - 1]) + w[|w| - 1]
  }

  /** RFC 1950 section 2.2: s1 starts at one and is the sum of all bytes (not yet reduced). */
  ghost function S1(w: bytes): nat {
    1 + ByteSum(w)
  }

  /** RFC 1950 section 2.2: s2 starts at zero and is the sum of all s1 values (not yet reduced). */
  ghost function S2(w: bytes): nat {
    if w == [] then 0 else S2(w[..|w| - 1]) + S1(w)
  }

  /** The stored checksum: s2 * 65536 + s1, both sums modulo 65521. */
  ghost function Checksum(w: bytes): uint32 {
    Pack(Residue(S1(w)), Residue(S2(w)))
  }

  /** (b << 16) | a; PackedHalves justifies the arithmetic form. */
  function Pack(a: uint32, b: uint32): uint32
    requires a < 65521 && b < 65521
  {
    b * 65536 + a
  }

  /** (b << 16) | a on 32-bit words is b * 65536 + a when both halves fit in 16 bits. */
  lemma PackedHalves(a: bv32, b: bv32)
    requires a < 0x1_0000 && b < 0x1_0000
    ensures (b << 16) | a == b * 0x1_0000 + a
  {
  }

  /** The checksum in the words of RFC 1950: both sums modulo 65521, the second one in the upper half. */
  lemma ChecksumIs(w: bytes)
    ensures Checksum(w) == S2(w) % 65521 * 65536 + S1(w) % 65521
  {
    WrapIsModulo(S1(w), 65521);
    WrapIsModulo(S2(w), 65521);
  }

  /** The checksum of "abc". */
  lemma KnownAnswer()
    ensures Checksum([97, 98, 99]) == 0x024D_0127
  {
    var w1: bytes, w2: bytes, w3: bytes := [97], [97, 98], [97, 98, 99];
    assert w1[..0] == [] && w2[..1] == w1 && w3[..2] == w2;
    assert ByteSum(w1) == 97 && ByteSum(w2) == 195 && ByteSum(w3) == 294;
    assert S2(w1) == 98 && S2(w2) == 294 && S2(w3) == 589;
  }

  /** n copies of x added up: n * x without a product for the solver to look into. */
  ghost function Times(n: nat, x: nat): nat {
    if n == 0 then 0 else Times(n - 1, x) + x
  }

  lemma {:induction false} TimesIsProduct(n: nat, x: nat)
    ensures Times(n, x) == n * x
  {
    if n > 0 { TimesIsProduct(n - 1, x); }
  }

  lemma {:induction false} TimesBound(n: nat, x: byte)
    ensures Times(n, x) <= 255 * n
  {
    if n > 0 { TimesBound(n - 1, x); }
  }

  lemma SumsOfExtension(w: bytes, x: byte)
    ensures S1(w + [x]) == S1(w) + x
    ensures S2(w + [x]) == S2(w) + S1(w + [x])
  {
    assert (w + [x])[..|w|] == w;
  }

  lemma SumsOfOne(x: byte)
    ensures S1([x]) == S1([]) + x && S2([x]) == Times(1, x) + 1 && S2([]) == 0
  {
    assert [x][..0] == [];
    TimesIsProduct(1, x);
  }

  /** What dropping the oldest byte of a window does to the two sums. */
  lemma {:induction false} SumsOfEviction(w: bytes)
    requires w != []
    ensures S1(w[1..]) == S1(w) - w[0]
    ensures S2(w[1..]) == S2(w) - Times(|w|, w[0]) - 1
  {
    hide S1, S2, ByteSum;
    var init, last := w[..|w| - 1], w[|w| - 1];
    if |w| == 1 {
      assert w == [w[0]] && w[1..] == [];
      SumsOfOne(w[0]);
    } else {
      SumsOfEviction(init);
      assert init[1..] + [last] == w[1..] && init + [last] == w;
      SumsOfExtension(init[1..], last);
      SumsOfExtension(init, last);
    }
  }

  /** Feeding one byte to a pair of reduced sums gives the next pair of reduced sums. */
  lemma ReducedExtension(w: bytes, x: byte)
    ensures Residue(Add32(Residue(S1(w)), x)) == Residue(S1(w + [x]))
    ensures Residue(Add32(Residue(S2(w)), Residue(S1(w + [x])))) == Residue(S2(w + [x]))
  {
    SumsOfExtension(w, x);
    var s1 := S1(w + [x]);
    WrapAdd(S1(w), x, 65521);
    WrapAdd(S2(w), Residue(s1), 65521);
    WrapAdd(s1, S2(w), 65521);
  }

  /** One pass over a complete block, reducing after every byte. */
  method Adler32Block(p: bytes) returns (r: uint32)
    ensures r == Checksum(p)
  {
    var a: uint32, b: uint32 := 1, 0;
    for i := 0 to |p|
      invariant a == Residue(S1(p[..i]))
      invariant b == Residue(S2(p[..i]))
    {
      ReducedExtension(p[..i], p[i]);
      assert p[..i] + [p[i]] == p[..i + 1];
      a := Residue(Add32(a, p[i]));
      b := Residue(Add32(b, a));
    }
    assert p[..|p|] == p;
    r := Pack(a, b);
  }
}
