/** The incremental checksum that slides a fixed-size window in constant time. */
module RollingChecksum {
  import opened Prelude
  import opened Adler32

  /** Truncating a factor first does not change the truncated product. */
  lemma {:induction false} TimesTruncates(n: nat, out: byte)
    ensures ToU32(ToU32(n) * out) == ToU32(Times(n, out))
  {
    TimesIsProduct(n, out);
    var k := WrapQuotient(n, 0x1_0000_0000);
    assert n * out == ToU32(n) * out + (k * out) * 0x1_0000_0000;
    WrapMany(ToU32(n) * out, k * out, 0x1_0000_0000);
  }

  /** Wrapping below zero and adding the modulus comes back to the true value. */
  lemma EvictAValue(s: int, out: byte)
    ensures Residue(Add32(Sub32(Residue(s), out), 65521)) == Residue(s - out)
  {
    var x: int := Residue(s);
    assert Add32(Sub32(x, out), 65521) == x - out + 65521;
    WrapOnce(x - out, 65521);
    WrapAdd(s, -(out as int), 65521);
  }

  lemma EvictBValue(s: int, product: uint32)
    ensures Residue(Add32(Sub32(Sub32(Residue(s), Residue(product)), 1), 2 * 65521)) == Residue(s - 1 - product)
  {
    var x: int, y: int := Residue(s), Residue(product);
    assert Add32(Sub32(Sub32(x, y), 1), 2 * 65521) == x - y - 1 + 2 * 65521;
    WrapOnce(x - y - 1 + 65521, 65521);
    WrapOnce(x - y - 1, 65521);
    WrapAdd(s, -y - 1, 65521);
    var k := WrapQuotient(product, 65521);
    WrapMany(s - 1 - product, k, 65521);
  }

  /** How many multiples of 2^32 are dropped when p is cut to 32 bits. */
  ghost function Dropped(p: nat): nat {
    if p < 0x1_0000_0000 then 0 else 1 + Dropped(p - 0x1_0000_0000)
  }

  lemma {:induction false} DroppedIs(p: nat)
    ensures p == ToU32(p) + Dropped(p) * 0x1_0000_0000
    ensures Dropped(p) == 0 <==> p < 0x1_0000_0000
  {
    if p >= 0x1_0000_0000 { DroppedIs(p - 0x1_0000_0000); }
  }

  /** 2^32 is 225 modulo 65521: each dropped multiple moves the residue by 225. */
  lemma TruncationAdds(s: int, p: nat)
    ensures Residue(s - ToU32(p)) == Residue(s - p + 225 * Dropped(p))
  {
    var k := Dropped(p);
    DroppedIs(p);
    assert s - ToU32(p) == (s - p + 225 * k) + (k * 65551) * 65521;
    WrapMany(s - p + 225 * k, k * 65551, 65521);
  }

  /** Adding leaves a residue as it was exactly if the residue of what is added is zero. */
  lemma ShiftIff(s: int, e: nat)
    ensures Residue(s + e) == Residue(s) <==> Residue(e) == 0
  {
    var x: int, y: int := Residue(s), Residue(e);
    WrapAdd(s, e, 65521);
    WrapAdd(e, x, 65521);
    assert Residue(s + e) == Residue(x + y);
    if x + y >= 65521 { WrapOnce(x + y - 65521, 65521); }
  }

  /** 225 has an inverse modulo 65521, so the errors cancel only when their number is a multiple of 65521. */
  lemma ErrorsCancelIff(lost: nat)
    ensures Residue(225 * lost) == 0 <==> Residue(lost) == 0
  {
    var k := WrapQuotient(lost, 65521);
    if Residue(lost) == 0 {
      assert 225 * lost == 0 + (225 * k) * 65521;
      WrapMany(0, 225 * k, 65521);
    }
    var j := WrapQuotient(225 * lost, 65521);
    if Residue(225 * lost) == 0 {
      assert 225 * 12813 == 1 + 44 * 65521;
      assert lost == (12813 * j - 44 * lost) * 65521;
      MultipleIsZero(lost, 12813 * j - 44 * lost);
    }
  }

  lemma MultipleIsZero(x: nat, k: int)
    requires x == k * 65521
    ensures Residue(x) == 0
  {
    WrapMany(0, k, 65521);
  }

  /**
   * The multiples of 2^32 dropped while these bytes were fed to a window of n bytes: one product for each
   * byte that has left the window.
   */
  ghost function Lost(fed: bytes, n: nat): nat {
    if |fed| <= n then 0 else Lost(fed[..|fed| - 1], n) + Dropped(Times(n, fed[|fed| - 1 - n]))
  }

  lemma LostNext(fed: bytes, in_: byte, n: nat)
    ensures Lost(fed + [in_], n)
            == if |fed| < n then 0 else Lost(fed, n) + Dropped(Times(n, (fed + [in_])[|fed| - n]))
  {
    assert (fed + [in_])[..|fed|] == fed;
  }

  /** Up to the bound nothing is ever lost. */
  lemma {:induction false} NothingLost(fed: bytes, n: nat)
    requires NoOverflow(n) || |fed| <= n
    ensures Lost(fed, n) == 0
  {
    if |fed| > n {
      NothingLost(fed[..|fed| - 1], n);
      TimesBound(n, fed[|fed| - 1 - n]);
    }
  }

  /** The value of the second sum decides: it is right exactly if the losses cancel. */
  lemma RightIff(s: int, lost: nat)
    ensures Residue(s + 225 * lost) == Residue(s) <==> Residue(lost) == 0
  {
    ShiftIff(s, 225 * lost);
    ErrorsCancelIff(lost);
  }

  /** With a block size below 2^32 one byte drops too few multiples to cancel them. */
  lemma OneByteShows(n: nat, out: byte, before: nat)
    requires n < 0x1_0000_0000 && Residue(before) == 0
    ensures Residue(before + Dropped(Times(n, out))) == 0 <==> Times(n, out) < 0x1_0000_0000
  {
    var d := Dropped(Times(n, out));
    TimesBound(n, out);
    DroppedIs(Times(n, out));
    WrapAdd(before, d, 65521);
    WrapSmall(d, 65521);
  }

  /** Feeding one byte to the second sum keeps its error. */
  lemma ErrorStays(w: bytes, in_: byte, err: nat)
    ensures Residue(Add32(Residue(S2(w) + err), Residue(S1(w + [in_])))) == Residue(S2(w + [in_]) + err)
  {
    SumsOfExtension(w, in_);
    var s, t := S2(w) + err, S1(w + [in_]);
    WrapAdd(s, Residue(t), 65521);
    WrapAdd(t, s, 65521);
  }

  /** Largest block size for which no byte value can overflow the product. */
  const MAX_EXACT_BLOCK := 16_843_009

  predicate NoOverflow(blockSize: nat) {
    255 * blockSize < 0x1_0000_0000
  }

  /** The bound is tight: one byte more and some byte value overflows the product. */
  lemma NoOverflowIsTight(n: nat)
    ensures NoOverflow(n) <==> n <= MAX_EXACT_BLOCK
    ensures NoOverflow(n) <==> forall out: byte :: Times(n, out) < 0x1_0000_0000
  {
    forall out: byte | NoOverflow(n)
      ensures Times(n, out) < 0x1_0000_0000
    {
      TimesBound(n, out);
    }
    var top: byte := 255;
    TimesIsProduct(n, top);
  }

  /** The bytes held by a circular buffer, oldest first. */
  ghost function Window(buffer: bytes, pos: nat, count: nat): bytes
    requires pos <= |buffer| && count <= |buffer|
  {
    if count < |buffer| then buffer[..count] else buffer[pos..] + buffer[..pos]
  }

  /** Storing at the write position appends, and drops the oldest byte when the buffer was full. */
  lemma StoreInWindow(buffer: bytes, pos: nat, count: nat, x: byte)
    requires pos < |buffer| && count <= |buffer| && (count < |buffer| ==> pos == count)
    ensures var was := Window(buffer, pos, count);
            Window(buffer[pos := x], Wrap(pos + 1, |buffer|), Min(count + 1, |buffer|))
            == (if count == |buffer| then was[1..] else was) + [x]
  {
    var next := buffer[pos := x];
    if count == |buffer| {
      assert (buffer[pos..] + buffer[..pos])[1..] == buffer[pos + 1..] + buffer[..pos];
      if pos + 1 < |buffer| {
        assert next[pos + 1..] + next[..pos + 1] == buffer[pos + 1..] + buffer[..pos] + [x];
      } else {
        assert next[0..] + next[..0] == buffer[pos + 1..] + buffer[..pos] + [x];
      }
    } else if count + 1 == |buffer| {
      assert next[0..] + next[..0] == buffer[..count] + [x];
    } else {
      assert next[..count + 1] == buffer[..count] + [x];
    }
  }

  class Rolling {
    var a: uint32
    var b: uint32
    const blockSize: nat
    const window: array<byte>
    var pos: nat
    var count: nat
    /** Every byte fed since the last Reset. */
    ghost var fed: bytes
    /** The bytes the checksum currently covers, oldest first. */
    ghost var contents: bytes

    /** The first sum never goes wrong; this says that the second one has not either. */
    ghost predicate Exact()
      reads this
    {
      b == Residue(S2(contents))
    }

    /** The circular buffer holds the last bytes fed. */
    ghost predicate Buffered()
      reads this, window
    {
      && 0 < blockSize == window.Length
      && pos < blockSize && count == Min(|fed|, blockSize)
      && (count < blockSize ==> pos == count)
      && contents == Window(window[..], pos, count)
      && contents == LastN(fed, blockSize)
    }

    ghost predicate Valid()
      reads this, window
    {
      && Buffered()
      && a == Residue(S1(contents))
      && b == Residue(S2(contents) + 225 * Lost(fed, blockSize))
    }

    constructor (blockSize: nat)
      requires 0 < blockSize
      ensures Valid() && fresh(window) && this.blockSize == blockSize
      ensures fed == []
    {
      a, b := 1, 0;
      this.blockSize := blockSize;
      window := new byte[blockSize](_ => 0);
      pos, count, fed, contents := 0, 0, [], [];
    }

    method Reset()
      requires Valid()
      modifies this
      ensures Valid() && fed == []
    {
      a, b := 1, 0;
      pos, count, fed, contents := 0, 0, [], [];
    }

    /** The byte the next Roll evicts. */
    method Oldest() returns (out: byte)
      requires Buffered() && count == blockSize
      ensures |contents| == blockSize && contents[0] == out
    {
      out := window[pos];
    }

    /** Takes the oldest byte of a full window out of both sums; the second one's error grows with what is dropped. */
    method Evict(out: byte, ghost err: nat)
      requires contents != [] && contents[0] == out && |contents| == blockSize
      requires a == Residue(S1(contents)) && b == Residue(S2(contents) + err)
      modifies this`a, this`b
      ensures a == Residue(S1(contents[1..]))
      ensures b == Residue(S2(contents[1..]) + err + 225 * Dropped(Times(blockSize, out)))
    {
      var product := ToU32(ToU32(blockSize) * out);
      TimesTruncates(blockSize, out);
      SumsOfEviction(contents);
      EvictAValue(S1(contents), out);
      EvictBValue(S2(contents) + err, product);
      TruncationAdds(S2(contents) + err - 1, Times(blockSize, out));
      a := Residue(Add32(Sub32(a, out), 65521));
      b := Residue(Add32(Sub32(Sub32(b, Residue(product)), 1), 2 * 65521));
    }

    /** Adds one byte after the bytes already summed. */
    method Append(in_: byte, ghost kept: bytes, ghost err: nat)
      requires a == Residue(S1(kept)) && b == Residue(S2(kept) + err)
      modifies this`a, this`b
      ensures a == Residue(S1(kept + [in_])) && b == Residue(S2(kept + [in_]) + err)
    {
      ReducedExtension(kept, in_);
      ErrorStays(kept, in_, err);
      a := Residue(Add32(a, in_));
      b := Residue(Add32(b, a));
    }

    /** Stores a byte at the write position, over the oldest one when the window is full. */
    method Store(in_: byte)
      requires Buffered()
      modifies this`pos, this`count, this`fed, this`contents, window
      ensures Buffered() && fed == old(fed) + [in_]
      ensures contents == (if old(count) == blockSize then old(contents)[1..] else old(contents)) + [in_]
    {
      StoreInWindow(window[..], pos, count, in_);
      LastNAppend(fed, in_, blockSize);
      contents := (if count == blockSize then contents[1..] else contents) + [in_];
      fed := fed + [in_];
      window[pos] := in_;
      if count < blockSize { count := count + 1; }
      pos := Wrap(pos + 1, blockSize);
      assert window[..] == old(window[..])[old(pos) := in_];
    }

    /** Advances the window by one byte. */
    method Roll(in_: byte)
      requires Valid()
      modifies this, window
      ensures Valid() && fed == old(fed) + [in_]
      ensures contents == (if old(count) == blockSize then old(contents)[1..] else old(contents)) + [in_]
      ensures old(Exact()) && blockSize < 0x1_0000_0000 ==>
                (Exact() <==> old(count) < blockSize || Times(blockSize, old(contents[0])) < 0x1_0000_0000)
    {
      hide Residue, S1, S2, Window, Lost, Dropped;
      ghost var kept, err, was := contents, 225 * Lost(fed, blockSize), Lost(fed, blockSize);
      LostNext(fed, in_, blockSize);
      RightIff(S2(contents), was);
      if count == blockSize {
        var out := Oldest();
        assert (fed + [in_])[|fed| - blockSize] == out;
        if blockSize < 0x1_0000_0000 && Residue(was) == 0 { OneByteShows(blockSize, out, was); }
        Evict(out, err);
        err := err + 225 * Dropped(Times(blockSize, out));
        kept := contents[1..];
      } else {
        NothingLost(fed, blockSize);
      }
      Append(in_, kept, err);
      Store(in_);
      RightIff(S2(contents), Lost(fed, blockSize));
    }

    /** Feeds a whole slice. */
    method Write(p: bytes)
      requires Valid()
      modifies this, window
      ensures Valid() && fed == old(fed) + p
    {
      hide Lost, Residue, S1, S2, Window, LastN;
      ghost var start := fed;
      for i := 0 to |p|
        invariant Valid()
        invariant fed == start + p[..i]
      {
        assert start + p[..i + 1] == (start + p[..i]) + [p[i]];
        Roll(p[i]);
      }
      assert p[..|p|] == p;
    }

    /**
     * The checksum of the last min(count, blockSize) bytes fed since Reset, if and only if the multiples of
     * 2^32 dropped since then cancel, that is, their number is a multiple of 65521. Up to the bound, and
     * before the window moves, nothing is dropped.
     */
    method Sum32() returns (r: uint32)
      requires Valid()
      ensures r == Checksum(LastN(fed, blockSize)) <==> Residue(Lost(fed, blockSize)) == 0
      ensures r == Checksum(LastN(fed, blockSize)) <==> Exact()
      ensures NoOverflow(blockSize) || |fed| <= blockSize ==> r == Checksum(LastN(fed, blockSize))
    {
      hide Residue, S1, S2, LastN, Lost;
      RightIff(S2(contents), Lost(fed, blockSize));
      if NoOverflow(blockSize) || |fed| <= blockSize {
        NothingLost(fed, blockSize);
        NoLossIsRight();
      }
      PackIsInjective(a, b, Residue(S2(contents)));
      r := Pack(a, b);
    }
  }

  lemma NoLossIsRight()
    ensures Residue(0) == 0
  {
  }

  lemma PackIsInjective(a: uint32, b: uint32, c: uint32)
    requires a < 65521 && b < 65521 && c < 65521
    ensures Pack(a, b) == Pack(a, c) <==> b == c
  {
  }

  /**
   * A full window that slides by one byte: the checksum is right if and only if the byte that leaves,
   * times the block size, fits in 32 bits.
   */
  method FirstSlide(block: bytes, next: byte) returns (r: uint32)
    requires 0 < |block| < 0x1_0000_0000
    ensures r == Checksum(block[1..] + [next]) <==> Times(|block|, block[0]) < 0x1_0000_0000
  {
    hide Residue, S1, S2, Checksum, Window;
    var rolling := new Rolling(|block|);
    rolling.Write(block);
    NothingLost(block, |block|);
    assert rolling.fed == block && rolling.contents == block;
    rolling.Roll(next);
    assert LastN(rolling.fed, |block|) == block[1..] + [next];
    r := rolling.Sum32();
  }

  /** So for every block size beyond the bound there is a window for which the checksum comes out wrong. */
  method WrongBeyondBound(n: nat, next: byte) returns (r: uint32)
    requires MAX_EXACT_BLOCK < n < 0x1_0000_0000
    ensures r != Checksum(seq(n, _ => 255 as byte)[1..] + [next])
  {
    var block := seq(n, _ => 255 as byte);
    TimesIsProduct(n, 255);
    r := FirstSlide(block, next);
  }

  /** n bytes of one value. */
  function Constant(n: nat, x: byte): (r: bytes)
    ensures |r| == n && forall i :: 0 <= i < n ==> r[i] == x
  {
    seq(n, _ => x)
  }

  lemma {:induction false} LostOfConstant(n: nat, k: nat, x: byte)
    ensures Lost(Constant(n + k, x), n) == k * Dropped(Times(n, x))
  {
    hide Dropped, Times;
    var fed := Constant(n + k, x);
    if k > 0 {
      LostOfConstant(n, k - 1, x);
      assert fed[..|fed| - 1] == Constant(n + (k - 1), x);
      assert (k - 1) * Dropped(Times(n, x)) + Dropped(Times(n, x)) == k * Dropped(Times(n, x));
    }
  }

  /**
   * Overflows do not always show: with any block size, after 65521 slides over one and the same byte the
   * errors have cancelled, however many multiples each slide dropped.
   */
  method RightAgainAfterManySlides(n: nat, x: byte) returns (r: uint32)
    requires 0 < n
    ensures r == Checksum(Constant(n, x))
  {
    hide Lost, Dropped, Times, Checksum, Residue;
    var rolling := new Rolling(n);
    rolling.Write(Constant(n + 65521, x));
    assert rolling.fed == Constant(n + 65521, x);
    LostOfConstant(n, 65521, x);
    MultipleIsZero(Lost(rolling.fed, n), Dropped(Times(n, x)));
    assert LastN(rolling.fed, n) == Constant(n, x);
    r := rolling.Sum32();
  }
}
