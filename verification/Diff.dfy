/** The greedy diff: a sliding window over the source, looked up in the signature of the basis. */
module DeltaDiff {
  import opened Prelude
  import opened Adler32
  import opened RollingChecksum
  import opened Signatures
  import opened DeltaOps
  import opened DeltaReference

  /**
   * No block of the basis shares its strong hash with a different stretch of the source of at most
   * one block. Lengths are not compared: the lookup of a full window does not compare them either.
   */
  ghost predicate CollisionFree(strong: StrongHash, basis: bytes, n: nat, src: bytes)
    requires 0 < n
  {
    forall off, i, j :: 0 <= off < |basis| && Aligned(off, n) && 0 <= i <= j <= |src| && j - i <= n
                        && strong(Tile(basis, off, n)) == strong(src[i..j])
                        ==> Tile(basis, off, n) == src[i..j]
  }

  lemma {:induction false} FirstHitSound(blocks: seq<BlockSig>, weak: int, strong: Digest, length: Option<nat>)
    ensures var h := FirstHit(blocks, weak, strong, length);
            h.Some? ==> h.value in blocks && Hits(h.value, weak, strong, length)
  {
    if blocks != [] { FirstHitSound(blocks[1..], weak, strong, length); }
  }

  /** A hit is an entry of the signature, so it names a real, non-empty block of the basis. */
  lemma HitIsBlock(basis: bytes, n: nat, strong: StrongHash, weak: int, digest: Digest, length: Option<nat>)
    requires 0 < n
    ensures var h := FirstHit(SigFrom(basis, 0, n, strong), weak, digest, length);
            h.Some? ==>
              && h.value.offset < |basis| && Aligned(h.value.offset, n)
              && h.value == SigOf(basis, h.value.offset, n, strong) && h.value.strong == digest && h.value.weak == weak
              && (n <= MAX_INT32 ==> 0 < h.value.length == |Tile(basis, h.value.offset, n)| <= n)
  {
    hide Checksum;
    var blocks := SigFrom(basis, 0, n, strong);
    FirstHitSound(blocks, weak, digest, length);
    var h := FirstHit(blocks, weak, digest, length);
    if h.Some? {
      var k :| 0 <= k < |blocks| && blocks[k] == h.value;
      SigEntry(basis, 0, n, strong, k);
    }
  }

  lemma HitsIffEqual(basis: bytes, off: nat, n: nat, strong: StrongHash, src: bytes, i: nat, j: nat, length: Option<nat>)
    requires 0 < n && off < |basis| && Aligned(off, n) && i <= j <= |src| && j - i <= n && CollisionFree(strong, basis, n, src)
    requires length.Some? ==> length.value == j - i && n <= MAX_INT32
    ensures Hits(SigOf(basis, off, n, strong), Checksum(src[i..j]), strong(src[i..j]), length)
            <==> Tile(basis, off, n) == src[i..j]
  {
    hide Checksum, Aligned;
  }

  /** Without collisions, looking up the checksums of w finds the first block whose content is w. */
  lemma {:induction false} LookupIsFindTile(basis: bytes, off: nat, n: nat, strong: StrongHash,
                                            src: bytes, i: nat, j: nat, length: Option<nat>)
    requires 0 < n && Aligned(off, n) && i <= j <= |src| && j - i <= n && CollisionFree(strong, basis, n, src)
    requires length.Some? ==> length.value == j - i && n <= MAX_INT32
    ensures var w := src[i..j];
            var f := FindTile(basis, off, n, w);
            FirstHit(SigFrom(basis, off, n, strong), Checksum(w), strong(w), length)
            == if f.Some? then Some(SigOf(basis, f.value, n, strong)) else None
    decreases |basis| - off
  {
    hide Checksum, CollisionFree, SigOf, Hits, Tile, Aligned;
    if off < |basis| {
      var w, head := src[i..j], SigOf(basis, off, n, strong);
      var rest := SigFrom(basis, off + n, n, strong);
      assert SigFrom(basis, off, n, strong) == [head] + rest && ([head] + rest)[1..] == rest;
      AlignedStep(off, n);
      LookupIsFindTile(basis, off + n, n, strong, src, i, j, length);
      HitsIffEqual(basis, off, n, strong, src, i, j, length);
    }
  }

  // ---- Emitting ops ----

  /** Between two windows: ops never ends in a literal, and the counters agree with it. */
  ghost predicate Tallied(ops: seq<Op>, stats: DiffStats) {
    && (ops == [] || ops[|ops| - 1].OpCopy?)
    && stats == DiffStats(CopyTotal(ops), LiteralTotal(ops), |ops|)
  }

  /** The ops and pending literals reproduce a stretch of the source. */
  ghost predicate Reproduces(ops: seq<Op>, literals: bytes, basis: bytes, done: bytes) {
    Replay(ops, basis).Some? && Replay(ops, basis).value + literals == done
  }

  lemma ReplayOfFlush(ops: seq<Op>, literals: bytes, basis: bytes, done: bytes)
    requires Reproduces(ops, literals, basis, done)
    ensures Reproduces(Flush(ops, literals), [], basis, done)
  {
    ReplayAppend(ops, OpLiteral(literals), basis);
  }

  lemma CopyBytes(basis: bytes, a: nat, b: nat)
    requires a < b <= |basis|
    ensures OpBytes(OpCopy(a, b - a), basis) == Some(basis[a..b])
  {
  }

  lemma ReplayAppendCopy(ops: seq<Op>, basis: bytes, a: nat, b: nat)
    requires a < b <= |basis|
    ensures Replay(ops + [OpCopy(a, b - a)], basis)
            == if Replay(ops, basis).Some? then Some(Replay(ops, basis).value + basis[a..b]) else None
  {
    hide Replay, OpBytes;
    ReplayAppend(ops, OpCopy(a, b - a), basis);
    CopyBytes(basis, a, b);
  }

  /** Merging a copy into the one before it does not change what is written. */
  lemma ReplayOfMerge(init: seq<Op>, basis: bytes, a: nat, b: nat, c: nat)
    requires a < b < c <= |basis| && Replay(init + [OpCopy(a, b - a)], basis).Some?
    ensures Replay(init + [OpCopy(a, c - a)], basis)
            == Some(Replay(init + [OpCopy(a, b - a)], basis).value + basis[b..c])
  {
    hide Replay, OpBytes;
    ReplayAppendCopy(init, basis, a, b);
    ReplayAppendCopy(init, basis, a, c);
    var before := Replay(init, basis).value;
    assert (before + basis[a..b]) + basis[b..c] == before + basis[a..c];
  }

  /** The two shapes PushCopy can leave behind. */
  lemma PushShapes(ops: seq<Op>, offset: int, length: int) returns (init: seq<Op>, a: int)
    ensures Mergeable(ops, offset, length) ==>
              && ops == init + [OpCopy(a, offset - a)]
              && PushCopy(ops, offset, length) == init + [OpCopy(a, offset + length - a)]
    ensures !Mergeable(ops, offset, length) ==> PushCopy(ops, offset, length) == ops + [OpCopy(offset, length)]
  {
    init, a := ops, 0;
    if Mergeable(ops, offset, length) {
      init, a := ops[..|ops| - 1], ops[|ops| - 1].offset;
      assert ops == init + [ops[|ops| - 1]];
    }
  }

  lemma ReplayOfPush(ops: seq<Op>, basis: bytes, offset: nat, length: nat)
    requires 0 < length && offset + length <= |basis| && Replay(ops, basis).Some?
    requires forall k :: 0 <= k < |ops| && ops[k].OpCopy? ==> 0 <= ops[k].offset && 0 < ops[k].length
    ensures Replay(PushCopy(ops, offset, length), basis)
            == Some(Replay(ops, basis).value + basis[offset..offset + length])
  {
    hide Replay, OpBytes, PushCopy;
    var init, a := PushShapes(ops, offset, length);
    if Mergeable(ops, offset, length) {
      assert ops[|init|] == OpCopy(a, offset - a);
      ReplayOfMerge(init, basis, a, offset, offset + length);
    } else {
      ReplayAppendCopy(ops, basis, offset, offset + length);
    }
  }

  lemma GoodCopies(ops: seq<Op>, basisLen: nat, limit: nat)
    requires WellFormed(ops, basisLen, limit)
    ensures forall k :: 0 <= k < |ops| && ops[k].OpCopy? ==> 0 <= ops[k].offset && 0 < ops[k].length
  {
  }

  lemma WellFormedCopy(ops: seq<Op>, basisLen: nat, limit: nat, offset: nat, length: nat)
    requires WellFormed(ops, basisLen, limit) && 0 < length <= limit && offset + length <= basisLen
    ensures WellFormed(ops + [OpCopy(offset, length)], basisLen, limit)
  {
  }

  lemma WellFormedPush(ops: seq<Op>, basisLen: nat, limit: nat, offset: nat, length: nat)
    requires WellFormed(ops, basisLen, limit) && 0 < length <= limit && offset + length <= basisLen && MAX_COPY <= limit
    ensures WellFormed(PushCopy(ops, offset, length), basisLen, limit)
  {
  }

  method FlushLiterals(ops: seq<Op>, stats: DiffStats, literals: bytes) returns (ops': seq<Op>, stats': DiffStats)
    requires stats == DiffStats(CopyTotal(ops), LiteralTotal(ops), |ops|)
    ensures ops' == Flush(ops, literals)
    ensures stats' == DiffStats(CopyTotal(ops'), LiteralTotal(ops'), |ops'|)
  {
    TotalsOfFlush(ops, literals);
    if |literals| == 0 { return ops, stats; }
    ops' := ops + [OpLiteral(literals)];
    stats' := stats.(literalBytes := stats.literalBytes + |literals|, opsTotal := stats.opsTotal + 1);
  }

  /** Adds a copy of a full block, extending the previous op in place when it ends where this one starts. */
  method EmitCopy(ops: seq<Op>, stats: DiffStats, b: BlockSig) returns (ops': seq<Op>, stats': DiffStats)
    requires stats == DiffStats(CopyTotal(ops), LiteralTotal(ops), |ops|)
    ensures ops' == PushCopy(ops, b.offset, b.length) && Tallied(ops', stats')
  {
    hide CopyTotal, LiteralTotal;
    TotalsOfPush(ops, b.offset, b.length);
    stats' := stats.(copyBytes := stats.copyBytes + b.length);
    if Mergeable(ops, b.offset, b.length) {
      var prev := ops[|ops| - 1];
      UpdateLast(ops, prev.(length := prev.length + b.length));
      ops' := ops[|ops| - 1 := prev.(length := prev.length + b.length)];
    } else {
      ops' := ops + [OpCopy(b.offset, b.length)];
      stats' := stats'.(opsTotal := stats'.opsTotal + 1);
    }
  }

  lemma UpdateLast(ops: seq<Op>, op: Op)
    requires ops != []
    ensures ops[|ops| - 1 := op] == ops[..|ops| - 1] + [op]
  {
  }

  // ---- The main loop ----

  /** The rolling checksum is right at i, when the window was last filled afresh at start. */
  ghost predicate SumRight(src: bytes, start: nat, i: nat, n: nat)
    requires start <= i && i + n <= |src|
  {
    Residue(Lost(src[start..i + n], n)) == 0
  }

  /**
   * The pieces the scan sees from i on, for every block size: as in the reference, except that a window
   * whose rolling checksum is wrong is not matched.
   */
  ghost function Seen(src: bytes, start: nat, i: nat, basis: bytes, n: nat): seq<Token>
    requires 0 < n && start <= i <= |src|
    decreases |src| - i
  {
    if i + n > |src| then TailTokens(src[i..], basis, n)
    else
      var f := FindTile(basis, 0, n, src[i..i + n]);
      if f.Some? && SumRight(src, start, i, n) then [Match(f.value, n)] + Seen(src, i + n, i + n, basis, n)
      else [Byte(src[i])] + Seen(src, start, i + 1, basis, n)
  }

  /** What is left at the end: the short last block, or single bytes. */
  ghost function TailTokens(w: bytes, basis: bytes, n: nat): seq<Token>
    requires 0 < n
  {
    if w == [] then []
    else
      var f := FindTile(basis, 0, n, w);
      if f.Some? then [TailMatch(f.value, |w|)] else ByteTokens(w)
  }

  /** The ops of the scan, for every block size. */
  ghost function ScanDiff(src: bytes, basis: bytes, n: nat): seq<Op>
    requires 0 < n
  {
    Render([], [], Seen(src, 0, 0, basis, n))
  }

  /**
   * Where the scan stands when it has reached position i, with a window last filled afresh at start. The
   * first part always holds. The second needs lengths that fit in an int32, the third also a strong hash
   * without collisions.
   */
  ghost predicate Progress(ops: seq<Op>, literals: bytes, stats: DiffStats, src: bytes, start: nat, i: nat,
                           basis: bytes, n: nat, strong: StrongHash)
    requires 0 < n && start <= i <= |src|
  {
    && Tallied(ops, stats)
    && (n <= MAX_INT32 ==>
          && WellFormed(ops, |basis|, Max(MAX_COPY, n))
          && (CollisionFree(strong, basis, n, src) ==>
                && Reproduces(ops, literals, basis, src[..i])
                && Render(ops, literals, Seen(src, start, i, basis, n)) == ScanDiff(src, basis, n)))
  }

  /** The lookup at position i: b is an entry of the signature with the strong hash of the window. */
  ghost predicate Found(b: BlockSig, src: bytes, i: nat, len: nat, basis: bytes, n: nat, strong: StrongHash)
    requires 0 < n && i + len <= |src|
  {
    b.offset < |basis| && Aligned(b.offset, n) && b == SigOf(basis, b.offset, n, strong) && b.strong == strong(src[i..i + len])
  }

  /** What a found block contributes to the output. */
  lemma FoundBlock(b: BlockSig, src: bytes, i: nat, len: nat, basis: bytes, n: nat, strong: StrongHash)
    requires 0 < n <= MAX_INT32 && i + len <= |src| && len <= n && Found(b, src, i, len, basis, n, strong)
    ensures 0 < b.length <= n && b.offset + b.length <= |basis|
    ensures CollisionFree(strong, basis, n, src) ==>
              basis[b.offset..b.offset + b.length] == src[i..i + len] && b.length == len
  {
    hide Checksum;
    assert basis[b.offset..b.offset + b.length] == Tile(basis, b.offset, n);
    var j := i + len;
    if CollisionFree(strong, basis, n, src) {
      assert strong(Tile(basis, b.offset, n)) == strong(src[i..j]);
    }
  }

  lemma SlideStep(ops: seq<Op>, literals: bytes, stats: DiffStats, src: bytes, start: nat, i: nat,
                  basis: bytes, n: nat, strong: StrongHash)
    requires 0 < n && start <= i && i + n <= |src| && Progress(ops, literals, stats, src, start, i, basis, n, strong)
    requires CollisionFree(strong, basis, n, src) ==>
               FindTile(basis, 0, n, src[i..i + n]).None? || !SumRight(src, start, i, n)
    ensures Progress(ops, literals + [src[i]], stats, src, start, i + 1, basis, n, strong)
  {
    hide Replay, WellFormed, CollisionFree, FindTile, SumRight;
    assert src[..i] + [src[i]] == src[..i + 1];
    assert forall x: bytes :: (x + literals) + [src[i]] == x + (literals + [src[i]]);
    RenderByte(ops, literals, src[i], Seen(src, start, i + 1, basis, n));
  }

  lemma RenderByte(ops: seq<Op>, literals: bytes, x: byte, rest: seq<Token>)
    ensures Render(ops, literals, [Byte(x)] + rest) == Render(ops, literals + [x], rest)
  {
    assert ([Byte(x)] + rest)[1..] == rest;
  }

  lemma RenderMatch(ops: seq<Op>, literals: bytes, off: nat, len: nat, rest: seq<Token>)
    ensures Render(ops, literals, [Match(off, len)] + rest) == Render(PushCopy(Flush(ops, literals), off, len), [], rest)
  {
    assert ([Match(off, len)] + rest)[1..] == rest;
  }

  lemma WellFormedFlush(ops: seq<Op>, literals: bytes, basisLen: nat, limit: nat)
    requires WellFormed(ops, basisLen, limit) && (ops == [] || ops[|ops| - 1].OpCopy?)
    ensures WellFormed(Flush(ops, literals), basisLen, limit)
  {
  }

  /** Copying a found block: the output grows by exactly that stretch of the basis. */
  lemma CopyStep(ops: seq<Op>, literals: bytes, src: bytes, i: nat, len: nat, b: BlockSig, merge: bool,
                 basis: bytes, n: nat, strong: StrongHash)
    requires 0 < n <= MAX_INT32 && i + len <= |src| && len <= n && Found(b, src, i, len, basis, n, strong)
    requires WellFormed(ops, |basis|, Max(MAX_COPY, n)) && (ops == [] || ops[|ops| - 1].OpCopy?)
    ensures var f := Flush(ops, literals);
            var ops' := if merge then PushCopy(f, b.offset, b.length) else f + [OpCopy(b.offset, b.length)];
            && WellFormed(ops', |basis|, Max(MAX_COPY, n))
            && (CollisionFree(strong, basis, n, src) && Reproduces(ops, literals, basis, src[..i]) ==>
                  Reproduces(ops', [], basis, src[..i + len]))
  {
    hide Replay, OpBytes, CollisionFree, Found, PushCopy, WellFormed, GoodOp;
    var f := Flush(ops, literals);
    FoundBlock(b, src, i, len, basis, n, strong);
    WellFormedFlush(ops, literals, |basis|, Max(MAX_COPY, n));
    WellFormedPush(f, |basis|, Max(MAX_COPY, n), b.offset, b.length);
    WellFormedCopy(f, |basis|, Max(MAX_COPY, n), b.offset, b.length);
    GoodCopies(f, |basis|, Max(MAX_COPY, n));
    if CollisionFree(strong, basis, n, src) && Reproduces(ops, literals, basis, src[..i]) {
      ReplayOfFlush(ops, literals, basis, src[..i]);
      ReplayOfPush(f, basis, b.offset, b.length);
      ReplayAppendCopy(f, basis, b.offset, b.offset + b.length);
      assert src[..i] + src[i..i + len] == src[..i + len];
    }
  }

  lemma MatchStep(ops: seq<Op>, literals: bytes, stats: DiffStats, src: bytes, start: nat, i: nat, b: BlockSig,
                  ops': seq<Op>, stats': DiffStats, basis: bytes, n: nat, strong: StrongHash)
    requires 0 < n && start <= i && i + n <= |src| && Progress(ops, literals, stats, src, start, i, basis, n, strong)
    requires Found(b, src, i, n, basis, n, strong)
    requires ops' == PushCopy(Flush(ops, literals), b.offset, b.length) && Tallied(ops', stats')
    requires CollisionFree(strong, basis, n, src) ==>
               FindTile(basis, 0, n, src[i..i + n]) == Some(b.offset) && SumRight(src, start, i, n)
    ensures Progress(ops', [], stats', src, i + n, i + n, basis, n, strong)
  {
    hide Replay, WellFormed, CollisionFree, Found, PushCopy, Flush, Reproduces, SumRight, FindTile, Render;
    if n <= MAX_INT32 {
      CopyStep(ops, literals, src, i, n, b, true, basis, n, strong);
      FoundBlock(b, src, i, n, basis, n, strong);
      RenderMatch(ops, literals, b.offset, n, Seen(src, i + n, i + n, basis, n));
    }
  }

  lemma RenderTail(ops: seq<Op>, literals: bytes, off: nat, len: nat)
    ensures Render(ops, literals, [TailMatch(off, len)]) == Flush(ops, literals) + [OpCopy(off, len)]
    ensures Render(ops, [], []) == ops
  {
    assert [TailMatch(off, len)][1..] == [];
  }

  lemma TailMatchStep(ops: seq<Op>, literals: bytes, stats: DiffStats, src: bytes, start: nat, i: nat, b: BlockSig,
                      ops': seq<Op>, stats': DiffStats, basis: bytes, n: nat, strong: StrongHash)
    requires 0 < n && start <= i < |src| < i + n && Progress(ops, literals, stats, src, start, i, basis, n, strong)
    requires Found(b, src, i, |src| - i, basis, n, strong)
    requires ops' == Flush(ops, literals) + [OpCopy(b.offset, b.length)] && Tallied(ops', stats')
    requires CollisionFree(strong, basis, n, src) && n <= MAX_INT32 ==>
               FindTile(basis, 0, n, src[i..|src|]) == Some(b.offset)
    ensures Progress(ops', [], stats', src, start, |src|, basis, n, strong)
  {
    hide Replay, WellFormed, CollisionFree, Found, Flush, Reproduces, Render, FindTile, SigOf;
    if n <= MAX_INT32 {
      CopyStep(ops, literals, src, i, |src| - i, b, false, basis, n, strong);
      FoundBlock(b, src, i, |src| - i, basis, n, strong);
      assert src[i..] == src[i..|src|] && src[|src|..] == [];
      RenderTail(ops, literals, b.offset, |src| - i);
      RenderTail(ops', [], 0, 0);
    }
  }

  lemma {:induction false} RenderBytes(ops: seq<Op>, literals: bytes, w: bytes)
    ensures Render(ops, literals, ByteTokens(w)) == Flush(ops, literals + w)
    decreases |w|
  {
    if w == [] {
      assert literals + w == literals;
    } else {
      RenderBytes(ops, literals + [w[0]], w[1..]);
      assert literals + [w[0]] + w[1..] == literals + w;
    }
  }

  lemma TailBytesStep(ops: seq<Op>, literals: bytes, stats: DiffStats, src: bytes, start: nat, i: nat,
                      basis: bytes, n: nat, strong: StrongHash)
    requires 0 < n && start <= i < |src| < i + n && Progress(ops, literals, stats, src, start, i, basis, n, strong)
    requires CollisionFree(strong, basis, n, src) && n <= MAX_INT32 ==> FindTile(basis, 0, n, src[i..|src|]).None?
    ensures Progress(ops, literals + src[i..], stats, src, start, |src|, basis, n, strong)
  {
    hide Replay, WellFormed, CollisionFree, FindTile;
    assert src[i..] == src[i..|src|] && src[|src|..] == [] && src[..i] + src[i..] == src[..|src|];
    RenderBytes(ops, literals, src[i..]);
    RenderDone(ops, literals + src[i..]);
    assert forall x: bytes :: (x + literals) + src[i..] == x + (literals + src[i..]);
  }

  /** What Diff promises about its result. */
  ghost predicate DiffResult(ops: seq<Op>, stats: DiffStats, src: bytes, basis: bytes, n: nat, strong: StrongHash)
    requires 0 < n
  {
    && stats == DiffStats(CopyTotal(ops), LiteralTotal(ops), |ops|)
    && (n <= 0x7FFF_FFFF ==>
          && WellFormed(ops, |basis|, Max(0x4000_0000, n))
          && (CollisionFree(strong, basis, n, src) ==>
                && Replay(ops, basis) == Some(src)
                && Coalesced(ops, n)
                && ops == ScanDiff(src, basis, n)
                && (NoOverflow(n) ==> ops == ReferenceDiff(src, basis, n))))
  }

  /** A window's checksum is right up to the overflow bound, and before the window has moved. */
  lemma RightWhenNothingLost(src: bytes, start: nat, i: nat, n: nat)
    requires start <= i && i + n <= |src| && (NoOverflow(n) || start == i)
    ensures SumRight(src, start, i, n)
  {
    hide Lost;
    NothingLost(src[start..i + n], n);
    NoLossIsRight();
  }

  /** One step of the scan. */
  lemma SeenAt(src: bytes, start: nat, i: nat, basis: bytes, n: nat)
    requires 0 < n && start <= i && i + n <= |src|
    ensures var f := FindTile(basis, 0, n, src[i..i + n]);
            Seen(src, start, i, basis, n) == if f.Some? && SumRight(src, start, i, n)
                                             then [Match(f.value, n)] + Seen(src, i + n, i + n, basis, n)
                                             else [Byte(src[i])] + Seen(src, start, i + 1, basis, n)
  {
    hide FindTile, SumRight;
  }

  /** One step of the reference. */
  lemma TokensAt(src: bytes, i: nat, basis: bytes, n: nat)
    requires 0 < n && i + n <= |src|
    ensures var f := FindTile(basis, 0, n, src[i..i + n]);
            Tokens(src[i..], basis, n) == if f.Some? then [Match(f.value, n)] + Tokens(src[i + n..], basis, n)
                                          else [Byte(src[i])] + Tokens(src[i + 1..], basis, n)
  {
    hide FindTile;
    var rest := src[i..];
    assert rest[..n] == src[i..i + n] && rest[n..] == src[i + n..] && rest[1..] == src[i + 1..];
  }

  lemma TailsAt(src: bytes, start: nat, i: nat, basis: bytes, n: nat)
    requires 0 < n && start <= i <= |src| < i + n
    ensures Seen(src, start, i, basis, n) == Tokens(src[i..], basis, n)
  {
    hide FindTile;
  }

  /** Up to the overflow bound the scan sees what the reference sees. */
  lemma {:induction false} SeenIsTokens(src: bytes, start: nat, i: nat, basis: bytes, n: nat)
    requires 0 < n && NoOverflow(n) && start <= i <= |src|
    ensures Seen(src, start, i, basis, n) == Tokens(src[i..], basis, n)
    decreases |src| - i
  {
    hide FindTile, SumRight, Seen, Tokens;
    if i + n <= |src| {
      RightWhenNothingLost(src, start, i, n);
      SeenAt(src, start, i, basis, n);
      TokensAt(src, i, basis, n);
      SeenIsTokens(src, start, i + 1, basis, n);
      SeenIsTokens(src, i + n, i + n, basis, n);
    } else {
      TailsAt(src, start, i, basis, n);
    }
  }

  /** What the reference matches before its first single byte is seen with every block size: no window has moved yet. */
  lemma {:induction false} LeadIsSeen(src: bytes, i: nat, basis: bytes, n: nat)
    requires 0 < n && i <= |src|
    ensures Lead(Seen(src, i, i, basis, n)) == Lead(Tokens(src[i..], basis, n))
    decreases |src| - i
  {
    hide FindTile, SumRight, Seen, Tokens, Lead;
    if i + n <= |src| {
      RightWhenNothingLost(src, i, i, n);
      SeenAt(src, i, i, basis, n);
      TokensAt(src, i, basis, n);
      LeadIsSeen(src, i + n, basis, n);
      LeadOfFirst(Byte(src[i]), Tokens(src[i + 1..], basis, n), Seen(src, i, i + 1, basis, n));
      var f := FindTile(basis, 0, n, src[i..i + n]);
      if f.Some? { LeadOfFirst(Match(f.value, n), Tokens(src[i + n..], basis, n), Seen(src, i + n, i + n, basis, n)); }
    } else {
      TailsAt(src, i, i, basis, n);
    }
  }

  lemma LeadOfFirst(t: Token, xs: seq<Token>, ys: seq<Token>)
    ensures Lead([t] + xs) == if t.Byte? then 0 else t.len + Lead(xs)
    ensures Lead([t] + ys) == if t.Byte? then 0 else t.len + Lead(ys)
  {
    assert ([t] + xs)[1..] == xs && ([t] + ys)[1..] == ys;
  }

  lemma {:induction false} SeenPieces(src: bytes, start: nat, i: nat, basis: bytes, n: nat)
    requires 0 < n && start <= i <= |src|
    ensures Pieces(Seen(src, start, i, basis, n), n)
    decreases |src| - i
  {
    hide FindTile, SumRight, Seen, Tokens, Pieces;
    if i + n <= |src| {
      SeenAt(src, start, i, basis, n);
      SeenPieces(src, start, i + 1, basis, n);
      SeenPieces(src, i + n, i + n, basis, n);
      PiecesStep(Byte(src[i]), Seen(src, start, i + 1, basis, n), n);
      var f := FindTile(basis, 0, n, src[i..i + n]);
      if f.Some? { PiecesStep(Match(f.value, n), Seen(src, i + n, i + n, basis, n), n); }
    } else {
      TailPieces(src, start, i, basis, n);
    }
  }

  lemma TailPieces(src: bytes, start: nat, i: nat, basis: bytes, n: nat)
    requires 0 < n && start <= i <= |src| < i + n
    ensures Pieces(Seen(src, start, i, basis, n), n)
  {
    hide FindTile;
    BytePieces(src[i..], n);
  }

  lemma ScanCoalesces(src: bytes, basis: bytes, n: nat)
    requires 0 < n
    ensures Coalesced(ScanDiff(src, basis, n), n)
  {
    hide Pieces;
    SeenPieces(src, 0, 0, basis, n);
    RenderCoalesces([], [], Seen(src, 0, 0, basis, n), n);
  }

  lemma FinishStep(ops: seq<Op>, literals: bytes, stats: DiffStats, src: bytes, start: nat, ops': seq<Op>, stats': DiffStats,
                   basis: bytes, n: nat, strong: StrongHash)
    requires 0 < n && start <= |src| && Progress(ops, literals, stats, src, start, |src|, basis, n, strong)
    requires ops' == Flush(ops, literals) && stats' == DiffStats(CopyTotal(ops'), LiteralTotal(ops'), |ops'|)
    ensures DiffResult(ops', stats', src, basis, n, strong)
  {
    hide Replay, CollisionFree, Render, WellFormed, Flush, CopyTotal, LiteralTotal, FindTile, Coalesced;
    assert src[|src|..] == [] && src[..|src|] == src && src[0..] == src;
    RenderDone(ops, literals);
    if NoOverflow(n) { SeenIsTokens(src, 0, 0, basis, n); }
    ScanCoalesces(src, basis, n);
    if n <= MAX_INT32 {
      WellFormedFlush(ops, literals, |basis|, Max(MAX_COPY, n));
      if CollisionFree(strong, basis, n, src) {
        ReplayOfFlush(ops, literals, basis, src);
        assert Replay(ops', basis).value + [] == Replay(ops', basis).value;
      }
    }
  }

  lemma RenderDone(ops: seq<Op>, literals: bytes)
    ensures Render(ops, literals, []) == Flush(ops, literals)
  {
  }

  /** The weak check, then the strong one: the first block with both checksums of the window. */
  method FindMatch(sig: Signature, weak: int, window: bytes, strong: StrongHash, ghost basis: bytes)
    returns (m: Option<BlockSig>)
    requires sig.Describes(basis, strong)
    ensures m == FirstHit(sig.blocks, weak, strong(window), None)
  {
    var known := sig.HasWeak(weak);
    if known {
      m := sig.Search(weak, strong(window), None);
    } else {
      FirstHitIs(sig.blocks, weak, strong(window), None, |sig.blocks|);
      m := None;
    }
  }

  /** The window was last filled afresh at start and has been fed up to the end of src[i..i+n], if a full block is left at i. */
  ghost predicate Covers(rolling: Rolling, src: bytes, start: nat, i: nat)
    reads rolling, rolling.window
  {
    && rolling.Valid() && start <= i
    && (i + rolling.blockSize <= |src| ==> rolling.fed == src[start..i + rolling.blockSize])
  }

  /** Feeds an empty window the block at position i, if a full one is left there. */
  method Seed(rolling: Rolling, src: bytes, i: nat)
    requires rolling.Valid() && rolling.fed == [] && i <= |src|
    modifies rolling, rolling.window
    ensures Covers(rolling, src, i, i)
  {
    hide Lost;
    if i + rolling.blockSize <= |src| {
      rolling.Write(src[i..i + rolling.blockSize]);
      assert rolling.fed == [] + src[i..i + rolling.blockSize];
    }
  }

  /** Starts the window afresh at position i. */
  method Reseed(rolling: Rolling, src: bytes, i: nat)
    requires rolling.Valid() && i <= |src|
    modifies rolling, rolling.window
    ensures Covers(rolling, src, i, i)
  {
    rolling.Reset();
    Seed(rolling, src, i);
  }

  method WindowSum(rolling: Rolling, src: bytes, ghost start: nat, i: nat) returns (weak: int)
    requires Covers(rolling, src, start, i) && i + rolling.blockSize <= |src|
    ensures weak == Checksum(src[i..i + rolling.blockSize]) <==> SumRight(src, start, i, rolling.blockSize)
  {
    hide Checksum, Lost, Residue;
    weak := rolling.Sum32();
    assert LastN(rolling.fed, rolling.blockSize) == src[i..i + rolling.blockSize];
  }

  /** The tail branch: the first block of exactly this length with both checksums. */
  method FindTail(sig: Signature, remaining: bytes, strong: StrongHash, ghost basis: bytes)
    returns (m: Option<BlockSig>)
    requires sig.Describes(basis, strong)
    ensures m == FirstHit(sig.blocks, Checksum(remaining), strong(remaining), Some(|remaining|))
  {
    hide Checksum;
    var weak := Adler32Block(remaining);
    m := sig.Search(weak, strong(remaining), Some(|remaining|));
  }

  lemma StartStep(src: bytes, basis: bytes, n: nat, strong: StrongHash)
    requires 0 < n
    ensures Progress([], [], DiffStats(0, 0, 0), src, 0, 0, basis, n, strong)
  {
    assert src[..0] == [];
  }

  lemma ProgressTallied(ops: seq<Op>, literals: bytes, stats: DiffStats, src: bytes, start: nat, i: nat,
                        basis: bytes, n: nat, strong: StrongHash)
    requires 0 < n && start <= i <= |src| && Progress(ops, literals, stats, src, start, i, basis, n, strong)
    ensures Tallied(ops, stats)
  {
  }

  /**
   * The lookup of a full window: always sound, and without collisions it succeeds if and only if the weak
   * checksum is the true one and some block of the basis equals the window.
   */
  lemma WindowLookup(weak: int, src: bytes, i: nat, basis: bytes, n: nat, strong: StrongHash)
    requires 0 < n && i + n <= |src|
    ensures var m := FirstHit(SigFrom(basis, 0, n, strong), weak, strong(src[i..i + n]), None);
            var f := FindTile(basis, 0, n, src[i..i + n]);
            && (m.Some? ==> Found(m.value, src, i, n, basis, n, strong))
            && (CollisionFree(strong, basis, n, src) ==>
                  && (m.Some? <==> weak == Checksum(src[i..i + n]) && f.Some?)
                  && (m.Some? ==> f == Some(m.value.offset)))
  {
    hide Checksum, CollisionFree, FindTile, Tile;
    HitIsBlock(basis, n, strong, weak, strong(src[i..i + n]), None);
    if CollisionFree(strong, basis, n, src) {
      LookupIsFindTile(basis, 0, n, strong, src, i, i + n, None);
      HitIsTrue(weak, src, i, basis, n, strong);
    }
  }

  /** A hit carries the true checksum of the window. */
  lemma HitIsTrue(weak: int, src: bytes, i: nat, basis: bytes, n: nat, strong: StrongHash)
    requires 0 < n && i + n <= |src| && CollisionFree(strong, basis, n, src)
    ensures FirstHit(SigFrom(basis, 0, n, strong), weak, strong(src[i..i + n]), None).Some? ==> weak == Checksum(src[i..i + n])
  {
    hide Checksum, FirstHit, SigFrom;
    HitIsBlock(basis, n, strong, weak, strong(src[i..i + n]), None);
    var m := FirstHit(SigFrom(basis, 0, n, strong), weak, strong(src[i..i + n]), None);
    if m.Some? {
      var j := i + n;
      assert strong(Tile(basis, m.value.offset, n)) == strong(src[i..j]);
    }
  }

  lemma TailLookup(src: bytes, i: nat, basis: bytes, n: nat, strong: StrongHash)
    requires 0 < n && i < |src| < i + n
    ensures var m := FirstHit(SigFrom(basis, 0, n, strong), Checksum(src[i..]), strong(src[i..]), Some(|src| - i));
            && (m.Some? ==> Found(m.value, src, i, |src| - i, basis, n, strong))
            && (CollisionFree(strong, basis, n, src) && n <= MAX_INT32 ==>
                  FindTile(basis, 0, n, src[i..|src|]) == if m.Some? then Some(m.value.offset) else None)
  {
    hide Checksum, CollisionFree;
    assert src[i..] == src[i..|src|];
    HitIsBlock(basis, n, strong, Checksum(src[i..]), strong(src[i..]), Some(|src| - i));
    if CollisionFree(strong, basis, n, src) && n <= MAX_INT32 {
      LookupIsFindTile(basis, 0, n, strong, src, i, |src|, Some(|src| - i));
    }
  }

  /** Fewer than n bytes are left: one copy of the last block, or literals. */
  method TailStep(ops: seq<Op>, literals: bytes, stats: DiffStats, src: bytes, ghost start: nat, i: nat,
                  sig: Signature, ghost basis: bytes, n: nat, strong: StrongHash)
    returns (ops': seq<Op>, literals': bytes, stats': DiffStats)
    requires 0 < n && start <= i < |src| < i + n && Progress(ops, literals, stats, src, start, i, basis, n, strong)
    requires sig.Describes(basis, strong) && n == EffectiveBlockSize(sig.blockSize)
    ensures Progress(ops', literals', stats', src, start, |src|, basis, n, strong)
  {
    hide Checksum, Progress, Found, FirstHit, SigOf, CollisionFree, FindTile;
    ProgressTallied(ops, literals, stats, src, start, i, basis, n, strong);
    var m := FindTail(sig, src[i..], strong, basis);
    TailLookup(src, i, basis, n, strong);
    if m.Some? {
      var b := m.value;
      ops', stats' := FlushLiterals(ops, stats, literals);
      TotalsAppend(ops', OpCopy(b.offset, b.length));
      ops' := ops' + [OpCopy(b.offset, b.length)];
      stats' := stats'.(copyBytes := stats'.copyBytes + b.length, opsTotal := stats'.opsTotal + 1);
      literals' := [];
      TailMatchStep(ops, literals, stats, src, start, i, b, ops', stats', basis, n, strong);
    } else {
      ops', literals', stats' := ops, literals + src[i..], stats;
      TailBytesStep(ops, literals, stats, src, start, i, basis, n, strong);
    }
  }

  /** A full window: copy the block it matches, or set its first byte aside. */
  method WindowStep(ops: seq<Op>, literals: bytes, stats: DiffStats, src: bytes, ghost start: nat, i: nat, weak: int,
                    sig: Signature, ghost basis: bytes, n: nat, strong: StrongHash)
    returns (matched: bool, ops': seq<Op>, literals': bytes, stats': DiffStats)
    requires 0 < n && start <= i && i + n <= |src| && Progress(ops, literals, stats, src, start, i, basis, n, strong)
    requires sig.Describes(basis, strong) && n == EffectiveBlockSize(sig.blockSize)
    requires weak == Checksum(src[i..i + n]) <==> SumRight(src, start, i, n)
    ensures if matched then Progress(ops', literals', stats', src, i + n, i + n, basis, n, strong)
            else Progress(ops', literals', stats', src, start, i + 1, basis, n, strong)
    ensures CollisionFree(strong, basis, n, src) ==>
              (matched <==> SumRight(src, start, i, n) && FindTile(basis, 0, n, src[i..i + n]).Some?)
  {
    hide Checksum, Progress, Found, FirstHit, SigOf, CollisionFree, FindTile, SumRight;
    ProgressTallied(ops, literals, stats, src, start, i, basis, n, strong);
    var m := FindMatch(sig, weak, src[i..i + n], strong, basis);
    WindowLookup(weak, src, i, basis, n, strong);
    matched := m.Some?;
    if matched {
      ops', stats' := FlushLiterals(ops, stats, literals);
      ops', stats' := EmitCopy(ops', stats', m.value);
      literals' := [];
      MatchStep(ops, literals, stats, src, start, i, m.value, ops', stats', basis, n, strong);
    } else {
      ops', literals', stats' := ops, literals + [src[i]], stats;
      SlideStep(ops, literals, stats, src, start, i, basis, n, strong);
    }
  }

  /** Slides the window from i - 1 to i, when a full block is left there. */
  method Slide(rolling: Rolling, src: bytes, ghost start: nat, i: nat)
    requires start < i <= |src| && Covers(rolling, src, start, i - 1)
    modifies rolling, rolling.window
    ensures Covers(rolling, src, start, i)
  {
    hide Lost;
    var n := rolling.blockSize;
    if i + n - 1 < |src| {
      rolling.Roll(src[i + n - 1]);
      assert src[start..i + n] == src[start..i - 1 + n] + [src[i + n - 1]];
    }
  }

  /** The scan itself, from a seeded window at the start of the source to its end. */
  method ScanSource(src: bytes, sig: Signature, rolling: Rolling, n: nat, strong: StrongHash, ghost basis: bytes)
    returns (ops: seq<Op>, literals: bytes, stats: DiffStats, ghost start: nat)
    requires 0 < n == rolling.blockSize == EffectiveBlockSize(sig.blockSize) && sig.Describes(basis, strong)
    requires Covers(rolling, src, 0, 0)
    modifies rolling, rolling.window
    ensures start <= |src| && Progress(ops, literals, stats, src, start, |src|, basis, n, strong)
  {
    hide *;
    ops, stats, literals, start := [], DiffStats(0, 0, 0), [], 0;
    var i := 0;
    StartStep(src, basis, n, strong);
    while i < |src|
      invariant start <= i <= |src|
      invariant Covers(rolling, src, start, i)
      invariant Progress(ops, literals, stats, src, start, i, basis, n, strong)
      decreases |src| - i
    {
      CoversIsValid(rolling, src, start, i);
      if i + n > |src| {
        ops, literals, stats := TailStep(ops, literals, stats, src, start, i, sig, basis, n, strong);
        i := |src|;
        break;
      }
      var weak := WindowSum(rolling, src, start, i);
      var matched;
      matched, ops, literals, stats := WindowStep(ops, literals, stats, src, start, i, weak, sig, basis, n, strong);
      if matched {
        Reseed(rolling, src, i + n);
        i := i + n;
        start := i;
      } else {
        Slide(rolling, src, start, i + 1);
        i := i + 1;
      }
    }
  }

  lemma CoversIsValid(rolling: Rolling, src: bytes, start: nat, i: nat)
    requires Covers(rolling, src, start, i)
    ensures rolling.Valid()
  {
  }

  /**
   * Reads the source and describes it as copies from the basis and literal bytes. The basis itself
   * is not available here: the ghost parameter only says which file the signature was taken of.
   */
  method Diff(r: Reader, sig: Signature, strong: StrongHash, ghost basis: bytes)
    returns (res: Result<(seq<Op>, DiffStats), ReadError>)
    requires sig.Describes(basis, strong)
    ensures res.Err? <==> r.fails
    ensures res.Ok? ==>
              DiffResult(res.value.0, res.value.1, r.data, basis, EffectiveBlockSize(sig.blockSize), strong)
  {
    hide Progress, DiffResult, SigFrom, Lists, Flush, Lost;
    var n := EffectiveBlockSize(sig.blockSize);
    if r.fails { return Err(ReadFailed); }
    var rolling := new Rolling(n);
    Seed(rolling, r.data, 0);
    ghost var start;
    var ops, literals, stats;
    ops, literals, stats, start := ScanSource(r.data, sig, rolling, n, strong, basis);
    ProgressTallied(ops, literals, stats, r.data, start, |r.data|, basis, n, strong);
    var ops', stats' := FlushLiterals(ops, stats, literals);
    FinishStep(ops, literals, stats, r.data, start, ops', stats', basis, n, strong);
    return Ok((ops', stats'));
  }

  /** Every byte of the source is copied or literal. */
  lemma DiffCovers(ops: seq<Op>, stats: DiffStats, src: bytes, basis: bytes, n: nat, strong: StrongHash)
    requires 0 < n <= 0x7FFF_FFFF && DiffResult(ops, stats, src, basis, n, strong) && CollisionFree(strong, basis, n, src)
    ensures stats.copyBytes + stats.literalBytes == |src|
    ensures stats.copyBytes >= Lead(Tokens(src, basis, n)) && stats.literalBytes >= 0
  {
    hide CollisionFree, WellFormed, Lead, Replay, Seen, Render;
    WellFormedReplays(ops, basis, Max(MAX_COPY, n));
    RenderTotals([], [], Seen(src, 0, 0, basis, n));
    LeadIsMatched(Seen(src, 0, 0, basis, n));
    LeadIsSeen(src, 0, basis, n);
    assert src[0..] == src;
  }

  /** For every block size up to 2^31-1 the diff of a file against itself has no literal bytes. */
  lemma SelfDiffIsAllCopies(ops: seq<Op>, stats: DiffStats, basis: bytes, n: nat, strong: StrongHash)
    requires 0 < n <= 0x7FFF_FFFF && DiffResult(ops, stats, basis, basis, n, strong)
    requires CollisionFree(strong, basis, n, basis)
    ensures stats.literalBytes == 0 && stats.copyBytes == |basis|
  {
    hide CollisionFree, DiffResult, Lead;
    assert basis[0..] == basis;
    SelfDiffMatches(basis, n, 0);
    DiffCovers(ops, stats, basis, basis, n, strong);
  }

  /** For every such block size a block-aligned common prefix is copied, whatever follows it. */
  lemma CommonPrefixIsNotSent(ops: seq<Op>, stats: DiffStats, src: bytes, basis: bytes, n: nat, strong: StrongHash, upto: nat)
    requires 0 < n <= 0x7FFF_FFFF && DiffResult(ops, stats, src, basis, n, strong)
    requires CollisionFree(strong, basis, n, src)
    requires upto <= |src| && upto <= |basis| && src[..upto] == basis[..upto] && Aligned(upto, n)
    ensures stats.copyBytes >= upto && stats.literalBytes <= |src| - upto
  {
    hide CollisionFree, DiffResult, Lead;
    assert src[0..] == src;
    SharedPrefixMatches(src, basis, n, 0, upto);
    DiffCovers(ops, stats, src, basis, n, strong);
  }

  /** The scan of a file against itself, when it has different blocks and everything up to at has been copied in one piece. */
  lemma {:induction false} SelfScan(basis: bytes, n: nat, at: nat, full: nat)
    requires 0 < n && DifferentBlocks(basis, n) && Aligned(at, n) && at <= full <= |basis| < full + n && Aligned(full - at, n)
    requires |basis| <= 0x4000_0000
    ensures Render(InOrder(at, at), [], Seen(basis, at, at, basis, n)) == InOrder(full, |basis|)
    decreases |basis| - at
  {
    hide FindTile, SumRight, Seen, Tokens, InOrder, PushCopy, Render, DifferentBlocks, Tile, Aligned;
    if at < full {
      AlignedStep(full - at, n);
      AlignedStep(at, n);
      SeenAt(basis, at, at, basis, n);
      RightWhenNothingLost(basis, at, at, n);
      TileIs(basis, at, n);
      BlockIsFoundInPlace(basis, n, at);
      RenderMatch(InOrder(at, at), [], at, n, Seen(basis, at + n, at + n, basis, n));
      PushInOrder(at, n);
      SelfScan(basis, n, at + n, full);
    } else {
      SelfTail(basis, n, at);
    }
  }

  lemma TileIs(basis: bytes, at: nat, n: nat)
    requires at < |basis|
    ensures at + n <= |basis| ==> Tile(basis, at, n) == basis[at..at + n]
    ensures |basis| < at + n ==> Tile(basis, at, n) == basis[at..]
  {
  }

  lemma SelfTail(basis: bytes, n: nat, at: nat)
    requires 0 < n && DifferentBlocks(basis, n) && Aligned(at, n) && at <= |basis| < at + n
    ensures Render(InOrder(at, at), [], Seen(basis, at, at, basis, n)) == InOrder(at, |basis|)
  {
    hide FindTile, DifferentBlocks, Tile, Aligned, Render;
    RenderTail(InOrder(at, at), [], at, |basis| - at);
    if at < |basis| {
      TileIs(basis, at, n);
      BlockIsFoundInPlace(basis, n, at);
    }
  }

  /**
   * An unchanged file of different blocks, up to 2^30 bytes, is one copy of all its full blocks and one of the
   * short block that may be left; so it is a single copy when there is none.
   */
  lemma SelfDiffIsOneCopy(ops: seq<Op>, stats: DiffStats, basis: bytes, n: nat, full: nat, strong: StrongHash)
    requires 0 < n <= 0x7FFF_FFFF && DiffResult(ops, stats, basis, basis, n, strong) && CollisionFree(strong, basis, n, basis)
    requires DifferentBlocks(basis, n) && Aligned(full, n) && full <= |basis| < full + n && 0 < |basis| <= 0x4000_0000
    ensures full == |basis| ==> ops == [OpCopy(0, |basis|)] && stats.opsTotal == 1
    ensures 0 < full < |basis| ==> ops == [OpCopy(0, full), OpCopy(full, |basis| - full)] && stats.opsTotal == 2
    ensures full == 0 ==> ops == [OpCopy(0, |basis|)] && stats.opsTotal == 1
  {
    hide CollisionFree, Seen, Render, DifferentBlocks, Aligned, WellFormed, Replay, Coalesced, ReferenceDiff;
    assert Aligned(0, n) by { AlignedZero(n); }
    assert InOrder(0, 0) == [];
    SelfScan(basis, n, 0, full);
  }

  lemma AlignedZero(n: nat)
    requires 0 < n
    ensures Aligned(0, n)
  {
  }

  /** Zeros, and the same with one byte of 255 before them. */
  ghost function Shifted(n: nat): bytes {
    [255] + Constant(n, 0)
  }

  lemma ShiftedWindows(n: nat)
    requires MAX_EXACT_BLOCK < n < 0x1_0000_0000
    ensures FindTile(Constant(n, 0), 0, n, Shifted(n)[0..n]).None?
    ensures FindTile(Constant(n, 0), 0, n, Shifted(n)[1..n + 1]) == Some(0)
    ensures FindTile(Constant(n, 0), 0, n, Shifted(n)[2..]).None?
    ensures Shifted(n)[1..] == Constant(n, 0)
  {
    var basis, src := Constant(n, 0), Shifted(n);
    assert Tile(basis, 0, n) == basis;
    assert src[0..n][0] == 255;
    assert src[1..n + 1] == basis;
  }

  lemma ShiftedSum(n: nat)
    requires MAX_EXACT_BLOCK < n < 0x1_0000_0000
    ensures !SumRight(Shifted(n), 0, 1, n)
  {
    hide Times;
    var src := Shifted(n);
    var fed := src[0..1 + n];
    assert fed == src && fed[..|fed| - 1] == src[..n] && fed[|fed| - 1 - n] == 255;
    NothingLost(src[..n], n);
    TimesIsProduct(n, 255);
    NoLossIsRight();
    OneByteShows(n, 255, 0);
  }

  /**
   * A match that is missed, for every block size beyond the bound: a byte before an unchanged file. The
   * reference copies the whole file, the scan sends all of it as literals.
   */
  lemma MissedMatch(n: nat)
    requires MAX_EXACT_BLOCK < n < 0x1_0000_0000
    ensures ScanDiff(Shifted(n), Constant(n, 0), n) == [OpLiteral(Shifted(n))]
    ensures CopyTotal(ReferenceDiff(Shifted(n), Constant(n, 0), n)) == n
  {
    hide FindTile, SumRight, Shifted, Render, Constant;
    var basis, src := Constant(n, 0), Shifted(n);
    ShiftedWindows(n);
    ShiftedSum(n);
    ShiftedLength(n);
    assert Seen(src, 0, 2, basis, n) == ByteTokens(src[2..]);
    assert Seen(src, 0, 1, basis, n) == [Byte(src[1])] + ByteTokens(src[2..]);
    assert src[1..][1..] == src[2..] && src[1..][0] == src[1];
    assert ByteTokens(src[1..]) == [Byte(src[1])] + ByteTokens(src[2..]);
    assert Seen(src, 0, 0, basis, n) == [Byte(src[0])] + ByteTokens(src[1..]) == ByteTokens(src);
    RenderBytes([], [], src);
    assert [] + src == src;
    ReferenceFindsShifted(n);
  }

  /** So the real diff sends every byte of it, although the basis holds all but the first. */
  lemma ShiftedFileIsAllLiteral(ops: seq<Op>, stats: DiffStats, n: nat, strong: StrongHash)
    requires MAX_EXACT_BLOCK < n <= 0x7FFF_FFFF && DiffResult(ops, stats, Shifted(n), Constant(n, 0), n, strong)
    requires CollisionFree(strong, Constant(n, 0), n, Shifted(n))
    ensures stats.copyBytes == 0 && stats.literalBytes == n + 1
  {
    hide CollisionFree, Shifted, Constant, ScanDiff, ReferenceDiff, WellFormed, Replay;
    MissedMatch(n);
    ShiftedLength(n);
    var op := OpLiteral(Shifted(n));
    TotalsAppend([], op);
    assert [] + [op] == [op];
  }

  lemma ShiftedLength(n: nat)
    ensures |Shifted(n)| == n + 1
  {
  }

  lemma OneMatch(x: byte, n: nat)
    ensures MatchedBytes([Byte(x)] + [Match(0, n)]) == n
  {
    assert ([Byte(x)] + [Match(0, n)])[1..] == [Match(0, n)] && [Match(0, n)][1..] == [];
    assert MatchedBytes([Match(0, n)]) == n;
  }

  lemma ReferenceFindsShifted(n: nat)
    requires MAX_EXACT_BLOCK < n < 0x1_0000_0000
    ensures CopyTotal(ReferenceDiff(Shifted(n), Constant(n, 0), n)) == n
  {
    hide FindTile, Shifted, Render, Constant;
    var basis, src := Constant(n, 0), Shifted(n);
    ShiftedWindows(n);
    ShiftedLength(n);
    assert src[0..n] == src[..n];
    var rest := src[1..];
    assert rest[..n] == src[1..n + 1] && rest[n..] == [];
    assert Tokens(rest, basis, n) == [Match(0, n)] + Tokens([], basis, n);
    assert Tokens(src, basis, n) == [Byte(src[0])] + [Match(0, n)];
    OneMatch(src[0], n);
    RenderTotals([], [], Tokens(src, basis, n));
  }
}
