/**
 * What the diff is supposed to be, with no checksum in sight: cut the source greedily into basis
 * blocks and single bytes, then write those pieces down as ops.
 */
module DeltaReference {
  import opened Prelude
  import opened Signatures
  import opened DeltaOps

  /** The longest copy that coalescing may build. */
  const MAX_COPY := 0x4000_0000

  /** The first block of the basis, at off or later, whose content is w. */
  ghost function FindTile(basis: bytes, off: nat, n: nat, w: bytes): (f: Option<nat>)
    requires 0 < n
    ensures f.Some? ==> off <= f.value < |basis| && Tile(basis, f.value, n) == w
    decreases |basis| - off
  {
    if off >= |basis| then None
    else if Tile(basis, off, n) == w then Some(off)
    else FindTile(basis, off + n, n, w)
  }

  /** An aligned block with the content is never overlooked. */
  lemma {:induction false} FindTileComplete(basis: bytes, off: nat, n: nat, at: nat)
    requires 0 < n && off <= at < |basis| && Aligned(at - off, n)
    ensures FindTile(basis, off, n, Tile(basis, at, n)).Some?
    decreases |basis| - off
  {
    if at != off { FindTileComplete(basis, off + n, n, at); }
  }

  /** A piece of the source: a full block found at off, the short last block found at off, or one byte. */
  datatype Token = Match(off: nat, len: nat) | TailMatch(off: nat, len: nat) | Byte(b: byte)

  ghost function ByteTokens(w: bytes): seq<Token> {
    if w == [] then [] else [Byte(w[0])] + ByteTokens(w[1..])
  }

  ghost function Tokens(src: bytes, basis: bytes, n: nat): seq<Token>
    requires 0 < n
    decreases |src|
  {
    if src == [] then []
    else if |src| < n then
      var f := FindTile(basis, 0, n, src);
      if f.Some? then [TailMatch(f.value, |src|)] else ByteTokens(src)
    else
      var f := FindTile(basis, 0, n, src[..n]);
      if f.Some? then [Match(f.value, n)] + Tokens(src[n..], basis, n)
      else [Byte(src[0])] + Tokens(src[1..], basis, n)
  }

  /** Writes pending literal bytes as one op. */
  function Flush(ops: seq<Op>, literals: bytes): seq<Op> {
    if literals == [] then ops else ops + [OpLiteral(literals)]
  }

  /** A copy may be merged into a copy that ends where it begins, up to the length limit. */
  predicate Mergeable(ops: seq<Op>, offset: int, length: int) {
    && |ops| > 0 && ops[|ops| - 1].OpCopy?
    && ops[|ops| - 1].offset + ops[|ops| - 1].length == offset
    && ops[|ops| - 1].length + length <= MAX_COPY
  }

  /** Adds a full-block copy, merged into the previous op where possible. */
  function PushCopy(ops: seq<Op>, offset: int, length: int): seq<Op> {
    if Mergeable(ops, offset, length)
    then ops[..|ops| - 1] + [OpCopy(ops[|ops| - 1].offset, ops[|ops| - 1].length + length)]
    else ops + [OpCopy(offset, length)]
  }

  /** The ops for a list of pieces, after ops and pending literals already there. */
  ghost function Render(ops: seq<Op>, literals: bytes, tokens: seq<Token>): seq<Op>
    decreases |tokens|
  {
    if tokens == [] then Flush(ops, literals)
    else match tokens[0]
      case Byte(b) => Render(ops, literals + [b], tokens[1..])
      case Match(off, len) => Render(PushCopy(Flush(ops, literals), off, len), [], tokens[1..])
      case TailMatch(off, len) => Render(Flush(ops, literals) + [OpCopy(off, len)], [], tokens[1..])
  }

  ghost function ReferenceDiff(src: bytes, basis: bytes, n: nat): seq<Op>
    requires 0 < n
  {
    Render([], [], Tokens(src, basis, n))
  }

  // ---- What the reference promises ----

  ghost function MatchedBytes(tokens: seq<Token>): nat {
    if tokens == [] then 0
    else MatchedBytes(tokens[1..]) + if tokens[0].Byte? then 0 else tokens[0].len
  }

  ghost function LoneBytes(tokens: seq<Token>): nat {
    if tokens == [] then 0 else LoneBytes(tokens[1..]) + if tokens[0].Byte? then 1 else 0
  }

  /** The bytes matched before the first byte that stands alone. */
  ghost function Lead(tokens: seq<Token>): nat {
    if tokens == [] || tokens[0].Byte? then 0 else tokens[0].len + Lead(tokens[1..])
  }

  lemma {:induction false} LeadIsMatched(tokens: seq<Token>)
    ensures Lead(tokens) <= MatchedBytes(tokens)
    ensures Lead(tokens) == MatchedBytes(tokens) + LoneBytes(tokens) ==> LoneBytes(tokens) == 0
  {
    if tokens != [] && !tokens[0].Byte? { LeadIsMatched(tokens[1..]); }
  }

  lemma TotalsOfFlush(ops: seq<Op>, literals: bytes)
    ensures CopyTotal(Flush(ops, literals)) == CopyTotal(ops)
    ensures LiteralTotal(Flush(ops, literals)) == LiteralTotal(ops) + |literals|
  {
    TotalsAppend(ops, OpLiteral(literals));
  }

  lemma TotalsOfPush(ops: seq<Op>, offset: int, length: int)
    ensures CopyTotal(PushCopy(ops, offset, length)) == CopyTotal(ops) + length
    ensures LiteralTotal(PushCopy(ops, offset, length)) == LiteralTotal(ops)
  {
    TotalsAppend(ops, OpCopy(offset, length));
    if |ops| > 0 && ops[|ops| - 1].OpCopy? {
      var init, last := ops[..|ops| - 1], ops[|ops| - 1];
      assert ops == init + [last];
      TotalsAppend(init, last);
      TotalsAppend(init, OpCopy(last.offset, last.length + length));
    }
  }

  /** Rendering neither loses nor invents bytes: matches become copies, lone bytes literals. */
  lemma {:induction false} RenderTotals(ops: seq<Op>, literals: bytes, tokens: seq<Token>)
    ensures CopyTotal(Render(ops, literals, tokens)) == CopyTotal(ops) + MatchedBytes(tokens)
    ensures LiteralTotal(Render(ops, literals, tokens)) == LiteralTotal(ops) + |literals| + LoneBytes(tokens)
    decreases |tokens|
  {
    TotalsOfFlush(ops, literals);
    if tokens != [] {
      var f := Flush(ops, literals);
      match tokens[0]
      case Byte(b) => RenderTotals(ops, literals + [b], tokens[1..]);
      case Match(off, len) =>
        TotalsOfPush(f, off, len);
        RenderTotals(PushCopy(f, off, len), [], tokens[1..]);
      case TailMatch(off, len) =>
        TotalsAppend(f, OpCopy(off, len));
        RenderTotals(f + [OpCopy(off, len)], [], tokens[1..]);
    }
  }

  // ---- Coalescing ----

  /** Full blocks are n bytes long; only the last piece may be a shorter one, out of the last block. */
  ghost predicate Pieces(tokens: seq<Token>, n: nat) {
    && (forall k :: 0 <= k < |tokens| && tokens[k].Match? ==> tokens[k].len == n)
    && (forall k :: 0 <= k < |tokens| && tokens[k].TailMatch? ==> k == |tokens| - 1 && tokens[k].len < n)
  }

  lemma PiecesStep(t: Token, rest: seq<Token>, n: nat)
    requires Pieces(rest, n) && !t.TailMatch? && (t.Match? ==> t.len == n)
    ensures Pieces([t] + rest, n)
  {
  }

  lemma PiecesTail(tokens: seq<Token>, n: nat)
    requires tokens != [] && Pieces(tokens, n)
    ensures Pieces(tokens[1..], n) && (tokens[0].TailMatch? ==> tokens[1..] == [])
  {
  }

  lemma {:induction false} BytePieces(w: bytes, n: nat)
    ensures Pieces(ByteTokens(w), n)
  {
    if w != [] {
      BytePieces(w[1..], n);
      PiecesStep(Byte(w[0]), ByteTokens(w[1..]), n);
    }
  }

  /** No copy is shorter than a full block. */
  ghost predicate FullCopies(ops: seq<Op>, n: nat) {
    forall k :: 0 <= k < |ops| && ops[k].OpCopy? ==> ops[k].length >= n
  }

  lemma FlushKeepsCoalesced(ops: seq<Op>, literals: bytes, n: nat)
    requires Coalesced(ops, n) && FullCopies(ops, n)
    ensures Coalesced(Flush(ops, literals), n) && FullCopies(Flush(ops, literals), n)
  {
  }

  lemma PushKeepsCoalesced(ops: seq<Op>, off: nat, n: nat)
    requires Coalesced(ops, n) && FullCopies(ops, n)
    ensures Coalesced(PushCopy(ops, off, n), n) && FullCopies(PushCopy(ops, off, n), n)
  {
  }

  lemma TailKeepsCoalesced(ops: seq<Op>, off: nat, len: nat, n: nat)
    requires Coalesced(ops, n) && len < n
    ensures Coalesced(ops + [OpCopy(off, len)], n)
  {
  }

  /** Writing pieces down merges full blocks wherever they can be merged. */
  lemma {:induction false} RenderCoalesces(ops: seq<Op>, literals: bytes, tokens: seq<Token>, n: nat)
    requires Pieces(tokens, n) && Coalesced(ops, n) && FullCopies(ops, n)
    ensures Coalesced(Render(ops, literals, tokens), n)
    decreases |tokens|
  {
    hide Pieces, Coalesced, FullCopies, Flush, PushCopy;
    var f := Flush(ops, literals);
    FlushKeepsCoalesced(ops, literals, n);
    if tokens != [] {
      PiecesTail(tokens, n);
      FirstPiece(tokens, n);
      match tokens[0]
      case Byte(b) => RenderCoalesces(ops, literals + [b], tokens[1..], n);
      case Match(off, len) =>
        PushKeepsCoalesced(f, off, n);
        RenderCoalesces(PushCopy(f, off, len), [], tokens[1..], n);
      case TailMatch(off, len) =>
        TailKeepsCoalesced(f, off, len, n);
        NothingMore(f + [OpCopy(off, len)]);
    }
  }

  lemma FirstPiece(tokens: seq<Token>, n: nat)
    requires tokens != [] && Pieces(tokens, n)
    ensures tokens[0].Match? ==> tokens[0].len == n
    ensures tokens[0].TailMatch? ==> tokens[0].len < n
  {
  }

  lemma NothingMore(ops: seq<Op>)
    ensures Render(ops, [], []) == ops
  {
  }

  lemma {:induction false} ByteTokensTotals(w: bytes)
    ensures MatchedBytes(ByteTokens(w)) == 0 && LoneBytes(ByteTokens(w)) == |w|
  {
    if w != [] { ByteTokensTotals(w[1..]); }
  }

  /** Every source byte is either matched or alone. */
  lemma {:induction false} TokensCoverSource(src: bytes, basis: bytes, n: nat)
    requires 0 < n
    ensures MatchedBytes(Tokens(src, basis, n)) + LoneBytes(Tokens(src, basis, n)) == |src|
    decreases |src|
  {
    if src == [] {
    } else if |src| < n {
      ByteTokensTotals(src);
    } else if FindTile(basis, 0, n, src[..n]).Some? {
      TokensCoverSource(src[n..], basis, n);
    } else {
      TokensCoverSource(src[1..], basis, n);
    }
  }

  lemma LeadOfTail(w: bytes, basis: bytes, n: nat)
    requires |w| < n
    ensures w != [] ==> Lead(Tokens(w, basis, n)) == if FindTile(basis, 0, n, w).Some? then |w| else 0
    ensures Lead(Tokens([], basis, n)) == 0
  {
    hide FindTile;
  }

  lemma MatchLeads(w: bytes, basis: bytes, n: nat)
    requires 0 < n <= |w| && FindTile(basis, 0, n, w[..n]).Some?
    ensures Lead(Tokens(w, basis, n)) == n + Lead(Tokens(w[n..], basis, n))
  {
    hide FindTile;
  }

  lemma AlignedStep(off: nat, n: nat)
    requires 0 < n && Aligned(off, n)
    ensures Aligned(off + n, n)
    ensures 0 < off ==> n <= off && Aligned(off - n, n)
  {
  }

  /** An aligned block that the source shares with the basis extends the lead. */
  lemma SharedTileLeads(src: bytes, basis: bytes, n: nat, at: nat, upto: nat)
    requires 0 < n && at + n <= upto && upto <= |src| && upto <= |basis| && src[..upto] == basis[..upto] && Aligned(at, n)
    ensures Lead(Tokens(src[at..], basis, n)) == n + Lead(Tokens(src[at + n..], basis, n))
  {
    hide Lead, Tokens, FindTile, Aligned;
    var w := src[at..];
    assert src[..upto][at..at + n] == src[at..at + n] && basis[..upto][at..at + n] == basis[at..at + n];
    assert w[..n] == src[at..at + n] && w[n..] == src[at + n..];
    assert Tile(basis, at, n) == basis[at..at + n];
    FindTileComplete(basis, 0, n, at);
    MatchLeads(w, basis, n);
  }

  /** As long as source and basis agree up to a block boundary, every block is matched. */
  lemma {:induction false} SharedPrefixMatches(src: bytes, basis: bytes, n: nat, at: nat, upto: nat)
    requires 0 < n && at <= upto <= |src| && upto <= |basis| && src[..upto] == basis[..upto]
    requires Aligned(at, n) && Aligned(upto - at, n)
    ensures Lead(Tokens(src[at..], basis, n)) >= upto - at
    decreases upto - at
  {
    hide Lead, Tokens, FindTile, Aligned;
    if at < upto {
      AlignedStep(at, n);
      AlignedStep(upto - at, n);
      SharedTileLeads(src, basis, n, at, upto);
      SharedPrefixMatches(src, basis, n, at + n, upto);
    }
  }

  /** Diffing a file against itself finds every block, the short last one included. */
  lemma {:induction false} SelfDiffMatches(basis: bytes, n: nat, at: nat)
    requires 0 < n && at <= |basis| && Aligned(at, n)
    ensures Lead(Tokens(basis[at..], basis, n)) == |basis| - at
    decreases |basis| - at
  {
    hide Lead, Tokens, FindTile, Aligned;
    if at + n <= |basis| {
      AlignedStep(at, n);
      SharedTileLeads(basis, basis, n, at, |basis|);
      SelfDiffMatches(basis, n, at + n);
    } else {
      LeadOfTail(basis[at..], basis, n);
      if at < |basis| {
        FindTileComplete(basis, 0, n, at);
        assert Tile(basis, at, n) == basis[at..];
      } else {
        assert basis[at..] == [];
      }
    }
  }

  /** Nothing has to be sent literally when the file has not changed. */
  lemma SelfDiffHasNoLiterals(basis: bytes, n: nat)
    requires 0 < n
    ensures LiteralTotal(ReferenceDiff(basis, basis, n)) == 0
    ensures CopyTotal(ReferenceDiff(basis, basis, n)) == |basis|
  {
    assert basis[0..] == basis;
    SelfDiffMatches(basis, n, 0);
    LeadIsMatched(Tokens(basis, basis, n));
    TokensCoverSource(basis, basis, n);
    RenderTotals([], [], Tokens(basis, basis, n));
  }

  /** Whatever is appended or changed after a block-aligned common prefix, the prefix is copied. */
  lemma CommonPrefixIsCopied(src: bytes, basis: bytes, n: nat, upto: nat)
    requires 0 < n && upto <= |src| && upto <= |basis| && src[..upto] == basis[..upto] && Aligned(upto, n)
    ensures CopyTotal(ReferenceDiff(src, basis, n)) >= upto
    ensures LiteralTotal(ReferenceDiff(src, basis, n)) <= |src| - upto
  {
    assert src[0..] == src;
    SharedPrefixMatches(src, basis, n, 0, upto);
    LeadIsMatched(Tokens(src, basis, n));
    TokensCoverSource(src, basis, n);
    RenderTotals([], [], Tokens(src, basis, n));
  }

  // ---- A file of different blocks ----

  /** No two blocks of the basis are equal. */
  ghost predicate DifferentBlocks(basis: bytes, n: nat)
    requires 0 < n
  {
    forall i, j :: 0 <= i < j < |basis| && Aligned(i, n) && Aligned(j, n) ==> Tile(basis, i, n) != Tile(basis, j, n)
  }

  lemma {:induction false} FoundIsAligned(basis: bytes, off: nat, n: nat, w: bytes)
    requires 0 < n && Aligned(off, n)
    ensures FindTile(basis, off, n, w).Some? ==> Aligned(FindTile(basis, off, n, w).value, n)
    decreases |basis| - off
  {
    if off < |basis| && Tile(basis, off, n) != w {
      AlignedStep(off, n);
      FoundIsAligned(basis, off + n, n, w);
    }
  }

  /** In such a file every block is found where it is. */
  lemma BlockIsFoundInPlace(basis: bytes, n: nat, at: nat)
    requires 0 < n && at < |basis| && Aligned(at, n) && DifferentBlocks(basis, n)
    ensures FindTile(basis, 0, n, Tile(basis, at, n)) == Some(at)
  {
    hide Tile;
    FindTileComplete(basis, 0, n, at);
    FoundIsAligned(basis, 0, n, Tile(basis, at, n));
  }

  /** A copy of everything up to at, and one of everything from there on. */
  ghost function InOrder(at: nat, length: nat): seq<Op>
    requires at <= length
  {
    (if at > 0 then [OpCopy(0, at)] else []) + (if at < length then [OpCopy(at, length - at)] else [])
  }

  lemma PushInOrder(at: nat, n: nat)
    requires 0 < n && at + n <= 0x4000_0000
    ensures PushCopy(Flush(InOrder(at, at), []), at, n) == InOrder(at + n, at + n)
  {
    if at > 0 { assert [OpCopy(0, at)][..0] == []; }
  }
}
