/** The block signature of a basis file and its weak-checksum index. */
module Signatures {
  import opened Prelude
  import opened Adler32

  const DEFAULT_BLOCK_SIZE := 2048

  /** The first 16 bytes of a BLAKE3 hash, as one number. */
  datatype Digest = Digest(bits: int)

  /** The strong hash is a parameter of the model: any function from bytes to digests. */
  type StrongHash = bytes -> Digest

  datatype BlockSig = BlockSig(offset: nat, length: int, weak: int, strong: Digest)

  /** An input file: its bytes, and whether reading it ends in an I/O error instead of EOF. */
  datatype Reader = Reader(data: bytes, fails: bool)

  datatype ReadError = ReadFailed

  function EffectiveBlockSize(blockSize: int): nat {
    if blockSize <= 0 then DEFAULT_BLOCK_SIZE else blockSize
  }

  /** The block of the basis that starts at off: n bytes, fewer at the end of the file. */
  function Tile(basis: bytes, off: nat, n: nat): bytes
    requires off <= |basis|
  {
    basis[off..Min(off + n, |basis|)]
  }

  /** off is a multiple of n. */
  ghost predicate Aligned(off: nat, n: nat)
    requires 0 < n
  {
    if off < n then off == 0 else Aligned(off - n, n)
  }

  ghost function SigOf(basis: bytes, off: nat, n: nat, strong: StrongHash): BlockSig
    requires off <= |basis|
  {
    var t := Tile(basis, off, n);
    BlockSig(off, ToI32(|t|), Checksum(t), strong(t))
  }

  /** The signatures of all blocks from off to the end of the basis. */
  ghost function SigFrom(basis: bytes, off: nat, n: nat, strong: StrongHash): seq<BlockSig>
    requires 0 < n
    decreases |basis| - off
  {
    if off >= |basis| then [] else [SigOf(basis, off, n, strong)] + SigFrom(basis, off + n, n, strong)
  }

  /** One turn of the read loop moves one entry from what is to come to what is done. */
  lemma SigNext(done: seq<BlockSig>, basis: bytes, off: nat, n: nat, strong: StrongHash)
    requires 0 < n && off < |basis|
    ensures done + [SigOf(basis, off, n, strong)] + SigFrom(basis, off + Min(n, |basis| - off), n, strong)
            == done + SigFrom(basis, off, n, strong)
  {
    hide SigOf;
    var head, tail := [SigOf(basis, off, n, strong)], SigFrom(basis, off + n, n, strong);
    assert SigFrom(basis, off + Min(n, |basis| - off), n, strong) == tail;
    assert SigFrom(basis, off, n, strong) == head + tail;
    Associates(done, head, tail);
  }

  lemma Associates(a: seq<BlockSig>, b: seq<BlockSig>, c: seq<BlockSig>)
    ensures (a + b) + c == a + (b + c)
  {
  }

  /** Entry k describes one non-empty, aligned block of the basis. */
  lemma {:induction false} SigEntry(basis: bytes, off: nat, n: nat, strong: StrongHash, k: nat)
    requires 0 < n && Aligned(off, n) && k < |SigFrom(basis, off, n, strong)|
    ensures var b := SigFrom(basis, off, n, strong)[k];
            b.offset < |basis| && Aligned(b.offset, n) && b == SigOf(basis, b.offset, n, strong)
    decreases |basis| - off
  {
    hide Checksum;
    if k > 0 { SigEntry(basis, off + n, n, strong, k - 1); }
  }

  predicate Hits(b: BlockSig, weak: int, strong: Digest, length: Option<nat>) {
    b.weak == weak && b.strong == strong && (length.Some? ==> b.length == length.value)
  }

  /** The first block with the wanted checksums (and length, when one is asked for). */
  function FirstHit(blocks: seq<BlockSig>, weak: int, strong: Digest, length: Option<nat>): Option<BlockSig> {
    if blocks == [] then None
    else if Hits(blocks[0], weak, strong, length) then Some(blocks[0])
    else FirstHit(blocks[1..], weak, strong, length)
  }

  lemma {:induction false} FirstHitIs(blocks: seq<BlockSig>, weak: int, strong: Digest, length: Option<nat>, k: nat)
    requires k <= |blocks|
    requires forall j :: 0 <= j < k ==> !Hits(blocks[j], weak, strong, length)
    requires k < |blocks| ==> Hits(blocks[k], weak, strong, length)
    ensures FirstHit(blocks, weak, strong, length) == if k < |blocks| then Some(blocks[k]) else None
  {
    if k > 0 { FirstHitIs(blocks[1..], weak, strong, length, k - 1); }
  }

  /** Positions below upto of the blocks with a given weak checksum, in ascending order. */
  ghost function Positions(blocks: seq<BlockSig>, weak: int, upto: nat): seq<nat>
    requires upto <= |blocks|
  {
    if upto == 0 then []
    else Positions(blocks, weak, upto - 1) + if blocks[upto - 1].weak == weak then [upto - 1] else []
  }

  lemma {:induction false} PositionsAscend(blocks: seq<BlockSig>, weak: int, upto: nat)
    requires upto <= |blocks|
    ensures var ps := Positions(blocks, weak, upto);
            && (forall x :: 0 <= x < |ps| ==> ps[x] < upto && blocks[ps[x]].weak == weak)
            && (forall x, y :: 0 <= x < y < |ps| ==> ps[x] < ps[y])
            && (forall k :: 0 <= k < upto && blocks[k].weak == weak ==> k in ps)
  {
    if upto > 0 {
      PositionsAscend(blocks, weak, upto - 1);
      var init, ps := Positions(blocks, weak, upto - 1), Positions(blocks, weak, upto);
      forall k | 0 <= k < upto && blocks[k].weak == weak
        ensures k in ps
      {
        if k < upto - 1 { assert k in init; } else { assert ps[|ps| - 1] == k; }
      }
    }
  }

  /** index lists, for every weak checksum, the positions below upto that carry it, and no empty list. */
  ghost predicate Lists(index: map<int, seq<nat>>, blocks: seq<BlockSig>, upto: nat)
    requires upto <= |blocks|
  {
    forall w: int :: Positions(blocks, w, upto) == (if w in index then index[w] else [])
                        && (w in index ==> index[w] != [])
  }

  lemma ListsEmpty(blocks: seq<BlockSig>)
    ensures Lists(map[], blocks, 0)
  {
  }

  lemma ListsNext(index: map<int, seq<nat>>, blocks: seq<BlockSig>, i: nat)
    requires i < |blocks| && Lists(index, blocks, i)
    ensures var w := blocks[i].weak;
            Lists(index[w := (if w in index then index[w] else []) + [i]], blocks, i + 1)
  {
    var w := blocks[i].weak;
    var next := index[w := (if w in index then index[w] else []) + [i]];
    forall v: int
      ensures Positions(blocks, v, i + 1) == (if v in next then next[v] else []) && (v in next ==> next[v] != [])
    {
      assert Positions(blocks, v, i) == (if v in index then index[v] else []);
    }
  }

  class Signature {
    var blockSize: int
    var blocks: seq<BlockSig>
    var index: map<int, seq<nat>>

    constructor (blockSize: int)
      ensures this.blockSize == blockSize && blocks == []
    {
      this.blockSize := blockSize;
      blocks, index := [], map[];
    }

    ghost predicate Indexed()
      reads this
    {
      Lists(index, blocks, |blocks|)
    }

    /** The signature describes this basis, and its index is built. */
    ghost predicate Describes(basis: bytes, strong: StrongHash)
      reads this
    {
      blocks == SigFrom(basis, 0, EffectiveBlockSize(blockSize), strong) && Indexed()
    }

    method BuildIndex()
      modifies this`index
      ensures Indexed()
    {
      hide Positions;
      ListsEmpty(blocks);
      index := map[];
      for i := 0 to |blocks|
        invariant Lists(index, blocks, i)
      {
        var w := blocks[i].weak;
        ListsNext(index, blocks, i);
        index := index[w := (if w in index then index[w] else []) + [i]];
      }
    }

    /** The loop over index[weak]: the first listed block with the strong hash (and length) asked for. */
    method Search(weak: int, strong: Digest, length: Option<nat>) returns (r: Option<BlockSig>)
      requires Indexed()
      ensures r == FirstHit(blocks, weak, strong, length)
      ensures r.Some? ==>
                && r.value in blocks && r.value.weak == weak && r.value.strong == strong
                && (length.Some? ==> r.value.length == length.value)
      ensures r.None? ==>
                forall k :: 0 <= k < |blocks| && blocks[k].weak == weak && blocks[k].strong == strong ==>
                  length.Some? && blocks[k].length != length.value
    {
      var candidates := if weak in index then index[weak] else [];
      PositionsAscend(blocks, weak, |blocks|);
      assert candidates == Positions(blocks, weak, |blocks|);
      for x := 0 to |candidates|
        invariant forall y :: 0 <= y < x ==> !Hits(blocks[candidates[y]], weak, strong, length)
      {
        var b := blocks[candidates[x]];
        if b.strong == strong && (length.None? || b.length == length.value) {
          FirstHitIs(blocks, weak, strong, length, candidates[x]);
          return Some(b);
        }
      }
      FirstHitIs(blocks, weak, strong, length, |blocks|);
      return None;
    }

    /** Does any block have this weak checksum? */
    method HasWeak(weak: int) returns (r: bool)
      requires Indexed()
      ensures r <==> exists k :: 0 <= k < |blocks| && blocks[k].weak == weak
    {
      PositionsAscend(blocks, weak, |blocks|);
      r := weak in index;
      assert Positions(blocks, weak, |blocks|) == if r then index[weak] else [];
      if r { assert blocks[index[weak][0]].weak == weak; }
    }
  }

  method SignBlock(basis: bytes, off: nat, n: nat, strong: StrongHash) returns (b: BlockSig)
    requires off <= |basis|
    ensures b == SigOf(basis, off, n, strong)
  {
    hide Checksum;
    var block := Tile(basis, off, n);
    var weak := Adler32Block(block);
    b := BlockSig(off, ToI32(|block|), weak, strong(block));
  }

  /** The read loop: one entry per block, until a read comes back short. */
  method ReadBlocks(r: Reader, n: nat, strong: StrongHash) returns (blocks: seq<BlockSig>, failed: bool)
    requires 0 < n
    ensures blocks == SigFrom(r.data, 0, n, strong)
    ensures failed <==> r.fails
  {
    hide SigOf;
    blocks := [];
    var offset: nat := 0;
    ghost var all := SigFrom(r.data, 0, n, strong);
    while true
      invariant blocks + SigFrom(r.data, offset, n, strong) == all
      decreases |r.data| - offset
    {
      // io.ReadFull: n bytes, or what is left of them together with EOF or a read error
      var got := if offset < |r.data| then Min(n, |r.data| - offset) else 0;
      if got > 0 {
        var b := SignBlock(r.data, offset, n, strong);
        SigNext(blocks, r.data, offset, n, strong);
        blocks, offset := blocks + [b], offset + got;
      }
      if got < n {
        assert SigFrom(r.data, offset, n, strong) == [];
        failed := r.fails;
        break;
      }
    }
  }

  /** Reads the basis block by block and returns its signature. */
  method ComputeSignature(r: Reader, blockSize: int, strong: StrongHash) returns (res: Result<Signature, ReadError>)
    ensures res.Err? <==> r.fails
    ensures res.Ok? ==>
              && fresh(res.value)
              && res.value.blockSize == EffectiveBlockSize(blockSize) == (if blockSize <= 0 then 2048 else blockSize)
              && res.value.Describes(r.data, strong)
  {
    var n := EffectiveBlockSize(blockSize);
    var sig := new Signature(n);
    var blocks, failed := ReadBlocks(r, n, strong);
    if failed { return Err(ReadFailed); }
    sig.blocks := blocks;
    sig.BuildIndex();
    return Ok(sig);
  }
}
