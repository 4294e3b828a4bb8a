/** The delta instruction stream and what it means. */
module DeltaOps {
  import opened Prelude

  /** OpOther stands for any type tag other than copy and literal. */
  datatype Op =
    | OpCopy(offset: int, length: int)
    | OpLiteral(data: bytes)
    | OpOther(tag: int)

  datatype DiffStats = DiffStats(copyBytes: int, literalBytes: int, opsTotal: int)

  /**
   * The bytes one op writes, or None when it fails. A seek fails only for a negative offset;
   * copying zero or fewer bytes writes nothing; copying past the end of the basis fails.
   */
  function OpBytes(op: Op, basis: bytes): Option<bytes> {
    match op
    case OpCopy(offset, length) =>
      if offset < 0 then None
      else if length <= 0 then Some([])
      else if offset + length <= |basis| then Some(basis[offset..offset + length])
      else None
    case OpLiteral(data) => Some(data)
    case OpOther(_) => None
  }

  /** What the whole stream writes when replayed against the basis. */
  function Replay(ops: seq<Op>, basis: bytes): Option<bytes> {
    if ops == [] then Some([])
    else
      var before := Replay(ops[..|ops| - 1], basis);
      var last := OpBytes(ops[|ops| - 1], basis);
      if before.Some? && last.Some? then Some(before.value + last.value) else None
  }

  lemma ReplayAppend(ops: seq<Op>, op: Op, basis: bytes)
    ensures Replay(ops + [op], basis)
            == if Replay(ops, basis).Some? && OpBytes(op, basis).Some?
               then Some(Replay(ops, basis).value + OpBytes(op, basis).value) else None
  {
    assert (ops + [op])[..|ops|] == ops;
  }

  /** A stream that replays has a replayable prefix at every point, and a failing prefix never recovers. */
  lemma {:induction false} ReplayPrefix(ops: seq<Op>, k: nat, basis: bytes)
    requires k <= |ops|
    ensures Replay(ops, basis).Some? ==> Replay(ops[..k], basis).Some?
  {
    if k < |ops| {
      ReplayPrefix(ops[..|ops| - 1], k, basis);
      assert ops[..|ops| - 1][..k] == ops[..k];
    } else {
      assert ops[..k] == ops;
    }
  }

  /** An op that cannot be carried out: of an unknown type, before the start of the basis, or beyond its end. */
  predicate Malformed(op: Op, basisLen: nat) {
    || op.OpOther?
    || (op.OpCopy? && (op.offset < 0 || (op.length > 0 && op.offset + op.length > basisLen)))
  }

  /** Replaying fails exactly on a malformed op, and otherwise writes the stretches and literals in turn. */
  lemma {:induction false} ReplayFailsIff(ops: seq<Op>, basis: bytes)
    ensures Replay(ops, basis).None? <==> exists k :: 0 <= k < |ops| && Malformed(ops[k], |basis|)
    ensures ops != [] && Replay(ops, basis).Some? ==>
              var before, last := Replay(ops[..|ops| - 1], basis), ops[|ops| - 1];
              && before.Some?
              && (last.OpLiteral? ==> Replay(ops, basis).value == before.value + last.data)
              && (last.OpCopy? && last.length <= 0 ==> Replay(ops, basis).value == before.value)
              && (last.OpCopy? && last.length > 0 ==>
                    last.offset >= 0 && last.offset + last.length <= |basis|
                    && Replay(ops, basis).value == before.value + basis[last.offset..last.offset + last.length])
  {
    if ops != [] {
      var init := ops[..|ops| - 1];
      ReplayFailsIff(init, basis);
      assert forall k :: 0 <= k < |init| ==> ops[k] == init[k];
      if Malformed(ops[|ops| - 1], |basis|) { assert Replay(ops, basis).None?; }
    }
  }

  ghost function CopyTotal(ops: seq<Op>): int {
    if ops == [] then 0
    else CopyTotal(ops[..|ops| - 1]) + match ops[|ops| - 1] { case OpCopy(_, l) => l case _ => 0 }
  }

  ghost function LiteralTotal(ops: seq<Op>): nat {
    if ops == [] then 0
    else LiteralTotal(ops[..|ops| - 1]) + match ops[|ops| - 1] { case OpLiteral(d) => |d| case _ => 0 }
  }

  lemma TotalsAppend(ops: seq<Op>, op: Op)
    ensures CopyTotal(ops + [op]) == CopyTotal(ops) + match op { case OpCopy(_, l) => l case _ => 0 }
    ensures LiteralTotal(ops + [op]) == LiteralTotal(ops) + match op { case OpLiteral(d) => |d| case _ => 0 }
  {
    assert (ops + [op])[..|ops|] == ops;
  }

  /** A copy that stays inside a basis of the given length and is no longer than limit, or a literal; never empty. */
  ghost predicate GoodOp(op: Op, basisLen: nat, limit: nat) {
    match op
    case OpCopy(offset, length) => 0 <= offset && 0 < length <= limit && offset + length <= basisLen
    case OpLiteral(data) => data != []
    case OpOther(_) => false
  }

  /** Every op is good, and no two literals are adjacent. */
  ghost predicate WellFormed(ops: seq<Op>, basisLen: nat, limit: nat) {
    && (forall k :: 0 <= k < |ops| ==> GoodOp(ops[k], basisLen, limit))
    && (forall k :: 0 < k < |ops| ==> ops[k].OpCopy? || ops[k - 1].OpCopy?)
  }

  /**
   * Full blocks of n bytes are merged wherever they can be: where a copy of one or more full blocks begins
   * just where the copy before it ends, one more block would have made that one longer than 2^30 bytes. Only
   * a copy of the short last block is exempt.
   */
  ghost predicate Coalesced(ops: seq<Op>, n: nat) {
    forall k :: 0 < k < |ops| && ops[k - 1].OpCopy? && ops[k].OpCopy?
                && ops[k - 1].offset + ops[k - 1].length == ops[k].offset && ops[k].length >= n
                ==> ops[k - 1].length + n > 0x4000_0000
  }

  /** A well-formed stream always replays, to as many bytes as its totals say. */
  lemma {:induction false} WellFormedReplays(ops: seq<Op>, basis: bytes, limit: nat)
    requires WellFormed(ops, |basis|, limit)
    ensures Replay(ops, basis).Some?
    ensures |Replay(ops, basis).value| == CopyTotal(ops) + LiteralTotal(ops)
  {
    if ops != [] { WellFormedReplays(ops[..|ops| - 1], basis, limit); }
  }

  /** The number of bytes the stream will produce. */
  method SizeBytes(ops: seq<Op>) returns (total: int)
    ensures total == CopyTotal(ops) + LiteralTotal(ops)
  {
    total := 0;
    for k := 0 to |ops|
      invariant total == CopyTotal(ops[..k]) + LiteralTotal(ops[..k])
    {
      TotalsAppend(ops[..k], ops[k]);
      assert ops[..k] + [ops[k]] == ops[..k + 1];
      match ops[k]
      case OpCopy(_, length) => total := total + length;
      case OpLiteral(data) => total := total + |data|;
      case OpOther(_) =>
    }
    assert ops[..|ops|] == ops;
  }
}
