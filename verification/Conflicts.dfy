/** Detecting conflicts, choosing a winner, and the conflict table of one path. */
module Conflicts {
  import opened Prelude
  import opened Disks
  import opened Worlds

  /** (isConflict, srcChanged, destChanged) against the hash recorded at the last sync. */
  function Detect(cfg: Config, synced: Hash, src: Option<File>, dst: Option<File>): (r: (bool, bool, bool))
    ensures r.0 ==> r.1 && r.2
    ensures r.0 <==> src.Some? && dst.Some?
                     && cfg.hash(src.value.data) != synced && cfg.hash(dst.value.data) != synced
                     && cfg.hash(src.value.data) != cfg.hash(dst.value.data)
  {
    var srcChanged := src.Some? && cfg.hash(src.value.data) != synced;
    var dstChanged := dst.Some? && cfg.hash(dst.value.data) != synced;
    (srcChanged && dstChanged && cfg.hash(src.value.data) != cfg.hash(dst.value.data), srcChanged, dstChanged)
  }

  function Contents(src: Option<File>, dst: Option<File>): set<bytes> {
    (if src.Some? then {src.value.data} else {}) + (if dst.Some? then {dst.value.data} else {})
  }

  lemma PairCount(x: bytes, y: bytes)
    ensures |{x, y}| == if x == y then 1 else 2
  {
    if x != y { assert {x, y} - {x} == {y}; }
  }

  /**
   * What the three flags mean to a run that last synced base: a side is changed when it holds a content
   * of its own, and there is a conflict exactly when the two sides hold two new contents between them.
   * Without a conflict at most one new content exists, and changed sides that exist both hold it, so
   * copying it over can only replace base.
   */
  lemma DetectCountsNewContents(cfg: Config, base: bytes, src: Option<File>, dst: Option<File>)
    requires forall x: bytes, y: bytes :: cfg.hash(x) == cfg.hash(y) ==> x == y
    ensures var (isConflict, srcChanged, dstChanged) := Detect(cfg, cfg.hash(base), src, dst);
            var novel := Contents(src, dst) - {base};
            && (isConflict <==> |novel| == 2)
            && (!isConflict ==> |novel| <= 1)
            && (srcChanged <==> src.Some? && src.value.data in novel)
            && (dstChanged <==> dst.Some? && dst.value.data in novel)
            && (srcChanged || dstChanged <==> novel != {})
  {
    var novel := Contents(src, dst) - {base};
    var srcNew, dstNew := src.Some? && src.value.data != base, dst.Some? && dst.value.data != base;
    if srcNew && dstNew {
      assert novel == {src.value.data, dst.value.data};
      PairCount(src.value.data, dst.value.data);
    } else if srcNew {
      assert novel == {src.value.data};
    } else if dstNew {
      assert novel == {dst.value.data};
    } else {
      assert novel == {};
    }
  }

  /** The sides are treated alike, and a file that was just synced shows no change until one side is edited. */
  lemma DetectIsSymmetric(cfg: Config, synced: Hash, src: Option<File>, dst: Option<File>, f: File, g: File)
    requires forall x: bytes, y: bytes :: cfg.hash(x) == cfg.hash(y) ==> x == y
    ensures var (a, b) := (Detect(cfg, synced, src, dst), Detect(cfg, synced, dst, src));
            a.0 == b.0 && a.1 == b.2 && a.2 == b.1
    ensures g.data == f.data ==> Detect(cfg, cfg.hash(f.data), Some(f), Some(g)) == (false, false, false)
    ensures g.data != f.data ==>
              && Detect(cfg, cfg.hash(f.data), Some(g), Some(f)) == (false, true, false)
              && Detect(cfg, cfg.hash(f.data), Some(f), Some(g)) == (false, false, true)
  {
  }

  datatype Side = Source | Destination

  /** The side whose content survives, or None for a strategy nobody knows. */
  function AutoResolve(strategy: Strategy, src: File, dst: File): Option<Side> {
    match strategy
    case SourceWins => Some(Source)
    case DestinationWins => Some(Destination)
    case NewestWins => Some(if src.mtime > dst.mtime then Source else Destination)
    case LargestWins => Some(if |src.data| >= |dst.data| then Source else Destination)
    case AskUser => Some(Destination)
    case UnknownStrategy => None
  }

  function PendingIndex(rows: seq<ConflictRow>): Option<nat> {
    if rows == [] then None
    else if rows[0].status.Pending? then Some(0)
    else var rest := PendingIndex(rows[1..]); if rest.Some? then Some(rest.value + 1) else None
  }

  /** At most one conflict of a path waits for the user. */
  ghost predicate OnePending(rows: seq<ConflictRow>) {
    forall i, j :: 0 <= i < j < |rows| ==> !(rows[i].status.Pending? && rows[j].status.Pending?)
  }

  lemma {:induction false} PendingIndexFinds(rows: seq<ConflictRow>)
    ensures PendingIndex(rows).Some? ==>
              PendingIndex(rows).value < |rows| && rows[PendingIndex(rows).value].status.Pending?
    ensures PendingIndex(rows).None? <==> forall i :: 0 <= i < |rows| ==> !rows[i].status.Pending?
  {
    if rows != [] {
      PendingIndexFinds(rows[1..]);
      assert forall i :: 0 < i < |rows| ==> rows[i] == rows[1..][i - 1];
    }
  }

  /** Recording a conflict returns the pending row if there is one, and appends a new one otherwise. */
  function Recorded(rows: seq<ConflictRow>, srcHash: Hash, dstHash: Hash): seq<ConflictRow> {
    if PendingIndex(rows).Some? then rows else rows + [ConflictRow(srcHash, dstHash, Pending)]
  }

  /** Closing the pending row. */
  function Closed(rows: seq<ConflictRow>, status: ConflictStatus): (r: seq<ConflictRow>)
    ensures |r| == |rows|
  {
    PendingIndexFinds(rows);
    var k := PendingIndex(rows);
    if k.Some? then rows[k.value := rows[k.value].(status := status)] else rows
  }

  /** Recording keeps the table's promise, leaves exactly one row pending, and is idempotent. */
  lemma RecordKeepsOnePending(rows: seq<ConflictRow>, srcHash: Hash, dstHash: Hash, again: Hash)
    requires OnePending(rows)
    ensures OnePending(Recorded(rows, srcHash, dstHash))
    ensures PendingIndex(Recorded(rows, srcHash, dstHash)).Some?
    ensures Recorded(Recorded(rows, srcHash, dstHash), again, dstHash) == Recorded(rows, srcHash, dstHash)
  {
    PendingIndexFinds(rows);
    var next := Recorded(rows, srcHash, dstHash);
    PendingIndexFinds(next);
    assert next[|next| - 1].status.Pending? || next == rows;
  }

  /** Closing keeps the promise and leaves nothing pending. */
  lemma CloseLeavesNonePending(rows: seq<ConflictRow>, status: ConflictStatus)
    requires OnePending(rows) && !status.Pending?
    ensures OnePending(Closed(rows, status)) && PendingIndex(Closed(rows, status)).None?
  {
    PendingIndexFinds(rows);
    PendingIndexFinds(Closed(rows, status));
  }
}
