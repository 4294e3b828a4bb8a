/** The quarantine of one destination: database rows and the files they name must agree. */
module Quarantines {
  import opened Prelude
  import opened Disks
  import opened Worlds

  /** <root>/.tidemarq-quarantine/<path>/<stamp>; the scan never enters this folder. */
  datatype HeldPath = HeldPath(path: Path, stamp: int)

  datatype RowStatus = Active | Restored | Deleted

  datatype Row = Row(held: HeldPath, hash: Hash, expires: int, status: RowStatus)

  datatype QuarantineError = NoSuchEntry | Expired | FileGone

  /**
   * Rows and files agree: every active row has its file, with the content it was created from, and
   * every file in the folder has its active row. Rows never share a file.
   */
  ghost predicate Agree(rows: map<nat, Row>, held: map<HeldPath, File>, original: map<nat, bytes>, hash: bytes -> Hash,
                        nextId: nat, clock: int)
  {
    && (forall id :: id in rows ==> id < nextId && id in original && rows[id].held.stamp <= clock)
    && (forall id :: id in rows && rows[id].status.Active? ==>
          && rows[id].held in held
          && held[rows[id].held].data == original[id]
          && rows[id].hash == hash(original[id]))
    && (forall i, j :: i in rows && j in rows && i != j ==> rows[i].held != rows[j].held)
    && (forall h :: h in held ==> HasOwner(rows, h))
  }

  ghost predicate HasOwner(rows: map<nat, Row>, h: HeldPath) {
    exists id :: id in rows && rows[id].status.Active? && rows[id].held == h
  }

  lemma AgreeLater(rows: map<nat, Row>, held: map<HeldPath, File>, original: map<nat, bytes>, hash: bytes -> Hash,
                   nextId: nat, clock: int, now: int)
    requires Agree(rows, held, original, hash, nextId, clock) && clock <= now
    ensures Agree(rows, held, original, hash, nextId, now)
  {
  }

  /** A new file under a new stamp, with its row. */
  lemma AgreeAdd(rows: map<nat, Row>, held: map<HeldPath, File>, original: map<nat, bytes>, hash: bytes -> Hash,
                 nextId: nat, clock: int, p: Path, now: int, f: File, expires: int)
    requires Agree(rows, held, original, hash, nextId, clock) && clock < now
    ensures nextId !in rows
    ensures Agree(rows[nextId := Row(HeldPath(p, now), hash(f.data), expires, Active)], held[HeldPath(p, now) := f],
                  original[nextId := f.data], hash, nextId + 1, now)
  {
    var h := HeldPath(p, now);
    var rows', held' := rows[nextId := Row(h, hash(f.data), expires, Active)], held[h := f];
    assert h !in held;
    forall g | g in held'
      ensures HasOwner(rows', g)
    {
      if g == h {
        assert rows'[nextId].held == h;
      } else {
        var i :| i in rows && rows[i].status.Active? && rows[i].held == g;
        assert rows'[i] == rows[i];
      }
    }
  }

  /** Closing a row and taking its file away. */
  lemma AgreeClose(rows: map<nat, Row>, held: map<HeldPath, File>, original: map<nat, bytes>, hash: bytes -> Hash,
                   nextId: nat, clock: int, id: nat, status: RowStatus)
    requires Agree(rows, held, original, hash, nextId, clock) && id in rows && !status.Active?
    ensures Agree(rows[id := rows[id].(status := status)], held - {rows[id].held}, original, hash, nextId, clock)
  {
    var rows', held' := rows[id := rows[id].(status := status)], held - {rows[id].held};
    forall g | g in held'
      ensures HasOwner(rows', g)
    {
      var i :| i in rows && rows[i].status.Active? && rows[i].held == g;
      assert rows'[i] == rows[i];
    }
  }

  /** Dropping rows together with the files of those that were active. */
  lemma AgreeDrop(rows: map<nat, Row>, held: map<HeldPath, File>, original: map<nat, bytes>, hash: bytes -> Hash,
                  nextId: nat, clock: int, doomed: set<nat>, files: set<HeldPath>)
    requires Agree(rows, held, original, hash, nextId, clock)
    requires forall h :: h in files <==> exists id :: id in doomed && id in rows && rows[id].status.Active? && rows[id].held == h
    ensures Agree(rows - doomed, held - files, original, hash, nextId, clock)
  {
    var rows', held' := rows - doomed, held - files;
    forall id | id in rows' && rows'[id].status.Active?
      ensures rows'[id].held !in files
    {
    }
    forall g | g in held'
      ensures HasOwner(rows', g)
    {
      var i :| i in rows && rows[i].status.Active? && rows[i].held == g;
      assert i !in doomed;
      assert i in rows' && rows'[i] == rows[i];
    }
  }

  /** An active row is exactly one whose file is in the folder. */
  lemma ActiveIffHeld(rows: map<nat, Row>, held: map<HeldPath, File>, original: map<nat, bytes>, hash: bytes -> Hash,
                      nextId: nat, clock: int, id: nat)
    requires Agree(rows, held, original, hash, nextId, clock) && id in rows
    ensures rows[id].status.Active? <==> rows[id].held in held
    ensures id in original && (rows[id].status.Active? ==> held[rows[id].held].data == original[id])
  {
  }

  class Vault {
    const disk: Disk
    const hash: bytes -> Hash
    /** The files inside the quarantine folder. */
    var held: map<HeldPath, File>
    var rows: map<nat, Row>
    var nextId: nat
    /** The latest time stamp used; the next one is greater. */
    var clock: int
    /** What each entry was created from. */
    ghost var original: map<nat, bytes>

    constructor (disk: Disk, hash: bytes -> Hash, clock: int)
      ensures Valid() && this.disk == disk && this.hash == hash && this.clock == clock
      ensures rows == map[] && held == map[]
    {
      this.disk, this.hash, this.clock := disk, hash, clock;
      held, rows, nextId, original := map[], map[], 0, map[];
    }

    ghost predicate Valid()
      reads this
    {
      Agree(rows, held, original, hash, nextId, clock)
    }

    /** Moves a file into the folder and records it; nothing happens if it is gone already. */
    method Quarantine(p: Path, now: int, retention: nat) returns (id: Option<nat>)
      requires Valid() && clock < now
      modifies this, disk
      ensures Valid() && clock == now
      ensures id == if p in old(disk.files) then Some(old(nextId)) else None
      ensures id.None? ==>
                && rows == old(rows) && held == old(held) && original == old(original) && nextId == old(nextId)
                && disk.files == old(disk.files)
      ensures id.Some? ==>
                && id.value !in old(rows) && nextId == old(nextId) + 1
                && disk.files == old(disk.files) - {p}
                && rows == old(rows)[id.value := Row(HeldPath(p, now), hash(old(disk.files)[p].data), now + retention, Active)]
                && original == old(original)[id.value := old(disk.files)[p].data]
                && held == old(held)[HeldPath(p, now) := old(disk.files)[p]]
    {
      hide Agree;
      if p !in disk.files {
        AgreeLater(rows, held, original, hash, nextId, clock, now);
        clock := now;
        return None;
      }
      var f := disk.files[p];
      AgreeAdd(rows, held, original, hash, nextId, clock, p, now, f, now + retention);
      disk.Remove(p);
      held := held[HeldPath(p, now) := f];
      rows := rows[nextId := Row(HeldPath(p, now), hash(f.data), now + retention, Active)];
      original := original[nextId := f.data];
      clock, id, nextId := now, Some(nextId), nextId + 1;
    }

    /** Puts a quarantined file back where it came from, over whatever is there now. */
    method Restore(id: nat, now: int) returns (r: Option<QuarantineError>)
      requires Valid() && clock < now
      modifies this, disk
      ensures Valid() && clock == now && nextId == old(nextId) && original == old(original)
      ensures r == if id !in old(rows) then Some(NoSuchEntry)
                   else if now > old(rows)[id].expires then Some(Expired)
                   else if !old(rows)[id].status.Active? then Some(FileGone) else None
      ensures r.None? ==>
                && rows == old(rows)[id := old(rows)[id].(status := Restored)] && held == old(held) - {old(rows)[id].held}
                && id in original && old(rows)[id].held in old(held)
                && old(held)[old(rows)[id].held].data == original[id]
                && disk.files == old(disk.files)[old(rows)[id].held.path := old(held)[old(rows)[id].held]]
      ensures r.Some? ==> rows == old(rows) && held == old(held) && disk.files == old(disk.files)
    {
      hide Agree;
      AgreeLater(rows, held, original, hash, nextId, clock, now);
      clock := now;
      if id !in rows { return Some(NoSuchEntry); }
      var row := rows[id];
      if now > row.expires { return Some(Expired); }
      ActiveIffHeld(rows, held, original, hash, nextId, clock, id);
      if row.held !in held { return Some(FileGone); }
      AgreeClose(rows, held, original, hash, nextId, clock, id, Restored);
      disk.Write(row.held.path, held[row.held]);
      held := held - {row.held};
      rows := rows[id := row.(status := Restored)];
      return None;
    }

    /** Destroys a quarantined file for good; a file that is gone already is not an error. */
    method Delete(id: nat, now: int) returns (r: Option<QuarantineError>)
      requires Valid() && clock < now
      modifies this
      ensures Valid() && clock == now && nextId == old(nextId) && original == old(original)
      ensures r == if id !in old(rows) then Some(NoSuchEntry) else None
      ensures r.None? ==>
                rows == old(rows)[id := old(rows)[id].(status := Deleted)] && held == old(held) - {old(rows)[id].held}
      ensures r.Some? ==> rows == old(rows) && held == old(held)
    {
      hide Agree;
      AgreeLater(rows, held, original, hash, nextId, clock, now);
      clock := now;
      if id !in rows { return Some(NoSuchEntry); }
      AgreeClose(rows, held, original, hash, nextId, clock, id, Deleted);
      held := held - {rows[id].held};
      rows := rows[id := rows[id].(status := Deleted)];
      return None;
    }

    /** Drops the active entries whose time is up, rows first, then their files one by one. */
    method Expire(now: int)
      requires Valid() && clock < now
      modifies this
      ensures Valid() && clock == now && nextId == old(nextId) && original == old(original)
      ensures rows == old(rows) - ExpiredIds(old(rows), now)
      ensures forall id :: id in rows <==>
                id in old(rows) && !(old(rows)[id].status.Active? && old(rows)[id].expires <= now)
      ensures forall id :: id in rows ==> rows[id] == old(rows)[id]
      ensures held == old(held) - FilesOf(old(rows), ExpiredIds(old(rows), now))
    {
      hide Agree;
      AgreeLater(rows, held, original, hash, nextId, clock, now);
      clock := now;
      var doomed := ExpiredIds(rows, now);
      var paths := FilesOf(rows, doomed);
      AgreeDrop(rows, held, original, hash, nextId, clock, doomed, paths);
      ghost var held0, all := held, paths;
      rows := rows - doomed;
      while paths != {}
        invariant paths <= all && held == held0 - (all - paths)
        invariant rows == old(rows) - doomed && clock == now && nextId == old(nextId) && original == old(original)
        decreases paths
      {
        var h :| h in paths;
        held := held - {h};
        paths := paths - {h};
        assert held0 - (all - paths) == held0 - (all - (paths + {h})) - {h};
      }
      assert held == held0 - all;
    }

    /** Forgets the entries that are no longer active. */
    method ClearRemoved()
      requires Valid()
      modifies this`rows
      ensures Valid()
      ensures rows == map id | id in old(rows) && old(rows)[id].status.Active? :: old(rows)[id]
    {
      hide Agree;
      var closed := set id | id in rows && !rows[id].status.Active?;
      AgreeDrop(rows, held, original, hash, nextId, clock, closed, {});
      assert held - {} == held;
      assert rows - closed == map id | id in rows && rows[id].status.Active? :: rows[id];
      rows := rows - closed;
    }
  }

  function ExpiredIds(rows: map<nat, Row>, now: int): set<nat> {
    set id | id in rows && rows[id].status.Active? && rows[id].expires <= now
  }

  function FilesOf(rows: map<nat, Row>, ids: set<nat>): set<HeldPath> {
    set id | id in ids && id in rows && rows[id].status.Active? :: rows[id].held
  }

  datatype VaultOp =
    | DoQuarantine(path: Path, retention: nat)
    | DoRestore(id: nat)
    | DoDelete(id: nat)
    | DoExpire
    | DoClear

  /** Entries keep their file and never come back to life; what they were created from is never forgotten. */
  ghost predicate Descends(rows0: map<nat, Row>, original0: map<nat, bytes>, nextId0: nat,
                           rows: map<nat, Row>, original: map<nat, bytes>, nextId: nat)
  {
    && nextId0 <= nextId
    && (forall id :: id in original0 ==> id in original && (id < nextId0 ==> original[id] == original0[id]))
    && (forall id :: id in rows && id < nextId0 ==>
          id in rows0 && rows[id].held == rows0[id].held && (rows[id].status.Active? ==> rows0[id].status.Active?))
  }

  /** Whether an operation takes an active entry that expires at a given time out of the folder. */
  predicate Ends(op: VaultOp, now: int, id: nat, expires: int) {
    match op
    case DoQuarantine(_, _) => false
    case DoRestore(i) => i == id && now <= expires
    case DoDelete(i) => i == id
    case DoExpire => expires <= now
    case DoClear => false
  }

  /** Every entry that was active still is, unchanged, unless the operation ends it. */
  ghost predicate LivesOn(rows0: map<nat, Row>, rows: map<nat, Row>, op: VaultOp, now: int) {
    forall id :: id in rows0 && rows0[id].status.Active? ==>
      if Ends(op, now, id, rows0[id].expires) then !(id in rows && rows[id].status.Active?)
      else id in rows && rows[id] == rows0[id]
  }

  /** The time stamp in force before operation k. */
  function TimeBefore(clock: int, ops: seq<(VaultOp, int)>, k: nat): int
    requires k <= |ops|
  {
    if k == 0 then clock else ops[k - 1].1
  }

  /** One operation. */
  method RunOp(v: Vault, op: VaultOp, now: int)
    requires v.Valid() && v.clock < now
    modifies v, v.disk
    ensures v.Valid() && v.clock <= now
    ensures Descends(old(v.rows), old(v.original), old(v.nextId), v.rows, v.original, v.nextId)
    ensures LivesOn(old(v.rows), v.rows, op, now)
  {
    hide Agree;
    match op
    case DoQuarantine(p, retention) => var _ := v.Quarantine(p, now, retention);
    case DoRestore(id) => var _ := v.Restore(id, now);
    case DoDelete(id) => var _ := v.Delete(id, now);
    case DoExpire => v.Expire(now);
    case DoClear => v.ClearRemoved();
  }

  /** Some of the operations ends the entry. */
  ghost predicate SomeEnds(ops: seq<(VaultOp, int)>, id: nat, expires: int) {
    exists k :: 0 <= k < |ops| && Ends(ops[k].0, ops[k].1, id, expires)
  }

  /** Every entry that was active still is, unchanged, unless one of the operations ended it. */
  ghost predicate Survives(rows0: map<nat, Row>, rows: map<nat, Row>, nextId0: nat, ops: seq<(VaultOp, int)>) {
    forall id :: id in rows0 && id < nextId0 && rows0[id].status.Active? ==>
      if SomeEnds(ops, id, rows0[id].expires) then !(id in rows && rows[id].status.Active?)
      else id in rows && rows[id] == rows0[id]
  }

  lemma SurvivesNext(rows0: map<nat, Row>, rows: map<nat, Row>, rows': map<nat, Row>, nextId0: nat, original: map<nat, bytes>,
                     nextId: nat, original': map<nat, bytes>, nextId': nat, ops: seq<(VaultOp, int)>, k: nat)
    requires k < |ops| && Survives(rows0, rows, nextId0, ops[..k]) && LivesOn(rows, rows', ops[k].0, ops[k].1)
    requires Descends(rows, original, nextId, rows', original', nextId') && nextId0 <= nextId
    ensures Survives(rows0, rows', nextId0, ops[..k + 1])
  {
    hide Ends;
    forall id | id in rows0 && id < nextId0 && rows0[id].status.Active?
      ensures SomeEnds(ops[..k + 1], id, rows0[id].expires)
              <==> SomeEnds(ops[..k], id, rows0[id].expires) || Ends(ops[k].0, ops[k].1, id, rows0[id].expires)
    {
      EndsNext(ops, k, id, rows0[id].expires);
    }
  }

  lemma EndsNext(ops: seq<(VaultOp, int)>, k: nat, id: nat, expires: int)
    requires k < |ops|
    ensures SomeEnds(ops[..k + 1], id, expires)
            <==> SomeEnds(ops[..k], id, expires) || Ends(ops[k].0, ops[k].1, id, expires)
  {
    hide Ends;
    if SomeEnds(ops[..k], id, expires) {
      var j :| 0 <= j < k && Ends(ops[..k][j].0, ops[..k][j].1, id, expires);
      assert ops[..k + 1][j] == ops[..k][j];
    }
    if Ends(ops[k].0, ops[k].1, id, expires) { assert ops[..k + 1][k] == ops[k]; }
    if SomeEnds(ops[..k + 1], id, expires) {
      var j :| 0 <= j < k + 1 && Ends(ops[..k + 1][j].0, ops[..k + 1][j].1, id, expires);
      if j < k { assert ops[..k][j] == ops[..k + 1][j]; }
    }
  }

  /**
   * Any sequence of operations at strictly increasing times keeps rows and files in agreement. An entry that
   * was active is still active at the end if and only if no operation ended it, and is then backed by the
   * very content it was created from.
   */
  method RunOps(v: Vault, ops: seq<(VaultOp, int)>)
    requires v.Valid()
    requires forall k :: 0 <= k < |ops| ==> TimeBefore(v.clock, ops, k) < ops[k].1
    modifies v, v.disk
    ensures v.Valid() && v.clock <= TimeBefore(old(v.clock), ops, |ops|)
    ensures old(v.nextId) <= v.nextId
    ensures Survives(old(v.rows), v.rows, old(v.nextId), ops)
    ensures forall id :: id in v.rows && v.rows[id].status.Active? && id < old(v.nextId) ==>
              && id in old(v.rows) && old(v.rows)[id].status.Active? && v.rows[id].held == old(v.rows)[id].held
              && v.rows[id].held in v.held && v.rows[id].held in old(v.held)
              && v.held[v.rows[id].held].data == old(v.held)[v.rows[id].held].data
  {
    hide Agree, LivesOn, Survives;
    ghost var rows0, original0, next0, held0, clock0 := v.rows, v.original, v.nextId, v.held, v.clock;
    SurvivesNothing(rows0, next0, ops);
    for k := 0 to |ops|
      invariant v.Valid() && v.clock <= TimeBefore(clock0, ops, k)
      invariant Descends(rows0, original0, next0, v.rows, v.original, v.nextId)
      invariant Survives(rows0, v.rows, next0, ops[..k])
    {
      assert TimeBefore(clock0, ops, k) < ops[k].1;
      ghost var rows, original, next := v.rows, v.original, v.nextId;
      RunOp(v, ops[k].0, ops[k].1);
      SurvivesNext(rows0, rows, v.rows, next0, original, next, v.original, v.nextId, ops, k);
    }
    assert ops[..|ops|] == ops;
    SameContent(rows0, held0, original0, next0, clock0, v.rows, v.held, v.original, v.nextId, v.clock, v.hash);
  }

  lemma SurvivesNothing(rows: map<nat, Row>, nextId: nat, ops: seq<(VaultOp, int)>)
    ensures Survives(rows, rows, nextId, ops[..0])
  {
  }

  lemma SameContent(rows0: map<nat, Row>, held0: map<HeldPath, File>, original0: map<nat, bytes>, next0: nat, clock0: int,
                    rows: map<nat, Row>, held: map<HeldPath, File>, original: map<nat, bytes>, next: nat, clock: int,
                    hash: bytes -> Hash)
    requires Agree(rows0, held0, original0, hash, next0, clock0) && Agree(rows, held, original, hash, next, clock)
    requires Descends(rows0, original0, next0, rows, original, next)
    ensures forall id :: id in rows && rows[id].status.Active? && id < next0 ==>
              && id in rows0 && rows0[id].status.Active? && rows[id].held == rows0[id].held
              && rows[id].held in held && rows[id].held in held0
              && held[rows[id].held].data == held0[rows[id].held].data
  {
  }

  /** Restores or deletes the entry by name. */
  predicate Names(op: VaultOp, id: nat) {
    op == DoRestore(id) || op == DoDelete(id)
  }

  lemma {:induction false} TimesAscend(clock: int, ops: seq<(VaultOp, int)>, i: nat)
    requires forall k :: 0 <= k < |ops| ==> TimeBefore(clock, ops, k) < ops[k].1
    requires i < |ops|
    ensures ops[i].1 <= TimeBefore(clock, ops, |ops|)
    decreases |ops| - i
  {
    if i + 1 < |ops| {
      assert TimeBefore(clock, ops, i + 1) < ops[i + 1].1;
      TimesAscend(clock, ops, i + 1);
    }
  }

  /** Before its time is up an entry is ended exactly by an operation that names it. */
  lemma EndsByName(clock: int, ops: seq<(VaultOp, int)>, id: nat, expires: int, end: int)
    requires forall k :: 0 <= k < |ops| ==> TimeBefore(clock, ops, k) < ops[k].1
    requires TimeBefore(clock, ops, |ops|) < end <= expires
    ensures SomeEnds(ops, id, expires) <==> exists k :: 0 <= k < |ops| && Names(ops[k].0, id)
  {
    forall k | 0 <= k < |ops|
      ensures Ends(ops[k].0, ops[k].1, id, expires) <==> Names(ops[k].0, id)
    {
      TimesAscend(clock, ops, k);
    }
  }

  /**
   * A file is quarantined, any operations follow, and the entry is restored. The restore succeeds if and
   * only if its time is not up and no operation has restored or deleted that entry, and then the file
   * comes back with the content it had, whatever was done to its path in between.
   */
  method QuarantineThenRestore(v: Vault, p: Path, start: int, retention: nat, ops: seq<(VaultOp, int)>, end: int)
    returns (restored: bool)
    requires v.Valid() && v.clock < start && p in v.disk.files
    requires forall k :: 0 <= k < |ops| ==> TimeBefore(start, ops, k) < ops[k].1
    requires TimeBefore(start, ops, |ops|) < end
    modifies v, v.disk
    ensures v.Valid()
    ensures restored <==> end <= start + retention && forall k :: 0 <= k < |ops| ==> !Names(ops[k].0, old(v.nextId))
    ensures restored ==> p in v.disk.files && v.disk.files[p].data == old(v.disk.files)[p].data
  {
    hide Agree, Ends, SomeEnds, Names;
    ghost var f := v.disk.files[p];
    var id := v.Quarantine(p, start, retention);
    assert v.held[v.rows[id.value].held] == f;
    RunOps(v, ops);
    if end <= start + retention { EndsByName(start, ops, id.value, start + retention, end); }
    var r := v.Restore(id.value, end);
    restored := r.None?;
  }
}
