/** Replaying an op stream against a basis file, through a temporary file that is swapped in at the end. */
module DeltaPatch {
  import opened Prelude
  import opened Disks
  import opened DeltaOps

  datatype ApplyError =
    | OpenBasisFailed
    | CreateTempFailed
    | OpFailed(at: nat)
    | SyncFailed
    | RemoveFailed
    | RenameFailed

  /** Which system calls fail in this call of Apply; a write may fail at any op. */
  datatype Faults = Faults(open: bool, create: bool, write: Option<nat>, sync: bool, remove: bool, rename: bool)

  const NO_FAULTS := Faults(false, false, None, false, false, false)

  /** Whether some op fails: it is malformed for this basis, or its write does. */
  ghost predicate OpsFail(ops: seq<Op>, basis: bytes, faults: Faults) {
    Replay(ops, basis).None? || (faults.write.Some? && faults.write.value < |ops|)
  }

  /** The op loop: appends to the temporary file only. */
  method RunOps(disk: Disk, basisPath: Path, tmp: Path, ops: seq<Op>, faults: Faults, now: int)
    returns (failed: Option<nat>)
    requires basisPath in disk.files && tmp in disk.files && tmp != basisPath && disk.files[tmp] == File([], now)
    modifies disk
    ensures tmp in disk.files && disk.files - {tmp} == old(disk.files) - {tmp}
    ensures failed.Some? <==> OpsFail(ops, old(disk.files[basisPath].data), faults)
    ensures failed.None? ==> Replay(ops, old(disk.files[basisPath].data)) == Some(disk.files[tmp].data)
    ensures disk.files[tmp].mtime == now
  {
    ghost var basis := disk.files[basisPath].data;
    for k := 0 to |ops|
      invariant tmp in disk.files && disk.files - {tmp} == old(disk.files) - {tmp}
      invariant basisPath in disk.files && disk.files[basisPath].data == basis
      invariant Replay(ops[..k], basis) == Some(disk.files[tmp].data) && disk.files[tmp].mtime == now
      invariant faults.write.Some? ==> faults.write.value >= k
    {
      ReplayAppend(ops[..k], ops[k], basis);
      assert ops[..k] + [ops[k]] == ops[..k + 1];
      ReplayPrefix(ops, k + 1, basis);
      var piece := OpBytes(ops[k], disk.files[basisPath].data);
      if piece.None? || faults.write == Some(k) {
        return Some(k);
      }
      disk.Write(tmp, File(disk.files[tmp].data + piece.value, now));
    }
    assert ops[..|ops|] == ops;
    return None;
  }

  /**
   * Reconstructs destPath from basisPath and ops. Up to the removal of the old destination every
   * failure leaves the directory exactly as it was. The rename after it is the one step that does
   * not: when it fails, the old destination is already gone.
   */
  method Apply(disk: Disk, basisPath: Path, destPath: Path, ops: seq<Op>, tmp: Path, faults: Faults, now: int)
    returns (r: Option<ApplyError>)
    requires tmp !in disk.files && tmp != destPath
    modifies disk
    ensures r.None? <==>
              && basisPath in old(disk.files) && !OpsFail(ops, old(disk.files[basisPath].data), faults)
              && !faults.open && !faults.create && !faults.sync
              && (faults.remove ==> destPath !in old(disk.files)) && !faults.rename
    ensures r.None? ==>
              disk.files == old(disk.files)[destPath := File(Replay(ops, old(disk.files[basisPath].data)).value, now)]
    ensures r.Some? && r.value != RenameFailed ==> disk.files == old(disk.files)
    ensures r == Some(RenameFailed) ==> disk.files == old(disk.files) - {destPath}
  {
    if basisPath !in disk.files || faults.open { return Some(OpenBasisFailed); }
    if faults.create { return Some(CreateTempFailed); }
    ghost var before := disk.files;
    disk.Write(tmp, File([], now));
    var failed := RunOps(disk, basisPath, tmp, ops, faults, now);
    assert disk.files - {tmp} == before;
    if failed.Some? {
      disk.Remove(tmp);
      return Some(OpFailed(failed.value));
    }
    if faults.sync {
      disk.Remove(tmp);
      return Some(SyncFailed);
    }
    if faults.remove && destPath in disk.files {
      disk.Remove(tmp);
      return Some(RemoveFailed);
    }
    disk.Remove(destPath);
    if faults.rename {
      disk.Remove(tmp);
      assert disk.files == before - {destPath};
      return Some(RenameFailed);
    }
    var swapped := disk.files[tmp];
    disk.Remove(tmp);
    disk.Write(destPath, swapped);
    assert disk.files == before[destPath := swapped];
    return None;
  }
}
