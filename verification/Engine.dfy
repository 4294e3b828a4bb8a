/** One file of a run: the copy with its checks, and the per-file decisions of the one-way modes. */
module Engine {
  import opened Prelude
  import opened Disks
  import opened Worlds
  import opened Signatures
  import opened DeltaDiff
  import opened DeltaPatch
  import opened Transfers
  import opened SyncSpec

  /** An I/O error somewhere in a transfer, and what it leaves at the path being written. */
  datatype TransferFault = Works | Breaks(left: Option<File>)

  /** Everything outside the engine that a run depends on. */
  datatype Env = Env(
    now: int,
    tmp: Path,
    fault: Path -> TransferFault,
    delta: Path -> DeltaEnv,
    unreadable: Path -> bool,
    quarantineFails: Path -> bool,
    removeFails: Path -> bool)

  /** Deltas against any file are exact. */
  ghost predicate NoCollisions(cfg: Config) {
    forall basis: bytes, src: bytes ::
      CollisionFree(cfg.strong, basis, EffectiveBlockSize(cfg.deltaBlockSize), src)
  }

  /** Nothing outside the engine goes wrong at p. */
  ghost predicate CalmAt(cfg: Config, env: Env, p: Path) {
    && env.fault(p).Works? && !env.unreadable(p) && !env.quarantineFails(p) && !env.removeFails(p)
    && (cfg.useDelta ==> env.delta(p).faults == NO_FAULTS && NoCollisions(cfg))
  }

  ghost predicate Calm(cfg: Config, env: Env) {
    forall p :: CalmAt(cfg, env, p)
  }

  lemma CalmMeans(cfg: Config, env: Env, p: Path)
    ensures Calm(cfg, env) ==> CalmAt(cfg, env, p) && !env.quarantineFails(p) && !env.unreadable(p)
  {
  }

  datatype TransferResult = Done(written: int) | PausedMidFile(removed: bool) | Failed

  datatype RunResult = RunResult(
    copied: nat, skipped: nat, quarantined: nat, conflicts: nat, bytesCopied: int, paused: bool, errors: seq<Path>)

  const EMPTY_RESULT := RunResult(0, 0, 0, 0, 0, false, [])

  /** Only the cell of p may differ between two states of a map. */
  ghost predicate OnlyAt<T(!new)>(p: Path, before: map<Path, T>, after: map<Path, T>) {
    before - {p} == after - {p}
  }

  lemma StillAbsent<T(!new)>(p: Path, before: map<Path, T>, after: map<Path, T>, t: Path)
    requires OnlyAt(p, before, after) && t != p && t !in before
    ensures t !in after
  {
    assert t !in before - {p} && t !in after - {p};
  }

  lemma PutBack<T>(m: map<Path, T>, p: Path, x: T)
    ensures (m - {p})[p := x] == m[p := x]
    ensures m[p := x] - {p} == m - {p}
  {
  }

  lemma SameHash(cfg: Config, x: bytes, y: bytes)
    requires Sound(cfg)
    ensures cfg.hash(x) == cfg.hash(y) ==> x == y
    ensures EffectiveBlockSize(cfg.deltaBlockSize) <= MAX_INT32
  {
  }

  lemma DeltaIsExact(cfg: Config, basis: bytes, src: bytes)
    requires NoCollisions(cfg)
    ensures CollisionFree(cfg.strong, basis, EffectiveBlockSize(cfg.deltaBlockSize), src)
  {
  }

  /** After a copy: checks it against the expected hash, sets its mtime and records it. */
  method RecordCopy(cfg: Config, to: Disk, w: World, p: Path, written: int, recorded: int, stamp: int, synced: Hash)
    returns (ok: bool)
    requires p in to.files && written >= 0
    modifies to, w`manifest
    ensures ok <==> cfg.hash(old(to.files)[p].data) == synced
    ensures ok ==>
              && to.files == old(to.files)[p := File(old(to.files)[p].data, stamp)]
              && w.manifest == old(w.manifest)[p := Entry(synced, written, recorded)]
    ensures !ok ==> to.files == old(to.files) && w.manifest == old(w.manifest)
  {
    if cfg.hash(to.files[p].data) != synced { return false; }
    to.Write(p, File(to.files[p].data, stamp));
    w.Put(p, Entry(synced, written, recorded));
    return true;
  }

  /** The copy chunk by chunk; on a pause the half-written file is removed, or stays because that fails. */
  method CopyOrRemove(data: bytes, to: Disk, p: Path, env: Env, signal: PauseSignal) returns (paused: bool)
    modifies to, signal
    ensures to.files - {p} == old(to.files) - {p}
    ensures paused ==> signal.checksLeft == Some(0) && LeftBehind(env.removeFails(p), At(to.files, p), data)
    ensures paused && !env.removeFails(p) ==> to.files == old(to.files) - {p}
    ensures !paused ==> p in to.files && to.files[p].data == data
    ensures signal.checksLeft.Some? <==> old(signal.checksLeft).Some?
  {
    ghost var before := to.files;
    paused := CopyFile(data, to, p, env.now, signal);
    if paused && !env.removeFails(p) {
      to.Remove(p);
      assert to.files == before - {p};
    }
  }

  /**
   * Copies one file, checks the copy against the expected hash, sets its mtime and records it. The
   * manifest changes only on success; a pause removes what was written, and does not notice if that fails.
   */
  method Transfer(cfg: Config, from: Disk, to: Disk, w: World, p: Path, recorded: int, stamp: int,
                  synced: Hash, allowDelta: bool, env: Env, signal: PauseSignal)
    returns (r: TransferResult)
    requires Sound(cfg) && from != to && p in from.files && synced == cfg.hash(from.files[p].data)
    requires env.tmp !in to.files && env.tmp != p
    modifies to, w`manifest, signal
    ensures OnlyAt(p, old(to.files), to.files) && OnlyAt(p, old(w.manifest), w.manifest)
    ensures r.Done? ==>
              && r.written == |from.files[p].data|
              && to.files == old(to.files)[p := File(from.files[p].data, stamp)]
              && w.manifest == old(w.manifest)[p := Entry(synced, |from.files[p].data|, recorded)]
    ensures !r.Done? ==> w.manifest == old(w.manifest)
    ensures r.PausedMidFile? ==>
              && r.removed == !env.removeFails(p) && signal.checksLeft == Some(0)
              && LeftBehind(!r.removed, At(to.files, p), from.files[p].data)
    ensures r.PausedMidFile? && r.removed ==> to.files == old(to.files) - {p}
    ensures CalmAt(cfg, env, p) ==> !r.Failed?
    ensures signal.checksLeft.Some? <==> old(signal.checksLeft).Some?
  {
    hide Sound, NoCollisions, CollisionFree, EffectiveBlockSize;
    ghost var before := to.files;
    var data := from.files[p].data;
    SameHash(cfg, data, data);
    if env.fault(p).Breaks? {
      match env.fault(p).left
      case Some(f) => PutBack(to.files, p, f); to.Write(p, f);
      case None => to.Remove(p);
      return Failed;
    }
    var written, used := |data|, false;
    if allowDelta {
      if p in to.files && cfg.useDelta && CalmAt(cfg, env, p) { DeltaIsExact(cfg, to.files[p].data, data); }
      var outcome := TryDelta(cfg, from, to, p, env.tmp, env.delta(p), env.now);
      if outcome.HardError? { return Failed; }
      if outcome.Used? { written, used := outcome.written, true; }
    }
    if !used {
      var paused := CopyOrRemove(data, to, p, env, signal);
      if paused { return PausedMidFile(!env.removeFails(p)); }
    }
    ghost var copied := to.files;
    SameHash(cfg, copied[p].data, data);
    var ok := RecordCopy(cfg, to, w, p, written, recorded, stamp, synced);
    if !ok { return Failed; }
    assert copied[p].data == data;
    PutBack(copied, p, File(data, stamp));
    PutBack(before, p, File(data, stamp));
    return Done(written);
  }

  /** A streaming hash: a state that absorbs one byte after the other, and a digest of the final state. */
  datatype StreamHash<!S> = StreamHash(start: S, absorb: (S, byte) -> S, sum: S -> Hash)

  /** The state after absorbing data. */
  function Absorbed<S>(h: StreamHash<S>, state: S, data: bytes): S {
    if data == [] then state else h.absorb(Absorbed(h, state, data[..|data| - 1]), data[|data| - 1])
  }

  lemma {:induction false} AbsorbedTwice<S>(h: StreamHash<S>, state: S, a: bytes, b: bytes)
    ensures Absorbed(h, Absorbed(h, state, a), b) == Absorbed(h, state, a + b)
  {
    if b == [] {
      assert a + b == a;
    } else {
      AbsorbedTwice(h, state, a, b[..|b| - 1]);
      assert (a + b)[..|a + b| - 1] == a + b[..|b| - 1];
    }
  }

  /** Hashing the source chunk by chunk, watching the pause signal. */
  method HashWithPause<S>(data: bytes, h: StreamHash<S>, signal: PauseSignal) returns (paused: bool, digest: Hash)
    modifies signal
    ensures !paused ==> digest == h.sum(Absorbed(h, h.start, data))
    ensures signal.checksLeft.Some? <==> old(signal.checksLeft).Some?
    ensures paused ==> signal.checksLeft == Some(0)
  {
    var pos, state := 0, h.start;
    digest := h.sum(state);
    while true
      invariant 0 <= pos <= |data|
      invariant signal.checksLeft.Some? <==> old(signal.checksLeft).Some?
      invariant state == Absorbed(h, h.start, data[..pos])
      decreases |data| - pos
    {
      paused := signal.Check();
      if paused { return; }
      if pos == |data| { break; }
      var next := Min(pos + CHUNK, |data|);
      AbsorbedTwice(h, h.start, data[..pos], data[pos..next]);
      assert data[..pos] + data[pos..next] == data[..next];
      state := Absorbed(h, state, data[pos..next]);
      pos := next;
    }
    assert data[..|data|] == data;
    digest := h.sum(state);
  }

  /** The content hash as a streaming hash; which one it is inside makes no difference to its digest. */
  function ContentHash(cfg: Config): StreamHash<bytes> {
    StreamHash([], (s: bytes, x: byte) => s + [x], cfg.hash)
  }

  lemma AppendsByte(cfg: Config, s: bytes, x: byte)
    ensures ContentHash(cfg).absorb(s, x) == s + [x]
  {
  }

  lemma {:induction false} ContentHashIsHash(cfg: Config, data: bytes)
    ensures Absorbed(ContentHash(cfg), [], data) == data
  {
    hide ContentHash;
    if data != [] {
      var init, last := data[..|data| - 1], data[|data| - 1];
      ContentHashIsHash(cfg, init);
      AppendsByte(cfg, init, last);
      assert init + [last] == data;
    }
  }

  datatype FileOutcome = FileCopied(written: int) | FileSkipped | FilePaused | FileFailed

  /** The decision for one source file in backup and mirror mode, and its execution. */
  method SyncFile(cfg: Config, w: World, p: Path, env: Env, signal: PauseSignal) returns (r: FileOutcome)
    requires Sound(cfg) && w.src != w.dst && p in w.src.files && env.tmp !in w.dst.files && env.tmp != p
    modifies w`manifest, w.dst, signal
    ensures OnlyAt(p, old(w.dst.files), w.dst.files) && OnlyAt(p, old(w.manifest), w.manifest)
    ensures r.FileSkipped? || r.FileCopied? ==> w.CellAt(p) == OneWay(cfg, env.now, old(w.CellAt(p)))
    ensures r.FileSkipped? ==> Skips(cfg, old(w.CellAt(p)))
    ensures r.FileCopied? ==> !Skips(cfg, old(w.CellAt(p))) && r.written == |w.src.files[p].data|
    ensures r.FilePaused? ==> PausedAt(cfg, old(w.CellAt(p)), w.CellAt(p), env.removeFails(p)) && signal.checksLeft == Some(0)
    ensures CalmAt(cfg, env, p) ==> !r.FileFailed?
    ensures r.FileFailed? ==> w.CellAt(p) == old(w.CellAt(p)).(dst := w.CellAt(p).dst)
    ensures signal.checksLeft.Some? <==> old(signal.checksLeft).Some?
  {
    var f := w.src.files[p];
    ghost var c := w.CellAt(p);
    if env.unreadable(p) { return FileFailed; }
    var entry := At(w.manifest, p);
    var synced := cfg.hash(f.data);
    if cfg.fullChecksum {
      var paused, h := HashWithPause(f.data, ContentHash(cfg), signal);
      ContentHashIsHash(cfg, f.data);
      if paused { return FilePaused; }
      if entry.Some? && entry.value.hash == h && p in w.dst.files { return FileSkipped; }
    } else {
      if entry.Some? && |f.data| == entry.value.size && MtimeMatch(f.mtime, entry.value.mtime) && p in w.dst.files {
        return FileSkipped;
      }
    }
    assert !Skips(cfg, c);
    var t := Transfer(cfg, w.src, w.dst, w, p, f.mtime, CopyTime(cfg, env.now, f.mtime), synced,
                      !cfg.fullChecksum && cfg.localDest, env, signal);
    match t
    case Done(written) => return FileCopied(written);
    case PausedMidFile(_) => return FilePaused;
    case Failed => return FileFailed;
  }
}
