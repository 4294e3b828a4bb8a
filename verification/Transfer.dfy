/** Moving one file's content: by delta where it pays off, otherwise chunk by chunk under a pause signal. */
module Transfers {
  import opened Prelude
  import opened Disks
  import opened Worlds
  import opened Signatures
  import opened DeltaOps
  import opened DeltaReference
  import opened DeltaDiff
  import opened DeltaPatch

  /**
   * The pause channel. It is closed at some moment; all that a run can see of that moment is how many
   * of its checks come before it. None means it is never closed. Once closed it stays closed.
   */
  class PauseSignal {
    var checksLeft: Option<nat>

    constructor (checksLeft: Option<nat>)
      ensures this.checksLeft == checksLeft
    {
      this.checksLeft := checksLeft;
    }

    method Check() returns (paused: bool)
      modifies this
      ensures paused <==> old(checksLeft) == Some(0)
      ensures paused ==> checksLeft == Some(0)
      ensures checksLeft.Some? <==> old(checksLeft).Some?
      ensures !paused && checksLeft.Some? ==> old(checksLeft) == Some(checksLeft.value + 1)
    {
      if checksLeft.None? { return false; }
      if checksLeft.value == 0 { return true; }
      checksLeft := Some(checksLeft.value - 1);
      return false;
    }
  }

  /** Wraps the source file of a copy: every read first looks at the pause signal. */
  class ThrottledReader {
    const data: bytes
    const signal: PauseSignal
    var pos: nat
    var paused: bool

    constructor (data: bytes, signal: PauseSignal)
      ensures this.data == data && this.signal == signal && pos == 0 && !paused
    {
      this.data, this.signal, this.pos, this.paused := data, signal, 0, false;
    }

    /** At most size bytes; none at the end of the file, and none from the moment the signal is seen. */
    method Read(size: nat) returns (chunk: bytes)
      requires pos <= |data| && 0 < size && !paused
      modifies this, signal
      ensures old(pos) <= pos <= |data| && chunk == data[old(pos)..pos]
      ensures chunk == [] ==> paused || pos == |data|
      ensures paused ==> chunk == [] && signal.checksLeft == Some(0)
      ensures signal.checksLeft.Some? <==> old(signal.checksLeft).Some?
      ensures paused <==> old(signal.checksLeft) == Some(0)
      ensures !paused ==> pos == Min(old(pos) + size, |data|)
      ensures !paused && signal.checksLeft.Some? ==> old(signal.checksLeft) == Some(signal.checksLeft.value + 1)
    {
      paused := signal.Check();
      if paused { return []; }
      var next := Min(pos + size, |data|);
      chunk := data[pos..next];
      pos := next;
    }
  }

  const CHUNK := 32768

  /** io.Copy into a freshly truncated file: either everything arrives, or a prefix and a pause. */
  method CopyFile(data: bytes, to: Disk, p: Path, now: int, signal: PauseSignal) returns (paused: bool)
    modifies to, signal
    ensures p in to.files && to.files - {p} == old(to.files) - {p}
    ensures to.files[p].data <= data && to.files[p].mtime == now
    ensures !paused ==> to.files[p].data == data
    ensures paused ==> signal.checksLeft == Some(0)
    ensures paused ==> old(signal.checksLeft).Some? && |to.files[p].data| == Min(old(signal.checksLeft).value * 32768, |data|)
    ensures signal.checksLeft.Some? <==> old(signal.checksLeft).Some?
  {
    var reader := new ThrottledReader(data, signal);
    to.Write(p, File([], now));
    ghost var turns := 0;
    while true
      invariant reader.pos == Min(turns * 32768, |data|)
      invariant signal.checksLeft.Some? ==> old(signal.checksLeft) == Some(signal.checksLeft.value + turns)
      invariant fresh(reader) && reader.data == data && reader.signal == signal && !reader.paused
      invariant reader.pos <= |data|
      invariant p in to.files && to.files[p] == File(data[..reader.pos], now)
      invariant to.files - {p} == old(to.files) - {p}
      invariant signal.checksLeft.Some? <==> old(signal.checksLeft).Some?
      decreases |data| - reader.pos
    {
      var chunk := reader.Read(CHUNK);
      if chunk == [] { break; }
      turns := turns + 1;
      assert data[..reader.pos] == to.files[p].data + chunk;
      to.Write(p, File(to.files[p].data + chunk, now));
    }
    assert data[..|data|] == data;
    return reader.paused;
  }

  /** The outcome of trying a delta: not applicable, written, or a hard error after touching the destination. */
  datatype DeltaOutcome = NotUsed | Used(written: int) | HardError

  /** What the environment decides about a delta attempt: whether it pays off, and what fails in it. */
  datatype DeltaEnv = DeltaEnv(worthwhile: bool, readFails: bool, faults: Faults)

  /**
   * Describes the source as a delta against the destination and applies it in place. The threshold
   * on the share of literals is left to the environment.
   */
  method TryDelta(cfg: Config, from: Disk, to: Disk, p: Path, tmp: Path, env: DeltaEnv, now: int)
    returns (outcome: DeltaOutcome)
    requires from != to && p in from.files && tmp !in to.files && tmp != p
    requires EffectiveBlockSize(cfg.deltaBlockSize) <= 0x7FFF_FFFF
    modifies to
    ensures to.files - {p} == old(to.files) - {p}
    ensures outcome.NotUsed? ==> to.files == old(to.files)
    ensures outcome.Used? ==> p in to.files && outcome.written == |to.files[p].data|
    ensures outcome.Used? && p in old(to.files)
            && CollisionFree(cfg.strong, old(to.files[p].data), EffectiveBlockSize(cfg.deltaBlockSize), from.files[p].data)
            ==> to.files[p].data == from.files[p].data
    ensures outcome.NotUsed? <==>
              || !cfg.useDelta || p !in old(to.files)
              || |from.files[p].data| < (if cfg.deltaMinBytes <= 0 then 65536 else cfg.deltaMinBytes)
              || env.readFails || !env.worthwhile
    ensures outcome.HardError? ==> env.faults != NO_FAULTS
  {
    hide DiffResult, CollisionFree;
    var minBytes := if cfg.deltaMinBytes <= 0 then 65536 else cfg.deltaMinBytes;
    var data := from.files[p].data;
    if !cfg.useDelta || |data| < minBytes || p !in to.files { return NotUsed; }
    var basis := to.files[p].data;
    var sig := ComputeSignature(Reader(basis, env.readFails), EffectiveBlockSize(cfg.deltaBlockSize), cfg.strong);
    if sig.Err? { return NotUsed; }
    var diff := Diff(Reader(data, env.readFails), sig.value, cfg.strong, basis);
    if diff.Err? || !env.worthwhile { return NotUsed; }
    var ops := diff.value.0;
    DiffGives(ops, diff.value.1, data, basis, EffectiveBlockSize(cfg.deltaBlockSize), cfg.strong);
    var failed := Apply(to, p, p, ops, tmp, env.faults, now);
    if failed.Some? { return HardError; }
    var written := SizeBytes(ops);
    return Used(written);
  }

  lemma DiffGives(ops: seq<Op>, stats: DiffStats, src: bytes, basis: bytes, n: nat, strong: StrongHash)
    requires 0 < n <= 0x7FFF_FFFF && DiffResult(ops, stats, src, basis, n, strong)
    ensures Replay(ops, basis).Some? && |Replay(ops, basis).value| == CopyTotal(ops) + LiteralTotal(ops)
    ensures CollisionFree(strong, basis, n, src) ==> Replay(ops, basis).value == src
  {
    WellFormedReplays(ops, basis, Max(MAX_COPY, n));
  }
}
