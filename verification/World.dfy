/** Everything a sync run can change: the two sides, and one job's rows in the database. */
module Worlds {
  import opened Prelude
  import opened Disks
  import opened Signatures

  /** A whole-file content hash (SHA-256 or BLAKE3). */
  datatype Hash = Hash(bits: int)

  /** The recorded state of a file at its last successful sync. */
  datatype Entry = Entry(hash: Hash, size: nat, mtime: int)

  datatype ConflictStatus = Pending | Resolved(action: string) | AutoResolved

  datatype ConflictRow = ConflictRow(srcHash: Hash, dstHash: Hash, status: ConflictStatus)

  datatype Strategy = AskUser | NewestWins | LargestWins | SourceWins | DestinationWins | UnknownStrategy

  /** The part of a job's configuration that decides what a run does. */
  datatype Config = Config(
    hash: bytes -> Hash,
    strong: StrongHash,
    strategy: Strategy,
    versions: bool,
    conflicts: bool,
    localDest: bool,
    fullChecksum: bool,
    useDelta: bool,
    deltaBlockSize: int,
    deltaMinBytes: int,
    versionsToKeep: nat,
    visible: (Path, File) -> bool)

  /** Distinct contents have distinct hashes, and block lengths fit the int32 they are stored in. */
  ghost predicate Sound(cfg: Config) {
    && (forall x: bytes, y: bytes :: cfg.hash(x) == cfg.hash(y) ==> x == y)
    && EffectiveBlockSize(cfg.deltaBlockSize) <= 0x7FFF_FFFF
  }

  /** Filters that look at the path alone. */
  ghost predicate PathOnly(cfg: Config) {
    forall p, f, g :: cfg.visible(p, f) == cfg.visible(p, g)
  }

  /** Everything the system knows about one path. */
  datatype Cell = Cell(
    src: Option<File>,
    dst: Option<File>,
    entry: Option<Entry>,
    history: seq<bytes>,
    quarantined: seq<bytes>,
    conflicts: seq<ConflictRow>)

  function At<T>(m: map<Path, T>, p: Path): Option<T> {
    if p in m then Some(m[p]) else None
  }

  function ListAt<T>(m: map<Path, seq<T>>, p: Path): seq<T> {
    if p in m then m[p] else []
  }

  /** The contents of a World at one moment. */
  datatype State = State(
    src: map<Path, File>,
    dst: map<Path, File>,
    manifest: map<Path, Entry>,
    history: map<Path, seq<bytes>>,
    quarantined: map<Path, seq<bytes>>,
    conflicts: map<Path, seq<ConflictRow>>)

  ghost function CellIn(s: State, p: Path): Cell {
    Cell(At(s.src, p), At(s.dst, p), At(s.manifest, p),
         ListAt(s.history, p), ListAt(s.quarantined, p), ListAt(s.conflicts, p))
  }

  class World {
    const src: Disk
    const dst: Disk
    var manifest: map<Path, Entry>
    /** Stored versions of each path, oldest first. */
    var history: map<Path, seq<bytes>>
    /** Contents moved to quarantine from each path, oldest first. */
    var quarantined: map<Path, seq<bytes>>
    /** Conflict rows of each path, oldest first. */
    var conflicts: map<Path, seq<ConflictRow>>

    constructor (src: Disk, dst: Disk)
      requires src != dst
      ensures this.src == src && this.dst == dst
      ensures manifest == map[] && history == map[] && quarantined == map[] && conflicts == map[]
    {
      this.src, this.dst := src, dst;
      manifest, history, quarantined, conflicts := map[], map[], map[], map[];
    }

    ghost function Now(): State
      reads this, src, dst
    {
      State(src.files, dst.files, manifest, history, quarantined, conflicts)
    }

    ghost function CellAt(p: Path): Cell
      reads this, src, dst
    {
      CellIn(Now(), p)
    }

    /** Stores a copy of a file's content as its newest version and prunes the oldest beyond the limit. */
    method Snapshot(cfg: Config, p: Path, side: Disk)
      requires side == src || side == dst
      modifies this`history
      ensures history == if p in side.files then old(history)[p := Pruned(ListAt(old(history), p) + [side.files[p].data], cfg.versionsToKeep)]
                         else old(history)
    {
      if p in side.files {
        history := history[p := Pruned(ListAt(history, p) + [side.files[p].data], cfg.versionsToKeep)];
      }
    }

    /** Moves a destination file into quarantine. */
    method Quarantine(p: Path)
      requires p in dst.files
      modifies this`quarantined, dst
      ensures quarantined == old(quarantined)[p := ListAt(old(quarantined), p) + [old(dst.files)[p].data]]
      ensures dst.files == old(dst.files) - {p}
    {
      quarantined := quarantined[p := ListAt(quarantined, p) + [dst.files[p].data]];
      dst.Remove(p);
    }

    method Put(p: Path, e: Entry)
      modifies this`manifest
      ensures manifest == old(manifest)[p := e]
    {
      manifest := manifest[p := e];
    }

    method Forget(p: Path)
      modifies this`manifest
      ensures manifest == old(manifest) - {p}
    {
      manifest := manifest - {p};
    }
  }

  /** Keeps the newest keep versions; zero keeps all of them. */
  function Pruned(history: seq<bytes>, keep: nat): seq<bytes> {
    if keep == 0 then history else LastN(history, keep)
  }

  lemma NewestSurvivesPruning(history: seq<bytes>, data: bytes, keep: nat)
    ensures data in Pruned(history + [data], keep)
  {
    assert Pruned(history + [data], keep)[|Pruned(history + [data], keep)| - 1] == data;
  }
}
