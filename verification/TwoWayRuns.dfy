/** Whole two-way runs. */
module TwoWayRuns {
  import opened Prelude
  import opened Disks
  import opened Worlds
  import opened Conflicts
  import opened Transfers
  import opened SyncSpec
  import opened TwoWayFacts
  import opened Engine
  import opened OneWayRuns

  /** SkippedFile covers "both sides already agree"; the conflict flag of a step is returned separately. */
  datatype StepOutcome = Copied(written: int) | SkippedFile | ConflictHandled(written: int) | StepPaused(removed: bool) | StepFailed

  predicate SourceVisible(cfg: Config, p: Path, c: Cell) {
    c.src.Some? && cfg.visible(p, c.src.value)
  }

  /** A step that stopped before its end: untouched, prepared but not copied, or broken at the side being written. */
  predicate Broken(cfg: Config, p: Path, c: Cell, d: Cell) {
    if SourceVisible(cfg, p, c) then
      || d == c.(history := HistoryAfter(cfg, c), conflicts := ConflictsAfter(cfg, c))
      || (Target(cfg, c).Some?
          && d == Interrupted(cfg, c, if Target(cfg, c).value.Destination? then d.dst else d.src))
    else c.dst.Some? && cfg.visible(p, c.dst.value) && c.entry.None? && d == c.(src := d.src)
  }

  /** Everything a two-way run, however it ends, may have made of a path. */
  predicate Reach(cfg: Config, p: Path, c: Cell, d: Cell) {
    d == c || d == TwoWay(cfg, p, c) || Broken(cfg, p, c, d)
  }

  /** What a paused run may have made of a path that is not in error: nothing, its whole step, or a stopped copy. */
  predicate PausedReach(cfg: Config, p: Path, c: Cell, d: Cell, stays: bool) {
    || d == c
    || d == TwoWay(cfg, p, c)
    || (SourceVisible(cfg, p, c) && StoppedCopy(cfg, c, d, stays))
    || (!SourceVisible(cfg, p, c) && c.dst.Some? && cfg.visible(p, c.dst.value) && c.entry.None?
        && LeftBehind(stays, d.src, c.dst.value.data) && d == c.(src := d.src))
  }

  /** Copies p in the direction given and records it under its own mtime. */
  method CopyAcross(cfg: Config, w: World, p: Path, target: Side, mtime: int, env: Env, signal: PauseSignal)
    returns (r: TransferResult)
    requires Sound(cfg) && w.src != w.dst && env.tmp !in w.src.files && env.tmp !in w.dst.files && env.tmp != p
    requires if target.Destination? then p in w.src.files else p in w.dst.files
    modifies w`manifest, w.src, w.dst, signal
    ensures var from := if target.Destination? then old(w.src.files)[p] else old(w.dst.files)[p];
            var c, d := CellIn(old(w.Now()), p), CellIn(w.Now(), p);
            CopyCell(cfg, c, d, target, File(from.data, mtime), r)
    ensures forall q :: q != p ==> CellIn(w.Now(), q) == CellIn(old(w.Now()), q)
    ensures env.tmp !in w.src.files && env.tmp !in w.dst.files
    ensures old(signal.checksLeft).None? ==> signal.checksLeft.None? && !r.PausedMidFile?
    ensures r.PausedMidFile? ==> signal.checksLeft == Some(0) && r.removed == !env.removeFails(p)
    ensures CalmAt(cfg, env, p) ==> !r.Failed?
  {
    ghost var st := w.Now();
    if target == Destination {
      r := Transfer(cfg, w.src, w.dst, w, p, mtime, mtime, cfg.hash(w.src.files[p].data), true, env, signal);
      StillAbsent(p, st.dst, w.dst.files, env.tmp);
    } else {
      r := Transfer(cfg, w.dst, w.src, w, p, mtime, mtime, cfg.hash(w.dst.files[p].data), true, env, signal);
      StillAbsent(p, st.src, w.src.files, env.tmp);
    }
    forall q | q != p
      ensures CellIn(w.Now(), q) == CellIn(st, q)
    {
      SameElsewhere(st.src, w.src.files, p, q);
      SameElsewhere(st.dst, w.dst.files, p, q);
      SameElsewhere(st.manifest, w.manifest, p, q);
    }
  }

  lemma SameElsewhere<T(!new)>(before: map<Path, T>, after: map<Path, T>, p: Path, q: Path)
    requires q != p && OnlyAt(p, before, after)
    ensures At(after, q) == At(before, q)
  {
    assert At(before - {p}, q) == At(before, q) && At(after - {p}, q) == At(after, q);
  }

  /** Only p's version list and conflict rows may differ. */
  ghost predicate OnlyRecords(p: Path, st: State, cur: State) {
    && cur == st.(history := cur.history, conflicts := cur.conflicts)
    && forall q :: q != p ==> CellIn(cur, q) == CellIn(st, q)
  }

  /** Stores the version a branch asks for; a job without version support stores none. */
  method Save(cfg: Config, w: World, p: Path, side: Disk)
    requires side == w.src || side == w.dst
    modifies w`history
    ensures OnlyRecords(p, old(w.Now()), w.Now())
    ensures CellIn(w.Now(), p) == CellIn(old(w.Now()), p).(
              history := Saved(cfg, CellIn(old(w.Now()), p).history, At(side.files, p)))
  {
    if cfg.versions { w.Snapshot(cfg, p, side); }
  }

  /** Records the conflict of p, unless one is pending. */
  method RecordConflict(cfg: Config, w: World, p: Path)
    requires p in w.src.files && p in w.dst.files
    modifies w`conflicts
    ensures OnlyRecords(p, old(w.Now()), w.Now())
    ensures var c := CellIn(old(w.Now()), p);
            CellIn(w.Now(), p) == if !cfg.conflicts then c
              else c.(conflicts := Recorded(c.conflicts, cfg.hash(c.src.value.data), cfg.hash(c.dst.value.data)))
  {
    if cfg.conflicts {
      w.conflicts := w.conflicts[p :=
        Recorded(ListAt(w.conflicts, p), cfg.hash(w.src.files[p].data), cfg.hash(w.dst.files[p].data))];
    }
  }

  /** Marks the pending conflict of p as settled by the strategy. */
  method MarkAutoResolved(cfg: Config, w: World, p: Path)
    modifies w`conflicts
    ensures OnlyRecords(p, old(w.Now()), w.Now())
    ensures var c := CellIn(old(w.Now()), p);
            CellIn(w.Now(), p) == if cfg.conflicts then c.(conflicts := Closed(c.conflicts, AutoResolved)) else c
  {
    if cfg.conflicts { w.conflicts := w.conflicts[p := Closed(ListAt(w.conflicts, p), AutoResolved)]; }
  }

  /** How many bytes a step copies for a source file. */
  function Moved(cfg: Config, c: Cell): nat
    requires c.src.Some?
  {
    match Target(cfg, c)
    case None => 0
    case Some(Destination) => |c.src.value.data|
    case Some(Source) => if c.dst.Some? then |c.dst.value.data| else 0
  }

  /** What one step of the source loop makes of its path, by outcome. */
  predicate StepCell(cfg: Config, c: Cell, d: Cell, r: StepOutcome, conflict: bool) {
    && c.src.Some?
    && (r.Copied? || r.SkippedFile? || r.ConflictHandled? ==> d == TwoWaySource(cfg, c))
    && (r.Copied? ==> Decide(cfg, c).Push? || Decide(cfg, c).Pull?)
    && (r.SkippedFile? ==> Decide(cfg, c).Relabel? || Decide(cfg, c).Leave?)
    && (conflict ==> Decide(cfg, c).Conflict?)
    && (r.ConflictHandled? ==> conflict)
    && (r.Copied? || r.ConflictHandled? ==> r.written == Moved(cfg, c))
    && (r.StepPaused? ==> StoppedCopy(cfg, c, d, !r.removed))
    && (r.StepFailed? ==>
          || d == c || d == c.(history := HistoryAfter(cfg, c), conflicts := ConflictsAfter(cfg, c))
          || (Target(cfg, c).Some? && d == Interrupted(cfg, c, if Target(cfg, c).value.Destination? then d.dst else d.src)))
  }

  ghost predicate SourceStep(cfg: Config, p: Path, st: State, cur: State, r: StepOutcome, conflict: bool) {
    && (forall q :: q != p ==> CellIn(cur, q) == CellIn(st, q))
    && StepCell(cfg, CellIn(st, p), CellIn(cur, p), r, conflict)
  }

  /** The effect of a copy on its path, by result. */
  predicate CopyCell(cfg: Config, c: Cell, d: Cell, target: Side, f: File, r: TransferResult) {
    && (r.Done? ==> r.written == |f.data| && d == if target.Destination? then Pushed(cfg, c, f) else Pulled(cfg, c, f))
    && (!r.Done? ==> d == if target.Destination? then c.(dst := d.dst) else c.(src := d.src))
    && (r.PausedMidFile? ==> LeftBehind(!r.removed, if target.Destination? then d.dst else d.src, f.data))
  }

  /** A conflict settled by the strategy: version, row, copy, and the row closed, add up to one step. */
  lemma SettledConflict(cfg: Config, c: Cell, recorded: Cell, copied: Cell, d: Cell, winner: Side, t: TransferResult)
    requires c.src.Some? && c.dst.Some? && Decide(cfg, c).Conflict? && Winner(cfg, c) == Some(winner)
    requires recorded == c.(history := Saved(cfg, c.history, c.dst), conflicts :=
      if cfg.conflicts then Recorded(c.conflicts, cfg.hash(c.src.value.data), cfg.hash(c.dst.value.data)) else c.conflicts)
    requires CopyCell(cfg, recorded, copied, if winner.Source? then Destination else Source,
                      if winner.Source? then c.src.value else c.dst.value, t)
    requires d == if cfg.conflicts then copied.(conflicts := Closed(copied.conflicts, AutoResolved)) else copied
    ensures StepCell(cfg, c, d,
                     match t { case Done(n) => ConflictHandled(n) case PausedMidFile(removed) => StepPaused(removed) case Failed => StepFailed },
                     true)
  {
    hide Decide, Recorded, Closed, Saved;
  }

  /** A conflict left open, for the user or because the strategy is unknown. */
  lemma OpenConflict(cfg: Config, c: Cell, saved: Cell, d: Cell)
    requires c.src.Some? && c.dst.Some? && Decide(cfg, c).Conflict?
    requires saved == c.(history := Saved(cfg, c.history, c.dst))
    requires d == saved.(conflicts :=
      if cfg.conflicts then Recorded(c.conflicts, cfg.hash(c.src.value.data), cfg.hash(c.dst.value.data)) else c.conflicts)
    ensures cfg.strategy.AskUser? ==> StepCell(cfg, c, d, ConflictHandled(0), true)
    ensures cfg.strategy.UnknownStrategy? ==> StepCell(cfg, c, saved, StepFailed, true)
  {
    hide Decide, Recorded, Saved;
  }

  /** A conflict: store the destination, pick the winner, record it, and copy the winner over. */
  method HandleConflict(cfg: Config, w: World, p: Path, env: Env, signal: PauseSignal) returns (r: StepOutcome)
    requires Sound(cfg) && w.src != w.dst && env.tmp !in w.src.files && env.tmp !in w.dst.files && env.tmp != p
    requires p in w.src.files && p in w.dst.files && Decide(cfg, CellIn(w.Now(), p)).Conflict?
    modifies w`manifest, w`history, w`conflicts, w.src, w.dst, signal
    ensures SourceStep(cfg, p, old(w.Now()), w.Now(), r, true) && !r.Copied? && !r.SkippedFile?
    ensures env.tmp !in w.src.files && env.tmp !in w.dst.files
    ensures old(signal.checksLeft).None? ==> signal.checksLeft.None? && !r.StepPaused?
    ensures r.StepPaused? ==> signal.checksLeft == Some(0) && r.removed == !env.removeFails(p)
    ensures CalmAt(cfg, env, p) && !cfg.strategy.UnknownStrategy? ==> !r.StepFailed?
  {
    hide Decide, Recorded, Closed, Sound, StepCell, CopyCell, Saved;
    ghost var st := w.Now();
    ghost var c := CellIn(st, p);
    Save(cfg, w, p, w.dst);
    ghost var saved := CellIn(w.Now(), p);
    var winner := AutoResolve(cfg.strategy, w.src.files[p], w.dst.files[p]);
    if winner.None? {
      OpenConflict(cfg, c, saved, saved.(conflicts :=
        if cfg.conflicts then Recorded(c.conflicts, cfg.hash(c.src.value.data), cfg.hash(c.dst.value.data)) else c.conflicts));
      return StepFailed;
    }
    RecordConflict(cfg, w, p);
    ghost var recorded := CellIn(w.Now(), p);
    if cfg.strategy.AskUser? {
      OpenConflict(cfg, c, saved, recorded);
      return ConflictHandled(0);
    }
    var t: TransferResult;
    if winner.value == Source {
      t := CopyAcross(cfg, w, p, Destination, w.src.files[p].mtime, env, signal);
    } else {
      t := CopyAcross(cfg, w, p, Source, w.dst.files[p].mtime, env, signal);
    }
    ghost var copied := CellIn(w.Now(), p);
    MarkAutoResolved(cfg, w, p);
    SettledConflict(cfg, c, recorded, copied, CellIn(w.Now(), p), winner.value, t);
    match t
    case Done(written) => return ConflictHandled(written);
    case PausedMidFile(removed) => return StepPaused(removed);
    case Failed => return StepFailed;
  }

  /** Storing a version where the branch asks for one, then copying, is one step. */
  lemma PlainCopy(cfg: Config, c: Cell, saved: Cell, d: Cell, t: TransferResult)
    requires c.src.Some? && (Decide(cfg, c).Push? || (Decide(cfg, c).Pull? && c.dst.Some?))
    requires saved == c.(history := HistoryAfter(cfg, c))
    requires CopyCell(cfg, saved, d, if Decide(cfg, c).Push? then Destination else Source,
                      if Decide(cfg, c).Push? then c.src.value else File(c.dst.value.data, c.src.value.mtime), t)
    ensures StepCell(cfg, c, d,
                     match t { case Done(n) => Copied(n) case PausedMidFile(removed) => StepPaused(removed) case Failed => StepFailed },
                     false)
  {
    hide Decide, HistoryAfter;
  }

  /** Steps that copy nothing: an unreadable file, a manifest that is brought up to date, nothing to do. */
  lemma NoCopy(cfg: Config, c: Cell)
    requires c.src.Some?
    ensures StepCell(cfg, c, c, StepFailed, false)
    ensures Decide(cfg, c).Relabel? ==> StepCell(cfg, c, c.(entry := Some(EntryOf(cfg, c.src.value))), SkippedFile, false)
    ensures Decide(cfg, c).Leave? ==> StepCell(cfg, c, c, SkippedFile, false)
  {
  }

  /** One file of the source loop. */
  method SyncSource(cfg: Config, w: World, p: Path, env: Env, signal: PauseSignal)
    returns (r: StepOutcome, conflict: bool)
    requires Sound(cfg) && w.src != w.dst && env.tmp !in w.src.files && env.tmp !in w.dst.files && env.tmp != p
    requires p in w.src.files
    modifies w`manifest, w`history, w`conflicts, w.src, w.dst, signal
    ensures SourceStep(cfg, p, old(w.Now()), w.Now(), r, conflict)
    ensures conflict <==> !env.unreadable(p) && Decide(cfg, CellIn(old(w.Now()), p)).Conflict?
    ensures env.tmp !in w.src.files && env.tmp !in w.dst.files
    ensures old(signal.checksLeft).None? ==> signal.checksLeft.None? && !r.StepPaused?
    ensures r.StepPaused? ==> signal.checksLeft == Some(0) && r.removed == !env.removeFails(p)
    ensures CalmAt(cfg, env, p) && !cfg.strategy.UnknownStrategy? ==> !r.StepFailed?
  {
    hide StepCell, CopyCell, Saved;
    ghost var st := w.Now();
    ghost var c := CellIn(st, p);
    NoCopy(cfg, c);
    if env.unreadable(p) { return StepFailed, false; }
    var src, dst, entry := At(w.src.files, p), At(w.dst.files, p), At(w.manifest, p);
    var t: TransferResult;
    if entry.None? {
      if dst.None? || cfg.hash(dst.value.data) == cfg.hash(src.value.data) {
        t := CopyAcross(cfg, w, p, Destination, src.value.mtime, env, signal);
      } else {
        r := HandleConflict(cfg, w, p, env, signal);
        return r, true;
      }
    } else {
      var (isConflict, srcChanged, dstChanged) := Detect(cfg, entry.value.hash, src, dst);
      if isConflict {
        r := HandleConflict(cfg, w, p, env, signal);
        return r, true;
      } else if srcChanged && dstChanged {
        w.Put(p, EntryOf(cfg, src.value));
        return SkippedFile, false;
      } else if srcChanged && !dstChanged {
        Save(cfg, w, p, w.dst);
        t := CopyAcross(cfg, w, p, Destination, src.value.mtime, env, signal);
      } else if !srcChanged && dstChanged {
        Save(cfg, w, p, w.src);
        t := CopyAcross(cfg, w, p, Source, src.value.mtime, env, signal);
      } else {
        return SkippedFile, false;
      }
    }
    PlainCopy(cfg, c, c.(history := HistoryAfter(cfg, c)), CellIn(w.Now(), p), t);
    match t
    case Done(written) => return Copied(written), false;
    case PausedMidFile(removed) => return StepPaused(removed), false;
    case Failed => return StepFailed, false;
  }

  // ---- The two loops ----

  /** The handled paths have had their step, or are in error; the others are untouched. */
  ghost predicate TwoWayAt(cfg: Config, st: State, cur: State, handled: set<Path>, errors: seq<Path>) {
    && (forall p :: p in handled ==>
          if p in errors then Reach(cfg, p, CellIn(st, p), CellIn(cur, p))
          else CellIn(cur, p) == TwoWay(cfg, p, CellIn(st, p)))
    && (forall p :: p !in handled ==> CellIn(cur, p) == CellIn(st, p))
    && (forall p :: p in errors ==> p in handled)
  }

  /** However a run ends, every path is in a state that a run can lead to. */
  ghost predicate AllReachable(cfg: Config, st: State, cur: State) {
    forall p :: Reach(cfg, p, CellIn(st, p), CellIn(cur, p))
  }

  lemma TwoWayStart(cfg: Config, st: State)
    ensures TwoWayAt(cfg, st, st, {}, [])
  {
  }

  lemma TwoWayNext(cfg: Config, st: State, cur: State, next: State, handled: set<Path>, p: Path,
                   errors: seq<Path>, errors': seq<Path>)
    requires TwoWayAt(cfg, st, cur, handled, errors) && p !in handled
    requires forall q :: q != p ==> CellIn(next, q) == CellIn(cur, q)
    requires if errors' == errors then CellIn(next, p) == TwoWay(cfg, p, CellIn(cur, p))
             else errors' == errors + [p] && Reach(cfg, p, CellIn(cur, p), CellIn(next, p))
    ensures TwoWayAt(cfg, st, next, handled + {p}, errors')
  {
    hide CellIn, TwoWay, Reach;
  }

  /** However a run is paused, every path that is not in error is untouched, done, or stopped in its copy. */
  ghost predicate PausedRun(cfg: Config, stays: Path -> bool, st: State, cur: State, errors: seq<Path>) {
    forall p :: p !in errors ==> PausedReach(cfg, p, CellIn(st, p), CellIn(cur, p), stays(p))
  }

  /** Stopping before or inside p. */
  lemma TwoWayStop(cfg: Config, env: Env, st: State, cur: State, next: State, handled: set<Path>, p: Path, errors: seq<Path>)
    requires TwoWayAt(cfg, st, cur, handled, errors) && p !in handled
    requires forall q :: q != p ==> CellIn(next, q) == CellIn(cur, q)
    requires Reach(cfg, p, CellIn(cur, p), CellIn(next, p))
    requires PausedReach(cfg, p, CellIn(cur, p), CellIn(next, p), env.removeFails(p))
    ensures AllReachable(cfg, st, next) && PausedRun(cfg, env.removeFails, st, next, errors)
  {
    hide CellIn, TwoWay, Broken, StoppedCopy;
  }

  lemma TwoWayEnd(cfg: Config, st: State, cur: State, handled: set<Path>, errors: seq<Path>)
    requires TwoWayAt(cfg, st, cur, handled, errors)
    ensures AllReachable(cfg, st, cur)
  {
    hide CellIn, TwoWay, Broken;
  }

  /** A step of the source loop, seen from the whole run. */
  lemma StepReaches(cfg: Config, p: Path, c: Cell, d: Cell, r: StepOutcome, conflict: bool)
    requires StepCell(cfg, c, d, r, conflict) && cfg.visible(p, c.src.value)
    ensures Reach(cfg, p, c, d)
    ensures r.Copied? || r.SkippedFile? || r.ConflictHandled? ==> d == TwoWay(cfg, p, c)
    ensures r.StepPaused? ==> PausedReach(cfg, p, c, d, !r.removed)
  {
    hide Decide, HistoryAfter, ConflictsAfter, Target;
  }

  /** What a run does to a path. */
  datatype PathKind = Copying | Skipping | Conflicting | Quarantining | Ignoring | Hidden

  function Kind(cfg: Config, p: Path, c: Cell): PathKind {
    if SourceVisible(cfg, p, c) then
      match Decide(cfg, c)
      case Push => Copying
      case Pull => Copying
      case Conflict => Conflicting
      case Relabel => Skipping
      case Leave => Skipping
    else if c.dst.Some? && cfg.visible(p, c.dst.value) then
      if c.entry.None? then Copying else if cfg.versions then Quarantining else Ignoring
    else Hidden
  }

  ghost function OfKind(cfg: Config, st: State, paths: set<Path>, k: PathKind): set<Path> {
    set p | p in paths && Kind(cfg, p, CellIn(st, p)) == k
  }

  /** How many bytes a run copies at a path. */
  function MovedBy(cfg: Config, p: Path, c: Cell): nat {
    if SourceVisible(cfg, p, c) then Moved(cfg, c)
    else if c.dst.Some? && cfg.visible(p, c.dst.value) && c.entry.None? then |c.dst.value.data|
    else 0
  }

  ghost function MovedAt(cfg: Config, st: State): Path -> nat {
    p => MovedBy(cfg, p, CellIn(st, p))
  }

  /**
   * The counters of a two-way run that has handled these paths: each counts the paths of its kind, apart
   * from those in error.
   */
  ghost predicate Tally(cfg: Config, st: State, r: RunResult, handled: set<Path>) {
    && (r.errors == [] ==> r.bytesCopied == Total(handled, MovedAt(cfg, st)))
    && Counts(r.errors == [], r.copied, |OfKind(cfg, st, handled, Copying)|)
    && Counts(r.errors == [], r.skipped, |OfKind(cfg, st, handled, Skipping)|)
    && Counts(r.errors == [], r.conflicts, |OfKind(cfg, st, handled, Conflicting)|)
    && Counts(r.errors == [], r.quarantined, |OfKind(cfg, st, handled, Quarantining)|)
  }

  predicate Counts(exactly: bool, counter: int, paths: nat) {
    0 <= counter <= paths && (exactly ==> counter == paths)
  }

  lemma OfKindNext(cfg: Config, st: State, handled: set<Path>, p: Path, k: PathKind)
    requires p !in handled
    ensures |OfKind(cfg, st, handled + {p}, k)|
            == |OfKind(cfg, st, handled, k)| + if Kind(cfg, p, CellIn(st, p)) == k then 1 else 0
  {
    hide CellIn, Kind;
    var before, after := OfKind(cfg, st, handled, k), OfKind(cfg, st, handled + {p}, k);
    if Kind(cfg, p, CellIn(st, p)) == k {
      assert after == before + {p};
    } else {
      assert after == before;
    }
  }

  lemma TallyNext(cfg: Config, st: State, r: RunResult, r': RunResult, handled: set<Path>, p: Path)
    requires Tally(cfg, st, r, handled) && p !in handled && (r'.errors == [] ==> r.errors == [])
    requires var k := Kind(cfg, p, CellIn(st, p));
             && Counts(r'.errors == [], r'.copied - r.copied, if k.Copying? then 1 else 0)
             && Counts(r'.errors == [], r'.skipped - r.skipped, if k.Skipping? then 1 else 0)
             && Counts(r'.errors == [], r'.conflicts - r.conflicts, if k.Conflicting? then 1 else 0)
             && Counts(r'.errors == [], r'.quarantined - r.quarantined, if k.Quarantining? then 1 else 0)
    requires r'.errors == [] ==> r'.bytesCopied == r.bytesCopied + MovedAt(cfg, st)(p)
    ensures Tally(cfg, st, r', handled + {p})
  {
    hide OfKind, Kind, CellIn, Total, MovedAt;
    TotalAdd(handled, p, MovedAt(cfg, st));
    OfKindNext(cfg, st, handled, p, Copying);
    OfKindNext(cfg, st, handled, p, Skipping);
    OfKindNext(cfg, st, handled, p, Conflicting);
    OfKindNext(cfg, st, handled, p, Quarantining);
  }

  function AfterStep(r: RunResult, p: Path, s: StepOutcome, conflict: bool): RunResult {
    var r' := if conflict then r.(conflicts := r.conflicts + 1) else r;
    match s
    case Copied(n) => r'.(copied := r'.copied + 1, bytesCopied := r'.bytesCopied + n)
    case ConflictHandled(n) => r'.(bytesCopied := r'.bytesCopied + n)
    case SkippedFile => r'.(skipped := r'.skipped + 1)
    case StepPaused(_) => r'.(paused := true)
    case StepFailed => r'.(errors := r'.errors + [p])
  }

  lemma SkipMovesNothing(cfg: Config, c: Cell)
    requires c.src.Some?
    ensures Decide(cfg, c).Relabel? || Decide(cfg, c).Leave? ==> Moved(cfg, c) == 0
  {
  }

  lemma TallyStep(cfg: Config, st: State, cur: State, next: State, r: RunResult, handled: set<Path>, p: Path,
                  s: StepOutcome, conflict: bool)
    requires Tally(cfg, st, r, handled) && p !in handled && CellIn(cur, p) == CellIn(st, p)
    requires StepCell(cfg, CellIn(cur, p), CellIn(next, p), s, conflict) && cfg.visible(p, CellIn(cur, p).src.value)
    ensures !s.StepPaused? ==> Tally(cfg, st, AfterStep(r, p, s, conflict), handled + {p})
  {
    hide CellIn, Tally, Decide, TwoWaySource, Moved;
    SkipMovesNothing(cfg, CellIn(cur, p));
    if !s.StepPaused? { TallyNext(cfg, st, r, AfterStep(r, p, s, conflict), handled, p); }
  }

  /** One source file. */
  method SourceTurn(cfg: Config, w: World, p: Path, env: Env, signal: PauseSignal,
                    ghost st: State, result0: RunResult, ghost handled: set<Path>)
    returns (result: RunResult)
    requires Sound(cfg) && w.src != w.dst && env.tmp !in w.src.files && env.tmp !in w.dst.files
    requires p in VisiblePaths(cfg, st.src) && p !in handled
    requires TwoWayAt(cfg, st, w.Now(), handled, result0.errors) && Tally(cfg, st, result0, handled)
    requires !result0.paused
    modifies w`manifest, w`history, w`conflicts, w.src, w.dst, signal
    ensures result.paused ==> AllReachable(cfg, st, w.Now()) && PausedRun(cfg, env.removeFails, st, w.Now(), result.errors)
    ensures !result.paused ==>
              TwoWayAt(cfg, st, w.Now(), handled + {p}, result.errors) && Tally(cfg, st, result, handled + {p})
    ensures env.tmp !in w.src.files && env.tmp !in w.dst.files
    ensures old(signal.checksLeft).None? ==> signal.checksLeft.None? && !result.paused
    ensures result.paused ==> signal.checksLeft == Some(0)
    ensures Calm(cfg, env) && !cfg.strategy.UnknownStrategy? && result0.errors == [] ==> result.errors == []
  {
    hide TwoWayAt, Tally, StepCell, AllReachable, CellIn, Reach, TwoWay, Sound, Calm, CalmAt, PausedRun, PausedReach;
    CalmMeans(cfg, env, p);
    result := result0;
    ghost var cur := w.Now();
    UntouchedYet(cfg, st, cur, handled, p, result.errors);
    var paused := signal.Check();
    if paused {
      TwoWayStop(cfg, env, st, cur, cur, handled, p, result.errors);
      result := result.(paused := true);
      return;
    }
    var s, conflict := SyncSource(cfg, w, p, env, signal);
    StepReaches(cfg, p, CellIn(cur, p), CellIn(w.Now(), p), s, conflict);
    TallyStep(cfg, st, cur, w.Now(), result, handled, p, s, conflict);
    ghost var errors := result.errors;
    result := AfterStep(result, p, s, conflict);
    if s.StepPaused? {
      TwoWayStop(cfg, env, st, cur, w.Now(), handled, p, errors);
      return;
    }
    TwoWayNext(cfg, st, cur, w.Now(), handled, p, errors, result.errors);
  }

  /** The loop over the source files. */
  method SourcePass(cfg: Config, w: World, files: seq<Path>, env: Env, signal: PauseSignal)
    returns (result: RunResult, done: nat, ghost handled: set<Path>)
    requires Sound(cfg) && w.src != w.dst && env.tmp !in w.src.files && env.tmp !in w.dst.files
    requires forall i, j :: 0 <= i < j < |files| ==> files[i] != files[j]
    requires forall p :: p in files ==> p in VisiblePaths(cfg, w.src.files)
    modifies w`manifest, w`history, w`conflicts, w.src, w.dst, signal
    ensures result.paused ==>
              AllReachable(cfg, old(w.Now()), w.Now()) && PausedRun(cfg, env.removeFails, old(w.Now()), w.Now(), result.errors)
    ensures !result.paused ==>
              && TwoWayAt(cfg, old(w.Now()), w.Now(), handled, result.errors)
              && (forall p :: p in handled <==> p in files) && done == |handled|
              && Tally(cfg, old(w.Now()), result, handled)
    ensures env.tmp !in w.src.files && env.tmp !in w.dst.files
    ensures old(signal.checksLeft).None? ==> signal.checksLeft.None? && !result.paused
    ensures result.paused ==> signal.checksLeft == Some(0)
    ensures Calm(cfg, env) && !cfg.strategy.UnknownStrategy? ==> result.errors == []
  {
    hide TwoWayAt, Tally, StepCell, AllReachable, CellIn, Reach, TwoWay, Sound, Calm, PausedRun, PausedReach;
    ghost var st := w.Now();
    result, done, handled := EMPTY_RESULT, 0, {};
    TwoWayStart(cfg, st);
    TallyStart(cfg, st);
    for i := 0 to |files|
      invariant env.tmp !in w.src.files && env.tmp !in w.dst.files && !result.paused
      invariant TwoWayAt(cfg, st, w.Now(), handled, result.errors) && Tally(cfg, st, result, handled)
      invariant forall p :: p in handled <==> p in files[..i]
      invariant done == |handled|
      invariant old(signal.checksLeft).None? ==> signal.checksLeft.None?
      invariant Calm(cfg, env) && !cfg.strategy.UnknownStrategy? ==> result.errors == []
    {
      var p := files[i];
      assert files[..i + 1] == files[..i] + [p];
      assert p !in files[..i];
      result := SourceTurn(cfg, w, p, env, signal, st, result, handled);
      if result.paused { return; }
      done, handled := done + 1, handled + {p};
    }
    assert files[..|files|] == files;
  }

  lemma TallyStart(cfg: Config, st: State)
    ensures Tally(cfg, st, EMPTY_RESULT, {})
  {
  }

  /** A path not handled yet is as before the run; a visible source file is still there. */
  lemma UntouchedYet(cfg: Config, st: State, cur: State, handled: set<Path>, p: Path, errors: seq<Path>)
    requires TwoWayAt(cfg, st, cur, handled, errors) && p !in handled
    ensures CellIn(cur, p) == CellIn(st, p) && Reach(cfg, p, CellIn(cur, p), CellIn(cur, p))
    ensures forall stays :: PausedReach(cfg, p, CellIn(cur, p), CellIn(cur, p), stays)
    ensures p in VisiblePaths(cfg, st.src) <==> p in VisiblePaths(cfg, cur.src)
    ensures p in VisiblePaths(cfg, st.dst) <==> p in VisiblePaths(cfg, cur.dst)
    ensures p in VisiblePaths(cfg, cur.src) ==>
              p in cur.src && CellIn(cur, p).src.Some? && cfg.visible(p, CellIn(cur, p).src.value)
    ensures p in VisiblePaths(cfg, cur.dst) ==> p in cur.dst
  {
    VisibleHasSource(cfg, st, p);
    VisibleHasSource(cfg, cur, p);
  }

  datatype ExtraOutcome = ExtraCopied(written: int) | ExtraQuarantined | ExtraIgnored | ExtraPaused(removed: bool) | ExtraFailed

  /** What one step of the destination loop makes of its path, by outcome. */
  predicate ExtraCell(cfg: Config, c: Cell, d: Cell, r: ExtraOutcome) {
    && c.dst.Some?
    && (r.ExtraCopied? || r.ExtraQuarantined? || r.ExtraIgnored? ==> d == TwoWayExtra(cfg, c))
    && (r.ExtraCopied? ==> c.entry.None? && r.written == |c.dst.value.data|)
    && (r.ExtraQuarantined? ==> c.entry.Some? && cfg.versions)
    && (r.ExtraIgnored? ==> c.entry.Some? && !cfg.versions)
    && (r.ExtraFailed? ==> d == c || (c.entry.None? && d == c.(src := d.src)))
    && (r.ExtraPaused? ==> c.entry.None? && LeftBehind(!r.removed, d.src, c.dst.value.data) && d == c.(src := d.src))
  }

  /** One file of the destination loop: new there, or deleted at the source. */
  method SyncExtra(cfg: Config, w: World, p: Path, env: Env, signal: PauseSignal) returns (r: ExtraOutcome)
    requires Sound(cfg) && w.src != w.dst && env.tmp !in w.src.files && env.tmp !in w.dst.files && env.tmp != p
    requires p in w.dst.files
    modifies w`manifest, w`quarantined, w.src, w.dst, signal
    ensures ExtraCell(cfg, CellIn(old(w.Now()), p), CellIn(w.Now(), p), r)
    ensures forall q :: q != p ==> CellIn(w.Now(), q) == CellIn(old(w.Now()), q)
    ensures env.tmp !in w.src.files && env.tmp !in w.dst.files
    ensures old(signal.checksLeft).None? ==> signal.checksLeft.None? && !r.ExtraPaused?
    ensures r.ExtraPaused? ==> signal.checksLeft == Some(0) && r.removed == !env.removeFails(p)
    ensures CalmAt(cfg, env, p) ==> !r.ExtraFailed?
  {
    if env.unreadable(p) { return ExtraFailed; }
    if p !in w.manifest {
      var t := CopyAcross(cfg, w, p, Source, w.dst.files[p].mtime, env, signal);
      match t
      case Done(written) => return ExtraCopied(written);
      case PausedMidFile(removed) => return ExtraPaused(removed);
      case Failed => return ExtraFailed;
    }
    if !cfg.versions { return ExtraIgnored; }
    if env.quarantineFails(p) { return ExtraFailed; }
    w.Quarantine(p);
    w.Forget(p);
    return ExtraQuarantined;
  }

  /** A step of the destination loop, seen from the whole run. */
  lemma ExtraReaches(cfg: Config, p: Path, c: Cell, d: Cell, r: ExtraOutcome)
    requires ExtraCell(cfg, c, d, r) && cfg.visible(p, c.dst.value) && !SourceVisible(cfg, p, c)
    ensures Reach(cfg, p, c, d)
    ensures !r.ExtraPaused? && !r.ExtraFailed? ==> d == TwoWay(cfg, p, c)
    ensures r.ExtraPaused? ==> PausedReach(cfg, p, c, d, !r.removed)
  {
  }

  function AfterExtra(r: RunResult, p: Path, s: ExtraOutcome): RunResult {
    match s
    case ExtraCopied(n) => r.(copied := r.copied + 1, bytesCopied := r.bytesCopied + n)
    case ExtraQuarantined => r.(quarantined := r.quarantined + 1)
    case ExtraIgnored => r
    case ExtraPaused(_) => r.(paused := true)
    case ExtraFailed => r.(errors := r.errors + [p])
  }

  lemma TallyExtra(cfg: Config, st: State, cur: State, next: State, r: RunResult, handled: set<Path>, p: Path, s: ExtraOutcome)
    requires Tally(cfg, st, r, handled) && p !in handled && CellIn(cur, p) == CellIn(st, p)
    requires ExtraCell(cfg, CellIn(cur, p), CellIn(next, p), s) && cfg.visible(p, CellIn(cur, p).dst.value)
    requires !SourceVisible(cfg, p, CellIn(cur, p))
    ensures !s.ExtraPaused? ==> Tally(cfg, st, AfterExtra(r, p, s), handled + {p})
  {
    hide CellIn, Tally, TwoWayExtra;
    if !s.ExtraPaused? { TallyNext(cfg, st, r, AfterExtra(r, p, s), handled, p); }
  }

  /** One destination file that the source did not show. */
  method ExtraTurn(cfg: Config, w: World, p: Path, env: Env, signal: PauseSignal,
                   ghost st: State, result0: RunResult, ghost handled: set<Path>)
    returns (result: RunResult)
    requires Sound(cfg) && w.src != w.dst && env.tmp !in w.src.files && env.tmp !in w.dst.files
    requires p in VisiblePaths(cfg, st.dst) && p !in VisiblePaths(cfg, st.src) && p !in handled
    requires TwoWayAt(cfg, st, w.Now(), handled, result0.errors) && Tally(cfg, st, result0, handled)
    requires !result0.paused
    modifies w`manifest, w`quarantined, w.src, w.dst, signal
    ensures result.paused ==> AllReachable(cfg, st, w.Now()) && PausedRun(cfg, env.removeFails, st, w.Now(), result.errors)
    ensures !result.paused ==>
              TwoWayAt(cfg, st, w.Now(), handled + {p}, result.errors) && Tally(cfg, st, result, handled + {p})
    ensures env.tmp !in w.src.files && env.tmp !in w.dst.files
    ensures old(signal.checksLeft).None? ==> !result.paused && signal.checksLeft.None?
    ensures result.paused ==> signal.checksLeft == Some(0)
    ensures Calm(cfg, env) && !cfg.strategy.UnknownStrategy? && result0.errors == [] ==> result.errors == []
  {
    hide TwoWayAt, Tally, ExtraCell, AllReachable, CellIn, Reach, TwoWay, Sound, VisiblePaths, Calm, CalmAt, PausedRun, PausedReach;
    CalmMeans(cfg, env, p);
    result := result0;
    ghost var cur := w.Now();
    UntouchedYet(cfg, st, cur, handled, p, result.errors);
    VisibleHasSource(cfg, cur, p);
    var paused := signal.Check();
    if paused {
      TwoWayStop(cfg, env, st, cur, cur, handled, p, result.errors);
      result := result.(paused := true);
      return;
    }
    var s := SyncExtra(cfg, w, p, env, signal);
    ExtraReaches(cfg, p, CellIn(cur, p), CellIn(w.Now(), p), s);
    TallyExtra(cfg, st, cur, w.Now(), result, handled, p, s);
    ghost var errors := result.errors;
    result := AfterExtra(result, p, s);
    if s.ExtraPaused? {
      TwoWayStop(cfg, env, st, cur, w.Now(), handled, p, errors);
      return;
    }
    TwoWayNext(cfg, st, cur, w.Now(), handled, p, errors, result.errors);
  }

  /** The loop over the destination files; those the source showed are skipped. */
  method ExtraLoop(cfg: Config, w: World, files: seq<Path>, destFiles: seq<Path>, env: Env, signal: PauseSignal,
                   ghost st: State, result0: RunResult, done0: nat, ghost handled0: set<Path>)
    returns (result: RunResult, done: nat, ghost handled: set<Path>)
    requires Sound(cfg) && w.src != w.dst && env.tmp !in w.src.files && env.tmp !in w.dst.files
    requires forall i, j :: 0 <= i < j < |destFiles| ==> destFiles[i] != destFiles[j]
    requires forall p :: p in destFiles ==> p in VisiblePaths(cfg, st.dst)
    requires forall p :: p in files <==> p in VisiblePaths(cfg, st.src)
    requires TwoWayAt(cfg, st, w.Now(), handled0, result0.errors) && Tally(cfg, st, result0, handled0)
    requires (forall p :: p in handled0 <==> p in files) && !result0.paused && done0 == |handled0|
    modifies w`manifest, w`quarantined, w.src, w.dst, signal
    ensures result.paused ==> AllReachable(cfg, st, w.Now()) && PausedRun(cfg, env.removeFails, st, w.Now(), result.errors)
    ensures !result.paused ==>
              && TwoWayAt(cfg, st, w.Now(), handled, result.errors)
              && (forall p :: p in handled <==> p in files || p in destFiles) && done == |handled|
              && Tally(cfg, st, result, handled)
    ensures env.tmp !in w.src.files && env.tmp !in w.dst.files
    ensures old(signal.checksLeft).None? ==> !result.paused
    ensures result.paused ==> signal.checksLeft == Some(0)
    ensures Calm(cfg, env) && !cfg.strategy.UnknownStrategy? && result0.errors == [] ==> result.errors == []
  {
    hide TwoWayAt, Tally, ExtraCell, AllReachable, CellIn, Reach, TwoWay, Sound, VisiblePaths, Calm, PausedRun, PausedReach;
    result, done, handled := result0, done0, handled0;
    for k := 0 to |destFiles|
      invariant env.tmp !in w.src.files && env.tmp !in w.dst.files && !result.paused
      invariant TwoWayAt(cfg, st, w.Now(), handled, result.errors) && Tally(cfg, st, result, handled)
      invariant forall p :: p in handled <==> p in files || p in destFiles[..k]
      invariant done == |handled|
      invariant old(signal.checksLeft).None? ==> signal.checksLeft.None?
      invariant Calm(cfg, env) && !cfg.strategy.UnknownStrategy? && result0.errors == [] ==> result.errors == []
    {
      var p := destFiles[k];
      assert destFiles[..k + 1] == destFiles[..k] + [p];
      if p in files { continue; }
      assert p !in destFiles[..k];
      result := ExtraTurn(cfg, w, p, env, signal, st, result, handled);
      if result.paused { return; }
      done, handled := done + 1, handled + {p};
    }
    assert destFiles[..|destFiles|] == destFiles;
  }

  /** What a complete two-way run promises. */
  ghost predicate TwoWayDone(cfg: Config, st: State, cur: State, errors: seq<Path>) {
    forall p :: p !in errors ==> CellIn(cur, p) == TwoWay(cfg, p, CellIn(st, p))
  }

  lemma AllHandled(cfg: Config, st: State, cur: State, handled: set<Path>, errors: seq<Path>)
    requires TwoWayAt(cfg, st, cur, handled, errors)
    requires forall p :: p in handled <==> p in VisiblePaths(cfg, st.src) + VisiblePaths(cfg, st.dst)
    ensures TwoWayDone(cfg, st, cur, errors)
  {
    hide CellIn, Reach, TwoWaySource, TwoWayExtra;
    forall p | p !in handled
      ensures CellIn(cur, p) == TwoWay(cfg, p, CellIn(st, p))
    {
      VisibleHasSource(cfg, st, p);
    }
  }

  lemma {:induction false} KindsPartition(cfg: Config, st: State, paths: set<Path>)
    requires cfg.versions && forall p :: p in paths ==> !Kind(cfg, p, CellIn(st, p)).Hidden?
    ensures |OfKind(cfg, st, paths, Copying)| + |OfKind(cfg, st, paths, Skipping)|
            + |OfKind(cfg, st, paths, Conflicting)| + |OfKind(cfg, st, paths, Quarantining)| == |paths|
  {
    hide OfKind, CellIn;
    if |paths| == 0 {
      NoneOfKind(cfg, st, paths);
    } else {
      var p :| p in paths;
      var rest := paths - {p};
      KindsPartition(cfg, st, rest);
      assert rest + {p} == paths;
      OfKindNext(cfg, st, rest, p, Copying);
      OfKindNext(cfg, st, rest, p, Skipping);
      OfKindNext(cfg, st, rest, p, Conflicting);
      OfKindNext(cfg, st, rest, p, Quarantining);
    }
  }

  lemma NoneOfKind(cfg: Config, st: State, paths: set<Path>)
    requires |paths| == 0
    ensures forall k :: OfKind(cfg, st, paths, k) == {}
  {
    hide Kind, CellIn;
    assert paths == {};
  }

  /** With version support every handled path is counted once. */
  lemma TallySum(cfg: Config, st: State, r: RunResult, handled: set<Path>)
    requires Tally(cfg, st, r, handled)
    requires forall p :: p in handled <==> p in VisiblePaths(cfg, st.src) + VisiblePaths(cfg, st.dst)
    ensures r.errors == [] && cfg.versions ==> r.copied + r.skipped + r.conflicts + r.quarantined == |handled|
  {
    hide OfKind, CellIn, VisiblePaths, Decide;
    if cfg.versions {
      forall p | p in handled
        ensures !Kind(cfg, p, CellIn(st, p)).Hidden?
      {
        VisibleHasSource(cfg, st, p);
      }
      KindsPartition(cfg, st, handled);
    }
  }

  /** A two-way run. */
  method RunTwoWay(cfg: Config, w: World, env: Env, signal: PauseSignal) returns (result: RunResult, done: nat)
    requires Sound(cfg) && w.src != w.dst && env.tmp !in w.src.files && env.tmp !in w.dst.files
    modifies w`manifest, w`history, w`conflicts, w`quarantined, w.src, w.dst, signal
    ensures AllReachable(cfg, old(w.Now()), w.Now())
    ensures result.paused ==> PausedRun(cfg, env.removeFails, old(w.Now()), w.Now(), result.errors)
    ensures !result.paused ==> TwoWayDone(cfg, old(w.Now()), w.Now(), result.errors)
    ensures !result.paused ==>
              var all := VisiblePaths(cfg, old(w.src.files)) + VisiblePaths(cfg, old(w.dst.files));
              && Tally(cfg, old(w.Now()), result, all) && done == |all|
              && (result.errors == [] && cfg.versions ==>
                    result.copied + result.skipped + result.conflicts + result.quarantined == done)
    ensures old(signal.checksLeft).None? ==> !result.paused
    ensures result.paused ==> signal.checksLeft == Some(0)
    ensures Calm(cfg, env) && !cfg.strategy.UnknownStrategy? ==> result.errors == []
    ensures env.tmp !in w.src.files && env.tmp !in w.dst.files
  {
    hide TwoWayAt, Tally, OfKind, AllReachable, PausedRun, CellIn, TwoWayDone, Sound, Calm;
    ghost var st := w.Now();
    var files := Scan(cfg, w.src);
    var destFiles := Scan(cfg, w.dst);
    ghost var handled;
    result, done, handled := SourcePass(cfg, w, files, env, signal);
    if result.paused { return; }
    result, done, handled := ExtraLoop(cfg, w, files, destFiles, env, signal, st, result, done, handled);
    if result.paused { return; }
    TwoWayEnd(cfg, st, w.Now(), handled, result.errors);
    assert handled == VisiblePaths(cfg, st.src) + VisiblePaths(cfg, st.dst);
    AllHandled(cfg, st, w.Now(), handled, result.errors);
    TallySum(cfg, st, result, handled);
  }

  // ---- What whole runs promise ----

  /**
   * After a complete error-free run with an automatic strategy, with whatever filters, a visible path has
   * converged if and only if it was not stuck and not a synced source file that is hidden now; stuck and
   * invisible paths are untouched.
   */
  lemma RunConverges(cfg: Config, st: State, cur: State)
    requires Sound(cfg) && AutoResolves(cfg) && cfg.versions && TwoWayDone(cfg, st, cur, [])
    ensures forall p :: var c, d := CellIn(st, p), CellIn(cur, p);
              if !Visible(cfg, p, c) || Stuck(cfg, c) then d == c
              else Converged(cfg, d) <==> !HiddenSynced(cfg, p, c)
    ensures PathOnly(cfg) ==> forall p :: var c, d := CellIn(st, p), CellIn(cur, p);
              Visible(cfg, p, c) && !Stuck(cfg, c) ==> Converged(cfg, d)
  {
    hide CellIn, Converged, Stuck, HiddenSynced, Sound, PathOnly, TwoWaySource, TwoWayExtra;
    forall p
      ensures var c, d := CellIn(st, p), CellIn(cur, p);
              if !Visible(cfg, p, c) || Stuck(cfg, c) then d == c
              else Converged(cfg, d) <==> !HiddenSynced(cfg, p, c)
      ensures var c, d := CellIn(st, p), CellIn(cur, p);
              PathOnly(cfg) && Visible(cfg, p, c) && !Stuck(cfg, c) ==> Converged(cfg, d)
    {
      if Visible(cfg, p, CellIn(st, p)) {
        TwoWayConvergesIff(cfg, p, CellIn(st, p));
        if PathOnly(cfg) { TwoWayConverges(cfg, p, CellIn(st, p)); }
      }
    }
  }

  /**
   * Running again at once, with whatever filters, changes a path if and only if the first run copied it back
   * so that it hides itself; its destination file then goes to quarantine. Otherwise only a conflict left
   * open may have one more version stored, and with an automatic strategy nothing changes at all.
   */
  lemma SecondRunChangesNothing(cfg: Config, st: State, cur: State, next: State)
    requires Sound(cfg) && !cfg.strategy.UnknownStrategy?
    requires forall p :: OnePending(CellIn(st, p).conflicts)
    requires TwoWayDone(cfg, st, cur, []) && TwoWayDone(cfg, cur, next, [])
    ensures forall p :: CellIn(next, p).(history := CellIn(cur, p).history) == CellIn(cur, p)
                        <==> !HidingPull(cfg, p, CellIn(st, p))
    ensures AutoResolves(cfg) ==>
              forall p :: Settled(cfg, p, CellIn(cur, p))
                          && (CellIn(next, p) == CellIn(cur, p) <==> !HidingPull(cfg, p, CellIn(st, p)))
    ensures forall p :: HidingPull(cfg, p, CellIn(st, p)) ==>
              CellIn(next, p).dst.None? && CellIn(st, p).dst.value.data in CellIn(next, p).quarantined
  {
    hide CellIn, Settled, Sound, TwoWay, OnePending, HidingPull;
    forall p
      ensures CellIn(next, p).(history := CellIn(cur, p).history) == CellIn(cur, p) <==> !HidingPull(cfg, p, CellIn(st, p))
      ensures AutoResolves(cfg) ==>
                Settled(cfg, p, CellIn(cur, p))
                && (CellIn(next, p) == CellIn(cur, p) <==> !HidingPull(cfg, p, CellIn(st, p)))
      ensures HidingPull(cfg, p, CellIn(st, p)) ==>
                CellIn(st, p).dst.Some?
                && CellIn(next, p).dst.None? && CellIn(st, p).dst.value.data in CellIn(next, p).quarantined
    {
      HidingPullHasDestination(cfg, p, CellIn(st, p));
      TwoWayIdempotentIff(cfg, p, CellIn(st, p));
      TwoWaySettles(cfg, p, CellIn(st, p));
    }
  }

  lemma HidingPullHasDestination(cfg: Config, p: Path, c: Cell)
    ensures HidingPull(cfg, p, c) ==> c.dst.Some?
  {
  }

  /**
   * No run, whether it completes, is paused or breaks off in any file, loses a destination content: it is
   * still on one of the two sides, stored as a version, or in quarantine. (Later versions of the same
   * path may prune it.)
   */
  lemma RunKeepsDestinations(cfg: Config, st: State, cur: State)
    requires Sound(cfg) && cfg.versions && AllReachable(cfg, st, cur)
    ensures forall p :: CellIn(st, p).dst.Some? ==> Kept(CellIn(st, p).dst.value.data, CellIn(cur, p))
  {
    hide CellIn, Kept, Sound;
    forall p | CellIn(st, p).dst.Some?
      ensures Kept(CellIn(st, p).dst.value.data, CellIn(cur, p))
    {
      ReachKeepsDestination(cfg, p, CellIn(st, p), CellIn(cur, p));
    }
  }

  lemma ReachKeepsDestination(cfg: Config, p: Path, c: Cell, d: Cell)
    requires Sound(cfg) && cfg.versions && Reach(cfg, p, c, d) && c.dst.Some?
    ensures Kept(c.dst.value.data, d)
  {
    hide Sound;
    if SourceVisible(cfg, p, c) {
      if Target(cfg, c) == Some(Destination) {
        PushKeepsDestination(cfg, c, d.dst);
      }
    } else if cfg.visible(p, c.dst.value) {
      ExtraKeepsDestination(cfg, c);
    }
  }

  /** Where a run may overwrite the source: a conflict settled for the destination, or a hidden file it does not see. */
  predicate MayOverwriteSource(cfg: Config, p: Path, c: Cell)
    requires c.src.Some?
  {
    if cfg.visible(p, c.src.value) then Decide(cfg, c).Conflict? && Target(cfg, c) == Some(Source)
    else c.dst.Some? && cfg.visible(p, c.dst.value) && c.entry.None?
  }

  /** Nor does any run lose a source content, with whatever filters, at other paths than those. */
  lemma RunKeepsSources(cfg: Config, st: State, cur: State)
    requires Sound(cfg) && cfg.versions && AllReachable(cfg, st, cur)
    ensures forall p :: CellIn(st, p).src.Some? && !MayOverwriteSource(cfg, p, CellIn(st, p)) ==>
              Kept(CellIn(st, p).src.value.data, CellIn(cur, p))
  {
    hide CellIn, Kept, Sound, MayOverwriteSource;
    forall p | CellIn(st, p).src.Some? && !MayOverwriteSource(cfg, p, CellIn(st, p))
      ensures Kept(CellIn(st, p).src.value.data, CellIn(cur, p))
    {
      ReachKeepsSource(cfg, p, CellIn(st, p), CellIn(cur, p));
    }
  }

  lemma ReachKeepsSource(cfg: Config, p: Path, c: Cell, d: Cell)
    requires Sound(cfg) && cfg.versions && Reach(cfg, p, c, d) && c.src.Some? && !MayOverwriteSource(cfg, p, c)
    ensures Kept(c.src.value.data, d)
  {
    if SourceVisible(cfg, p, c) && Decide(cfg, c).Pull? { PullKeepsSource(cfg, c, d.src); }
  }

  /** The source content was stored before, or will be together with the destination's. */
  predicate Stored(cfg: Config, p: Path, c: Cell)
    requires c.src.Some? && c.dst.Some?
  {
    var data := c.src.value.data;
    || data in c.quarantined
    || (if cfg.visible(p, c.src.value) then data in Saved(cfg, c.history, c.dst)
        else data in c.history || data == c.dst.value.data)
  }

  /** At those paths a complete error-free run keeps the source content if and only if it is stored otherwise. */
  lemma SourceKeptIff(cfg: Config, st: State, cur: State, p: Path)
    requires Sound(cfg) && cfg.versions && TwoWayDone(cfg, st, cur, []) && CellIn(st, p).src.Some?
    ensures Kept(CellIn(st, p).src.value.data, CellIn(cur, p)) <==>
              !MayOverwriteSource(cfg, p, CellIn(st, p)) || (CellIn(st, p).dst.Some? && Stored(cfg, p, CellIn(st, p)))
  {
    hide CellIn, Kept, Sound, Saved;
    var c := CellIn(st, p);
    assert CellIn(cur, p) == TwoWay(cfg, p, c);
    if !MayOverwriteSource(cfg, p, c) {
      ReachKeepsSource(cfg, p, c, CellIn(cur, p));
    } else if cfg.visible(p, c.src.value) {
      ConflictHasDestination(cfg, c);
      ConflictLoserKeptIff(cfg, c);
    } else {
      HiddenSourceIsOverwritten(cfg, p, c);
    }
  }

  lemma ConflictHasDestination(cfg: Config, c: Cell)
    requires c.src.Some? && Target(cfg, c) == Some(Source)
    ensures c.dst.Some?
    ensures Decide(cfg, c).Conflict? ==> Winner(cfg, c) == Some(Destination)
  {
  }

  /** Every run, however it ends, keeps the promise of one pending conflict per path. */
  lemma RunsKeepOnePending(cfg: Config, st: State, cur: State)
    requires AllReachable(cfg, st, cur) && forall p :: OnePending(CellIn(st, p).conflicts)
    ensures forall p :: OnePending(CellIn(cur, p).conflicts)
  {
    hide CellIn, OnePending;
    forall p
      ensures OnePending(CellIn(cur, p).conflicts)
    {
      ReachKeepsOnePending(cfg, p, CellIn(st, p), CellIn(cur, p));
    }
  }

  lemma ReachKeepsOnePending(cfg: Config, p: Path, c: Cell, d: Cell)
    requires Reach(cfg, p, c, d) && OnePending(c.conflicts)
    ensures OnePending(d.conflicts)
  {
    hide OnePending, Recorded, Closed;
    if c.src.Some? { AfterKeepsOnePending(cfg, c); }
  }

  lemma AfterKeepsOnePending(cfg: Config, c: Cell)
    requires c.src.Some? && OnePending(c.conflicts)
    ensures OnePending(ConflictsAfter(cfg, c))
  {
    hide OnePending, Recorded, Closed;
    if c.dst.Some? {
      var h, k := cfg.hash(c.src.value.data), cfg.hash(c.dst.value.data);
      RecordKeepsOnePending(c.conflicts, h, k, h);
      CloseLeavesNonePending(Recorded(c.conflicts, h, k), AutoResolved);
    }
  }

  /** The paths a run would report as conflicts. */
  ghost function ConflictPaths(cfg: Config, st: State): set<Path> {
    OfKind(cfg, st, VisiblePaths(cfg, st.src) + VisiblePaths(cfg, st.dst), Conflicting)
  }

  /** The paths whose copy back hides itself. */
  ghost function HidingPulls(cfg: Config, st: State): set<Path> {
    set p | p in VisiblePaths(cfg, st.src) + VisiblePaths(cfg, st.dst) && HidingPull(cfg, p, CellIn(st, p))
  }

  lemma PathOnlyPullsNothingAway(cfg: Config, st: State)
    requires PathOnly(cfg)
    ensures HidingPulls(cfg, st) == {}
  {
    forall p
      ensures !HidingPull(cfg, p, CellIn(st, p))
    {
      PathOnlyHidesNoPull(cfg, p, CellIn(st, p));
    }
  }

  /**
   * After a run nothing is left to copy, only what was left to the user is in conflict, and only a copy back
   * that hides itself is left to quarantine.
   */
  lemma KindAfter(cfg: Config, p: Path, c: Cell)
    requires Sound(cfg) && !cfg.strategy.UnknownStrategy?
    ensures var k := Kind(cfg, p, TwoWay(cfg, p, c));
            && !k.Copying?
            && (k.Quarantining? <==> HidingPull(cfg, p, c))
            && (k.Conflicting? <==> cfg.strategy.AskUser? && Kind(cfg, p, c).Conflicting?)
  {
    hide TwoWay, Sound, HidingPull;
    var d := TwoWay(cfg, p, c);
    TwoWaySettles(cfg, p, c);
    ExposedAfterIff(cfg, p, c);
    SettledKind(cfg, p, d);
    if cfg.strategy.AskUser? && Kind(cfg, p, c).Conflicting? {
      OpenStaysOpen(cfg, p, c);
      ConflictIsNotHiding(cfg, p, c);
    } else {
      assert Settled(cfg, p, d);
    }
  }

  lemma SettledKind(cfg: Config, p: Path, c: Cell)
    requires Sound(cfg)
    ensures Settled(cfg, p, c) ==> if Exposed(cfg, p, c) then Kind(cfg, p, c).Quarantining? else Kind(cfg, p, c) in {Skipping, Ignoring, Hidden}
  {
    if Settled(cfg, p, c) { SettledIsFixedIff(cfg, p, c); }
  }

  lemma ConflictIsNotHiding(cfg: Config, p: Path, c: Cell)
    ensures Kind(cfg, p, c).Conflicting? ==> !HidingPull(cfg, p, c)
  {
  }

  lemma OpenStaysOpen(cfg: Config, p: Path, c: Cell)
    requires cfg.strategy.AskUser? && Kind(cfg, p, c).Conflicting?
    ensures Kind(cfg, p, TwoWay(cfg, p, c)).Conflicting?
  {
  }

  lemma KindsAfterRun(cfg: Config, st: State, cur: State)
    requires Sound(cfg) && !cfg.strategy.UnknownStrategy? && TwoWayDone(cfg, st, cur, [])
    ensures forall paths :: OfKind(cfg, cur, paths, Copying) == {}
    ensures OfKind(cfg, cur, VisiblePaths(cfg, cur.src) + VisiblePaths(cfg, cur.dst), Quarantining) == HidingPulls(cfg, st)
    ensures ConflictPaths(cfg, cur) == if cfg.strategy.AskUser? then ConflictPaths(cfg, st) else {}
  {
    hide CellIn, Kind, TwoWay, Sound, VisiblePaths, HidingPull;
    forall p
      ensures !Kind(cfg, p, CellIn(cur, p)).Copying?
      ensures Kind(cfg, p, CellIn(cur, p)).Quarantining? <==> HidingPull(cfg, p, CellIn(st, p))
      ensures Kind(cfg, p, CellIn(cur, p)).Conflicting? <==> cfg.strategy.AskUser? && Kind(cfg, p, CellIn(st, p)).Conflicting?
      ensures Kind(cfg, p, CellIn(cur, p)).Conflicting? ==> p in VisiblePaths(cfg, cur.src)
      ensures Kind(cfg, p, CellIn(cur, p)).Quarantining? ==> p in VisiblePaths(cfg, cur.dst)
      ensures Kind(cfg, p, CellIn(st, p)).Conflicting? ==> p in VisiblePaths(cfg, st.src)
      ensures HidingPull(cfg, p, CellIn(st, p)) ==> p in VisiblePaths(cfg, st.src)
    {
      KindAfter(cfg, p, CellIn(st, p));
      KindIsVisible(cfg, cur, p);
      KindIsVisible(cfg, st, p);
    }
  }

  lemma KindIsVisible(cfg: Config, st: State, p: Path)
    ensures Kind(cfg, p, CellIn(st, p)).Conflicting? || HidingPull(cfg, p, CellIn(st, p)) ==> p in VisiblePaths(cfg, st.src)
    ensures Kind(cfg, p, CellIn(st, p)).Quarantining? ==> p in VisiblePaths(cfg, st.dst)
  {
    VisibleHasSource(cfg, st, p);
  }

  /** A second run whose filters may have changed their mind, over whole states. */
  lemma LaterRunChanges(cfg: Config, later: (Path, File) -> bool, st: State, cur: State, next: State)
    requires Sound(cfg) && !cfg.strategy.UnknownStrategy?
    requires TwoWayDone(cfg, st, cur, []) && TwoWayDone(AtTime(cfg, later), cur, next, [])
    ensures forall p :: var d := CellIn(cur, p);
              CellIn(next, p).(history := d.history) == d
              <==> (Settled(AtTime(cfg, later), p, d) && !Exposed(AtTime(cfg, later), p, d)) || Open(AtTime(cfg, later), p, d)
    ensures AutoResolves(cfg) ==>
              forall p :: Visible(cfg, p, CellIn(st, p)) && !HiddenSynced(cfg, p, CellIn(st, p)) ==>
                (CellIn(next, p) == CellIn(cur, p) <==> !Exposed(AtTime(cfg, later), p, CellIn(cur, p)))
  {
    hide CellIn, Settled, Exposed, Open, Visible, HiddenSynced, Sound, TwoWay;
    forall p
      ensures var d := CellIn(cur, p);
              CellIn(next, p).(history := d.history) == d
              <==> (Settled(AtTime(cfg, later), p, d) && !Exposed(AtTime(cfg, later), p, d)) || Open(AtTime(cfg, later), p, d)
      ensures AutoResolves(cfg) && Visible(cfg, p, CellIn(st, p)) && !HiddenSynced(cfg, p, CellIn(st, p)) ==>
                (CellIn(next, p) == CellIn(cur, p) <==> !Exposed(AtTime(cfg, later), p, CellIn(cur, p)))
    {
      LaterRunIff(cfg, later, p, CellIn(st, p));
    }
  }

  /**
   * Two complete runs in a row, when the filters may judge every file differently the second time. Error-free,
   * the second leaves a path as it is if and only if it is settled and not exposed by then; where the first
   * saw it and did not take it for deleted at the source, only exposure counts.
   */
  method RunAgainLater(cfg: Config, later: (Path, File) -> bool, w: World, first: Env, second: Env)
    returns (r1: RunResult, r2: RunResult, ghost cur: State)
    requires Sound(cfg) && !cfg.strategy.UnknownStrategy? && w.src != w.dst
    requires first.tmp == second.tmp && first.tmp !in w.src.files && first.tmp !in w.dst.files
    modifies w`manifest, w`history, w`conflicts, w`quarantined, w.src, w.dst
    ensures Calm(cfg, first) ==> r1.errors == []
    ensures Calm(AtTime(cfg, later), second) ==> r2.errors == []
    ensures r1.errors == [] ==> TwoWayDone(cfg, old(w.Now()), cur, [])
    ensures r1.errors == [] && r2.errors == [] ==>
              && (forall p :: var d, then_ := CellIn(cur, p), AtTime(cfg, later);
                    CellIn(w.Now(), p).(history := d.history) == d
                    <==> (Settled(then_, p, d) && !Exposed(then_, p, d)) || Open(then_, p, d))
              && (AutoResolves(cfg) ==>
                    forall p :: Visible(cfg, p, CellIn(old(w.Now()), p)) && !HiddenSynced(cfg, p, CellIn(old(w.Now()), p)) ==>
                      (CellIn(w.Now(), p) == CellIn(cur, p) <==> !Exposed(AtTime(cfg, later), p, CellIn(cur, p))))
  {
    hide CellIn, AllReachable, Settled, TwoWay, Calm, OfKind, TwoWayDone, Exposed, Open, Visible, HiddenSynced, Tally;
    ghost var st := w.Now();
    var never := new PauseSignal(None);
    var done: nat;
    r1, done := RunTwoWay(cfg, w, first, never);
    cur := w.Now();
    never := new PauseSignal(None);
    r2, done := RunTwoWay(AtTime(cfg, later), w, second, never);
    if r1.errors == [] && r2.errors == [] { LaterRunChanges(cfg, later, st, cur, w.Now()); }
  }

  /** What the counters of two runs in a row say. */
  lemma SecondTally(cfg: Config, st: State, cur: State, r1: RunResult, r2: RunResult)
    requires Sound(cfg) && !cfg.strategy.UnknownStrategy? && TwoWayDone(cfg, st, cur, []) && r1.errors == []
    requires Tally(cfg, st, r1, VisiblePaths(cfg, st.src) + VisiblePaths(cfg, st.dst))
    requires Tally(cfg, cur, r2, VisiblePaths(cfg, cur.src) + VisiblePaths(cfg, cur.dst))
    ensures r1.conflicts == |ConflictPaths(cfg, st)| && r2.copied == 0
    ensures Counts(r2.errors == [], r2.conflicts, if cfg.strategy.AskUser? then r1.conflicts else 0)
    ensures Counts(r2.errors == [], r2.quarantined, |HidingPulls(cfg, st)|)
    ensures PathOnly(cfg) ==> r2.quarantined == 0
  {
    hide CellIn, OfKind, TwoWayDone, HidingPull, HidingPulls, PathOnly, VisiblePaths, Sound;
    KindsAfterRun(cfg, st, cur);
    if PathOnly(cfg) { PathOnlyPullsNothingAway(cfg, st); }
  }

  /**
   * Two complete runs in a row, with whatever filters: when the first has no errors the second copies
   * nothing, reports again exactly the conflicts the first left to the user, and quarantines exactly the
   * files whose copy back hides itself. At other paths it changes no file, manifest entry or conflict row.
   * With path-only filters it quarantines nothing.
   */
  method RunTwice(cfg: Config, w: World, first: Env, second: Env) returns (r1: RunResult, r2: RunResult)
    requires Sound(cfg) && !cfg.strategy.UnknownStrategy? && w.src != w.dst
    requires first.tmp == second.tmp && first.tmp !in w.src.files && first.tmp !in w.dst.files
    requires forall p :: OnePending(CellIn(w.Now(), p).conflicts)
    modifies w`manifest, w`history, w`conflicts, w`quarantined, w.src, w.dst
    ensures Calm(cfg, first) ==> r1.errors == []
    ensures Calm(cfg, second) ==> r2.errors == []
    ensures r1.errors == [] ==>
              && r1.conflicts == |ConflictPaths(cfg, old(w.Now()))|
              && r2.copied == 0
              && Counts(r2.errors == [], r2.conflicts, if cfg.strategy.AskUser? then r1.conflicts else 0)
              && Counts(r2.errors == [], r2.quarantined, |HidingPulls(cfg, old(w.Now()))|)
              && (PathOnly(cfg) ==> r2.quarantined == 0)
    ensures r1.errors == [] && r2.errors == [] ==>
              forall p :: var c := CellIn(old(w.Now()), p);
                var d := TwoWay(cfg, p, c);
                !HidingPull(cfg, p, c) ==>
                  CellIn(w.Now(), p).(history := d.history) == d && (AutoResolves(cfg) ==> CellIn(w.Now(), p) == d)
  {
    hide CellIn, AllReachable, Settled, TwoWay, Calm, OfKind, TwoWayDone, HidingPull, HidingPulls, PathOnly, Tally, VisiblePaths,
      ConflictPaths, Counts, PausedRun, Sound, OnePending;
    ghost var st := w.Now();
    var never := new PauseSignal(None);
    var done: nat;
    r1, done := RunTwoWay(cfg, w, first, never);
    ghost var cur := w.Now();
    never := new PauseSignal(None);
    r2, done := RunTwoWay(cfg, w, second, never);
    if r1.errors == [] {
      SecondTally(cfg, st, cur, r1, r2);
      if r2.errors == [] {
        SecondRunChangesNothing(cfg, st, cur, w.Now());
        DoneMeans(cfg, st, cur);
      }
    }
  }

  lemma DoneMeans(cfg: Config, st: State, cur: State)
    requires TwoWayDone(cfg, st, cur, [])
    ensures forall p :: CellIn(cur, p) == TwoWay(cfg, p, CellIn(st, p))
  {
    hide CellIn, TwoWay;
  }
}
