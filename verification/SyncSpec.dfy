/**
 * What one run does to one path when nothing fails and nobody pauses it, as functions on cells, and
 * what these functions promise. The run loops in Engine are proved to apply them to every path.
 */
module SyncSpec {
  import opened Prelude
  import opened Disks
  import opened Worlds
  import opened Conflicts

  // ---- One-way modes ----

  function Seconds(mtime: int): int {
    mtime / 1_000_000_000
  }

  function MtimeMatch(a: int, b: int): bool {
    Seconds(a) == Seconds(b)
  }

  function EntryOf(cfg: Config, f: File): Entry {
    Entry(cfg.hash(f.data), |f.data|, f.mtime)
  }

  /** Whether a file is considered unchanged and left alone. */
  predicate Skips(cfg: Config, c: Cell)
    requires c.src.Some?
  {
    var f := c.src.value;
    && c.entry.Some? && c.dst.Some?
    && if cfg.fullChecksum then c.entry.value.hash == cfg.hash(f.data)
       else |f.data| == c.entry.value.size && MtimeMatch(f.mtime, c.entry.value.mtime)
  }

  /** The mtime a copy ends up with: the source's on a local destination, the current time elsewhere. */
  function CopyTime(cfg: Config, now: int, mtime: int): int {
    if cfg.localDest then mtime else now
  }

  /** Backup and mirror, for a path that the source has. */
  function OneWay(cfg: Config, now: int, c: Cell): Cell
    requires c.src.Some?
  {
    if Skips(cfg, c) then c
    else c.(dst := Some(File(c.src.value.data, CopyTime(cfg, now, c.src.value.mtime))),
            entry := Some(EntryOf(cfg, c.src.value)))
  }

  /** Mirror, for a path that only the destination has. */
  function MirrorExtra(cfg: Config, c: Cell): Cell
    requires c.dst.Some?
  {
    if cfg.localDest && cfg.versions
    then c.(dst := None, entry := None, quarantined := c.quarantined + [c.dst.value.data])
    else c.(dst := None, entry := None)
  }

  /** The manifest tells the truth about the destination. */
  predicate Truthful(cfg: Config, c: Cell) {
    c.entry.Some? && c.dst.Some? ==> c.entry.value.hash == cfg.hash(c.dst.value.data)
  }

  /** The fast path identifies the source content: equal size and second mean equal content. */
  predicate Identifies(cfg: Config, c: Cell) {
    c.src.Some? && c.entry.Some? && |c.src.value.data| == c.entry.value.size
    && MtimeMatch(c.src.value.mtime, c.entry.value.mtime)
    ==> c.entry.value.hash == cfg.hash(c.src.value.data)
  }

  function Content(f: Option<File>): Option<bytes> {
    if f.Some? then Some(f.value.data) else None
  }

  /**
   * Whether a finished file has the source content at the destination is decided by what the manifest
   * says beforehand. With full checksums, or where size and second identify the source, it fails exactly for a skipped file whose
   * entry no longer describes the destination; where the entry describes the destination, exactly for a
   * skipped file whose size and second hide a change of the source.
   */
  lemma OneWayExactIff(cfg: Config, now: int, c: Cell)
    requires Sound(cfg) && c.src.Some?
    ensures cfg.fullChecksum || Identifies(cfg, c) ==>
              (Content(OneWay(cfg, now, c).dst) == Content(c.src) <==> !(Skips(cfg, c) && !Truthful(cfg, c)))
    ensures Truthful(cfg, c) ==>
              (Content(OneWay(cfg, now, c).dst) == Content(c.src) <==> !(Skips(cfg, c) && !Identifies(cfg, c)))
  {
  }

  /** A destination file that someone changed after its sync is skipped, in both modes, and goes on differing. */
  lemma DriftIsNotNoticed(cfg: Config, now: int, synced: File, changed: File)
    requires synced.data != changed.data && Sound(cfg)
    ensures var c := Cell(Some(synced), Some(changed), Some(EntryOf(cfg, synced)), [], [], []);
            && Identifies(cfg, c) && !Truthful(cfg, c) && Skips(cfg, c)
            && OneWay(cfg, now, c) == c && Content(c.dst) != Content(c.src)
  {
  }

  /** A source file edited within the second, to the same size, is skipped unless contents are compared. */
  lemma QuickEditIsNotNoticed(cfg: Config, now: int, synced: File, edited: File)
    requires synced.data != edited.data && |synced.data| == |edited.data| && MtimeMatch(edited.mtime, synced.mtime)
    requires Sound(cfg)
    ensures var c := Cell(Some(edited), Some(synced), Some(EntryOf(cfg, synced)), [], [], []);
            && Truthful(cfg, c) && !Identifies(cfg, c)
            && (Content(OneWay(cfg, now, c).dst) == Content(c.src) <==> cfg.fullChecksum)
  {
  }

  /** A finished or paused file keeps the manifest truthful. */
  lemma OneWayKeepsTruth(cfg: Config, now: int, c: Cell)
    requires c.src.Some? && Truthful(cfg, c)
    ensures Truthful(cfg, OneWay(cfg, now, c)) && Truthful(cfg, c.(dst := None))
  {
  }

  /** Doing a file twice is doing it once: the second time it is skipped. */
  lemma OneWayIdempotent(cfg: Config, now: int, later: int, c: Cell)
    requires c.src.Some?
    ensures Skips(cfg, OneWay(cfg, now, c))
    ensures OneWay(cfg, later, OneWay(cfg, now, c)) == OneWay(cfg, now, c)
  {
  }

  /**
   * What a pause leaves where a copy of data was being written: nothing, or, if removing the half-written
   * file fails, which the code does not notice, the part of it that was written.
   */
  predicate LeftBehind(stays: bool, left: Option<File>, data: bytes) {
    if stays then left.Some? && left.value.data <= data else left.None?
  }

  /** What a paused run may leave at a path it has not finished: nothing changed, or what the copy left behind. */
  predicate PausedAt(cfg: Config, c: Cell, c': Cell, stays: bool)
    requires c.src.Some?
  {
    c' == c || (!Skips(cfg, c) && c' == c.(dst := c'.dst) && LeftBehind(stays, c'.dst, c.src.value.data))
  }

  /** What any paused run may leave at a path the source has. */
  ghost predicate AfterPausedRun(cfg: Config, c: Cell, c': Cell, stays: bool)
    requires c.src.Some?
  {
    PausedAt(cfg, c, c', stays) || exists now :: c' == OneWay(cfg, now, c)
  }

  /** Equal up to the mtime of a copy on a destination that does not keep it. */
  ghost predicate SameOutcome(cfg: Config, c: Cell, d: Cell) {
    c == d || (!cfg.localDest && c.dst.Some? && d.dst.Some? && c.dst.value.data == d.dst.value.data && c == d.(dst := c.dst))
  }

  /** The destination file is missing although the manifest knows the source content: it is only to be put back. */
  predicate PutBackOnly(cfg: Config, c: Cell)
    requires c.src.Some?
  {
    c.dst.None? && Skips(cfg, c.(dst := c.src))
  }

  /**
   * A half-written file that could not be removed is taken for a finished copy by the next run, and never
   * completed, if and only if the copy was only to put a missing file back.
   */
  lemma RemnantIsSkippedIff(cfg: Config, now: int, later: int, c: Cell, part: File)
    requires c.src.Some? && !Skips(cfg, c) && part.data < c.src.value.data
    ensures var d := c.(dst := Some(part));
            && (Skips(cfg, d) <==> PutBackOnly(cfg, c))
            && (SameOutcome(cfg, OneWay(cfg, later, d), OneWay(cfg, now, c)) <==> !PutBackOnly(cfg, c))
            && (Content(OneWay(cfg, later, d).dst) == Content(c.src) <==> !PutBackOnly(cfg, c))
            && (PutBackOnly(cfg, c) ==> OneWay(cfg, later, d) == d)
  {
  }

  /** Such a path: deleted at the destination since its sync, and the run that puts it back is paused. */
  lemma RemnantCanStayForEver(cfg: Config, later: int, f: File, part: File)
    requires part.data < f.data
    ensures var c := Cell(Some(f), None, Some(EntryOf(cfg, f)), [], [], []);
            var d := c.(dst := Some(part));
            && PausedAt(cfg, c, d, true) && OneWay(cfg, later, d) == d && Content(d.dst) != Content(d.src)
  {
  }

  /**
   * What any number of paused runs may have made of a path c from which a run can still do what it should:
   * it is as it was, or its half-written copy is gone, or is there but will be written again, or it is done
   * and will be skipped from now on.
   */
  ghost predicate Resumable(cfg: Config, now: int, c: Cell, d: Cell)
    requires c.src.Some?
  {
    && d.src == c.src
    && (|| PausedAt(cfg, c, d, false)
        || (PausedAt(cfg, c, d, true) && !PutBackOnly(cfg, c))
        || (Skips(cfg, d) && SameOutcome(cfg, d, OneWay(cfg, now, c))))
  }

  /** One more paused run keeps a path resumable, unless a file that is only to be put back is left half-written. */
  lemma PausedRunKeepsResumable(cfg: Config, now: int, c: Cell, b: Cell, d: Cell, stays: bool)
    requires c.src.Some? && Resumable(cfg, now, c, b) && AfterPausedRun(cfg, b, d, stays)
    requires stays ==> !PutBackOnly(cfg, c)
    ensures Resumable(cfg, now, c, d)
  {
    if !PausedAt(cfg, b, d, stays) {
      var t :| d == OneWay(cfg, t, b);
      OneWayIdempotent(cfg, t, t, b);
    }
  }

  /** From a resumable path, one complete run does what a single uninterrupted run would have done. */
  lemma ResumedRunCatchesUp(cfg: Config, now: int, later: int, c: Cell, b: Cell)
    requires c.src.Some? && Resumable(cfg, now, c, b)
    ensures SameOutcome(cfg, OneWay(cfg, later, b), OneWay(cfg, now, c))
  {
  }

  // ---- Two-way mode ----

  function Saved(cfg: Config, history: seq<bytes>, f: Option<File>): seq<bytes> {
    if cfg.versions && f.Some? then Pruned(history + [f.value.data], cfg.versionsToKeep) else history
  }

  /** The decision for a path the source has. */
  datatype Decision = Push | Pull | Conflict | Relabel | Leave

  function Decide(cfg: Config, c: Cell): Decision
    requires c.src.Some?
  {
    if c.entry.None? then
      if c.dst.None? || cfg.hash(c.dst.value.data) == cfg.hash(c.src.value.data) then Push else Conflict
    else
      var (isConflict, srcChanged, dstChanged) := Detect(cfg, c.entry.value.hash, c.src, c.dst);
      if isConflict then Conflict
      else if srcChanged && dstChanged then Relabel
      else if srcChanged then Push
      else if dstChanged then Pull
      else Leave
  }

  /** Which side a conflict is settled for; None when it is left to the user or the strategy is unknown. */
  function Winner(cfg: Config, c: Cell): Option<Side>
    requires c.src.Some? && c.dst.Some?
  {
    if cfg.strategy.AskUser? then None else AutoResolve(cfg.strategy, c.src.value, c.dst.value)
  }

  /** The versions stored before a path is touched: whichever side may be overwritten first. */
  function HistoryAfter(cfg: Config, c: Cell): seq<bytes>
    requires c.src.Some?
  {
    match Decide(cfg, c)
    case Push => if c.entry.Some? then Saved(cfg, c.history, c.dst) else c.history
    case Pull => Saved(cfg, c.history, c.src)
    case Conflict => Saved(cfg, c.history, c.dst)
    case Relabel => c.history
    case Leave => c.history
  }

  function ConflictsAfter(cfg: Config, c: Cell): seq<ConflictRow>
    requires c.src.Some?
  {
    if Decide(cfg, c).Conflict? && c.dst.Some? && cfg.conflicts && !cfg.strategy.UnknownStrategy? then
      var rows := Recorded(c.conflicts, cfg.hash(c.src.value.data), cfg.hash(c.dst.value.data));
      if cfg.strategy.AskUser? then rows else Closed(rows, AutoResolved)
    else c.conflicts
  }

  /** The side a path's content is copied to, if any. */
  function Target(cfg: Config, c: Cell): Option<Side>
    requires c.src.Some?
  {
    match Decide(cfg, c)
    case Push => Some(Destination)
    case Pull => Some(Source)
    case Conflict =>
      if c.dst.None? || Winner(cfg, c).None? then None
      else if Winner(cfg, c).value.Source? then Some(Destination)
      else Some(Source)
    case Relabel => None
    case Leave => None
  }

  /** Copying the source content over: both sides and the manifest then hold f. */
  function Pushed(cfg: Config, c: Cell, f: File): Cell {
    c.(dst := Some(f), entry := Some(EntryOf(cfg, f)))
  }

  function Pulled(cfg: Config, c: Cell, f: File): Cell {
    c.(src := Some(f), entry := Some(EntryOf(cfg, f)))
  }

  /** Two-way, for a path the source has. A pulled change keeps the source's old mtime. */
  function TwoWaySource(cfg: Config, c: Cell): Cell
    requires c.src.Some?
  {
    var d := c.(history := HistoryAfter(cfg, c), conflicts := ConflictsAfter(cfg, c));
    match Decide(cfg, c)
    case Push => Pushed(cfg, d, c.src.value)
    case Pull => if c.dst.Some? then Pulled(cfg, d, File(c.dst.value.data, c.src.value.mtime)) else d
    case Conflict =>
      if c.dst.None? || Winner(cfg, c).None? then d
      else if Winner(cfg, c).value.Source? then Pushed(cfg, d, c.src.value)
      else Pulled(cfg, d, c.dst.value)
    case Relabel => d.(entry := Some(EntryOf(cfg, c.src.value)))
    case Leave => d
  }

  /** Two-way, for a path only the destination shows. */
  function TwoWayExtra(cfg: Config, c: Cell): Cell
    requires c.dst.Some?
  {
    if c.entry.None? then Pulled(cfg, c, c.dst.value)
    else if cfg.versions then c.(dst := None, entry := None, quarantined := c.quarantined + [c.dst.value.data])
    else c
  }

  /** One path in a complete, error-free two-way run. */
  function TwoWay(cfg: Config, p: Path, c: Cell): Cell {
    if c.src.Some? && cfg.visible(p, c.src.value) then TwoWaySource(cfg, c)
    else if c.dst.Some? && cfg.visible(p, c.dst.value) then TwoWayExtra(cfg, c)
    else c
  }

  // ---- What two-way promises ----

  /** Both sides hold the same content, and the manifest says so. */
  predicate InSync(cfg: Config, c: Cell) {
    c.src.Some? && c.dst.Some? && c.src.value.data == c.dst.value.data
    && c.entry.Some? && c.entry.value.hash == cfg.hash(c.src.value.data)
  }

  /** The one state that is left as it is: synced before, unchanged at the source, gone at the destination. */
  predicate Stuck(cfg: Config, c: Cell) {
    c.src.Some? && c.dst.None? && c.entry.Some? && c.entry.value.hash == cfg.hash(c.src.value.data)
  }

  predicate AutoResolves(cfg: Config) {
    !cfg.strategy.AskUser? && !cfg.strategy.UnknownStrategy?
  }

  /** A file is visible, on whichever side it is; with path-only filters both sides agree. */
  predicate Visible(cfg: Config, p: Path, c: Cell) {
    (c.src.Some? && cfg.visible(p, c.src.value)) || (c.dst.Some? && cfg.visible(p, c.dst.value))
  }

  /** Both sides agree: in sync and recorded, or gone and forgotten. */
  predicate Converged(cfg: Config, c: Cell) {
    InSync(cfg, c) || (c.src.None? && c.dst.None? && c.entry.None?)
  }

  /** Synced before, and now hidden by the filters at the source but not at the destination. */
  predicate HiddenSynced(cfg: Config, p: Path, c: Cell) {
    c.src.Some? && !cfg.visible(p, c.src.value) && c.entry.Some?
  }

  lemma StuckIsLeft(cfg: Config, p: Path, c: Cell)
    requires Stuck(cfg, c)
    ensures TwoWay(cfg, p, c) == c
  {
  }

  lemma SourceConverges(cfg: Config, c: Cell)
    requires Sound(cfg) && AutoResolves(cfg) && c.src.Some? && !Stuck(cfg, c)
    ensures InSync(cfg, TwoWaySource(cfg, c))
  {
    hide HistoryAfter, ConflictsAfter;
  }

  lemma ExtraConverges(cfg: Config, c: Cell)
    requires cfg.versions && c.src.None? && c.dst.Some?
    ensures Converged(cfg, TwoWayExtra(cfg, c))
  {
  }

  lemma HiddenExtra(cfg: Config, c: Cell)
    requires cfg.versions && c.src.Some? && c.dst.Some?
    ensures Converged(cfg, TwoWayExtra(cfg, c)) <==> c.entry.None?
  {
  }

  /**
   * With whatever filters, a visible path converges in a complete run if and only if it was not stuck and
   * was not a synced source file that the filters now hide. A stuck path is left untouched.
   */
  lemma TwoWayConvergesIff(cfg: Config, p: Path, c: Cell)
    requires Sound(cfg) && AutoResolves(cfg) && cfg.versions && Visible(cfg, p, c)
    ensures Converged(cfg, TwoWay(cfg, p, c)) <==> !Stuck(cfg, c) && !HiddenSynced(cfg, p, c)
    ensures Stuck(cfg, c) ==> TwoWay(cfg, p, c) == c
  {
    hide TwoWaySource, TwoWayExtra, Sound;
    if Stuck(cfg, c) {
      StuckIsLeft(cfg, p, c);
    } else if c.src.Some? && cfg.visible(p, c.src.value) {
      SourceConverges(cfg, c);
    } else if c.src.Some? {
      HiddenExtra(cfg, c);
    } else {
      ExtraConverges(cfg, c);
    }
  }

  /** With path-only filters nothing is hidden on one side only: a visible path converges or was stuck. */
  lemma TwoWayConverges(cfg: Config, p: Path, c: Cell)
    requires Sound(cfg) && PathOnly(cfg) && AutoResolves(cfg) && cfg.versions && Visible(cfg, p, c)
    ensures if Stuck(cfg, c) then TwoWay(cfg, p, c) == c else Converged(cfg, TwoWay(cfg, p, c))
  {
    hide TwoWay, Converged, Stuck, Sound;
    TwoWayConvergesIff(cfg, p, c);
    assert forall f, g :: cfg.visible(p, f) == cfg.visible(p, g);
  }

  /** What the paths of a finished run look like; also, apart from Exposed, the states a further run does not touch. */
  predicate Settled(cfg: Config, p: Path, c: Cell) {
    !Visible(cfg, p, c) || InSync(cfg, c) || Stuck(cfg, c)
    || (!cfg.versions && !(c.src.Some? && cfg.visible(p, c.src.value)) && c.dst.Some? && c.entry.Some?)
  }

  lemma SourceSettles(cfg: Config, c: Cell)
    requires Sound(cfg) && !cfg.strategy.UnknownStrategy? && c.src.Some?
    ensures var d := TwoWaySource(cfg, c);
            InSync(cfg, d) || Stuck(cfg, d) || (cfg.strategy.AskUser? && Decide(cfg, c).Conflict?)
  {
    hide HistoryAfter, ConflictsAfter;
  }

  /** With whatever filters a run settles every path; in ask-user mode only a conflict may stay open. */
  lemma TwoWaySettles(cfg: Config, p: Path, c: Cell)
    requires Sound(cfg) && !cfg.strategy.UnknownStrategy?
    ensures Settled(cfg, p, TwoWay(cfg, p, c))
            || (cfg.strategy.AskUser? && c.src.Some? && cfg.visible(p, c.src.value) && Decide(cfg, c).Conflict?)
  {
    hide TwoWaySource, Sound;
    if c.src.Some? && cfg.visible(p, c.src.value) { SourceSettles(cfg, c); }
  }

  /** Synced, hidden by the filters at the source, and still showing at the destination: it looks deleted at the source. */
  predicate Exposed(cfg: Config, p: Path, c: Cell) {
    cfg.versions && HiddenSynced(cfg, p, c) && c.dst.Some? && cfg.visible(p, c.dst.value)
  }

  /**
   * With whatever filters a settled path is a fixed point, where nothing is copied, moved, recorded or
   * stored again, if and only if it is not exposed.
   */
  lemma SettledIsFixedIff(cfg: Config, p: Path, c: Cell)
    requires Sound(cfg) && Settled(cfg, p, c)
    ensures TwoWay(cfg, p, c) == c <==> !Exposed(cfg, p, c)
    ensures c.src.Some? && cfg.visible(p, c.src.value) ==> Decide(cfg, c).Leave? && !Exposed(cfg, p, c)
  {
  }

  /**
   * A destination change that hides itself by being copied back: it keeps the source's old mtime there, and
   * with it the filters hide the copy, but not the destination file.
   */
  predicate HidingPull(cfg: Config, p: Path, c: Cell) {
    && cfg.versions && c.src.Some? && cfg.visible(p, c.src.value) && Decide(cfg, c).Pull?
    && c.dst.Some? && cfg.visible(p, c.dst.value)
    && !cfg.visible(p, File(c.dst.value.data, c.src.value.mtime))
  }

  lemma ExposedAfterIff(cfg: Config, p: Path, c: Cell)
    requires Sound(cfg)
    ensures Exposed(cfg, p, TwoWay(cfg, p, c)) <==> HidingPull(cfg, p, c)
  {
    hide HistoryAfter, ConflictsAfter;
  }

  /**
   * Running twice is running once if and only if no copy back hides itself. An open ask-user conflict keeps
   * its row and both files, and may store another version.
   */
  lemma TwoWayIdempotentIff(cfg: Config, p: Path, c: Cell)
    requires Sound(cfg) && !cfg.strategy.UnknownStrategy? && OnePending(c.conflicts)
    ensures var d := TwoWay(cfg, p, c);
            && (TwoWay(cfg, p, d).(history := d.history) == d <==> !HidingPull(cfg, p, c))
            && (AutoResolves(cfg) ==> (TwoWay(cfg, p, d) == d <==> !HidingPull(cfg, p, c)))
    ensures HidingPull(cfg, p, c) ==>
              var d := TwoWay(cfg, p, TwoWay(cfg, p, c)); d.dst.None? && d.entry.None? && c.dst.value.data in d.quarantined
  {
    hide TwoWaySource, TwoWayExtra, InSync, Stuck, Sound, OnePending;
    var d := TwoWay(cfg, p, c);
    TwoWaySettles(cfg, p, c);
    ExposedAfterIff(cfg, p, c);
    if Settled(cfg, p, d) {
      SettledIsFixedIff(cfg, p, d);
      if Exposed(cfg, p, d) { ExposedIsQuarantined(cfg, p, c); }
    } else {
      OpenIsFixed(cfg, p, c);
    }
  }

  lemma ExposedIsQuarantined(cfg: Config, p: Path, c: Cell)
    requires Sound(cfg) && HidingPull(cfg, p, c) && Exposed(cfg, p, TwoWay(cfg, p, c))
    ensures var d := TwoWay(cfg, p, c);
            var e := TwoWay(cfg, p, d);
            e.dst.None? && e.entry.None? && c.dst.value.data in e.quarantined && e.(history := d.history) != d
  {
    hide HistoryAfter, ConflictsAfter;
    assert (c.quarantined + [c.dst.value.data])[|c.quarantined|] == c.dst.value.data;
  }

  lemma OpenIsFixed(cfg: Config, p: Path, c: Cell)
    requires cfg.strategy.AskUser? && c.src.Some? && cfg.visible(p, c.src.value) && Decide(cfg, c).Conflict?
    requires OnePending(c.conflicts)
    ensures var d := TwoWay(cfg, p, c); TwoWay(cfg, p, d).(history := d.history) == d
  {
    if cfg.conflicts && c.dst.Some? {
      var h, k := cfg.hash(c.src.value.data), cfg.hash(c.dst.value.data);
      RecordKeepsOnePending(c.conflicts, h, k, h);
    }
  }

  /** A conflict left to the user, which is on record as it should be. */
  predicate Open(cfg: Config, p: Path, c: Cell) {
    && cfg.strategy.AskUser? && c.src.Some? && cfg.visible(p, c.src.value)
    && Decide(cfg, c).Conflict? && ConflictsAfter(cfg, c) == c.conflicts
  }

  /** Exactly the settled paths that are not exposed are fixed points; an open conflict may store one more version. */
  lemma FixedIff(cfg: Config, p: Path, c: Cell)
    requires Sound(cfg) && !cfg.strategy.UnknownStrategy?
    ensures AutoResolves(cfg) ==> (TwoWay(cfg, p, c) == c <==> Settled(cfg, p, c) && !Exposed(cfg, p, c))
    ensures TwoWay(cfg, p, c).(history := c.history) == c
            <==> (Settled(cfg, p, c) && !Exposed(cfg, p, c)) || Open(cfg, p, c)
  {
    hide Sound;
    if Settled(cfg, p, c) {
      SettledIsFixedIff(cfg, p, c);
      if Exposed(cfg, p, c) { assert !Open(cfg, p, c); }
    } else if c.src.Some? && cfg.visible(p, c.src.value) {
      SourceSettles(cfg, c);
    }
  }

  /** The same job at another time: a rule on the age of a file reads the clock, so the filters may have changed their mind. */
  function AtTime(cfg: Config, later: (Path, File) -> bool): Config {
    cfg.(visible := later)
  }

  /** What a run saw and did not take for deleted at the source is settled for good, whatever the filters say later. */
  lemma SeenStaysSettled(cfg: Config, later: (Path, File) -> bool, p: Path, c: Cell)
    requires Sound(cfg) && AutoResolves(cfg) && Visible(cfg, p, c) && !HiddenSynced(cfg, p, c)
    ensures Settled(AtTime(cfg, later), p, TwoWay(cfg, p, c))
  {
    hide TwoWaySource, Sound;
    if c.src.Some? && cfg.visible(p, c.src.value) { SourceSettles(cfg, c); }
  }

  /** A copy to the destination leaves equal files, so it never looks deleted at the source. */
  lemma PushedIsNotExposed(cfg: Config, later: (Path, File) -> bool, p: Path, c: Cell)
    requires c.src.Some? && cfg.visible(p, c.src.value) && Target(cfg, c) == Some(Destination)
    ensures !Exposed(AtTime(cfg, later), p, TwoWay(cfg, p, c))
  {
    hide HistoryAfter, ConflictsAfter;
  }

  /**
   * A second run at a later time, when the filters may judge every file differently, leaves a path alone if
   * and only if it is settled and not exposed by then. Where the first run saw the path, and did not take
   * it for deleted at the source, only exposure counts, and after a copy to the destination nothing does.
   */
  lemma LaterRunIff(cfg: Config, later: (Path, File) -> bool, p: Path, c: Cell)
    requires Sound(cfg) && !cfg.strategy.UnknownStrategy?
    ensures var then_, d := AtTime(cfg, later), TwoWay(cfg, p, c);
            && (TwoWay(then_, p, d).(history := d.history) == d
                <==> (Settled(then_, p, d) && !Exposed(then_, p, d)) || Open(then_, p, d))
            && (AutoResolves(cfg) ==> (TwoWay(then_, p, d) == d <==> Settled(then_, p, d) && !Exposed(then_, p, d)))
            && (AutoResolves(cfg) && Visible(cfg, p, c) && !HiddenSynced(cfg, p, c) ==>
                  (TwoWay(then_, p, d) == d <==> !Exposed(then_, p, d)))
    ensures AutoResolves(cfg) && c.src.Some? && cfg.visible(p, c.src.value) && Target(cfg, c) == Some(Destination) ==>
              TwoWay(AtTime(cfg, later), p, TwoWay(cfg, p, c)) == TwoWay(cfg, p, c)
  {
    hide TwoWay, Settled, Exposed, Open, Target;
    FixedIff(AtTime(cfg, later), p, TwoWay(cfg, p, c));
    if AutoResolves(cfg) && Visible(cfg, p, c) && !HiddenSynced(cfg, p, c) {
      SeenStaysSettled(cfg, later, p, c);
    }
    if c.src.Some? && cfg.visible(p, c.src.value) && Target(cfg, c) == Some(Destination) {
      PushedIsNotExposed(cfg, later, p, c);
    }
  }

  lemma PathOnlyHidesNoPull(cfg: Config, p: Path, c: Cell)
    requires PathOnly(cfg)
    ensures !HidingPull(cfg, p, c)
  {
    assert forall f, g :: cfg.visible(p, f) == cfg.visible(p, g);
  }
}
