/** Two-way mode, path by path: interruptions, retention of overwritten data, and resolving conflicts. */
module TwoWayFacts {
  import opened Prelude
  import opened Disks
  import opened Worlds
  import opened Conflicts
  import opened SyncSpec

  // ---- Interruptions ----

  /**
   * A path whose copy was interrupted: versions and conflict rows are written before and regardless
   * of the copy, the manifest is not, and left is what is found at the side that was being written.
   */
  function Interrupted(cfg: Config, c: Cell, left: Option<File>): Cell
    requires c.src.Some? && Target(cfg, c).Some?
  {
    var d := c.(history := HistoryAfter(cfg, c), conflicts := ConflictsAfter(cfg, c));
    if Target(cfg, c).value.Destination? then d.(dst := left) else d.(src := left)
  }

  /** A pause in the middle of a copy removes the half-written file. */
  function PausedInside(cfg: Config, c: Cell): Cell
    requires c.src.Some? && Target(cfg, c).Some?
  {
    Interrupted(cfg, c, None)
  }

  /** A pause in the middle of a copy: the half-written file is removed, or stays because that fails. */
  predicate StoppedCopy(cfg: Config, c: Cell, d: Cell, stays: bool) {
    && c.src.Some? && Target(cfg, c).Some?
    && if Target(cfg, c).value.Destination?
       then LeftBehind(stays, d.dst, c.src.value.data) && d == Interrupted(cfg, c, d.dst)
       else c.dst.Some? && LeftBehind(stays, d.src, c.dst.value.data) && d == Interrupted(cfg, c, d.src)
  }

  /** A copy back to the source of a path that is known to the manifest, or hidden by the filters at the destination. */
  predicate RiskyPull(cfg: Config, p: Path, c: Cell)
    requires c.src.Some?
  {
    && Target(cfg, c) == Some(Source)
    && (c.entry.Some? || (c.dst.Some? && !cfg.visible(p, c.dst.value)))
  }

  /**
   * With whatever filters, resuming after a pause inside a file gives what an uninterrupted run gives if and
   * only if it was not a risky copy back: a known path missing at the source is then taken for a deletion
   * by the user, and a hidden destination file is not looked at again.
   */
  lemma TwoWayPauseIff(cfg: Config, p: Path, c: Cell)
    requires Sound(cfg) && c.src.Some? && cfg.visible(p, c.src.value) && Target(cfg, c).Some?
    ensures TwoWay(cfg, p, PausedInside(cfg, c)) == TwoWay(cfg, p, c) <==> !RiskyPull(cfg, p, c)
  {
  }

  /** In that case the resumed run also takes the file from the destination; it survives in quarantine only. */
  lemma PausedPullIsTakenForDeletion(cfg: Config, p: Path, c: Cell)
    requires Sound(cfg) && cfg.versions && c.src.Some? && c.dst.Some?
    requires cfg.visible(p, c.src.value) && cfg.visible(p, c.dst.value)
    requires c.entry.Some? && Target(cfg, c) == Some(Source)
    ensures var d := TwoWay(cfg, p, PausedInside(cfg, c));
            d.src.None? && d.dst.None? && d.entry.None? && d.quarantined == c.quarantined + [c.dst.value.data]
  {
  }

  /**
   * In the other case the source stays without the file. Its old content can then be found if and only if it
   * was a plain copy back, which stores it first, or it was stored before.
   */
  lemma PausedHiddenPullIsNotResumed(cfg: Config, p: Path, c: Cell)
    requires Sound(cfg) && cfg.versions && c.src.Some? && c.dst.Some?
    requires cfg.visible(p, c.src.value) && !cfg.visible(p, c.dst.value)
    requires Target(cfg, c) == Some(Source)
    ensures var d := TwoWay(cfg, p, PausedInside(cfg, c));
            && d.src.None? && d.dst == c.dst && d.entry == c.entry
            && (Kept(c.src.value.data, d) <==>
                  || Decide(cfg, c).Pull?
                  || c.src.value.data in Saved(cfg, c.history, c.dst) || c.src.value.data in c.quarantined)
  {
    hide Saved, Pruned;
    if Decide(cfg, c).Pull? { SavedHolds(cfg, c.history, c.src.value); }
  }

  /**
   * A half-written file that could not be removed from the destination: the next run completes the copy if
   * and only if it takes it for no conflict, or settles that for the source. It is a conflict exactly when
   * the manifest does not know the path or knows another content than the part that was written.
   */
  lemma TwoWayRemnantIff(cfg: Config, p: Path, c: Cell, part: File)
    requires Sound(cfg) && c.src.Some? && cfg.visible(p, c.src.value) && Target(cfg, c) == Some(Destination)
    requires part.data < c.src.value.data
    ensures var d := Interrupted(cfg, c, Some(part));
            var e := TwoWay(cfg, p, d);
            && (Decide(cfg, d).Conflict? <==> c.entry.None? || c.entry.value.hash != cfg.hash(part.data))
            && (Content(e.dst) == Content(c.src) == Content(e.src) <==>
                  !Decide(cfg, d).Conflict? || Winner(cfg, d) == Some(Source))
  {
    hide HistoryAfter, ConflictsAfter;
  }

  /** The part can even replace the source: it is the newer file, so newest-wins copies it back, and the rest is gone. */
  lemma RemnantCanReplaceTheSource(cfg: Config, p: Path, f: File, part: File)
    requires Sound(cfg) && cfg.strategy.NewestWins? && cfg.visible(p, f)
    requires part.data < f.data && part.mtime >= f.mtime
    ensures var c := Cell(Some(f), None, None, [], [], []);
            var d := Interrupted(cfg, c, Some(part));
            && StoppedCopy(cfg, c, d, true)
            && Content(TwoWay(cfg, p, d).src) == Some(part.data) && !Kept(f.data, TwoWay(cfg, p, d))
  {
  }

  /**
   * A half-written file that could not be removed from the source. If the filters show it, the next run
   * completes the copy back if and only if it takes it for no conflict, or settles that for the
   * destination; if they hide it, only a visible destination file that the manifest does not know is copied.
   */
  lemma SourceRemnantIff(cfg: Config, p: Path, c: Cell, part: File)
    requires Sound(cfg) && c.src.Some? && c.dst.Some? && cfg.visible(p, c.src.value) && Target(cfg, c) == Some(Source)
    requires part.data < c.dst.value.data
    ensures var d := Interrupted(cfg, c, Some(part));
            var e := TwoWay(cfg, p, d);
            var completed := Content(e.src) == Content(c.dst) == Content(e.dst);
            && StoppedCopy(cfg, c, d, true)
            && (Decide(cfg, d).Conflict? <==> c.entry.None? || c.entry.value.hash != cfg.hash(part.data))
            && (cfg.visible(p, part) ==> (completed <==> !Decide(cfg, d).Conflict? || Winner(cfg, d) == Some(Destination)))
            && (!cfg.visible(p, part) ==> (completed <==> cfg.visible(p, c.dst.value) && c.entry.None?))
  {
    hide HistoryAfter, ConflictsAfter;
  }

  /** The same for a new destination file, which the source did not have: a visible part of it is in conflict with it. */
  lemma ExtraRemnantIff(cfg: Config, p: Path, c: Cell, part: File)
    requires Sound(cfg) && c.src.None? && c.dst.Some? && c.entry.None? && cfg.visible(p, c.dst.value)
    requires part.data < c.dst.value.data
    ensures var d := c.(src := Some(part));
            var e := TwoWay(cfg, p, d);
            Content(e.src) == Content(c.dst) == Content(e.dst) <==>
              !cfg.visible(p, part) || Winner(cfg, d) == Some(Destination)
  {
  }

  /**
   * Such a part can replace the destination file it is a part of: where the source wins conflicts, the copy
   * back of a changed destination file, stopped half-way, is pushed to the destination by the next run.
   */
  lemma RemnantCanReplaceTheDestination(cfg: Config, p: Path, synced: File, changed: File, part: File)
    requires Sound(cfg) && cfg.strategy.SourceWins? && cfg.visible(p, synced) && cfg.visible(p, part)
    requires synced.data != changed.data && part.data < changed.data && part.data != synced.data
    ensures var c := Cell(Some(synced), Some(changed), Some(EntryOf(cfg, synced)), [], [], []);
            var d := Interrupted(cfg, c, Some(part));
            && Decide(cfg, c).Pull? && StoppedCopy(cfg, c, d, true)
            && Content(TwoWay(cfg, p, d).dst) == Some(part.data)
            && (!cfg.versions ==> !Kept(changed.data, TwoWay(cfg, p, d)))
  {
  }

  /**
   * A file that appears on the destination alone is copied to the source just when the manifest does not
   * know its path. An entry left over from a file deleted on both sides is never cleaned up, so a new
   * file of that name goes to quarantine instead.
   */
  lemma NewDestinationFile(cfg: Config, p: Path, c: Cell, f: File)
    requires c.src.None? && c.dst.None? && cfg.visible(p, f)
    ensures TwoWay(cfg, p, c) == c
    ensures var d := TwoWay(cfg, p, c.(dst := Some(f)));
            && (InSync(cfg, d) <==> c.entry.None?)
            && (c.entry.Some? && cfg.versions ==> d.dst.None? && f.data in d.quarantined)
  {
    if c.entry.Some? && cfg.versions {
      assert (c.quarantined + [f.data])[|c.quarantined|] == f.data;
    }
  }

  // ---- Retention ----

  /** A content that was at a path can still be found: stored as a version, in quarantine, or on either side. */
  predicate Kept(data: bytes, d: Cell) {
    data in d.history || data in d.quarantined || Content(d.src) == Some(data) || Content(d.dst) == Some(data)
  }

  lemma SavedHolds(cfg: Config, history: seq<bytes>, f: File)
    requires cfg.versions
    ensures f.data in Saved(cfg, history, Some(f))
  {
    NewestSurvivesPruning(history, f.data, cfg.versionsToKeep);
  }

  /** Whatever a copy to the destination leaves there, the old destination content is kept. */
  lemma PushKeepsDestination(cfg: Config, c: Cell, left: Option<File>)
    requires cfg.versions && c.src.Some? && c.dst.Some? && Sound(cfg) && Target(cfg, c) == Some(Destination)
    ensures Kept(c.dst.value.data, Interrupted(cfg, c, left)) && Kept(c.dst.value.data, TwoWaySource(cfg, c))
  {
    SavedHolds(cfg, c.history, c.dst.value);
  }

  /** Whatever copying a changed destination file back leaves, the old source content is kept. */
  lemma PullKeepsSource(cfg: Config, c: Cell, left: Option<File>)
    requires cfg.versions && c.src.Some? && Decide(cfg, c).Pull?
    ensures Kept(c.src.value.data, Interrupted(cfg, c, left)) && Kept(c.src.value.data, TwoWaySource(cfg, c))
  {
    SavedHolds(cfg, c.history, c.src.value);
  }

  /** A path only the destination has is copied or moved to quarantine, never dropped. */
  lemma ExtraKeepsDestination(cfg: Config, c: Cell)
    requires c.dst.Some?
    ensures Kept(c.dst.value.data, TwoWayExtra(cfg, c))
  {
    assert (c.quarantined + [c.dst.value.data])[|c.quarantined|] == c.dst.value.data;
  }

  /** A settled conflict keeps the loser just when the loser is the destination, or its content is stored already. */
  lemma ConflictLoserKeptIff(cfg: Config, c: Cell)
    requires Sound(cfg) && cfg.versions && c.src.Some? && c.dst.Some? && Decide(cfg, c).Conflict? && Winner(cfg, c).Some?
    ensures var loser := if Winner(cfg, c).value.Source? then c.dst.value.data else c.src.value.data;
            Kept(loser, TwoWaySource(cfg, c)) <==>
              Winner(cfg, c).value.Source? || loser in Saved(cfg, c.history, c.dst) || loser in c.quarantined
  {
    SavedHolds(cfg, c.history, c.dst.value);
  }

  /** Without path-only filters a source file can be hidden while its destination copy is not. It is then overwritten unsaved. */
  lemma HiddenSourceIsOverwritten(cfg: Config, p: Path, c: Cell)
    requires c.src.Some? && c.dst.Some? && !cfg.visible(p, c.src.value) && cfg.visible(p, c.dst.value) && c.entry.None?
    ensures Kept(c.src.value.data, TwoWay(cfg, p, c)) <==>
              c.src.value.data in c.history || c.src.value.data in c.quarantined || c.src.value.data == c.dst.value.data
  {
  }

  // ---- Resolving a conflict by hand ----

  datatype Action = KeepSource | KeepDestination | KeepBoth | UnknownAction

  /** The path of the conflict after the user's choice; now is the mtime of the fresh copy. */
  function ResolvedCell(c: Cell, action: Action, now: int): Cell {
    match action
    case KeepSource => if c.src.Some? then c.(dst := Some(File(c.src.value.data, now))) else c
    case KeepDestination => if c.dst.Some? then c.(src := Some(File(c.dst.value.data, now))) else c
    case KeepBoth =>
      if c.dst.None? then c
      else if c.src.Some? then c.(dst := Some(File(c.src.value.data, now))) else c.(dst := None)
    case UnknownAction => c
  }

  /** The path the destination version is put aside under by keep-both. */
  function AsideCell(c: Cell, aside: Cell, action: Action): Cell {
    if action.KeepBoth? && c.dst.Some? then aside.(dst := c.dst) else aside
  }

  /** After the choice, an ordinary run leaves both sides with the chosen content and no conflict. */
  lemma ResolveThenSync(cfg: Config, p: Path, c: Cell, action: Action, now: int)
    requires Sound(cfg) && c.src.Some? && c.dst.Some? && !action.UnknownAction?
    requires cfg.visible(p, ResolvedCell(c, action, now).src.value)
    ensures var r := ResolvedCell(c, action, now);
            && r.src.Some? && !Decide(cfg, r).Conflict?
            && InSync(cfg, TwoWay(cfg, p, r))
            && Content(TwoWay(cfg, p, r).src)
               == Some(if action.KeepDestination? then c.dst.value.data else c.src.value.data)
  {
  }

  /** Keep-both under a fresh, visible name: the destination version reaches both sides under that name. */
  lemma KeepBothKeepsBoth(cfg: Config, q: Path, c: Cell, aside: Cell)
    requires Sound(cfg) && c.src.Some? && c.dst.Some? && cfg.visible(q, c.dst.value)
    requires aside.src.None? && aside.dst.None? && aside.entry.None?
    ensures var d := TwoWay(cfg, q, AsideCell(c, aside, KeepBoth));
            InSync(cfg, d) && Content(d.src) == Some(c.dst.value.data)
  {
  }
}
