/**
 * What complete runs do to every path, said in terms of contents, sizes and times alone: an account that
 * uses none of the functions the engine decides by.
 */
module Outcomes {
  import opened Prelude
  import opened Disks
  import opened Worlds
  import opened Conflicts
  import opened SyncSpec
  import opened Engine
  import opened OneWayRuns
  import opened TwoWayRuns

  // ---- Backup and mirror ----

  /**
   * A file that was synced, has some file at the destination, and looks to the mode as it did then: the same
   * hash, or the same size and the same second.
   */
  predicate LooksSynced(cfg: Config, c: Cell)
    requires c.src.Some?
  {
    var f := c.src.value;
    && c.dst.Some? && c.entry.Some?
    && (cfg.fullChecksum ==> c.entry.value.hash == cfg.hash(f.data))
    && (!cfg.fullChecksum ==>
          c.entry.value.size == |f.data| && c.entry.value.mtime / 1_000_000_000 == f.mtime / 1_000_000_000)
  }

  /** A file that is left alone, or copied with its content, recorded under its own time, and dated as the destination allows. */
  predicate FileEnds(cfg: Config, now: int, c: Cell, d: Cell)
    requires c.src.Some?
  {
    var f := c.src.value;
    if LooksSynced(cfg, c) then d == c
    else
      && d.dst == Some(File(f.data, if cfg.localDest then f.mtime else now))
      && d.entry == Some(Entry(cfg.hash(f.data), |f.data|, f.mtime))
      && d == c.(dst := d.dst, entry := d.entry)
  }

  /** A file that only the destination has: it goes, and into quarantine if that is local and the job keeps versions. */
  predicate ExtraEnds(cfg: Config, c: Cell, d: Cell)
    requires c.dst.Some?
  {
    && d.dst.None? && d.entry.None?
    && d.quarantined == (if cfg.localDest && cfg.versions then c.quarantined + [c.dst.value.data] else c.quarantined)
    && d == c.(dst := None, entry := None, quarantined := d.quarantined)
  }

  lemma OneWayEnds(cfg: Config, now: int, c: Cell)
    requires c.src.Some?
    ensures FileEnds(cfg, now, c, OneWay(cfg, now, c))
  {
  }

  lemma MirrorExtraEnds(cfg: Config, c: Cell)
    requires c.dst.Some?
    ensures ExtraEnds(cfg, c, MirrorExtra(cfg, c))
  {
  }

  /** So the counters of a run tell apart the files that look synced and those that do not. */
  lemma SkipsIffLooksSynced(cfg: Config, c: Cell)
    requires c.src.Some?
    ensures Skips(cfg, c) <==> LooksSynced(cfg, c)
  {
  }

  /** Every path of a complete backup or mirror run that is not in error. */
  lemma OneWayRunEnds(cfg: Config, mirror: bool, env: Env, st: State, cur: State, r: RunResult)
    requires RunDone(cfg, mirror, env, st, cur, r) && !r.paused
    ensures forall p :: p in VisiblePaths(cfg, st.src) && p !in r.errors ==>
              CellIn(st, p).src.Some? && FileEnds(cfg, env.now, CellIn(st, p), CellIn(cur, p))
    ensures forall p :: p !in VisiblePaths(cfg, st.src) ==>
              if mirror && p in VisiblePaths(cfg, st.dst) && p !in r.errors
              then CellIn(st, p).dst.Some? && ExtraEnds(cfg, CellIn(st, p), CellIn(cur, p))
              else CellIn(cur, p) == CellIn(st, p)
  {
    hide CellIn, OneWay, MirrorExtra, FileEnds, ExtraEnds, VisiblePaths;
    forall p
      ensures p in VisiblePaths(cfg, st.src) && p !in r.errors ==>
                CellIn(st, p).src.Some? && FileEnds(cfg, env.now, CellIn(st, p), CellIn(cur, p))
      ensures p !in VisiblePaths(cfg, st.src) ==>
                if mirror && p in VisiblePaths(cfg, st.dst) && p !in r.errors
                then CellIn(st, p).dst.Some? && ExtraEnds(cfg, CellIn(st, p), CellIn(cur, p))
                else CellIn(cur, p) == CellIn(st, p)
    {
      VisibleHasSource(cfg, st, p);
      if p in VisiblePaths(cfg, st.src) {
        OneWayEnds(cfg, env.now, CellIn(st, p));
      } else if p in VisiblePaths(cfg, st.dst) {
        MirrorExtraEnds(cfg, CellIn(st, p));
      }
    }
  }

  /**
   * An edit is copied by the next complete run, unless the content is compared by size and second alone and
   * it keeps the size and falls within the second before or after the synced time.
   */
  lemma EditsAreCopied(cfg: Config, mirror: bool, env: Env, st: State, cur: State, r: RunResult, p: Path,
                       synced: File, edited: File)
    requires Sound(cfg) && RunDone(cfg, mirror, env, st, cur, r) && !r.paused && p !in r.errors
    requires CellIn(st, p).src == Some(edited) && cfg.visible(p, edited) && edited.data != synced.data
    requires CellIn(st, p).entry == Some(Entry(cfg.hash(synced.data), |synced.data|, synced.mtime))
    requires || cfg.fullChecksum || |edited.data| != |synced.data|
             || edited.mtime >= synced.mtime + 1_000_000_000 || edited.mtime <= synced.mtime - 1_000_000_000
    ensures Content(CellIn(cur, p).dst) == Some(edited.data)
    ensures cfg.localDest ==> CellIn(cur, p).dst == Some(edited)
  {
    hide CellIn, OneWay;
    OneWayRunEnds(cfg, mirror, env, st, cur, r);
    VisibleHasSource(cfg, st, p);
  }

  // ---- Two-way ----

  /** The manifest says that data was the content both sides last agreed on. */
  predicate LastSynced(cfg: Config, c: Cell, data: bytes) {
    c.entry.Some? && c.entry.value.hash == cfg.hash(data)
  }

  /** Two files with different contents, neither of them the one last agreed on. */
  predicate Clash(cfg: Config, c: Cell) {
    && c.src.Some? && c.dst.Some? && c.src.value.data != c.dst.value.data
    && !LastSynced(cfg, c, c.src.value.data) && !LastSynced(cfg, c, c.dst.value.data)
  }

  /**
   * Three-way merge for a source file: the content both sides are to hold, or None if they are to be left
   * as they are.
   */
  function Merge(cfg: Config, c: Cell): Option<bytes>
    requires c.src.Some?
  {
    var f := c.src.value;
    if c.dst.None? then if LastSynced(cfg, c, f.data) then None else Some(f.data)
    else
      var g := c.dst.value;
      if f.data == g.data || LastSynced(cfg, c, g.data) then Some(f.data)
      else if LastSynced(cfg, c, f.data) then Some(g.data)
      else match cfg.strategy
        case SourceWins => Some(f.data)
        case DestinationWins => Some(g.data)
        case NewestWins => Some(if f.mtime > g.mtime then f.data else g.data)
        case LargestWins => Some(if |f.data| >= |g.data| then f.data else g.data)
        case AskUser => None
        case UnknownStrategy => None
  }

  /** With versions, one is stored just when two different files meet: of the one that is not to survive, or the destination's in a clash. */
  predicate VersionsEnd(cfg: Config, c: Cell, d: Cell)
    requires c.src.Some?
  {
    if cfg.versions && c.dst.Some? && c.src.value.data != c.dst.value.data then
      var all := c.history + [if LastSynced(cfg, c, c.src.value.data) then c.src.value.data else c.dst.value.data];
      && (cfg.versionsToKeep == 0 || |all| <= cfg.versionsToKeep ==> d.history == all)
      && (0 < cfg.versionsToKeep < |all| ==> d.history == all[|all| - cfg.versionsToKeep..])
    else d.history == c.history
  }

  /** A clash is put on record once, and closed where the strategy settles it; nothing else touches the rows. */
  ghost predicate RowsEnd(cfg: Config, c: Cell, d: Cell) {
    if Clash(cfg, c) && cfg.conflicts && !cfg.strategy.UnknownStrategy? then
      var row := ConflictRow(cfg.hash(c.src.value.data), cfg.hash(c.dst.value.data), if cfg.strategy.AskUser? then Pending else AutoResolved);
      && ((forall i :: 0 <= i < |c.conflicts| ==> !c.conflicts[i].status.Pending?) ==> d.conflicts == c.conflicts + [row])
      && (forall i :: OnePending(c.conflicts) && 0 <= i < |c.conflicts| && c.conflicts[i].status.Pending? ==>
            d.conflicts == c.conflicts[i := c.conflicts[i].(status := row.status)])
    else d.conflicts == c.conflicts
  }

  /** Where the merge leaves the two files of a path that was not in sync, and under what times. */
  predicate FilesEnd(cfg: Config, c: Cell, d: Cell, data: bytes)
    requires c.src.Some?
  {
    && d.src.Some? && d.dst.Some? && d.src.value.data == data == d.dst.value.data
    && d.entry == Some(Entry(cfg.hash(data), |data|, d.src.value.mtime))
    && d.src.value.mtime == (if Clash(cfg, c) && data == c.dst.value.data then c.dst.value.mtime else c.src.value.mtime)
    && (c.dst.Some? && data == c.dst.value.data && c.entry.Some? ==> d.dst == c.dst)
    && (c.dst.None? || data != c.dst.value.data ==> d.dst == c.src)
  }

  /** A visible source file after a complete run. */
  ghost predicate SourceEnds(cfg: Config, c: Cell, d: Cell)
    requires c.src.Some?
  {
    && (match Merge(cfg, c)
        case None => d.src == c.src && d.dst == c.dst && d.entry == c.entry
        case Some(data) => if InSync(cfg, c) then d == c else FilesEnd(cfg, c, d, data))
    && VersionsEnd(cfg, c, d) && RowsEnd(cfg, c, d) && d.quarantined == c.quarantined
  }

  /** A file that the destination alone shows: new ones are copied, synced ones are put in quarantine. */
  predicate DestinationEnds(cfg: Config, c: Cell, d: Cell)
    requires c.dst.Some?
  {
    if c.entry.None? then
      && d.src == c.dst && d.entry == Some(Entry(cfg.hash(c.dst.value.data), |c.dst.value.data|, c.dst.value.mtime))
      && d == c.(src := d.src, entry := d.entry)
    else if cfg.versions then d == c.(dst := None, entry := None, quarantined := c.quarantined + [c.dst.value.data])
    else d == c
  }

  lemma VersionsAfter(cfg: Config, c: Cell)
    requires Sound(cfg) && c.src.Some?
    ensures VersionsEnd(cfg, c, TwoWaySource(cfg, c))
  {
    hide ConflictsAfter, Decide;
    DecideByContents(cfg, c);
  }

  lemma RowsAfter(cfg: Config, c: Cell)
    requires Sound(cfg) && c.src.Some?
    ensures RowsEnd(cfg, c, TwoWaySource(cfg, c))
  {
    hide HistoryAfter, Recorded, Closed, Decide, Sound;
    DecideByContents(cfg, c);
    if Clash(cfg, c) {
      var h, k := cfg.hash(c.src.value.data), cfg.hash(c.dst.value.data);
      RecordedThenClosed(c.conflicts, h, k);
    }
  }

  lemma RecordedThenClosed(rows: seq<ConflictRow>, h: Hash, k: Hash)
    ensures (forall i :: 0 <= i < |rows| ==> !rows[i].status.Pending?) ==>
              && Recorded(rows, h, k) == rows + [ConflictRow(h, k, Pending)]
              && Closed(Recorded(rows, h, k), AutoResolved) == rows + [ConflictRow(h, k, AutoResolved)]
    ensures forall i :: OnePending(rows) && 0 <= i < |rows| && rows[i].status.Pending? ==>
              && Recorded(rows, h, k) == rows == rows[i := rows[i].(status := Pending)]
              && Closed(Recorded(rows, h, k), AutoResolved) == rows[i := rows[i].(status := AutoResolved)]
  {
    PendingIndexFinds(rows);
    PendingIndexFinds(Recorded(rows, h, k));
  }

  /** The decision, by contents. */
  lemma DecideByContents(cfg: Config, c: Cell)
    requires Sound(cfg) && c.src.Some?
    ensures var f, g := c.src.value, c.dst;
            && (g.None? ==> Decide(cfg, c) == if LastSynced(cfg, c, f.data) then Leave else Push)
            && (g.Some? && f.data == g.value.data ==>
                  Decide(cfg, c) == if c.entry.None? then Push else if LastSynced(cfg, c, f.data) then Leave else Relabel)
            && (g.Some? && f.data != g.value.data ==>
                  Decide(cfg, c) == if LastSynced(cfg, c, g.value.data) then Push
                                    else if LastSynced(cfg, c, f.data) then Pull else Conflict)
  {
  }

  lemma FilesAfter(cfg: Config, c: Cell)
    requires Sound(cfg) && c.src.Some?
    ensures var d := TwoWaySource(cfg, c);
            match Merge(cfg, c)
            case None => d.src == c.src && d.dst == c.dst && d.entry == c.entry
            case Some(data) => if InSync(cfg, c) then d == c else FilesEnd(cfg, c, d, data)
    ensures TwoWaySource(cfg, c).quarantined == c.quarantined
  {
    hide HistoryAfter, ConflictsAfter, Decide, Sound;
    DecideByContents(cfg, c);
    if InSync(cfg, c) { SettledIsFixed(cfg, c); }
  }

  lemma SettledIsFixed(cfg: Config, c: Cell)
    requires Sound(cfg) && InSync(cfg, c)
    ensures TwoWaySource(cfg, c) == c
  {
  }

  /** A run is a three-way merge, with versions, rows and times as described. */
  lemma SourceMerges(cfg: Config, c: Cell)
    requires Sound(cfg) && c.src.Some?
    ensures SourceEnds(cfg, c, TwoWaySource(cfg, c))
  {
    hide TwoWaySource, VersionsEnd, RowsEnd, FilesEnd, Merge, InSync;
    FilesAfter(cfg, c);
    VersionsAfter(cfg, c);
    RowsAfter(cfg, c);
  }

  lemma DestinationAfter(cfg: Config, c: Cell)
    requires c.dst.Some?
    ensures DestinationEnds(cfg, c, TwoWayExtra(cfg, c))
  {
  }

  /** Every path of a complete two-way run that is not in error: visible source files are merged, other visible destination files copied or put away, and the rest is left alone. */
  lemma TwoWayRunMerges(cfg: Config, st: State, cur: State, errors: seq<Path>)
    requires Sound(cfg) && TwoWayDone(cfg, st, cur, errors)
    ensures forall p :: p !in errors ==>
              var c, d := CellIn(st, p), CellIn(cur, p);
              if c.src.Some? && cfg.visible(p, c.src.value) then SourceEnds(cfg, c, d)
              else if c.dst.Some? && cfg.visible(p, c.dst.value) then DestinationEnds(cfg, c, d)
              else d == c
  {
    hide CellIn, TwoWaySource, TwoWayExtra, SourceEnds, DestinationEnds, Sound;
    forall p | p !in errors
      ensures var c, d := CellIn(st, p), CellIn(cur, p);
              if c.src.Some? && cfg.visible(p, c.src.value) then SourceEnds(cfg, c, d)
              else if c.dst.Some? && cfg.visible(p, c.dst.value) then DestinationEnds(cfg, c, d)
              else d == c
    {
      var c := CellIn(st, p);
      assert CellIn(cur, p) == TwoWay(cfg, p, c);
      if c.src.Some? && cfg.visible(p, c.src.value) {
        SourceMerges(cfg, c);
      } else if c.dst.Some? && cfg.visible(p, c.dst.value) {
        DestinationAfter(cfg, c);
      }
    }
  }

  /** What a run counts at a path, by contents. */
  lemma KindByContents(cfg: Config, p: Path, c: Cell)
    requires Sound(cfg) && c.src.Some? && cfg.visible(p, c.src.value)
    ensures Kind(cfg, p, c).Conflicting? <==> Clash(cfg, c)
    ensures Kind(cfg, p, c).Skipping? <==>
              if c.dst.None? then LastSynced(cfg, c, c.src.value.data)
              else c.dst.value.data == c.src.value.data && c.entry.Some?
    ensures !Kind(cfg, p, c).Conflicting? && !Kind(cfg, p, c).Skipping? ==> Kind(cfg, p, c).Copying?
    ensures MovedBy(cfg, p, c)
            == if Kind(cfg, p, c).Skipping? || Merge(cfg, c).None? then 0 else |Merge(cfg, c).value|
  {
    hide Decide, Sound;
    DecideByContents(cfg, c);
  }

  /** A destination file that the source does not show. */
  lemma ExtraKindByContents(cfg: Config, p: Path, c: Cell)
    requires !(c.src.Some? && cfg.visible(p, c.src.value)) && c.dst.Some? && cfg.visible(p, c.dst.value)
    ensures Kind(cfg, p, c) == if c.entry.None? then Copying else if cfg.versions then Quarantining else Ignoring
    ensures MovedBy(cfg, p, c) == if c.entry.None? then |c.dst.value.data| else 0
  {
  }

  /** Both sides end with data. */
  predicate BothHold(d: Cell, data: bytes) {
    Content(d.src) == Some(data) == Content(d.dst)
  }

  /**
   * What each strategy makes of a clash: the content of the strictly newer file, a tie going to the destination;
   * of the larger one, a tie going to the source; of the side named; or neither side touched.
   */
  lemma ClashEndsByStrategy(cfg: Config, st: State, cur: State, errors: seq<Path>, p: Path, f: File, g: File)
    requires Sound(cfg) && TwoWayDone(cfg, st, cur, errors) && p !in errors
    requires CellIn(st, p).src == Some(f) && CellIn(st, p).dst == Some(g) && cfg.visible(p, f) && f.data != g.data
    requires CellIn(st, p).entry.Some? ==>
               CellIn(st, p).entry.value.hash != cfg.hash(f.data) && CellIn(st, p).entry.value.hash != cfg.hash(g.data)
    ensures cfg.strategy.NewestWins? && f.mtime > g.mtime ==> BothHold(CellIn(cur, p), f.data)
    ensures cfg.strategy.NewestWins? && f.mtime <= g.mtime ==> BothHold(CellIn(cur, p), g.data)
    ensures cfg.strategy.LargestWins? && |f.data| >= |g.data| ==> BothHold(CellIn(cur, p), f.data)
    ensures cfg.strategy.LargestWins? && |f.data| < |g.data| ==> BothHold(CellIn(cur, p), g.data)
    ensures cfg.strategy.SourceWins? ==> BothHold(CellIn(cur, p), f.data)
    ensures cfg.strategy.DestinationWins? ==> BothHold(CellIn(cur, p), g.data)
    ensures cfg.strategy.AskUser? ==> CellIn(cur, p).src == Some(f) && CellIn(cur, p).dst == Some(g)
  {
    hide CellIn, TwoWay, Sound, VersionsEnd, RowsEnd;
    TwoWayRunMerges(cfg, st, cur, errors);
    assert Clash(cfg, CellIn(st, p)) && !InSync(cfg, CellIn(st, p));
  }

  /** Where only one side was changed since the last sync, its content ends on both, whatever the strategy. */
  lemma OneSidedChangeWins(cfg: Config, st: State, cur: State, errors: seq<Path>, p: Path, f: File, g: File)
    requires Sound(cfg) && TwoWayDone(cfg, st, cur, errors) && p !in errors
    requires CellIn(st, p).src == Some(f) && CellIn(st, p).dst == Some(g) && cfg.visible(p, f) && CellIn(st, p).entry.Some?
    ensures CellIn(st, p).entry.value.hash == cfg.hash(g.data) ==> BothHold(CellIn(cur, p), f.data)
    ensures CellIn(st, p).entry.value.hash == cfg.hash(f.data) ==> BothHold(CellIn(cur, p), g.data)
  {
    hide CellIn, TwoWay, VersionsEnd, RowsEnd;
    TwoWayRunMerges(cfg, st, cur, errors);
  }
}
