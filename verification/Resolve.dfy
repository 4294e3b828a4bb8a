/** Resolving a pending conflict by hand. */
module ConflictService {
  import opened Prelude
  import opened Disks
  import opened Worlds
  import opened SyncSpec
  import opened TwoWayFacts
  import opened TwoWayRuns

  datatype ResolveError = NotFound | LookupFailed | AlreadyResolved | BadAction | AsideFailed | CopyFailed | RowFailed

  /**
   * What fails in a copy through a temporary file: something up to the closing of that file, the removal
   * of the old target, or the final rename.
   */
  datatype CopyFaults = CopyFaults(early: bool, remove: bool, rename: bool)

  /** What fails in a call of Resolve: reading the row, moving the destination aside, the copy, closing the row. */
  datatype ResolveFaults = ResolveFaults(lookup: bool, aside: bool, copy: CopyFaults, row: bool)

  function ActionName(action: Action): string {
    match action
    case KeepSource => "keep-source"
    case KeepDestination => "keep-dest"
    case KeepBoth => "keep-both"
    case UnknownAction => ""
  }

  /** Whether a copy gives up while the old target is still in place. A target that is not there cannot fail to be removed. */
  predicate StopsEarly(files: map<Path, File>, p: Path, faults: CopyFaults) {
    faults.early || (faults.remove && p in files)
  }

  predicate CopySucceeds(files: map<Path, File>, p: Path, faults: CopyFaults) {
    !StopsEarly(files, p, faults) && !faults.rename
  }

  /** The target directory after copying f to p through tmp; a failing rename leaves tmp instead of p. */
  function AfterCopy(files: map<Path, File>, p: Path, f: File, tmp: Path, faults: CopyFaults): map<Path, File> {
    if StopsEarly(files, p, faults) then files
    else if faults.rename then (files - {p})[tmp := f]
    else files[p := f]
  }

  /** Copies a file over p: write a temporary file, remove the target, rename. */
  method CopyThroughTemp(from: Disk, to: Disk, p: Path, tmp: Path, now: int, faults: CopyFaults) returns (ok: bool)
    requires from != to && p in from.files && tmp !in to.files && tmp != p
    modifies to
    ensures ok <==> CopySucceeds(old(to.files), p, faults)
    ensures to.files == AfterCopy(old(to.files), p, File(from.files[p].data, now), tmp, faults)
    ensures ok ==> tmp !in to.files
  {
    if faults.early { return false; }
    ghost var before := to.files;
    to.Write(tmp, File(from.files[p].data, now));
    if faults.remove && p in to.files {
      to.Remove(tmp);
      assert to.files == before;
      return false;
    }
    to.Remove(p);
    if faults.rename {
      assert to.files == (before - {p})[tmp := File(from.files[p].data, now)];
      return false;
    }
    var f := to.files[tmp];
    to.Remove(tmp);
    to.Write(p, f);
    assert to.files == before[p := f];
    return true;
  }

  /**
   * The old target survives a copy that fails if and only if the copy did not come to a failing rename;
   * then the directory is as it was, and otherwise nothing is at the target.
   */
  lemma TargetSurvivesIff(files: map<Path, File>, p: Path, f: File, tmp: Path, faults: CopyFaults)
    requires p in files && tmp !in files && tmp != p && !CopySucceeds(files, p, faults)
    ensures var after := AfterCopy(files, p, f, tmp, faults);
            && (p in after && after[p] == files[p] <==> !(faults.rename && !faults.early && !faults.remove))
            && (p in after ==> after == files)
            && (p !in after ==> after - {tmp} == files - {p} && after[tmp] == f)
  {
    assert (files - {p})[tmp := f] - {tmp} == files - {p};
  }

  /** The decision of Resolve before it touches a file: row k of p must be read, exist and be pending. */
  function Refusal(c: Cell, k: nat, action: Action, faults: ResolveFaults): Option<ResolveError> {
    if faults.lookup then Some(LookupFailed)
    else if k >= |c.conflicts| then Some(NotFound)
    else if !c.conflicts[k].status.Pending? then Some(AlreadyResolved)
    else if action.UnknownAction? then Some(BadAction)
    else None
  }

  /** The destination directory once keep-both has moved its file out of the way. */
  function MovedAside(files: map<Path, File>, p: Path, aside: Path): map<Path, File>
    requires p in files
  {
    (files - {p})[aside := files[p]]
  }

  /** What a choice that is not refused does to the two directories, and what fails in it. */
  function Carried(src: map<Path, File>, dst: map<Path, File>, p: Path, action: Action, aside: Path, tmp: Path,
                   now: int, faults: ResolveFaults): (map<Path, File>, map<Path, File>, Option<ResolveError>)
  {
    match action
    case KeepSource =>
      if p !in src then (src, dst, None)
      else (src, AfterCopy(dst, p, File(src[p].data, now), tmp, faults.copy),
            if CopySucceeds(dst, p, faults.copy) then None else Some(CopyFailed))
    case KeepDestination =>
      if p !in dst then (src, dst, None)
      else (AfterCopy(src, p, File(dst[p].data, now), tmp, faults.copy), dst,
            if CopySucceeds(src, p, faults.copy) then None else Some(CopyFailed))
    case KeepBoth =>
      if p !in dst then (src, dst, None)
      else if faults.aside then (src, dst, Some(AsideFailed))
      else if p !in src then (src, MovedAside(dst, p, aside), None)
      else (src, AfterCopy(MovedAside(dst, p, aside), p, File(src[p].data, now), tmp, faults.copy),
            if CopySucceeds(MovedAside(dst, p, aside), p, faults.copy) then None else Some(CopyFailed))
    case UnknownAction => (src, dst, None)
  }

  /** The file part of Resolve. */
  method CarryOut(w: World, p: Path, action: Action, aside: Path, tmp: Path, now: int, faults: ResolveFaults)
    returns (r: Option<ResolveError>)
    requires w.src != w.dst && aside != p && tmp != p && tmp != aside && tmp !in w.src.files && tmp !in w.dst.files
    modifies w.src, w.dst
    ensures (w.src.files, w.dst.files, r)
            == Carried(old(w.src.files), old(w.dst.files), p, action, aside, tmp, now, faults)
    ensures r.Some? ==> r.value.AsideFailed? || r.value.CopyFailed?
    ensures r.None? ==> tmp !in w.src.files && tmp !in w.dst.files
  {
    hide AfterCopy, CopySucceeds;
    var ok := true;
    match action
    case KeepSource =>
      if p in w.src.files { ok := CopyThroughTemp(w.src, w.dst, p, tmp, now, faults.copy); }
      return if ok then None else Some(CopyFailed);
    case KeepDestination =>
      if p in w.dst.files { ok := CopyThroughTemp(w.dst, w.src, p, tmp, now, faults.copy); }
      return if ok then None else Some(CopyFailed);
    case KeepBoth =>
      if p !in w.dst.files { return None; }
      if faults.aside { return Some(AsideFailed); }
      var f := w.dst.files[p];
      w.dst.Remove(p);
      w.dst.Write(aside, f);
      if p in w.src.files { ok := CopyThroughTemp(w.src, w.dst, p, tmp, now, faults.copy); }
      return if ok then None else Some(CopyFailed);
    case UnknownAction =>
      return None;
  }

  /**
   * Applies the user's choice to the files and closes the row. aside is the time-stamped name that
   * keep-both moves the destination version to, tmp the name of the temporary file.
   */
  method Resolve(w: World, p: Path, k: nat, action: Action, aside: Path, tmp: Path, now: int, faults: ResolveFaults)
    returns (r: Option<ResolveError>)
    requires w.src != w.dst && aside != p && tmp != p && tmp != aside && tmp !in w.src.files && tmp !in w.dst.files
    modifies w`conflicts, w.src, w.dst
    ensures var c := CellIn(old(w.Now()), p);
            var done := Carried(old(w.src.files), old(w.dst.files), p, action, aside, tmp, now, faults);
            if Refusal(c, k, action, faults).Some? then
              r == Refusal(c, k, action, faults) && w.Now() == old(w.Now())
            else
              && w.src.files == done.0 && w.dst.files == done.1
              && r == (if done.2.Some? then done.2 else if faults.row then Some(RowFailed) else None)
              && (r.Some? ==> w.conflicts == old(w.conflicts))
              && (r.None? ==> w.conflicts == old(w.conflicts)[p :=
                    c.conflicts[k := c.conflicts[k].(status := Resolved(ActionName(action)))]])
    ensures var rows := CellIn(old(w.Now()), p).conflicts;
            && (r == Some(LookupFailed) <==> faults.lookup)
            && (r == Some(NotFound) <==> !faults.lookup && k >= |rows|)
            && (r == Some(AlreadyResolved) <==> !faults.lookup && k < |rows| && !rows[k].status.Pending?)
            && (r == Some(BadAction) <==> !faults.lookup && k < |rows| && rows[k].status.Pending? && action.UnknownAction?)
    ensures r.None? ==>
              && p in w.conflicts && k < |w.conflicts[p]|
              && w.conflicts[p][k].status == Resolved(if action.KeepSource? then "keep-source"
                                                      else if action.KeepDestination? then "keep-dest" else "keep-both")
    ensures r.None? ==> tmp !in w.src.files && tmp !in w.dst.files
  {
    hide Carried, AfterCopy, CopySucceeds;
    if faults.lookup { return Some(LookupFailed); }
    var rows := ListAt(w.conflicts, p);
    if k >= |rows| { return Some(NotFound); }
    if !rows[k].status.Pending? { return Some(AlreadyResolved); }
    if action.UnknownAction? { return Some(BadAction); }
    r := CarryOut(w, p, action, aside, tmp, now, faults);
    if r.Some? { return; }
    if faults.row { return Some(RowFailed); }
    w.conflicts := w.conflicts[p := rows[k := rows[k].(status := Resolved(ActionName(action)))]];
  }

  /** Resolving the same row again, with whatever choice, is refused and changes nothing. */
  method ResolveTwice(w: World, p: Path, k: nat, first: Action, second: Action, aside: Path, tmp: Path, now: int,
                      faults: ResolveFaults)
    returns (r1: Option<ResolveError>, r2: Option<ResolveError>, ghost mid: State)
    requires w.src != w.dst && aside != p && tmp != p && tmp != aside && tmp !in w.src.files && tmp !in w.dst.files
    modifies w`conflicts, w.src, w.dst
    ensures r1.None? ==> r2 == Some(if faults.lookup then LookupFailed else AlreadyResolved) && w.Now() == mid
  {
    hide Carried;
    r1 := Resolve(w, p, k, first, aside, tmp, now, faults);
    mid := w.Now();
    if r1.Some? { return r1, r1, mid; }
    r2 := Resolve(w, p, k, second, aside, tmp, now, faults);
  }

  /** A state in which p has been resolved. */
  ghost predicate ResolvedAt(st: State, mid: State, p: Path, k: nat, action: Action, aside: Path, now: int) {
    var c := CellIn(st, p);
    && k < |c.conflicts|
    && CellIn(mid, p) == ResolvedCell(c, action, now).(
         conflicts := c.conflicts[k := c.conflicts[k].(status := Resolved(ActionName(action)))])
    && CellIn(mid, aside) == AsideCell(c, CellIn(st, aside), action)
  }

  /** The two directories after a choice that is carried out in full. */
  lemma CarriedFiles(src: map<Path, File>, dst: map<Path, File>, c: Cell, e: Cell, p: Path, action: Action, aside: Path, tmp: Path,
                     now: int, faults: ResolveFaults)
    requires aside != p && tmp != p && tmp != aside && tmp !in src && tmp !in dst
    requires c.src == At(src, p) && c.dst == At(dst, p) && e.dst == At(dst, aside)
    requires Carried(src, dst, p, action, aside, tmp, now, faults).2.None?
    ensures var (src', dst', _) := Carried(src, dst, p, action, aside, tmp, now, faults);
            && At(src', p) == ResolvedCell(c, action, now).src && At(dst', p) == ResolvedCell(c, action, now).dst
            && At(dst', aside) == AsideCell(c, e, action).dst
            && (forall q :: q != p ==> At(src', q) == At(src, q))
            && (forall q :: q != p && q != aside ==> At(dst', q) == At(dst, q))
  {
  }

  /** When nothing fails, the choice has its effect on the path and on the name put aside, and on no other path. */
  lemma CarriedOutInFull(st: State, mid: State, p: Path, k: nat, action: Action, aside: Path, tmp: Path, now: int,
                         faults: ResolveFaults)
    requires aside != p && tmp != p && tmp != aside && tmp !in st.src && tmp !in st.dst
    requires Refusal(CellIn(st, p), k, action, faults).None?
    requires var done := Carried(st.src, st.dst, p, action, aside, tmp, now, faults);
             var c := CellIn(st, p);
             done.2.None? && mid == st.(src := done.0, dst := done.1, conflicts := st.conflicts[p :=
               c.conflicts[k := c.conflicts[k].(status := Resolved(ActionName(action)))]])
    ensures ResolvedAt(st, mid, p, k, action, aside, now)
    ensures forall q :: q != p && q != aside ==> CellIn(mid, q) == CellIn(st, q)
  {
    hide Carried;
    CarriedFiles(st.src, st.dst, CellIn(st, p), CellIn(st, aside), p, action, aside, tmp, now, faults);
  }

  /** All the places where a content can still be found after a failed choice. */
  predicate Anywhere(data: bytes, src: map<Path, File>, dst: map<Path, File>) {
    (exists q | q in src :: src[q].data == data) || (exists q | q in dst :: dst[q].data == data)
  }

  /**
   * A choice that fails costs the path a file if and only if it was to overwrite one and the rename was what
   * failed: the source file with keep-dest, the destination file with keep-source. Keep-both has the
   * destination file put aside whenever it is no longer at the path.
   */
  lemma FailureCostsAFileIff(src: map<Path, File>, dst: map<Path, File>, p: Path, action: Action, aside: Path, tmp: Path,
                             now: int, faults: ResolveFaults)
    requires aside != p && tmp != p && tmp != aside && tmp !in src && tmp !in dst
    requires Carried(src, dst, p, action, aside, tmp, now, faults).2.Some?
    ensures var (src', dst', _) := Carried(src, dst, p, action, aside, tmp, now, faults);
            var lost := faults.copy.rename && !faults.copy.early && !faults.copy.remove;
            && (At(src', p) != At(src, p) <==> action.KeepDestination? && p in src && lost)
            && (At(dst', p) != At(dst, p) && !(action.KeepBoth? && At(dst', aside) == At(dst, p))
                <==> action.KeepSource? && p in dst && lost)
            && (forall q :: q != p && q != aside && q != tmp ==> At(src', q) == At(src, q) && At(dst', q) == At(dst, q))
  {
  }

  /**
   * The name put aside is made of the time in seconds, so it may be taken. A choice, successful or not,
   * replaces the file there if and only if keep-both gets as far as moving another one over it; the source
   * directory's file of that name is never touched.
   */
  lemma AsideFileIsReplacedIff(src: map<Path, File>, dst: map<Path, File>, p: Path, action: Action, aside: Path, tmp: Path,
                               now: int, faults: ResolveFaults)
    requires aside != p && tmp != p && tmp != aside && tmp !in src && tmp !in dst
    ensures var (src', dst', _) := Carried(src, dst, p, action, aside, tmp, now, faults);
            && (At(dst', aside) != At(dst, aside)
                <==> action.KeepBoth? && p in dst && !faults.aside && At(dst, aside) != At(dst, p))
            && At(src', aside) == At(src, aside)
  {
  }

  /** Two conflicts of one path kept within the same second: the version the first one put aside is nowhere any more. */
  lemma SecondKeepBothLosesTheFirst(p: Path, aside: Path, tmp: Path, f: File, v1: File, v2: File, now: int)
    requires aside != p && tmp != p && tmp != aside && v1.data != f.data && v1.data != v2.data
    ensures var faults := ResolveFaults(false, false, CopyFaults(false, false, false), false);
            var (src, dst, r) := Carried(map[p := f], map[p := v1], p, KeepBoth, aside, tmp, now, faults);
            var (src', dst', r') := Carried(src, dst[p := v2], p, KeepBoth, aside, tmp, now, faults);
            && r.None? && At(dst, aside) == Some(v1)
            && r'.None? && At(dst', aside) == Some(v2) && !Anywhere(v1.data, src', dst')
  {
  }

  /** The loss is real: keeping the destination can end with the source content nowhere on either side. */
  lemma KeepDestinationCanLoseTheSource(p: Path, aside: Path, tmp: Path, f: File, g: File, now: int)
    requires aside != p && tmp != p && tmp != aside && f.data != g.data
    ensures var faults := ResolveFaults(false, false, CopyFaults(false, false, true), false);
            var (src, dst, r) := Carried(map[p := f], map[p := g], p, KeepDestination, aside, tmp, now, faults);
            r == Some(CopyFailed) && !Anywhere(f.data, src, dst)
            && src == map[tmp := File(g.data, now)] && dst == map[p := g]
  {
    assert map[p := f] - {p} == map[];
  }

  /**
   * Resolving and then running the job: both sides of the path end with the chosen content, the manifest
   * knows it, and no conflict comes up again; with keep-both the destination version is on both sides too.
   */
  lemma ResolvedConflictStaysResolved(cfg: Config, p: Path, aside: Path, k: nat, action: Action, now: int,
                                      st: State, mid: State, cur: State)
    requires Sound(cfg) && !action.UnknownAction?
    requires var c := CellIn(st, p);
             c.src.Some? && c.dst.Some? && cfg.visible(p, ResolvedCell(c, action, now).src.value)
    requires ResolvedAt(st, mid, p, k, action, aside, now)
    requires TwoWayDone(cfg, mid, cur, [])
    ensures var c, d := CellIn(st, p), CellIn(cur, p);
            && InSync(cfg, d) && d.conflicts == CellIn(mid, p).conflicts
            && Content(d.src) == Some(if action.KeepDestination? then c.dst.value.data else c.src.value.data)
    ensures action.KeepBoth? && cfg.visible(aside, CellIn(st, p).dst.value)
            && CellIn(st, aside).src.None? && CellIn(st, aside).dst.None? && CellIn(st, aside).entry.None?
            ==> InSync(cfg, CellIn(cur, aside)) && Content(CellIn(cur, aside).src) == Content(CellIn(st, p).dst)
  {
    hide CellIn;
    var c, e := CellIn(st, p), CellIn(st, aside);
    ResolveThenSync(cfg, p, c.(conflicts := CellIn(mid, p).conflicts), action, now);
    NoNewRow(cfg, p, CellIn(mid, p));
    if action.KeepBoth? && cfg.visible(aside, c.dst.value) && e.src.None? && e.dst.None? && e.entry.None? {
      KeepBothKeepsBoth(cfg, aside, c, e);
    }
  }

  lemma NoNewRow(cfg: Config, p: Path, c: Cell)
    requires c.src.Some? && !Decide(cfg, c).Conflict?
    ensures TwoWay(cfg, p, c).conflicts == c.conflicts
  {
  }
}
