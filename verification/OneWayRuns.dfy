/** Whole backup and mirror runs over all scanned files. */
module OneWayRuns {
  import opened Prelude
  import opened Disks
  import opened Worlds
  import opened Transfers
  import opened SyncSpec
  import opened Engine

  ghost function VisiblePaths(cfg: Config, tree: map<Path, File>): set<Path> {
    set p | p in tree && cfg.visible(p, tree[p])
  }

  /** A scan lists every visible file once, in any order. */
  ghost predicate IsScan(cfg: Config, files: seq<Path>, tree: map<Path, File>) {
    && (forall i, j :: 0 <= i < j < |files| ==> files[i] != files[j])
    && (forall p :: p in files <==> p in VisiblePaths(cfg, tree))
  }

  lemma {:induction false} DistinctCount(files: seq<Path>, paths: set<Path>)
    requires forall i, j :: 0 <= i < j < |files| ==> files[i] != files[j]
    requires forall p :: p in files <==> p in paths
    ensures |files| == |paths|
  {
    if files == [] {
      assert paths == {};
    } else {
      var last := files[|files| - 1];
      assert forall p :: p in files[..|files| - 1] <==> p in paths - {last};
      DistinctCount(files[..|files| - 1], paths - {last});
    }
  }

  method Scan(cfg: Config, d: Disk) returns (files: seq<Path>)
    ensures IsScan(cfg, files, d.files) && |files| == |VisiblePaths(cfg, d.files)|
  {
    files := [];
    var rest := set p | p in d.files && cfg.visible(p, d.files[p]);
    while rest != {}
      invariant rest <= VisiblePaths(cfg, d.files)
      invariant forall i, j :: 0 <= i < j < |files| ==> files[i] != files[j]
      invariant forall p :: p in files <==> p in VisiblePaths(cfg, d.files) - rest
      decreases rest
    {
      var p :| p in rest;
      assert p !in files;
      files, rest := files + [p], rest - {p};
    }
    DistinctCount(files, VisiblePaths(cfg, d.files));
  }

  // ---- The copy pass over the source files ----

  /** The first i files of the pass are done, except those with an error; nothing else has changed. */
  ghost predicate PassAt(cfg: Config, now: int, st: State, cur: State, files: seq<Path>, i: nat, errors: seq<Path>)
    requires i <= |files| && forall p :: p in files ==> p in st.src
  {
    && cur == st.(dst := cur.dst, manifest := cur.manifest)
    && (forall p :: p !in files[..i] ==> CellIn(cur, p) == CellIn(st, p))
    && (forall k :: 0 <= k < i && files[k] !in errors ==> CellIn(cur, files[k]) == OneWay(cfg, now, CellIn(st, files[k])))
    && (forall p :: p in errors ==> p in files[..i])
  }

  lemma CellElsewhere(st: State, cur: State, p: Path, q: Path)
    requires cur == st.(dst := cur.dst, manifest := cur.manifest) && q != p
    requires OnlyAt(p, st.dst, cur.dst) && OnlyAt(p, st.manifest, cur.manifest)
    ensures CellIn(cur, q) == CellIn(st, q)
  {
    assert At(st.dst - {p}, q) == At(st.dst, q) && At(cur.dst - {p}, q) == At(cur.dst, q);
    assert At(st.manifest - {p}, q) == At(st.manifest, q) && At(cur.manifest - {p}, q) == At(cur.manifest, q);
  }

  lemma PassStep(cfg: Config, now: int, st: State, cur: State, next: State, files: seq<Path>, i: nat,
                 errors: seq<Path>, errors': seq<Path>)
    requires i < |files| && (forall p :: p in files ==> p in st.src) && PassAt(cfg, now, st, cur, files, i, errors)
    requires forall a, b :: 0 <= a < b < |files| ==> files[a] != files[b]
    requires next == cur.(dst := next.dst, manifest := next.manifest)
    requires OnlyAt(files[i], cur.dst, next.dst) && OnlyAt(files[i], cur.manifest, next.manifest)
    requires if errors' == errors then CellIn(next, files[i]) == OneWay(cfg, now, CellIn(cur, files[i]))
             else errors' == errors + [files[i]]
    ensures PassAt(cfg, now, st, next, files, i + 1, errors')
    ensures CellIn(cur, files[i]) == CellIn(st, files[i])
  {
    hide CellIn, OneWay, OnlyAt;
    var p := files[i];
    assert files[..i + 1] == files[..i] + [p];
    assert p !in files[..i];
    forall q | q != p
      ensures CellIn(next, q) == CellIn(cur, q)
    {
      CellElsewhere(cur, next, p, q);
    }
  }

  /** What a pass that was paused before or inside file i has left behind. */
  ghost predicate PausedPass(cfg: Config, env: Env, st: State, cur: State, files: seq<Path>, errors: seq<Path>)
    requires forall p :: p in files ==> p in st.src
  {
    && cur == st.(dst := cur.dst, manifest := cur.manifest)
    && (forall p :: p !in files ==> CellIn(cur, p) == CellIn(st, p))
    && (forall p :: p in files && p !in errors ==> AfterPausedRun(cfg, CellIn(st, p), CellIn(cur, p), env.removeFails(p)))
    && (forall p :: p in errors ==> p in files)
  }

  lemma PauseStep(cfg: Config, env: Env, st: State, cur: State, next: State, files: seq<Path>, i: nat, errors: seq<Path>)
    requires i < |files| && (forall p :: p in files ==> p in st.src) && PassAt(cfg, env.now, st, cur, files, i, errors)
    requires forall a, b :: 0 <= a < b < |files| ==> files[a] != files[b]
    requires next == cur.(dst := next.dst, manifest := next.manifest)
    requires OnlyAt(files[i], cur.dst, next.dst) && OnlyAt(files[i], cur.manifest, next.manifest)
    requires PausedAt(cfg, CellIn(cur, files[i]), CellIn(next, files[i]), env.removeFails(files[i]))
    ensures PausedPass(cfg, env, st, next, files, errors)
  {
    hide OneWay, OnlyAt, PausedAt;
    var p := files[i];
    assert p !in files[..i];
    forall q | q in files && q !in errors
      ensures AfterPausedRun(cfg, CellIn(st, q), CellIn(next, q), env.removeFails(q))
    {
      if q != p { CellElsewhere(cur, next, p, q); }
      if q in files[..i] {
        var k :| 0 <= k < i && files[k] == q;
      } else if q != p {
        assert PausedAt(cfg, CellIn(st, q), CellIn(next, q), env.removeFails(q)) by { Untouched(cfg, CellIn(st, q)); }
      }
    }
    forall q | q !in files
      ensures CellIn(next, q) == CellIn(st, q)
    {
      CellElsewhere(cur, next, p, q);
    }
  }

  lemma Untouched(cfg: Config, c: Cell)
    requires c.src.Some?
    ensures PausedAt(cfg, c, c, false) && PausedAt(cfg, c, c, true)
  {
  }

  lemma PauseBetween(cfg: Config, env: Env, st: State, cur: State, files: seq<Path>, i: nat, errors: seq<Path>)
    requires i < |files| && (forall p :: p in files ==> p in st.src) && PassAt(cfg, env.now, st, cur, files, i, errors)
    requires forall a, b :: 0 <= a < b < |files| ==> files[a] != files[b]
    ensures PausedPass(cfg, env, st, cur, files, errors)
  {
    assert files[i] !in files[..i];
    Untouched(cfg, CellIn(cur, files[i]));
    PauseStep(cfg, env, st, cur, cur, files, i, errors);
  }

  ghost function AnyOf(paths: set<Path>): (p: Path)
    requires |paths| > 0
    ensures p in paths
  {
    var p :| p in paths; p
  }

  /** The total size over a set of paths. */
  ghost function Total(paths: set<Path>, size: Path -> nat): nat
    decreases |paths|
  {
    if |paths| == 0 then 0 else size(AnyOf(paths)) + Total(paths - {AnyOf(paths)}, size)
  }

  /** In whatever order they are taken. */
  lemma {:induction false} TotalRemove(paths: set<Path>, q: Path, size: Path -> nat)
    requires q in paths
    ensures Total(paths, size) == size(q) + Total(paths - {q}, size)
    decreases |paths|
  {
    var p := AnyOf(paths);
    if p != q {
      TotalRemove(paths - {p}, q, size);
      TotalRemove(paths - {q}, p, size);
      assert paths - {p} - {q} == paths - {q} - {p};
    }
  }

  lemma TotalAdd(paths: set<Path>, p: Path, size: Path -> nat)
    requires p !in paths
    ensures Total(paths + {p}, size) == Total(paths, size) + size(p)
  {
    TotalRemove(paths + {p}, p, size);
    assert paths + {p} - {p} == paths;
  }

  /** Of these paths, those that a pass skips, or does not, and that are not in error. */
  ghost function Passed(cfg: Config, st: State, paths: set<Path>, errors: seq<Path>, skips: bool): set<Path> {
    set p | p in paths && p !in errors && CellIn(st, p).src.Some? && Skips(cfg, CellIn(st, p)) == skips
  }

  ghost function SourceSize(st: State): Path -> nat {
    p => if p in st.src then |st.src[p].data| else 0
  }

  /**
   * Counters of a pass that has looked at these paths: those not in error were copied, with so many bytes,
   * or skipped.
   */
  ghost predicate Counted(cfg: Config, st: State, paths: set<Path>, r: RunResult, done: nat) {
    && r.copied == |Passed(cfg, st, paths, r.errors, false)|
    && r.skipped == |Passed(cfg, st, paths, r.errors, true)|
    && r.bytesCopied == Total(Passed(cfg, st, paths, r.errors, false), SourceSize(st))
    && r.copied + r.skipped + |r.errors| == done == |paths|
    && r.quarantined == r.conflicts == 0
  }

  lemma CountedStart(cfg: Config, st: State)
    ensures Counted(cfg, st, {}, EMPTY_RESULT, 0)
  {
    hide CellIn, Skips;
    assert Passed(cfg, st, {}, [], false) == {} == Passed(cfg, st, {}, [], true);
  }

  lemma PassedInError(cfg: Config, st: State, paths: set<Path>, p: Path, errors: seq<Path>, skips: bool)
    requires p !in paths
    ensures Passed(cfg, st, paths + {p}, errors + [p], skips) == Passed(cfg, st, paths, errors, skips)
  {
    hide CellIn, Skips;
  }

  lemma PassedNext(cfg: Config, st: State, paths: set<Path>, p: Path, errors: seq<Path>, skips: bool)
    requires p !in paths && p !in errors && CellIn(st, p).src.Some?
    ensures p !in Passed(cfg, st, paths, errors, skips)
    ensures Passed(cfg, st, paths + {p}, errors, skips)
            == if Skips(cfg, CellIn(st, p)) == skips then Passed(cfg, st, paths, errors, skips) + {p}
               else Passed(cfg, st, paths, errors, skips)
  {
    hide CellIn, Skips;
  }

  lemma CountedError(cfg: Config, st: State, paths: set<Path>, r: RunResult, done: nat, p: Path)
    requires Counted(cfg, st, paths, r, done) && p !in paths
    ensures Counted(cfg, st, paths + {p}, r.(errors := r.errors + [p]), done + 1)
  {
    hide CellIn, Skips, Passed, Total;
    PassedInError(cfg, st, paths, p, r.errors, false);
    PassedInError(cfg, st, paths, p, r.errors, true);
  }

  lemma CountedSkip(cfg: Config, st: State, paths: set<Path>, r: RunResult, done: nat, p: Path)
    requires Counted(cfg, st, paths, r, done) && p !in paths && p !in r.errors && CellIn(st, p).src.Some?
    requires Skips(cfg, CellIn(st, p))
    ensures Counted(cfg, st, paths + {p}, r.(skipped := r.skipped + 1), done + 1)
  {
    hide CellIn, Skips, Passed, Total;
    PassedNext(cfg, st, paths, p, r.errors, false);
    PassedNext(cfg, st, paths, p, r.errors, true);
  }

  lemma CountedCopy(cfg: Config, st: State, paths: set<Path>, r: RunResult, done: nat, p: Path)
    requires Counted(cfg, st, paths, r, done) && p !in paths && p !in r.errors && p in st.src && CellIn(st, p).src.Some?
    requires !Skips(cfg, CellIn(st, p))
    ensures Counted(cfg, st, paths + {p}, r.(copied := r.copied + 1, bytesCopied := r.bytesCopied + |st.src[p].data|), done + 1)
  {
    hide CellIn, Skips, Passed, Total;
    PassedNext(cfg, st, paths, p, r.errors, false);
    PassedNext(cfg, st, paths, p, r.errors, true);
    TotalAdd(Passed(cfg, st, paths, r.errors, false), p, SourceSize(st));
  }

  /** One more path, with what is counted for it. */
  lemma CountedNext(cfg: Config, st: State, paths: set<Path>, r: RunResult, r': RunResult, done: nat, p: Path)
    requires Counted(cfg, st, paths, r, done) && p !in paths && p !in r.errors && CellIn(st, p).src == At(st.src, p) != None
    requires || r' == r.(errors := r.errors + [p])
             || (Skips(cfg, CellIn(st, p)) && r' == r.(skipped := r.skipped + 1))
             || (!Skips(cfg, CellIn(st, p)) && r' == r.(copied := r.copied + 1, bytesCopied := r.bytesCopied + |st.src[p].data|))
    ensures Counted(cfg, st, paths + {p}, r', done + 1)
  {
    hide CellIn, Skips, Counted;
    if r' == r.(errors := r.errors + [p]) {
      CountedError(cfg, st, paths, r, done, p);
    } else if Skips(cfg, CellIn(st, p)) {
      CountedSkip(cfg, st, paths, r, done, p);
    } else {
      CountedCopy(cfg, st, paths, r, done, p);
    }
  }

  lemma PausedIsCounted(cfg: Config, st: State, paths: set<Path>, r: RunResult, done: nat)
    requires Counted(cfg, st, paths, r, done)
    ensures Counted(cfg, st, paths, r.(paused := true), done)
  {
    hide Passed, Total;
  }

  /** The counters of a complete run: the visible source files not in error, by whether the manifest lets the run skip them. */
  ghost predicate Totals(cfg: Config, st: State, r: RunResult) {
    var copied, skipped := Passed(cfg, st, VisiblePaths(cfg, st.src), r.errors, false), Passed(cfg, st, VisiblePaths(cfg, st.src), r.errors, true);
    r.copied == |copied| && r.skipped == |skipped| && r.bytesCopied == Total(copied, SourceSize(st))
  }

  lemma CountedInFull(cfg: Config, st: State, looked: set<Path>, files: seq<Path>, r0: RunResult, done: nat, r: RunResult)
    requires Counted(cfg, st, looked, r0, done) && IsScan(cfg, files, st.src) && forall p :: p in looked <==> p in files
    requires r.copied == r0.copied && r.skipped == r0.skipped && r.bytesCopied == r0.bytesCopied
    requires forall p :: p in looked ==> (p in r.errors <==> p in r0.errors)
    ensures Totals(cfg, st, r)
  {
    hide CellIn, Skips, VisiblePaths, Total;
    assert looked == VisiblePaths(cfg, st.src);
    assert Passed(cfg, st, looked, r.errors, false) == Passed(cfg, st, looked, r0.errors, false);
    assert Passed(cfg, st, looked, r.errors, true) == Passed(cfg, st, looked, r0.errors, true);
  }

  /** The loop over the source files that backup and mirror share. */
  method CopyPass(cfg: Config, w: World, files: seq<Path>, env: Env, signal: PauseSignal)
    returns (result: RunResult, done: nat, ghost looked: set<Path>)
    requires Sound(cfg) && w.src != w.dst && env.tmp !in w.dst.files && env.tmp !in w.src.files
    requires (forall i, j :: 0 <= i < j < |files| ==> files[i] != files[j]) && forall p :: p in files ==> p in w.src.files
    modifies w`manifest, w.dst, signal
    ensures !result.paused ==> done == |files| && PassAt(cfg, env.now, old(w.Now()), w.Now(), files, |files|, result.errors)
    ensures result.paused ==> PausedPass(cfg, env, old(w.Now()), w.Now(), files, result.errors)
    ensures Counted(cfg, old(w.Now()), looked, result, done) && forall p :: p in looked ==> p in files
    ensures !result.paused ==> forall p :: p in files ==> p in looked
    ensures result.paused ==> signal.checksLeft == Some(0)
    ensures Calm(cfg, env) ==> result.errors == []
    ensures signal.checksLeft.Some? <==> old(signal.checksLeft).Some?
    ensures env.tmp !in w.dst.files
  {
    hide CalmAt, PassAt, PausedPass, PausedAt, CellIn, OneWay, Skips, Sound, Counted;
    ghost var st := w.Now();
    result, done, looked := EMPTY_RESULT, 0, {};
    PassStart(cfg, env.now, st, files);
    CountedStart(cfg, st);
    for i := 0 to |files|
      invariant w.src.files == st.src && env.tmp !in w.dst.files && done == i && !result.paused
      invariant PassAt(cfg, env.now, st, w.Now(), files, i, result.errors)
      invariant Counted(cfg, st, looked, result, done) && forall p :: p in looked <==> p in files[..i]
      invariant Calm(cfg, env) ==> result.errors == []
      invariant signal.checksLeft.Some? <==> old(signal.checksLeft).Some?
    {
      var p := files[i];
      ghost var cur := w.Now();
      var paused := signal.Check();
      if paused {
        PauseBetween(cfg, env, st, cur, files, i, result.errors);
        PausedIsCounted(cfg, st, looked, result, done);
        result := result.(paused := true);
        return;
      }
      var r := SyncFile(cfg, w, p, env, signal);
      StillAbsent(p, cur.dst, w.dst.files, env.tmp);
      if r.FilePaused? {
        PauseStep(cfg, env, st, cur, w.Now(), files, i, result.errors);
        PausedIsCounted(cfg, st, looked, result, done);
        result := result.(paused := true);
        return;
      }
      ghost var before := result;
      match r {
        case FileCopied(written) => result := result.(copied := result.copied + 1, bytesCopied := result.bytesCopied + written);
        case FileSkipped => result := result.(skipped := result.skipped + 1);
        case FileFailed => result := result.(errors := result.errors + [p]);
        case FilePaused =>
      }
      PassStep(cfg, env.now, st, cur, w.Now(), files, i, before.errors, result.errors);
      NotLookedAt(cfg, env.now, st, cur, files, i, before.errors);
      CountedNext(cfg, st, looked, before, result, done, p);
      assert files[..i + 1] == files[..i] + [p];
      done, looked := done + 1, looked + {p};
    }
    assert files[..|files|] == files;
  }

  lemma NotLookedAt(cfg: Config, now: int, st: State, cur: State, files: seq<Path>, i: nat, errors: seq<Path>)
    requires i < |files| && (forall p :: p in files ==> p in st.src) && PassAt(cfg, now, st, cur, files, i, errors)
    requires forall a, b :: 0 <= a < b < |files| ==> files[a] != files[b]
    ensures files[i] !in files[..i] && files[i] !in errors
    ensures CellIn(st, files[i]).src == At(st.src, files[i]) != None
  {
  }

  lemma PassStart(cfg: Config, now: int, st: State, files: seq<Path>)
    requires forall p :: p in files ==> p in st.src
    ensures PassAt(cfg, now, st, st, files, 0, [])
  {
  }

  /**
   * What a backup or mirror run does to the visible source paths: exactly one step each when it ran to
   * the end, something an uninterrupted run can pick up when it was paused.
   */
  ghost predicate OneWayResult(cfg: Config, env: Env, st: State, cur: State, r: RunResult) {
    forall p :: p in VisiblePaths(cfg, st.src) && p !in r.errors ==>
      if r.paused then AfterPausedRun(cfg, CellIn(st, p), CellIn(cur, p), env.removeFails(p))
      else CellIn(cur, p) == OneWay(cfg, env.now, CellIn(st, p))
  }

  lemma PassGives(cfg: Config, env: Env, st: State, cur: State, files: seq<Path>, r: RunResult)
    requires IsScan(cfg, files, st.src)
    requires if r.paused then PausedPass(cfg, env, st, cur, files, r.errors)
             else PassAt(cfg, env.now, st, cur, files, |files|, r.errors)
    ensures OneWayResult(cfg, env, st, cur, r)
    ensures forall p :: p !in VisiblePaths(cfg, st.src) ==> CellIn(cur, p) == CellIn(st, p)
    ensures cur == st.(dst := cur.dst, manifest := cur.manifest)
    ensures forall p :: p in r.errors ==> p in VisiblePaths(cfg, st.src)
  {
    hide OneWay, AfterPausedRun;
    assert files[..|files|] == files;
    forall p | p in files && p !in r.errors && !r.paused
      ensures CellIn(cur, p) == OneWay(cfg, env.now, CellIn(st, p))
    {
      var k :| 0 <= k < |files| && files[k] == p;
    }
  }

  // ---- The second half of a mirror run ----

  /** The destination-only paths among those looked at so far are gone; nothing else has changed. */
  ghost predicate ExtraAt(cfg: Config, st: State, cur: State, extra: set<Path>, errors: seq<Path>) {
    && cur == st.(dst := cur.dst, manifest := cur.manifest, quarantined := cur.quarantined)
    && (forall p :: p in extra ==> p in st.dst)
    && (forall p :: CellIn(cur, p) ==
          if p in extra && p in st.dst && p !in errors then MirrorExtra(cfg, CellIn(st, p)) else CellIn(st, p))
  }

  /** The destination files that the source does not have. */
  ghost function Extras(destFiles: seq<Path>, files: seq<Path>): set<Path> {
    set p | p in destFiles && p !in files
  }

  /** Quarantines a file on a local destination with version support, and removes it elsewhere. */
  method RemoveExtra(cfg: Config, w: World, p: Path, env: Env) returns (ok: bool)
    requires w.src != w.dst && p in w.dst.files
    modifies w`manifest, w`quarantined, w.dst
    ensures w.Now() == old(w.Now()).(dst := w.dst.files, manifest := w.manifest, quarantined := w.quarantined)
    ensures ok <==> !env.quarantineFails(p)
    ensures !ok ==> w.Now() == old(w.Now())
    ensures p in old(w.Now()).dst
    ensures ok ==> CellIn(w.Now(), p) == MirrorExtra(cfg, CellIn(old(w.Now()), p))
    ensures forall q :: q != p ==> CellIn(w.Now(), q) == CellIn(old(w.Now()), q)
    ensures forall q :: q !in old(w.dst.files) ==> q !in w.dst.files
  {
    if env.quarantineFails(p) { return false; }
    if cfg.localDest && cfg.versions {
      w.Quarantine(p);
    } else {
      w.dst.Remove(p);
    }
    w.Forget(p);
    return true;
  }

  lemma ExtraStep(cfg: Config, st: State, cur: State, next: State, extra: set<Path>, p: Path, ok: bool,
                  errors: seq<Path>, errors': seq<Path>)
    requires ExtraAt(cfg, st, cur, extra, errors) && p !in extra && p !in errors && p in st.dst && p in cur.dst
    requires next == cur.(dst := next.dst, manifest := next.manifest, quarantined := next.quarantined)
    requires if ok then CellIn(next, p) == MirrorExtra(cfg, CellIn(cur, p)) else next == cur
    requires forall q :: q != p ==> CellIn(next, q) == CellIn(cur, q)
    requires errors' == if ok then errors else errors + [p]
    ensures ExtraAt(cfg, st, next, extra + {p}, errors')
  {
    hide CellIn, MirrorExtra;
  }

  /** Everything a backup or mirror run promises, path by path. */
  ghost predicate RunDone(cfg: Config, mirror: bool, env: Env, st: State, cur: State, r: RunResult) {
    && OneWayResult(cfg, env, st, cur, r)
    && (forall p :: p !in VisiblePaths(cfg, st.src) ==>
          CellIn(cur, p) ==
            if mirror && !r.paused && p in VisiblePaths(cfg, st.dst) && p !in r.errors then MirrorExtra(cfg, CellIn(st, p))
            else CellIn(st, p))
    && cur.src == st.src
  }

  /** The loop over the destination files; it skips those the source has and never looks at the pause signal. */
  method ExtraPass(cfg: Config, w: World, files: seq<Path>, destFiles: seq<Path>, env: Env, r0: RunResult, done0: nat)
    returns (result: RunResult, done: nat)
    requires w.src != w.dst && env.tmp !in w.dst.files
    requires forall i, j :: 0 <= i < j < |destFiles| ==> destFiles[i] != destFiles[j]
    requires forall p :: p in destFiles && p !in files ==> p in w.dst.files && p !in r0.errors
    requires r0.copied + r0.skipped + r0.quarantined + |r0.errors| == done0
    modifies w`manifest, w`quarantined, w.dst
    ensures ExtraAt(cfg, old(w.Now()), w.Now(), Extras(destFiles, files), result.errors)
    ensures result == r0.(quarantined := result.quarantined, errors := result.errors)
    ensures result.copied + result.skipped + result.quarantined + |result.errors| == done
    ensures done == done0 + |Extras(destFiles, files)|
    ensures Calm(cfg, env) ==> result.errors == r0.errors
    ensures forall p :: p in r0.errors ==> p in result.errors
    ensures forall p :: p in result.errors ==> p in r0.errors || p in Extras(destFiles, files)
    ensures env.tmp !in w.dst.files
  {
    hide CellIn, ExtraAt, MirrorExtra, Calm;
    ghost var st := w.Now();
    ghost var extra: set<Path> := {};
    result, done := r0, done0;
    ExtraStart(cfg, st, result.errors);
    for k := 0 to |destFiles|
      invariant w.src.files == st.src && env.tmp !in w.dst.files
      invariant result == r0.(quarantined := result.quarantined, errors := result.errors)
      invariant ExtraAt(cfg, st, w.Now(), extra, result.errors)
      invariant forall p :: p in extra <==> p in destFiles[..k] && p !in files
      invariant result.copied + result.skipped + result.quarantined + |result.errors| == done == done0 + |extra|
      invariant forall p :: p in result.errors ==> p in r0.errors || p in extra
      invariant forall p :: p in r0.errors ==> p in result.errors
      invariant Calm(cfg, env) ==> result.errors == r0.errors
    {
      var p := destFiles[k];
      assert destFiles[..k + 1] == destFiles[..k] + [p];
      if p in files { continue; }
      assert p !in destFiles[..k];
      StillThere(cfg, st, w.Now(), extra, result.errors, p);
      ghost var cur, errors := w.Now(), result.errors;
      CalmMeans(cfg, env, p);
      var ok := RemoveExtra(cfg, w, p, env);
      if ok {
        result := result.(quarantined := result.quarantined + 1);
      } else {
        result := result.(errors := result.errors + [p]);
      }
      ExtraStep(cfg, st, cur, w.Now(), extra, p, ok, errors, result.errors);
      extra := extra + {p};
      done := done + 1;
    }
    assert destFiles[..|destFiles|] == destFiles;
    assert extra == Extras(destFiles, files);
  }

  /** Mirror: the copy pass, then every visible file that only the destination has goes. */
  method RunMirror(cfg: Config, w: World, env: Env, signal: PauseSignal) returns (result: RunResult, done: nat)
    requires Sound(cfg) && w.src != w.dst && env.tmp !in w.dst.files && env.tmp !in w.src.files
    modifies w`manifest, w`quarantined, w.dst, signal
    ensures RunDone(cfg, true, env, old(w.Now()), w.Now(), result)
    ensures !result.paused ==> Totals(cfg, old(w.Now()), result)
    ensures result.copied + result.skipped + result.quarantined + |result.errors| == done
    ensures !result.paused ==>
              done == |VisiblePaths(cfg, old(w.src.files)) + VisiblePaths(cfg, old(w.dst.files))|
    ensures old(signal.checksLeft).None? ==> !result.paused
    ensures result.paused ==> signal.checksLeft == Some(0)
    ensures Calm(cfg, env) ==> result.errors == []
    ensures w.src.files == old(w.src.files) && env.tmp !in w.dst.files
  {
    hide Calm, PassAt, PausedPass, Sound, CellIn, ExtraAt, MirrorExtra, OneWayResult, Skips, Passed, Total, Totals;
    ghost var st := w.Now();
    var files := Scan(cfg, w.src);
    var destFiles := Scan(cfg, w.dst);
    ghost var looked;
    result, done, looked := CopyPass(cfg, w, files, env, signal);
    PassGives(cfg, env, st, w.Now(), files, result);
    if result.paused { return; }
    ghost var mid, r0, n := w.Now(), result, done;
    forall p | p in destFiles && p !in files
      ensures p in w.dst.files && p !in r0.errors
    {
      SameCellSameFile(st, mid, p);
    }
    result, done := ExtraPass(cfg, w, files, destFiles, env, result, done);
    MirrorGives(cfg, env, st, mid, w.Now(), files, destFiles, r0, result);
    CountedInFull(cfg, st, looked, files, r0, n, result);
    TotalCount(cfg, st, files, destFiles);
  }

  lemma SameCellSameFile(st: State, mid: State, p: Path)
    requires CellIn(mid, p) == CellIn(st, p) && p in st.dst
    ensures p in mid.dst
  {
  }

  lemma TotalCount(cfg: Config, st: State, files: seq<Path>, destFiles: seq<Path>)
    requires IsScan(cfg, files, st.src) && IsScan(cfg, destFiles, st.dst)
    ensures |files| + |Extras(destFiles, files)| == |VisiblePaths(cfg, st.src) + VisiblePaths(cfg, st.dst)|
  {
    var s, e := VisiblePaths(cfg, st.src), Extras(destFiles, files);
    DistinctCount(files, s);
    assert s + e == s + VisiblePaths(cfg, st.dst);
    assert s !! e;
  }

  /** Putting the two halves together. */
  lemma MirrorGives(cfg: Config, env: Env, st: State, mid: State, cur: State, files: seq<Path>, destFiles: seq<Path>,
                    r0: RunResult, r: RunResult)
    requires IsScan(cfg, files, st.src) && IsScan(cfg, destFiles, st.dst)
    requires OneWayResult(cfg, env, st, mid, r0) && !r0.paused && !r.paused
    requires forall p :: p !in VisiblePaths(cfg, st.src) ==> CellIn(mid, p) == CellIn(st, p)
    requires forall p :: p in r0.errors ==> p in VisiblePaths(cfg, st.src) && p in r.errors
    requires forall p :: p in r.errors ==> p in r0.errors || p in Extras(destFiles, files)
    requires ExtraAt(cfg, mid, cur, Extras(destFiles, files), r.errors) && mid.src == st.src
    ensures RunDone(cfg, true, env, st, cur, r)
  {
    hide CellIn, OneWay, MirrorExtra, AfterPausedRun, VisiblePaths;
    var s, e := VisiblePaths(cfg, st.src), Extras(destFiles, files);
    forall p | p in s && p !in r.errors
      ensures CellIn(cur, p) == CellIn(mid, p) && p !in r0.errors
    {
      assert p !in e;
    }
    forall p | p !in s
      ensures p in e <==> p in VisiblePaths(cfg, st.dst)
    {
    }
  }

  lemma ExtraStart(cfg: Config, st: State, errors: seq<Path>)
    ensures ExtraAt(cfg, st, st, {}, errors)
  {
  }

  /** A destination-only file not looked at yet is still there, as it was before the pass. */
  lemma StillThere(cfg: Config, st: State, cur: State, extra: set<Path>, errors: seq<Path>, p: Path)
    requires ExtraAt(cfg, st, cur, extra, errors) && p !in extra && p in st.dst
    ensures p in cur.dst
  {
    assert CellIn(cur, p) == CellIn(st, p);
  }

  /** Backup: one pass over the visible source files; the destination never loses a file by it. */
  method RunBackup(cfg: Config, w: World, env: Env, signal: PauseSignal) returns (result: RunResult, done: nat)
    requires Sound(cfg) && w.src != w.dst && env.tmp !in w.dst.files && env.tmp !in w.src.files
    modifies w`manifest, w.dst, signal
    ensures RunDone(cfg, false, env, old(w.Now()), w.Now(), result)
    ensures !result.paused ==> Totals(cfg, old(w.Now()), result)
    ensures result.copied + result.skipped + |result.errors| == done && result.quarantined == 0
    ensures !result.paused ==> done == |VisiblePaths(cfg, old(w.src.files))|
    ensures (forall p :: p in VisiblePaths(cfg, old(w.src.files)) ==> Skips(cfg, old(w.CellAt(p)))) ==> result.copied == 0
    ensures old(signal.checksLeft).None? ==> !result.paused
    ensures result.paused ==> signal.checksLeft == Some(0)
    ensures Calm(cfg, env) ==> result.errors == []
    ensures w.src.files == old(w.src.files) && env.tmp !in w.dst.files
  {
    hide Calm, PassAt, PausedPass, Skips, Sound, CellIn, Total, Totals;
    ghost var st := w.Now();
    var files := Scan(cfg, w.src);
    ghost var looked;
    result, done, looked := CopyPass(cfg, w, files, env, signal);
    PassGives(cfg, env, st, w.Now(), files, result);
    if !result.paused { CountedInFull(cfg, st, looked, files, result, done, result); }
  }


  // ---- What whole runs promise ----

  /**
   * Every run without errors, paused or not, keeps the manifest truthful everywhere but at a half-written
   * file that it could not remove.
   */
  lemma RunsKeepTruth(cfg: Config, mirror: bool, env: Env, st: State, cur: State, r: RunResult)
    requires RunDone(cfg, mirror, env, st, cur, r) && r.errors == []
    requires forall p :: Truthful(cfg, CellIn(st, p))
    ensures forall p :: Truthful(cfg, CellIn(cur, p)) || (r.paused && env.removeFails(p))
  {
    hide CellIn, OneWay, Truthful;
    forall p | !(r.paused && env.removeFails(p))
      ensures Truthful(cfg, CellIn(cur, p))
    {
      var c, d := CellIn(st, p), CellIn(cur, p);
      VisibleHasSource(cfg, st, p);
      if p in VisiblePaths(cfg, st.src) {
        OneWayKeepsTruth(cfg, env.now, c);
        if r.paused && !PausedAt(cfg, c, d, false) {
          var t :| d == OneWay(cfg, t, c);
          OneWayKeepsTruth(cfg, t, c);
        }
      } else {
        ExtraKeepsTruth(cfg, c);
      }
    }
  }

  lemma VisibleHasSource(cfg: Config, st: State, p: Path)
    ensures p in VisiblePaths(cfg, st.src) <==>
              CellIn(st, p).src.Some? && cfg.visible(p, CellIn(st, p).src.value)
    ensures p in VisiblePaths(cfg, st.dst) <==>
              CellIn(st, p).dst.Some? && cfg.visible(p, CellIn(st, p).dst.value)
  {
  }

  lemma ExtraKeepsTruth(cfg: Config, c: Cell)
    requires Truthful(cfg, c)
    ensures c.dst.Some? ==> Truthful(cfg, MirrorExtra(cfg, c))
  {
  }

  /**
   * A complete mirror run without errors, with whatever filters: a visible source file is at the destination
   * with its content, a path that shows at the destination alone is gone from there, and any other path is
   * left alone. So the visible destination equals the visible source.
   */
  lemma MirrorIsExact(cfg: Config, env: Env, st: State, cur: State, r: RunResult)
    requires Sound(cfg) && RunDone(cfg, true, env, st, cur, r) && r.errors == [] && !r.paused
    requires forall p :: Truthful(cfg, CellIn(st, p)) && (cfg.fullChecksum || Identifies(cfg, CellIn(st, p)))
    ensures forall p :: var c, d := CellIn(st, p), CellIn(cur, p);
              if p in VisiblePaths(cfg, st.src) then d.src == c.src && Content(d.dst) == Content(c.src)
              else if p in VisiblePaths(cfg, st.dst) then d.src == c.src && d.dst.None? && d.entry.None?
              else d == c
  {
    hide CellIn, OneWay, Truthful, Identifies, Sound;
    forall p
      ensures var c, d := CellIn(st, p), CellIn(cur, p);
              if p in VisiblePaths(cfg, st.src) then d.src == c.src && Content(d.dst) == Content(c.src)
              else if p in VisiblePaths(cfg, st.dst) then d.src == c.src && d.dst.None? && d.entry.None?
              else d == c
    {
      VisibleHasSource(cfg, st, p);
      if p in VisiblePaths(cfg, st.src) {
        OneWayExactIff(cfg, env.now, CellIn(st, p));
        OneWayKeepsSource(cfg, env.now, CellIn(st, p));
      }
    }
  }

  /**
   * Both sides are then equal at a visible path, and excluded paths untouched, if and only if no source file
   * is hidden whose destination file shows; path-only filters hide none.
   */
  lemma MirrorIsEqualIff(cfg: Config, env: Env, st: State, cur: State, r: RunResult, p: Path)
    requires Sound(cfg) && RunDone(cfg, true, env, st, cur, r) && r.errors == [] && !r.paused
    requires forall p :: Truthful(cfg, CellIn(st, p)) && (cfg.fullChecksum || Identifies(cfg, CellIn(st, p)))
    ensures var c, d := CellIn(st, p), CellIn(cur, p);
            && (Visible(cfg, p, c) ==>
                  (Content(d.dst) == Content(d.src) <==> c.src.None? || cfg.visible(p, c.src.value)))
            && (PathOnly(cfg) && Visible(cfg, p, c) ==> Content(d.dst) == Content(d.src))
            && (!Visible(cfg, p, c) ==> d == c)
  {
    hide CellIn, RunDone, Truthful, Identifies, Sound;
    MirrorIsExact(cfg, env, st, cur, r);
    VisibleHasSource(cfg, st, p);
    if PathOnly(cfg) { SidesAgree(cfg, p, CellIn(st, p)); }
  }

  /** The destination holds the source content at every path the run looks at. */
  ghost predicate CopiesExact(cfg: Config, st: State, cur: State) {
    forall p :: p in VisiblePaths(cfg, st.src) ==> Content(CellIn(cur, p).dst) == Content(CellIn(st, p).src)
  }

  /**
   * With full checksums, or where size and second identify the source, a complete error-free run, backup or
   * mirror, makes the destination exact if and only if no path that it will skip has an untrue manifest entry.
   */
  lemma RunIsExactIff(cfg: Config, mirror: bool, env: Env, st: State, cur: State, r: RunResult)
    requires Sound(cfg) && RunDone(cfg, mirror, env, st, cur, r) && r.errors == [] && !r.paused
    requires cfg.fullChecksum || forall p :: Identifies(cfg, CellIn(st, p))
    ensures CopiesExact(cfg, st, cur) <==>
              forall p :: p in VisiblePaths(cfg, st.src) && Skips(cfg, CellIn(st, p)) ==> Truthful(cfg, CellIn(st, p))
  {
    hide CellIn, OneWay, Truthful, Identifies, Skips, Sound;
    forall p | p in VisiblePaths(cfg, st.src)
      ensures CellIn(st, p).src.Some?
      ensures Content(CellIn(cur, p).dst) == Content(CellIn(st, p).src) <==>
                !(Skips(cfg, CellIn(st, p)) && !Truthful(cfg, CellIn(st, p)))
    {
      VisibleHasSource(cfg, st, p);
      OneWayExactIff(cfg, env.now, CellIn(st, p));
    }
  }

  lemma SidesAgree(cfg: Config, p: Path, c: Cell)
    requires PathOnly(cfg)
    ensures c.src.Some? && c.dst.Some? ==> cfg.visible(p, c.src.value) == cfg.visible(p, c.dst.value)
  {
  }

  lemma OneWayKeepsSource(cfg: Config, now: int, c: Cell)
    requires c.src.Some?
    ensures OneWay(cfg, now, c).src == c.src
  {
  }

  /** A path is at risk when a half-written file may have stayed there and was only to put a missing file back. */
  ghost predicate AtRisk(cfg: Config, stays: Path -> bool, st: State, p: Path) {
    p in st.src && stays(p) && PutBackOnly(cfg, CellIn(st, p))
  }

  lemma AtRiskMeans(cfg: Config, stays: Path -> bool, st: State, p: Path)
    requires CellIn(st, p).src.Some?
    ensures AtRisk(cfg, stays, st, p) <==> stays(p) && PutBackOnly(cfg, CellIn(st, p))
  {
  }

  /** Every path not at risk is resumable towards what an uninterrupted run at time now would have made of st. */
  ghost predicate AllResumable(cfg: Config, now: int, stays: Path -> bool, st: State, cur: State) {
    && cur.src == st.src
    && (forall p :: p in VisiblePaths(cfg, st.src) && !AtRisk(cfg, stays, st, p) ==>
          Resumable(cfg, now, CellIn(st, p), CellIn(cur, p)))
    && (forall p :: p !in VisiblePaths(cfg, st.src) ==> CellIn(cur, p) == CellIn(st, p))
  }

  lemma PausedRunStaysResumable(cfg: Config, mirror: bool, now: int, stays: Path -> bool, env: Env,
                                st: State, cur: State, next: State, r: RunResult)
    requires AllResumable(cfg, now, stays, st, cur) && RunDone(cfg, mirror, env, cur, next, r) && r.paused && r.errors == []
    requires forall p :: env.removeFails(p) ==> stays(p)
    ensures AllResumable(cfg, now, stays, st, next)
  {
    hide OneWay, AfterPausedRun, Resumable, AtRisk, PutBackOnly;
    forall p | p in VisiblePaths(cfg, st.src) && !AtRisk(cfg, stays, st, p)
      ensures Resumable(cfg, now, CellIn(st, p), CellIn(next, p))
    {
      VisibleHasSource(cfg, st, p);
      AtRiskMeans(cfg, stays, st, p);
      PausedRunKeepsResumable(cfg, now, CellIn(st, p), CellIn(cur, p), CellIn(next, p), env.removeFails(p));
    }
  }

  /** The outcome of a complete run at time now from st, up to the mtimes a remote destination does not keep. */
  ghost predicate LikeUninterrupted(cfg: Config, mirror: bool, now: int, stays: Path -> bool, st: State, cur: State) {
    && cur.src == st.src
    && (forall p :: p in VisiblePaths(cfg, st.src) && !AtRisk(cfg, stays, st, p) ==>
          SameOutcome(cfg, CellIn(cur, p), OneWay(cfg, now, CellIn(st, p))))
    && (forall p :: p !in VisiblePaths(cfg, st.src) ==>
          CellIn(cur, p) == if mirror && p in VisiblePaths(cfg, st.dst) then MirrorExtra(cfg, CellIn(st, p)) else CellIn(st, p))
  }

  lemma FinalRunCatchesUp(cfg: Config, mirror: bool, now: int, stays: Path -> bool, env: Env,
                          st: State, cur: State, next: State, r: RunResult)
    requires AllResumable(cfg, now, stays, st, cur) && RunDone(cfg, mirror, env, cur, next, r) && !r.paused && r.errors == []
    ensures LikeUninterrupted(cfg, mirror, now, stays, st, next)
  {
    hide OneWay, Resumable, MirrorExtra, SameOutcome, AtRisk;
    forall p | p in VisiblePaths(cfg, st.src) && !AtRisk(cfg, stays, st, p)
      ensures SameOutcome(cfg, CellIn(next, p), OneWay(cfg, now, CellIn(st, p)))
    {
      VisibleHasSource(cfg, st, p);
      ResumedRunCatchesUp(cfg, now, env.now, CellIn(st, p), CellIn(cur, p));
    }
    forall p | p !in VisiblePaths(cfg, st.src)
      ensures p in VisiblePaths(cfg, st.dst) <==> p in VisiblePaths(cfg, cur.dst)
    {
      VisibleHasSource(cfg, st, p);
      VisibleHasSource(cfg, cur, p);
    }
  }

  /** One backup or mirror run. */
  method RunOneWay(cfg: Config, mirror: bool, w: World, env: Env, signal: PauseSignal) returns (result: RunResult, done: nat)
    requires Sound(cfg) && w.src != w.dst && env.tmp !in w.dst.files && env.tmp !in w.src.files
    modifies w`manifest, w`quarantined, w.dst, signal
    ensures RunDone(cfg, mirror, env, old(w.Now()), w.Now(), result)
    ensures old(signal.checksLeft).None? ==> !result.paused
    ensures result.paused ==> signal.checksLeft == Some(0)
    ensures Calm(cfg, env) ==> result.errors == []
    ensures w.src.files == old(w.src.files) && env.tmp !in w.dst.files
  {
    if mirror {
      result, done := RunMirror(cfg, w, env, signal);
    } else {
      result, done := RunBackup(cfg, w, env, signal);
    }
  }

  /** The paths where removing a half-written file fails in some run. */
  function Unremoved(envs: seq<Env>): Path -> bool {
    p => exists k | 0 <= k < |envs| :: envs[k].removeFails(p)
  }

  /**
   * A job that is paused and resumed any number of times and then left to finish. As long as no file
   * fails, it ends as a single uninterrupted run would have, at every path but those at risk.
   */
  method RunWithPauses(cfg: Config, mirror: bool, w: World, envs: seq<Env>, pauses: seq<nat>, last: Env)
    returns (errors: seq<Path>)
    requires Sound(cfg) && w.src != w.dst && |envs| == |pauses|
    requires last.tmp !in w.dst.files && last.tmp !in w.src.files && forall e :: e in envs ==> e.tmp == last.tmp
    modifies w`manifest, w`quarantined, w.dst
    ensures errors == [] ==>
              forall now :: LikeUninterrupted(cfg, mirror, now, Unremoved(envs), old(w.Now()), w.Now())
    ensures Calm(cfg, last) && (forall e :: e in envs ==> Calm(cfg, e)) ==> errors == []
  {
    hide LikeUninterrupted, AllResumable, RunDone, Sound, Calm;
    ghost var st, stays := w.Now(), Unremoved(envs);
    forall now { ResumableStart(cfg, now, stays, st); }
    for k := 0 to |pauses|
      invariant w.src.files == st.src && last.tmp !in w.dst.files
      invariant forall now :: AllResumable(cfg, now, stays, st, w.Now())
    {
      var signal := new PauseSignal(Some(pauses[k]));
      ghost var cur := w.Now();
      var r, _ := RunOneWay(cfg, mirror, w, envs[k], signal);
      if r.errors != [] { return r.errors; }
      if !r.paused {
        forall now { FinalRunCatchesUp(cfg, mirror, now, stays, envs[k], st, cur, w.Now(), r); }
        return [];
      }
      forall now { PausedRunStaysResumable(cfg, mirror, now, stays, envs[k], st, cur, w.Now(), r); }
    }
    var never := new PauseSignal(None);
    ghost var cur := w.Now();
    var r, _ := RunOneWay(cfg, mirror, w, last, never);
    if r.errors != [] { return r.errors; }
    forall now { FinalRunCatchesUp(cfg, mirror, now, stays, last, st, cur, w.Now(), r); }
    return [];
  }

  lemma ResumableStart(cfg: Config, now: int, stays: Path -> bool, st: State)
    ensures AllResumable(cfg, now, stays, st, st)
  {
    hide OneWay, AtRisk;
  }
}
