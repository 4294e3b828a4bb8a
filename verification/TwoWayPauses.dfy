/** Two-way jobs that are paused and resumed any number of times before a run completes. */
module TwoWayPauses {
  import opened Prelude
  import opened Disks
  import opened Worlds
  import opened Conflicts
  import opened Transfers
  import opened SyncSpec
  import opened TwoWayFacts
  import opened Engine
  import opened OneWayRuns
  import opened TwoWayRuns

  /** A run was paused inside a risky copy back to the source at p. */
  ghost predicate PausedPull(cfg: Config, p: Path, c: Cell, d: Cell) {
    SourceVisible(cfg, p, c) && RiskyPull(cfg, p, c) && d == PausedInside(cfg, c)
  }

  /** A run had finished the path, by a copy back that hides itself, before a later one was paused. */
  predicate PulledAway(cfg: Config, p: Path, c: Cell, d: Cell) {
    HidingPull(cfg, p, c) && d == TwoWay(cfg, p, c)
  }

  /** The two ways in which a path c can be caught by a pause that left it as d. */
  ghost predicate Caught(cfg: Config, p: Path, c: Cell, d: Cell) {
    PausedPull(cfg, p, c, d) || PulledAway(cfg, p, c, d)
  }

  /** The same but for the versions stored, of which only a conflict left to the user may have more. */
  predicate SameAs(cfg: Config, once: Cell, d: Cell) {
    if AutoResolves(cfg) then d == once else d.(history := once.history) == once
  }

  /**
   * What any number of paused runs may have made of a path c that none of them caught: untouched, done, or
   * with the copy that was stopped removed again.
   */
  predicate TwoWayResumable(cfg: Config, p: Path, c: Cell, d: Cell) {
    || d == c
    || (!HidingPull(cfg, p, c) && SameAs(cfg, TwoWay(cfg, p, c), d))
    || (SourceVisible(cfg, p, c) && Target(cfg, c).Some? && !RiskyPull(cfg, p, c) && d == PausedInside(cfg, c))
    || (!SourceVisible(cfg, p, c) && c.dst.Some? && cfg.visible(p, c.dst.value) && c.entry.None? && d == c.(src := None))
  }

  /** What becomes of a path that was caught: it never gets its source file back, or it is about to lose or has lost its destination file. */
  predicate Spoiled(cfg: Config, p: Path, c: Cell, d: Cell) {
    || (TwoWay(cfg, p, c).src.Some? && d.src.None?
        && (d.dst.None? || !cfg.visible(p, d.dst.value) || d.entry.Some?))
    || (HidingPull(cfg, p, c)
        && (d == TwoWay(cfg, p, c) || (d.src.Some? && !cfg.visible(p, d.src.value) && d.dst.None?)))
  }

  // ---- One path ----

  lemma RiskyPullEnds(cfg: Config, p: Path, c: Cell)
    requires Sound(cfg) && SourceVisible(cfg, p, c) && RiskyPull(cfg, p, c)
    ensures Spoiled(cfg, p, c, PausedInside(cfg, c))
  {
    hide HistoryAfter, ConflictsAfter;
  }

  lemma CaughtIsSpoiled(cfg: Config, p: Path, c: Cell, d: Cell)
    requires Sound(cfg) && Caught(cfg, p, c, d)
    ensures Spoiled(cfg, p, c, d)
  {
    hide TwoWay, PausedInside, HidingPull, RiskyPull;
    if PausedPull(cfg, p, c, d) { RiskyPullEnds(cfg, p, c); }
  }

  lemma HidingPullIsRisky(cfg: Config, p: Path, c: Cell)
    requires HidingPull(cfg, p, c)
    ensures SourceVisible(cfg, p, c) && RiskyPull(cfg, p, c)
  {
  }

  /** An untouched path after one more paused run. */
  lemma FromUntouched(cfg: Config, p: Path, c: Cell, d: Cell)
    requires Sound(cfg) && PausedReach(cfg, p, c, d, false)
    ensures TwoWayResumable(cfg, p, c, d) || Caught(cfg, p, c, d)
  {
    hide HidingPull, RiskyPull, TwoWay;
  }

  /** A path where a run changes nothing, versions aside. */
  predicate AtRest(cfg: Config, p: Path, c: Cell) {
    (Settled(cfg, p, c) && !Exposed(cfg, p, c)) || Open(cfg, p, c)
  }

  /** Nothing is being copied at such a path, so no copy is stopped there. */
  lemma NothingToStop(cfg: Config, p: Path, b: Cell, d: Cell)
    requires Sound(cfg) && AtRest(cfg, p, b) && PausedReach(cfg, p, b, d, false)
    ensures d == b || d == TwoWay(cfg, p, b)
  {
    hide TwoWay, StoppedCopy, Sound;
    if SourceVisible(cfg, p, b) {
      if Settled(cfg, p, b) { SettledIsFixedIff(cfg, p, b); }
      assert Target(cfg, b).None?;
      NoTargetNoStop(cfg, b, d);
    }
  }

  lemma NoTargetNoStop(cfg: Config, b: Cell, d: Cell)
    requires b.src.Some? && Target(cfg, b).None?
    ensures !StoppedCopy(cfg, b, d, false)
  {
  }

  lemma VersionsDoNotDecide(cfg: Config, p: Path, b: Cell, e: Cell)
    requires b.(history := e.history) == e
    ensures AtRest(cfg, p, b) <==> AtRest(cfg, p, e)
  {
    assert b == e.(history := b.history);
  }

  /** A path that is done stays as it is. */
  lemma FromDone(cfg: Config, p: Path, c: Cell, b: Cell, d: Cell)
    requires Sound(cfg) && !cfg.strategy.UnknownStrategy? && OnePending(c.conflicts)
    requires !HidingPull(cfg, p, c) && SameAs(cfg, TwoWay(cfg, p, c), b) && PausedReach(cfg, p, b, d, false)
    ensures SameAs(cfg, TwoWay(cfg, p, c), d) && SameAs(cfg, TwoWay(cfg, p, c), TwoWay(cfg, p, b))
  {
    hide TwoWay, Sound, OnePending, PausedReach, Settled, Exposed, Open, HidingPull;
    var e := TwoWay(cfg, p, c);
    TwoWayIdempotentIff(cfg, p, c);
    FixedIff(cfg, p, e);
    VersionsDoNotDecide(cfg, p, b, e);
    FixedIff(cfg, p, b);
    NothingToStop(cfg, p, b, d);
  }

  /** A copy that was stopped and removed again can only be stopped and removed again, or done. */
  lemma FromStopped(cfg: Config, p: Path, c: Cell, d: Cell)
    requires Sound(cfg) && SourceVisible(cfg, p, c) && Target(cfg, c).Some? && !RiskyPull(cfg, p, c)
    requires PausedReach(cfg, p, PausedInside(cfg, c), d, false)
    ensures d == PausedInside(cfg, c) || d == TwoWay(cfg, p, c)
  {
    hide TwoWay, PausedInside;
    TwoWayPauseIff(cfg, p, c);
    StoppedTwice(cfg, p, c, d);
  }

  lemma StoppedTwice(cfg: Config, p: Path, c: Cell, d: Cell)
    requires Sound(cfg) && SourceVisible(cfg, p, c) && Target(cfg, c).Some? && !RiskyPull(cfg, p, c)
    ensures var b := PausedInside(cfg, c);
            && (SourceVisible(cfg, p, b) && StoppedCopy(cfg, b, d, false) ==> d == b)
            && (!SourceVisible(cfg, p, b) && b.entry.None? && LeftBehind(false, d.src, []) && d == b.(src := d.src) ==> d == b)
  {
  }

  /** One more paused run keeps a path resumable, or catches it. */
  lemma PausedRunKeepsTwoWayResumable(cfg: Config, p: Path, c: Cell, b: Cell, d: Cell)
    requires Sound(cfg) && !cfg.strategy.UnknownStrategy? && OnePending(c.conflicts)
    requires TwoWayResumable(cfg, p, c, b) && PausedReach(cfg, p, b, d, false)
    ensures TwoWayResumable(cfg, p, c, d) || Caught(cfg, p, c, d)
  {
    hide TwoWay, Sound, OnePending, HidingPull, RiskyPull, PausedInside, SameAs, PausedReach;
    if b == c {
      FromUntouched(cfg, p, c, d);
    } else if !HidingPull(cfg, p, c) && SameAs(cfg, TwoWay(cfg, p, c), b) {
      FromDone(cfg, p, c, b, d);
    } else if SourceVisible(cfg, p, c) {
      FromStopped(cfg, p, c, d);
      StoppedIsNotHiding(cfg, p, c);
    } else {
      FromBare(cfg, p, c, d);
    }
  }

  lemma StoppedIsNotHiding(cfg: Config, p: Path, c: Cell)
    requires SourceVisible(cfg, p, c) ==> !RiskyPull(cfg, p, c)
    ensures !HidingPull(cfg, p, c) && SameAs(cfg, TwoWay(cfg, p, c), TwoWay(cfg, p, c))
  {
    if HidingPull(cfg, p, c) { HidingPullIsRisky(cfg, p, c); }
  }

  /** A new destination file whose copy was stopped is still a new destination file. */
  lemma FromBare(cfg: Config, p: Path, c: Cell, d: Cell)
    requires !SourceVisible(cfg, p, c) && c.dst.Some? && cfg.visible(p, c.dst.value) && c.entry.None?
    requires PausedReach(cfg, p, c.(src := None), d, false)
    ensures TwoWayResumable(cfg, p, c, d)
  {
  }

  /** A path that was caught stays so. */
  lemma PausedRunKeepsSpoiled(cfg: Config, p: Path, c: Cell, b: Cell, d: Cell)
    requires Sound(cfg) && Spoiled(cfg, p, c, b) && PausedReach(cfg, p, b, d, false)
    ensures Spoiled(cfg, p, c, d)
  {
  }

  /** From a resumable path a complete run gives what an uninterrupted one would have given. */
  lemma ResumedTwoWayCatchesUp(cfg: Config, p: Path, c: Cell, b: Cell)
    requires Sound(cfg) && !cfg.strategy.UnknownStrategy? && OnePending(c.conflicts) && TwoWayResumable(cfg, p, c, b)
    ensures SameAs(cfg, TwoWay(cfg, p, c), TwoWay(cfg, p, b))
  {
    hide Sound, OnePending, HidingPull, RiskyPull, PausedInside, SameAs, TwoWay;
    if b == c {
      SameAsItself(cfg, TwoWay(cfg, p, c));
    } else if !HidingPull(cfg, p, c) && SameAs(cfg, TwoWay(cfg, p, c), b) {
      FromDone(cfg, p, c, b, b);
    } else {
      SameAsItself(cfg, TwoWay(cfg, p, c));
      if SourceVisible(cfg, p, c) { TwoWayPauseIff(cfg, p, c); } else { BareIsPulled(cfg, p, c); }
    }
  }

  lemma SameAsItself(cfg: Config, c: Cell)
    ensures SameAs(cfg, c, c)
  {
  }

  lemma BareIsPulled(cfg: Config, p: Path, c: Cell)
    requires !SourceVisible(cfg, p, c) && c.dst.Some? && cfg.visible(p, c.dst.value) && c.entry.None?
    ensures TwoWay(cfg, p, c.(src := None)) == TwoWay(cfg, p, c)
  {
  }

  /** From a path that was caught it never does. */
  lemma SpoiledStaysSpoiled(cfg: Config, p: Path, c: Cell, b: Cell)
    requires Sound(cfg) && Spoiled(cfg, p, c, b)
    ensures !SameAs(cfg, TwoWay(cfg, p, c), TwoWay(cfg, p, b))
  {
  }

  // ---- Whole runs ----

  /** The states between paused runs without errors: one before the first, and one after each. */
  ghost predicate PausedRuns(cfg: Config, envs: seq<Env>, states: seq<State>) {
    && |states| == |envs| + 1
    && forall k :: 0 <= k < |envs| ==> PausedRun(cfg, envs[k].removeFails, states[k], states[k + 1], [])
  }

  /** One of the first k paused runs caught the path. */
  ghost predicate CaughtBy(cfg: Config, p: Path, states: seq<State>, k: nat)
    requires k < |states|
  {
    exists j :: 1 <= j <= k && Caught(cfg, p, CellIn(states[0], p), CellIn(states[j], p))
  }

  lemma {:induction false} PausedRunsAt(cfg: Config, envs: seq<Env>, states: seq<State>, p: Path, k: nat)
    requires Sound(cfg) && !cfg.strategy.UnknownStrategy? && PausedRuns(cfg, envs, states) && k < |states|
    requires OnePending(CellIn(states[0], p).conflicts) && !Unremoved(envs)(p)
    ensures if CaughtBy(cfg, p, states, k) then Spoiled(cfg, p, CellIn(states[0], p), CellIn(states[k], p))
            else TwoWayResumable(cfg, p, CellIn(states[0], p), CellIn(states[k], p))
  {
    hide CellIn, Sound, OnePending, Spoiled, TwoWayResumable, Caught, PausedReach;
    if k == 0 {
      UntouchedIsResumable(cfg, p, CellIn(states[0], p));
    } else {
      PausedRunsAt(cfg, envs, states, p, k - 1);
      var c, b, d := CellIn(states[0], p), CellIn(states[k - 1], p), CellIn(states[k], p);
      assert PausedRun(cfg, envs[k - 1].removeFails, states[k - 1], states[k - 1 + 1], []);
      assert PausedReach(cfg, p, b, d, false);
      if CaughtBy(cfg, p, states, k - 1) {
        PausedRunKeepsSpoiled(cfg, p, c, b, d);
      } else {
        PausedRunKeepsTwoWayResumable(cfg, p, c, b, d);
        if Caught(cfg, p, c, d) { CaughtIsSpoiled(cfg, p, c, d); }
      }
    }
  }

  lemma UntouchedIsResumable(cfg: Config, p: Path, c: Cell)
    ensures TwoWayResumable(cfg, p, c, c)
  {
  }

  /**
   * Any number of paused runs, and one that then completes, give at each path what one uninterrupted run
   * gives, with whatever filters, if and only if no pause caught it: none was inside a risky copy back
   * there, and no run before the last pause had finished it by a copy back that hides itself. Only a conflict
   * left to the user may have more versions stored. Paths where a half-written file could not be removed
   * are not covered.
   */
  lemma PausedThenCompleted(cfg: Config, envs: seq<Env>, states: seq<State>, cur: State)
    requires Sound(cfg) && !cfg.strategy.UnknownStrategy? && PausedRuns(cfg, envs, states)
    requires forall p :: OnePending(CellIn(states[0], p).conflicts)
    requires TwoWayDone(cfg, states[|envs|], cur, [])
    ensures forall p :: !Unremoved(envs)(p) ==>
              (SameAs(cfg, TwoWay(cfg, p, CellIn(states[0], p)), CellIn(cur, p)) <==> !CaughtBy(cfg, p, states, |envs|))
  {
    hide CellIn, Sound, OnePending, Spoiled, TwoWayResumable, CaughtBy, SameAs, TwoWay, Unremoved, PausedRun;
    forall p | !Unremoved(envs)(p)
      ensures SameAs(cfg, TwoWay(cfg, p, CellIn(states[0], p)), CellIn(cur, p)) <==> !CaughtBy(cfg, p, states, |envs|)
    {
      var c, b := CellIn(states[0], p), CellIn(states[|envs|], p);
      PausedRunsAt(cfg, envs, states, p, |envs|);
      assert CellIn(cur, p) == TwoWay(cfg, p, b);
      if CaughtBy(cfg, p, states, |envs|) {
        SpoiledStaysSpoiled(cfg, p, c, b);
      } else {
        ResumedTwoWayCatchesUp(cfg, p, c, b);
      }
    }
  }

  lemma PausedRunsNext(cfg: Config, envs: seq<Env>, k: nat, states: seq<State>, next: State)
    requires k < |envs| && PausedRuns(cfg, envs[..k], states)
    requires PausedRun(cfg, envs[k].removeFails, states[k], next, [])
    ensures PausedRuns(cfg, envs[..k + 1], states + [next])
  {
    hide PausedRun;
  }

  lemma FewerUnremoved(envs: seq<Env>, k: nat, p: Path)
    requires k <= |envs| && !Unremoved(envs)(p)
    ensures !Unremoved(envs[..k])(p)
  {
  }

  /**
   * A two-way job that is paused and resumed any number of times and then left to finish. As long as no file
   * fails, it ends as a single uninterrupted run would have at exactly the paths that no pause caught.
   */
  method RunTwoWayWithPauses(cfg: Config, w: World, envs: seq<Env>, pauses: seq<nat>, last: Env)
    returns (errors: seq<Path>, ghost states: seq<State>)
    requires Sound(cfg) && !cfg.strategy.UnknownStrategy? && w.src != w.dst && |envs| == |pauses|
    requires last.tmp !in w.dst.files && last.tmp !in w.src.files && forall e :: e in envs ==> e.tmp == last.tmp
    requires forall p :: OnePending(CellIn(w.Now(), p).conflicts)
    modifies w`manifest, w`history, w`conflicts, w`quarantined, w.src, w.dst
    ensures 0 < |states| <= |envs| + 1 && states[0] == old(w.Now())
    ensures PausedRuns(cfg, envs[..|states| - 1], states)
    ensures errors == [] ==>
              && TwoWayDone(cfg, states[|states| - 1], w.Now(), [])
              && forall p :: !Unremoved(envs)(p) ==>
                   (SameAs(cfg, TwoWay(cfg, p, CellIn(old(w.Now()), p)), CellIn(w.Now(), p))
                    <==> !CaughtBy(cfg, p, states, |states| - 1))
    ensures Calm(cfg, last) && (forall e :: e in envs ==> Calm(cfg, e)) ==> errors == []
  {
    hide CellIn, Sound, OnePending, CaughtBy, SameAs, TwoWay, Unremoved, PausedRuns, PausedRun, TwoWayDone, Calm, AllReachable, Tally;
    states := [w.Now()];
    NoRunsYet(cfg, envs, w.Now());
    for k := 0 to |pauses|
      invariant last.tmp !in w.dst.files && last.tmp !in w.src.files
      invariant |states| == k + 1 && states[0] == old(w.Now()) && states[k] == w.Now()
      invariant PausedRuns(cfg, envs[..k], states)
    {
      var signal := new PauseSignal(Some(pauses[k]));
      var r, _ := RunTwoWay(cfg, w, envs[k], signal);
      if r.errors != [] { return r.errors, states; }
      if !r.paused {
        FinishedAfter(cfg, envs, k, states, w.Now());
        return [], states;
      }
      PausedRunsNext(cfg, envs, k, states, w.Now());
      states := states + [w.Now()];
    }
    var never := new PauseSignal(None);
    var r, _ := RunTwoWay(cfg, w, last, never);
    if r.errors != [] { return r.errors, states; }
    FinishedAfter(cfg, envs, |envs|, states, w.Now());
    return [], states;
  }

  lemma NoRunsYet(cfg: Config, envs: seq<Env>, st: State)
    ensures PausedRuns(cfg, envs[..0], [st])
  {
  }

  /** The run after k paused ones has completed. */
  lemma FinishedAfter(cfg: Config, envs: seq<Env>, k: nat, states: seq<State>, cur: State)
    requires Sound(cfg) && !cfg.strategy.UnknownStrategy? && k <= |envs| && |states| == k + 1
    requires PausedRuns(cfg, envs[..k], states) && TwoWayDone(cfg, states[k], cur, [])
    requires forall p :: OnePending(CellIn(states[0], p).conflicts)
    ensures forall p :: !Unremoved(envs)(p) ==>
              (SameAs(cfg, TwoWay(cfg, p, CellIn(states[0], p)), CellIn(cur, p)) <==> !CaughtBy(cfg, p, states, k))
  {
    hide CellIn, Sound, OnePending, CaughtBy, SameAs, TwoWay, PausedRuns, TwoWayDone, Unremoved;
    PausedThenCompleted(cfg, envs[..k], states, cur);
    forall p | !Unremoved(envs)(p)
      ensures !Unremoved(envs[..k])(p)
    {
      FewerUnremoved(envs, k, p);
    }
  }
}
