/** Jobs whose size or age rules judge the two sides of a path differently, and what two-way runs then do. */
module FilteredRuns {
  import opened Prelude
  import opened Disks
  import opened Worlds
  import opened SyncSpec
  import opened TwoWayFacts
  import opened TwoWayRuns
  import Filters

  /** Leave out files of more than 10 bytes. */
  function NoLargeFiles(): Filters.Ruleset {
    Filters.Ruleset([Filters.Rule(Filters.SizeRule(10, 0), Filters.Exclude)], false)
  }

  /** A job that uses a rule set. */
  ghost function Using(cfg: Config, m: Filters.Matchers, rs: Filters.Ruleset, now: int): Config {
    cfg.(visible := (p: Path, f: File) => Filters.Decision(m, Some(rs), p, |f.data|, f.mtime, now).Include?)
  }

  ghost function WithRules(cfg: Config, m: Filters.Matchers, now: int): Config {
    Using(cfg, m, NoLargeFiles(), now)
  }

  lemma RuleJudgesBySize(cfg: Config, m: Filters.Matchers, now: int, p: Path, f: File)
    ensures Filters.UsesRules(WithRules(cfg, m, now), m, Some(NoLargeFiles()), now)
    ensures WithRules(cfg, m, now).visible(p, f) <==> |f.data| <= 10
  {
    var rules := NoLargeFiles().rules;
    assert rules[1..] == [];
    assert Filters.FirstMatch(m, rules[1..], p, |f.data|, f.mtime, now) == None;
  }

  /**
   * The first run of such a job, with a large file at the source and a small one of the same name at the
   * destination: any complete error-free run ends with the large file gone from both sides and stored nowhere.
   */
  lemma LargeSourceFileIsLost(cfg: Config, m: Filters.Matchers, now: int, p: Path, large: File, small: File, cur: State)
    requires |large.data| > 10 >= |small.data|
    requires TwoWayDone(WithRules(cfg, m, now), State(map[p := large], map[p := small], map[], map[], map[], map[]), cur, [])
    ensures !Kept(large.data, CellIn(cur, p)) && Content(CellIn(cur, p).src) == Some(small.data)
  {
    hide CellIn, TwoWay;
    var job := WithRules(cfg, m, now);
    var st := State(map[p := large], map[p := small], map[], map[], map[], map[]);
    RuleJudgesBySize(cfg, m, now, p, large);
    RuleJudgesBySize(cfg, m, now, p, small);
    FirstCell(st, p, large, small);
    HiddenSourceIsOverwritten(job, p, CellIn(st, p));
    OverwrittenBySmall(job, p, CellIn(st, p));
    assert CellIn(cur, p) == TwoWay(job, p, CellIn(st, p));
  }

  lemma FirstCell(st: State, p: Path, large: File, small: File)
    requires st == State(map[p := large], map[p := small], map[], map[], map[], map[])
    ensures CellIn(st, p) == Cell(Some(large), Some(small), None, [], [], [])
  {
  }

  lemma OverwrittenBySmall(cfg: Config, p: Path, c: Cell)
    requires c.src.Some? && c.dst.Some? && !cfg.visible(p, c.src.value) && cfg.visible(p, c.dst.value) && c.entry.None?
    ensures TwoWay(cfg, p, c).src == c.dst
  {
  }

  /**
   * The rule also makes a pause dangerous: the small source file, losing a conflict to a large destination
   * file that the rule hides, is removed by a pause inside the copy, and no later run brings anything back.
   */
  lemma PausedPullLosesTheSource(cfg: Config, m: Filters.Matchers, now: int, p: Path, small: File, large: File)
    requires |large.data| > 10 >= |small.data| && cfg.strategy.DestinationWins? && Sound(cfg)
    ensures var job := WithRules(cfg, m, now);
            var c := Cell(Some(small), Some(large), None, [], [], []);
            var d := TwoWay(job, p, PausedInside(job, c));
            && RiskyPull(job, p, c)
            && d.src.None? && d.entry.None? && !Kept(small.data, d)
            && InSync(job, TwoWay(job, p, c))
  {
    hide WithRules, Sound;
    var job := WithRules(cfg, m, now);
    RuleJudgesBySize(cfg, m, now, p, large);
    RuleJudgesBySize(cfg, m, now, p, small);
    SameButFilter(cfg, m, now);
    HiddenPull(job, p, small, large);
  }

  lemma SameButFilter(cfg: Config, m: Filters.Matchers, now: int)
    ensures WithRules(cfg, m, now) == cfg.(visible := WithRules(cfg, m, now).visible)
    ensures Sound(cfg) ==> Sound(WithRules(cfg, m, now))
  {
  }

  lemma HiddenPull(cfg: Config, p: Path, small: File, large: File)
    requires Sound(cfg) && cfg.strategy.DestinationWins? && small.data != large.data
    requires cfg.visible(p, small) && !cfg.visible(p, large)
    ensures var c := Cell(Some(small), Some(large), None, [], [], []);
            var d := TwoWay(cfg, p, PausedInside(cfg, c));
            && RiskyPull(cfg, p, c) && d.src.None? && d.entry.None? && !Kept(small.data, d) && InSync(cfg, TwoWay(cfg, p, c))
  {
    var c := Cell(Some(small), Some(large), None, [], [], []);
    assert forall x :: x in Saved(cfg, [], Some(large)) ==> x == large.data;
  }

  /** Leave out files of more than 10 bytes, unless they were modified within a day. */
  function LargeOnlyIfNew(): Filters.Ruleset {
    Filters.Ruleset(
      [Filters.Rule(Filters.Modified(0, 1), Filters.Include), Filters.Rule(Filters.SizeRule(10, 0), Filters.Exclude)], false)
  }

  lemma OneRule(m: Filters.Matchers, rules: seq<Filters.Rule>, p: Path, size: int, mtime: int, now: int)
    requires |rules| == 1
    ensures Filters.FirstMatch(m, rules, p, size, mtime, now)
            == if Filters.Matches(m, rules[0].kind, p, size, mtime, now) then Some(rules[0].action) else None
  {
    assert rules[1..] == [];
  }

  lemma RuleJudgesByAge(cfg: Config, m: Filters.Matchers, now: int, p: Path, f: File)
    requires now - f.mtime <= Filters.MAX_INT64 && f.mtime - now <= Filters.MAX_INT64
    ensures Using(cfg, m, LargeOnlyIfNew(), now).visible(p, f)
            <==> now - f.mtime < Filters.NANOS_PER_DAY || |f.data| <= 10
  {
    var rules := LargeOnlyIfNew().rules;
    Filters.DaysExactIff(1);
    assert Filters.Days(1) == Filters.NANOS_PER_DAY;
    assert rules[0] == Filters.Rule(Filters.Modified(0, 1), Filters.Include);
    assert rules[1..] == [Filters.Rule(Filters.SizeRule(10, 0), Filters.Exclude)];
    assert Filters.Matches(m, rules[0].kind, p, |f.data|, f.mtime, now) <==> now - f.mtime < Filters.NANOS_PER_DAY;
    OneRule(m, rules[1..], p, |f.data|, f.mtime, now);
    assert Filters.Matches(m, rules[1].kind, p, |f.data|, f.mtime, now) <==> |f.data| > 10;
  }

  /**
   * A small file was synced some days ago and has just grown at the destination. One run copies it back under
   * its old time, where the rules hide it; the next run takes it for deleted and quarantines the destination file.
   */
  lemma PulledChangeIsQuarantined(cfg: Config, m: Filters.Matchers, now: int, p: Path, stale: File, grown: File)
    requires Sound(cfg) && cfg.versions && !cfg.strategy.UnknownStrategy?
    requires |stale.data| <= 10 < |grown.data|
    requires now - Filters.MAX_INT64 <= stale.mtime <= now - Filters.NANOS_PER_DAY < grown.mtime <= now
    ensures var job := Using(cfg, m, LargeOnlyIfNew(), now);
            var c := Cell(Some(stale), Some(grown), Some(EntryOf(cfg, stale)), [], [], []);
            var d := TwoWay(job, p, TwoWay(job, p, c));
            HidingPull(job, p, c) && d.dst.None? && d.entry.None? && grown.data in d.quarantined
  {
    hide Using, Sound;
    var job := Using(cfg, m, LargeOnlyIfNew(), now);
    RuleJudgesByAge(cfg, m, now, p, stale);
    RuleJudgesByAge(cfg, m, now, p, grown);
    RuleJudgesByAge(cfg, m, now, p, File(grown.data, stale.mtime));
    UsingChangesFilterOnly(cfg, m, LargeOnlyIfNew(), now);
    GrownIsPulled(job, p, stale, grown);
  }

  lemma UsingChangesFilterOnly(cfg: Config, m: Filters.Matchers, rs: Filters.Ruleset, now: int)
    ensures Using(cfg, m, rs, now) == cfg.(visible := Using(cfg, m, rs, now).visible)
    ensures Sound(cfg) ==> Sound(Using(cfg, m, rs, now))
  {
  }

  lemma GrownIsPulled(cfg: Config, p: Path, stale: File, grown: File)
    requires Sound(cfg) && cfg.versions && !cfg.strategy.UnknownStrategy? && stale.data != grown.data
    requires cfg.visible(p, stale) && cfg.visible(p, grown) && !cfg.visible(p, File(grown.data, stale.mtime))
    ensures var c := Cell(Some(stale), Some(grown), Some(EntryOf(cfg, stale)), [], [], []);
            var d := TwoWay(cfg, p, TwoWay(cfg, p, c));
            HidingPull(cfg, p, c) && d.dst.None? && d.entry.None? && grown.data in d.quarantined
  {
    TwoWayIdempotentIff(cfg, p, Cell(Some(stale), Some(grown), Some(EntryOf(cfg, stale)), [], [], []));
  }

  /** Leave out files that were not modified for 30 days. */
  function NoOldFiles(): Filters.Ruleset {
    Filters.Ruleset([Filters.Rule(Filters.Modified(30, 0), Filters.Exclude)], false)
  }

  lemma RuleHidesOldFiles(cfg: Config, m: Filters.Matchers, now: int, p: Path, f: File)
    requires now - f.mtime <= Filters.MAX_INT64 && f.mtime - now <= Filters.MAX_INT64
    ensures Using(cfg, m, NoOldFiles(), now).visible(p, f) <==> now - f.mtime <= 30 * Filters.NANOS_PER_DAY
  {
    var rules := NoOldFiles().rules;
    Filters.DaysExactIff(30);
    assert Filters.Days(30) == 30 * Filters.NANOS_PER_DAY;
    assert rules[0] == Filters.Rule(Filters.Modified(30, 0), Filters.Exclude);
    OneRule(m, rules, p, |f.data|, f.mtime, now);
    assert Filters.Matches(m, rules[0].kind, p, |f.data|, f.mtime, now) <==> now - f.mtime > 30 * Filters.NANOS_PER_DAY;
  }

  /**
   * A change is copied back and both sides are in sync. The copy keeps the source's old time, so under such
   * a rule the source file grows old first; a run between then and the day the destination file does takes
   * it for deleted, although nobody touched it.
   */
  lemma AgedSourceIsTakenForDeleted(cfg: Config, m: Filters.Matchers, now: int, later: int, p: Path, stale: File, changed: File)
    requires Sound(cfg) && cfg.versions && !cfg.strategy.UnknownStrategy? && stale.data != changed.data
    requires stale.mtime <= changed.mtime <= now <= stale.mtime + 30 * Filters.NANOS_PER_DAY < later
    requires later <= changed.mtime + 30 * Filters.NANOS_PER_DAY
    ensures var first, second := Using(cfg, m, NoOldFiles(), now), Using(cfg, m, NoOldFiles(), later);
            var d := TwoWay(first, p, Cell(Some(stale), Some(changed), Some(EntryOf(cfg, stale)), [], [], []));
            var e := TwoWay(second, p, d);
            && InSync(first, d) && Exposed(second, p, d)
            && e.src == d.src && e.dst.None? && e.entry.None? && changed.data in e.quarantined
  {
    hide Using, Sound;
    var first, second := Using(cfg, m, NoOldFiles(), now), Using(cfg, m, NoOldFiles(), later);
    RuleHidesOldFiles(cfg, m, now, p, stale);
    RuleHidesOldFiles(cfg, m, later, p, File(changed.data, stale.mtime));
    RuleHidesOldFiles(cfg, m, later, p, changed);
    UsingChangesFilterOnly(cfg, m, NoOldFiles(), now);
    UsingChangesFilterOnly(cfg, m, NoOldFiles(), later);
    ChangeIsPulled(first, p, stale, changed);
    ExposedGoes(second, p, TwoWay(first, p, Cell(Some(stale), Some(changed), Some(EntryOf(cfg, stale)), [], [], [])));
  }

  lemma ChangeIsPulled(cfg: Config, p: Path, stale: File, changed: File)
    requires Sound(cfg) && stale.data != changed.data && cfg.visible(p, stale)
    ensures var d := TwoWay(cfg, p, Cell(Some(stale), Some(changed), Some(EntryOf(cfg, stale)), [], [], []));
            InSync(cfg, d) && d.src == Some(File(changed.data, stale.mtime)) && d.dst == Some(changed) && d.entry.Some?
  {
    hide Saved;
  }

  lemma ExposedGoes(cfg: Config, p: Path, d: Cell)
    requires d.src.Some? && !cfg.visible(p, d.src.value) && d.dst.Some? && cfg.visible(p, d.dst.value)
    requires d.entry.Some? && cfg.versions
    ensures Exposed(cfg, p, d)
    ensures var e := TwoWay(cfg, p, d);
            e.src == d.src && e.dst.None? && e.entry.None? && d.dst.value.data in e.quarantined
  {
    assert (d.quarantined + [d.dst.value.data])[|d.quarantined|] == d.dst.value.data;
  }
}
