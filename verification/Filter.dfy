/** Which files a job considers: ordered rules, then the hidden-file switch. */
module Filters {
  import opened Prelude
  import opened Disks
  import Worlds

  const NANOS_PER_DAY := 86_400_000_000_000
  const MAX_INT64 := 0x7FFF_FFFF_FFFF_FFFF

  datatype Action = Include | Exclude

  datatype RuleKind =
    | Glob(pattern: string)
    | Extension(ext: string)
    | SizeRule(above: int, below: int)
    | Modified(beforeDaysAgo: int, withinDays: int)
    | UnknownKind

  datatype Rule = Rule(kind: RuleKind, action: Action)

  datatype Ruleset = Ruleset(rules: seq<Rule>, excludeHidden: bool)

  /** What the rules delegate: glob matching (an error is no match) and lower-casing one character. */
  datatype Matchers = Matchers(glob: (string, string) -> Option<bool>, lower: char -> char)

  /** A signed 64-bit product keeps the low 64 bits. */
  function ToInt64(x: int): int {
    (x + 0x8000_0000_0000_0000) % 0x1_0000_0000_0000_0000 - 0x8000_0000_0000_0000
  }

  /** The difference of two instants saturates. */
  function Age(now: int, mtime: int): int {
    if now - mtime > MAX_INT64 then MAX_INT64
    else if now - mtime < -MAX_INT64 - 1 then -MAX_INT64 - 1
    else now - mtime
  }

  function Days(d: int): int {
    ToInt64(ToInt64(d) * NANOS_PER_DAY)
  }

  /** A number of days is measured exactly up to 106751; beyond that its nanoseconds no longer fit. */
  lemma DaysExactIff(d: int)
    requires 0 <= d <= MAX_INT64
    ensures Days(d) == d * NANOS_PER_DAY <==> d <= 106_751
  {
    var n := d * NANOS_PER_DAY;
    assert ToInt64(d) == d;
    if d <= 106_751 {
      assert n <= 106_751 * NANOS_PER_DAY <= MAX_INT64;
    } else {
      assert n >= 106_752 * NANOS_PER_DAY > MAX_INT64;
    }
  }

  function Lower(m: Matchers, s: string): string {
    seq(|s|, i requires 0 <= i < |s| => m.lower(s[i]))
  }

  function TrimDot(s: string): string {
    if s != "" && s[0] == '.' then s[1..] else s
  }

  /** From the last dot after the last slash; empty if there is none. */
  function Ext(s: string): string {
    if s == "" || s[|s| - 1] == '/' then ""
    else if s[|s| - 1] == '.' then "."
    else
      var e := Ext(s[..|s| - 1]);
      if e == "" then "" else e + [s[|s| - 1]]
  }

  predicate Matches(m: Matchers, kind: RuleKind, p: string, size: int, mtime: int, now: int) {
    match kind
    case Glob(pattern) => m.glob(pattern, p) == Some(true)
    case Extension(ext) =>
      var want := Lower(m, TrimDot(ext));
      want != "" && want == Lower(m, TrimDot(Ext(p)))
    case SizeRule(above, below) => (above > 0 && size > above) || (below > 0 && size < below)
    case Modified(before, within) =>
      var age := Age(now, mtime);
      (before > 0 && age > Days(before)) || (within > 0 && age < Days(within))
    case UnknownKind => false
  }

  /** The loop over the rules: the first that matches decides. */
  method Decide(m: Matchers, rs: Option<Ruleset>, p: string, size: int, mtime: int, now: int) returns (a: Action)
    ensures a == Decision(m, rs, p, size, mtime, now)
  {
    if rs.None? { return Include; }
    var rules := rs.value.rules;
    for i := 0 to |rules|
      invariant FirstMatch(m, rules, p, size, mtime, now) == FirstMatch(m, rules[i..], p, size, mtime, now)
    {
      assert rules[i..][1..] == rules[i + 1..];
      if Matches(m, rules[i].kind, p, size, mtime, now) { return rules[i].action; }
    }
    if rs.value.excludeHidden {
      var hidden := HasHiddenSegment(p);
      if hidden { return Exclude; }
    }
    return Include;
  }

  function FirstMatch(m: Matchers, rules: seq<Rule>, p: string, size: int, mtime: int, now: int): Option<Action> {
    if rules == [] then None
    else if Matches(m, rules[0].kind, p, size, mtime, now) then Some(rules[0].action)
    else FirstMatch(m, rules[1..], p, size, mtime, now)
  }

  predicate Decided(m: Matchers, rules: seq<Rule>, p: string, size: int, mtime: int, now: int, i: nat)
    requires i < |rules|
  {
    && Matches(m, rules[i].kind, p, size, mtime, now)
    && forall j :: 0 <= j < i ==> !Matches(m, rules[j].kind, p, size, mtime, now)
  }

  ghost function Decision(m: Matchers, rs: Option<Ruleset>, p: string, size: int, mtime: int, now: int): Action {
    if rs.None? then Include
    else match FirstMatch(m, rs.value.rules, p, size, mtime, now)
      case Some(a) => a
      case None => if rs.value.excludeHidden && Hidden(p) then Exclude else Include
  }

  /** FirstMatch finds an action exactly when a rule with that action matches and none before it does. */
  lemma {:induction false} FirstMatchWins(m: Matchers, rules: seq<Rule>, p: string, size: int, mtime: int, now: int, a: Action)
    ensures FirstMatch(m, rules, p, size, mtime, now) == Some(a)
            <==> exists i :: 0 <= i < |rules| && rules[i].action == a && Decided(m, rules, p, size, mtime, now, i)
    ensures FirstMatch(m, rules, p, size, mtime, now) == None
            <==> forall i :: 0 <= i < |rules| ==> !Matches(m, rules[i].kind, p, size, mtime, now)
  {
    if rules == [] {
    } else if Matches(m, rules[0].kind, p, size, mtime, now) {
      assert Decided(m, rules, p, size, mtime, now, 0);
    } else {
      FirstMatchWins(m, rules[1..], p, size, mtime, now, a);
      forall i | 0 <= i < |rules| - 1
        ensures Decided(m, rules, p, size, mtime, now, i + 1) == Decided(m, rules[1..], p, size, mtime, now, i)
        ensures rules[1..][i] == rules[i + 1]
      {
        if Decided(m, rules, p, size, mtime, now, i + 1) {
          forall j | 0 <= j < i
            ensures !Matches(m, rules[1..][j].kind, p, size, mtime, now)
          {
            assert rules[1..][j] == rules[j + 1];
          }
        }
      }
      forall i | 0 <= i < |rules| && Decided(m, rules, p, size, mtime, now, i)
        ensures i > 0
      {
      }
    }
  }

  /** Split at every slash. */
  function Segments(s: string): (r: seq<string>)
    ensures |r| > 0
  {
    if s == "" then [""]
    else
      var rest := Segments(s[1..]);
      if s[0] == '/' then [""] + rest else [[s[0]] + rest[0]] + rest[1..]
  }

  predicate HiddenName(seg: string) {
    seg != "" && seg[0] == '.' && seg != "." && seg != ".."
  }

  method HasHiddenSegment(p: string) returns (hidden: bool)
    ensures hidden == Hidden(p)
  {
    var segs := Segments(p);
    HiddenIsASegment(p);
    for i := 0 to |segs|
      invariant forall j :: 0 <= j < i ==> !HiddenName(segs[j])
    {
      if HiddenName(segs[i]) { return true; }
    }
    return false;
  }

  /** The text has a slash, or ends, at position i. */
  predicate Ends(s: string, i: nat) {
    i >= |s| || s[i] == '/'
  }

  /** A name that begins with a dot, other than the names . and .. themselves, begins at position i. */
  predicate HiddenAt(s: string, i: nat) {
    && i < |s| && s[i] == '.' && (i == 0 || s[i - 1] == '/')
    && !Ends(s, i + 1)
    && !(s[i + 1] == '.' && Ends(s, i + 2))
  }

  ghost predicate Hidden(s: string) {
    exists i :: HiddenAt(s, i)
  }

  /** The first segment runs up to the first slash. */
  lemma {:induction false} FirstSegment(s: string)
    ensures var h := Segments(s)[0]; |h| <= |s| && h == s[..|h|] && Ends(s, |h|) && forall k :: 0 <= k < |h| ==> s[k] != '/'
  {
    if s != "" && s[0] != '/' {
      FirstSegment(s[1..]);
      var h := Segments(s[1..])[0];
      assert Segments(s)[0] == [s[0]] + h;
      assert s[..|h| + 1] == [s[0]] + s[1..][..|h|];
    }
  }

  lemma FirstHidden(s: string)
    ensures HiddenName(Segments(s)[0]) <==> HiddenAt(s, 0)
  {
    FirstSegment(s);
    var h := Segments(s)[0];
    if |h| >= 1 { assert h[0] == s[0]; }
    if |h| >= 2 { assert h[1] == s[1]; }
  }

  ghost predicate SomeHidden(segs: seq<string>) {
    exists j :: 0 <= j < |segs| && HiddenName(segs[j])
  }

  ghost predicate HiddenAfter(s: string) {
    exists i :: i > 0 && HiddenAt(s, i)
  }

  /** Splitting and looking at the segments finds a hidden name exactly when one starts somewhere in the path. */
  lemma HiddenIsASegment(s: string)
    ensures Hidden(s) <==> SomeHidden(Segments(s))
  {
    FirstHidden(s);
    LaterHidden(s);
    var segs := Segments(s);
    if SomeHidden(segs) {
      var j :| 0 <= j < |segs| && HiddenName(segs[j]);
      if j > 0 { assert HiddenName(segs[1..][j - 1]); }
    }
  }

  lemma {:induction false} LaterHidden(s: string)
    ensures HiddenAfter(s) <==> SomeHidden(Segments(s)[1..])
  {
    if s != "" {
      var t := s[1..];
      LaterHidden(t);
      FirstHidden(t);
      forall i | i > 0
        ensures HiddenAt(s, i) == if i == 1 then s[0] == '/' && HiddenAt(t, 0) else HiddenAt(t, i - 1)
      {
        assert i < |s| ==> s[i] == t[i - 1];
        assert i + 1 < |s| ==> s[i + 1] == t[i];
        assert i + 2 < |s| ==> s[i + 2] == t[i + 1];
        assert i > 1 && i <= |s| ==> s[i - 1] == t[i - 2];
      }
      Shifted(s);
    }
  }

  lemma Shifted(s: string)
    requires s != ""
    requires forall i :: i > 0 ==>
               HiddenAt(s, i) == if i == 1 then s[0] == '/' && HiddenAt(s[1..], 0) else HiddenAt(s[1..], i - 1)
    requires HiddenAfter(s[1..]) <==> SomeHidden(Segments(s[1..])[1..])
    requires HiddenName(Segments(s[1..])[0]) <==> HiddenAt(s[1..], 0)
    ensures HiddenAfter(s) <==> SomeHidden(Segments(s)[1..])
  {
    var t := s[1..];
    var rest := Segments(t);
    if s[0] == '/' {
      assert Segments(s)[1..] == rest;
      if SomeHidden(rest) {
        var j :| 0 <= j < |rest| && HiddenName(rest[j]);
        if j == 0 {
          assert HiddenAt(s, 1);
        } else {
          assert HiddenName(rest[1..][j - 1]);
          var i :| i > 0 && HiddenAt(t, i);
          assert HiddenAt(s, i + 1);
        }
      }
      if HiddenAfter(s) {
        var i :| i > 0 && HiddenAt(s, i);
        if i > 1 {
          assert HiddenAt(t, i - 1);
          var j :| 0 <= j < |rest[1..]| && HiddenName(rest[1..][j]);
          assert HiddenName(rest[j + 1]);
        }
      }
    } else {
      assert Segments(s)[1..] == rest[1..];
      if HiddenAfter(t) {
        var i :| i > 0 && HiddenAt(t, i);
        assert HiddenAt(s, i + 1);
      }
      if HiddenAfter(s) {
        var i :| i > 0 && HiddenAt(s, i);
        assert HiddenAt(t, i - 1);
      }
    }
  }

  /** An extension never holds a dot beyond its first character, and never a slash. */
  lemma {:induction false} ExtIsOneSuffix(p: string)
    ensures Ext(p) != "" ==> Ext(p)[0] == '.'
    ensures forall k :: 1 <= k < |Ext(p)| ==> Ext(p)[k] != '.' && Ext(p)[k] != '/'
  {
    if p != "" && p[|p| - 1] != '/' && p[|p| - 1] != '.' {
      ExtIsOneSuffix(p[..|p| - 1]);
    }
  }

  /** Something an extension can be: not empty, and without a dot or slash inside. */
  predicate Simple(ext: string) {
    ext != "" && forall k :: 0 <= k < |ext| ==> ext[k] != '.' && ext[k] != '/'
  }

  lemma {:induction false} ExtOfDotted(ext: string)
    requires forall k :: 0 <= k < |ext| ==> ext[k] != '.' && ext[k] != '/'
    ensures Ext("." + ext) == "." + ext
  {
    var p := "." + ext;
    if ext != "" {
      var init := ext[..|ext| - 1];
      ExtOfDotted(init);
      assert p[..|p| - 1] == "." + init;
      assert "." + init + [ext[|ext| - 1]] == p;
    }
  }

  /** A path is matched only if the wanted extension, without its leading dot, is simple. */
  lemma MatchedExtensionIsSimple(m: Matchers, ext: string, p: string)
    requires forall c :: (m.lower(c) == '.' <==> c == '.') && (m.lower(c) == '/' <==> c == '/')
    requires Lower(m, TrimDot(ext)) != "" && Lower(m, TrimDot(ext)) == Lower(m, TrimDot(Ext(p)))
    ensures Simple(TrimDot(ext))
  {
    ExtIsOneSuffix(p);
    var want, got := TrimDot(ext), TrimDot(Ext(p));
    assert |Lower(m, want)| == |Lower(m, got)|;
    forall j | 0 <= j < |want|
      ensures want[j] != '.' && want[j] != '/'
    {
      assert got[j] == Ext(p)[j + 1];
      assert m.lower(want[j]) == Lower(m, want)[j] == Lower(m, got)[j] == m.lower(got[j]);
    }
  }

  /**
   * A rule for an extension can match some path exactly when the extension, without its leading dot, is
   * simple; so a rule for a compound extension such as tar.gz never matches anything.
   */
  lemma ExtensionCanMatchIff(m: Matchers, ext: string, size: int, mtime: int, now: int)
    requires forall c :: (m.lower(c) == '.' <==> c == '.') && (m.lower(c) == '/' <==> c == '/')
    ensures (exists p :: Matches(m, Extension(ext), p, size, mtime, now)) <==> Simple(TrimDot(ext))
  {
    var want := TrimDot(ext);
    if Simple(want) {
      ExtOfDotted(want);
      assert TrimDot("." + want) == want;
      assert |Lower(m, want)| > 0;
      assert Matches(m, Extension(ext), "." + want, size, mtime, now);
    }
    if p :| Matches(m, Extension(ext), p, size, mtime, now) {
      MatchedExtensionIsSimple(m, ext, p);
    }
  }

  predicate PathRule(kind: RuleKind) {
    kind.Glob? || kind.Extension? || kind.UnknownKind?
  }

  /** Without size and age rules a decision depends on the path alone, so both sides of a sync agree on it. */
  lemma {:induction false} PathRulesDecideByPath(m: Matchers, rules: seq<Rule>, p: string, size: int, mtime: int, now: int,
                                size': int, mtime': int, now': int)
    requires forall i :: 0 <= i < |rules| ==> PathRule(rules[i].kind)
    ensures FirstMatch(m, rules, p, size, mtime, now) == FirstMatch(m, rules, p, size', mtime', now')
  {
    if rules != [] {
      PathRulesDecideByPath(m, rules[1..], p, size, mtime, now, size', mtime', now');
    }
  }

  ghost predicate UsesRules(cfg: Worlds.Config, m: Matchers, rs: Option<Ruleset>, now: int) {
    forall p, f :: cfg.visible(p, f) == Decision(m, rs, p, |f.data|, f.mtime, now).Include?
  }

  /** The condition under which the two-way and mirror theorems hold is met by path rules. */
  lemma PathRulesArePathOnly(cfg: Worlds.Config, m: Matchers, rs: Option<Ruleset>, now: int)
    requires UsesRules(cfg, m, rs, now)
    requires rs.Some? ==> forall i :: 0 <= i < |rs.value.rules| ==> PathRule(rs.value.rules[i].kind)
    ensures Worlds.PathOnly(cfg)
  {
    forall p, f: File, g: File
      ensures cfg.visible(p, f) == cfg.visible(p, g)
    {
      if rs.Some? {
        PathRulesDecideByPath(m, rs.value.rules, p, |f.data|, f.mtime, now, |g.data|, g.mtime, now);
      }
    }
  }

  /** A size rule judges two files at one path differently, so the condition can fail. */
  lemma SizeRulesAreNot(m: Matchers, p: string, f: File, g: File, now: int)
    requires |f.data| > 10 >= |g.data|
    ensures Decision(m, Some(Ruleset([Rule(SizeRule(10, 0), Exclude)], false)), p, |f.data|, f.mtime, now)
            != Decision(m, Some(Ruleset([Rule(SizeRule(10, 0), Exclude)], false)), p, |g.data|, g.mtime, now)
  {
    var rules := [Rule(SizeRule(10, 0), Exclude)];
    assert rules[1..] == [];
    assert FirstMatch(m, rules[1..], p, |g.data|, g.mtime, now) == None;
  }

  // ---- What each kind of rule decides ----

  /** The rule's kind, as the only rule of a job, leaves the file out. */
  ghost predicate LeavesOut(m: Matchers, kind: RuleKind, p: string, size: int, mtime: int, now: int) {
    Decision(m, Some(Ruleset([Rule(kind, Exclude)], false)), p, size, mtime, now) == Exclude
  }

  lemma LeavesOutIffMatches(m: Matchers, kind: RuleKind, p: string, size: int, mtime: int, now: int)
    ensures LeavesOut(m, kind, p, size, mtime, now) <==> Matches(m, kind, p, size, mtime, now)
  {
    var rules := [Rule(kind, Exclude)];
    assert rules[1..] == [];
    assert FirstMatch(m, rules[1..], p, size, mtime, now) == None;
  }

  /** A glob rule leaves out exactly the paths that the pattern matches; a pattern error is no match. */
  lemma GlobLeavesOutIff(m: Matchers, pattern: string, p: string, size: int, mtime: int, now: int)
    ensures LeavesOut(m, Glob(pattern), p, size, mtime, now) <==> m.glob(pattern, p) == Some(true)
  {
    LeavesOutIffMatches(m, Glob(pattern), p, size, mtime, now);
  }

  /** An include rule saves a path from the rules after it, and from the hidden-file switch; a job without rules includes all. */
  lemma IncludeSaves(m: Matchers, keep: string, drop: string, p: string, size: int, mtime: int, now: int)
    ensures Decision(m, Some(Ruleset([Rule(Glob(keep), Include), Rule(Glob(drop), Exclude)], false)), p, size, mtime, now) == Exclude
            <==> m.glob(drop, p) == Some(true) && m.glob(keep, p) != Some(true)
    ensures Decision(m, Some(Ruleset([Rule(Glob(keep), Include)], true)), p, size, mtime, now) == Exclude
            <==> Hidden(p) && m.glob(keep, p) != Some(true)
    ensures Decision(m, None, p, size, mtime, now) == Include
  {
    var two, one := [Rule(Glob(keep), Include), Rule(Glob(drop), Exclude)], [Rule(Glob(keep), Include)];
    assert two[1..] == [Rule(Glob(drop), Exclude)] && two[1..][1..] == [] && one[1..] == [];
    assert FirstMatch(m, one[1..], p, size, mtime, now) == None == FirstMatch(m, two[1..][1..], p, size, mtime, now);
    assert FirstMatch(m, two[1..], p, size, mtime, now) == if m.glob(drop, p) == Some(true) then Some(Exclude) else None;
  }

  /** An extension as a file can have it: no dot and no slash in it. */
  predicate Plain(x: string) {
    forall k :: 0 <= k < |x| ==> x[k] != '.' && x[k] != '/'
  }

  /** The same letters, as the lower-casing sees them. */
  predicate SameLetters(m: Matchers, x: string, y: string) {
    |x| == |y| && forall k :: 0 <= k < |x| ==> m.lower(x[k]) == m.lower(y[k])
  }

  lemma {:induction false} ExtOfPath(stem: string, x: string)
    requires Plain(x)
    ensures Ext(stem + "." + x) == "." + x
  {
    var p := stem + "." + x;
    if x == "" {
      assert p[|p| - 1] == '.';
    } else {
      var init := x[..|x| - 1];
      ExtOfPath(stem, init);
      assert p[..|p| - 1] == stem + "." + init;
      assert p[|p| - 1] == x[|x| - 1] && "." + init + [x[|x| - 1]] == "." + x;
    }
  }

  lemma {:induction false} PathOfExt(p: string)
    requires Ext(p) != ""
    ensures |Ext(p)| <= |p| && p == p[..|p| - |Ext(p)|] + Ext(p)
  {
    if p[|p| - 1] != '.' {
      var init := p[..|p| - 1];
      PathOfExt(init);
      assert Ext(p) == Ext(init) + [p[|p| - 1]];
      assert p == init + [p[|p| - 1]];
    }
  }

  /** The path ends in a dot and the letters wanted. */
  ghost predicate HasExtension(m: Matchers, p: string, want: string) {
    exists stem, x :: p == stem + "." + x && Plain(x) && SameLetters(m, x, want)
  }

  lemma LowerIsSameLetters(m: Matchers, x: string, y: string)
    ensures Lower(m, x) == Lower(m, y) <==> SameLetters(m, x, y)
  {
    if Lower(m, x) == Lower(m, y) {
      forall k | 0 <= k < |x|
        ensures |x| == |y| && m.lower(x[k]) == m.lower(y[k])
      {
        assert m.lower(x[k]) == Lower(m, x)[k] == Lower(m, y)[k];
      }
      assert |Lower(m, x)| == |x| && |Lower(m, y)| == |y|;
    }
  }

  /**
   * A rule for an extension, written with or without a dot before it, leaves out exactly the paths that end
   * in a dot and those letters, in either case of letters.
   */
  lemma ExtensionLeavesOutIff(m: Matchers, want: string, p: string, size: int, mtime: int, now: int)
    requires want != "" && want[0] != '.'
    ensures LeavesOut(m, Extension(want), p, size, mtime, now) <==> HasExtension(m, p, want)
    ensures LeavesOut(m, Extension("." + want), p, size, mtime, now) <==> HasExtension(m, p, want)
  {
    hide Lower, SameLetters, Ext;
    LeavesOutIffMatches(m, Extension(want), p, size, mtime, now);
    LeavesOutIffMatches(m, Extension("." + want), p, size, mtime, now);
    assert TrimDot(want) == want == TrimDot("." + want);
    LowerIsSameLetters(m, TrimDot(Ext(p)), want);
    LowerIsSameLetters(m, "", want);
    LowerIsEmptyIff(m, want);
    ExtIsOneSuffix(p);
    if Ext(p) != "" && SameLetters(m, TrimDot(Ext(p)), want) {
      PathOfExt(p);
      var stem, x := p[..|p| - |Ext(p)|], Ext(p)[1..];
      assert Ext(p) == "." + x && p == stem + "." + x && Plain(x);
    }
    if HasExtension(m, p, want) {
      var stem, x :| p == stem + "." + x && Plain(x) && SameLetters(m, x, want);
      ExtOfPath(stem, x);
      assert TrimDot("." + x) == x;
    }
  }

  lemma LowerIsEmptyIff(m: Matchers, x: string)
    ensures Lower(m, x) == "" <==> x == ""
    ensures x != "" ==> !SameLetters(m, "", x)
  {
    assert |Lower(m, x)| == |x|;
  }

  /** A size rule leaves out what is larger than its upper bound or smaller than its lower one; zero is no bound. */
  lemma SizeLeavesOutIff(m: Matchers, above: int, below: int, p: string, size: int, mtime: int, now: int)
    ensures LeavesOut(m, SizeRule(above, below), p, size, mtime, now)
            <==> (above > 0 && size > above) || (below > 0 && size < below)
  {
    LeavesOutIffMatches(m, SizeRule(above, below), p, size, mtime, now);
  }

  /** An age rule leaves out what was modified more than so many days ago, or less; zero is no bound. */
  lemma AgeLeavesOutIff(m: Matchers, before: int, within: int, p: string, size: int, mtime: int, now: int)
    requires 0 <= before <= 106_751 && 0 <= within <= 106_751
    ensures LeavesOut(m, Modified(before, within), p, size, mtime, now)
            <==> || (before > 0 && now - mtime > before * 86_400_000_000_000)
                 || (within > 0 && now - mtime < within * 86_400_000_000_000)
  {
    LeavesOutIffMatches(m, Modified(before, within), p, size, mtime, now);
    DaysExactIff(before);
    DaysExactIff(within);
  }

  /** The first rule that would leave the file out on its own decides, by its action; failing all, the hidden-file switch. */
  lemma FirstRuleDecides(m: Matchers, rs: Ruleset, p: string, size: int, mtime: int, now: int, i: nat)
    requires i <= |rs.rules| && forall j :: 0 <= j < i ==> !LeavesOut(m, rs.rules[j].kind, p, size, mtime, now)
    ensures i < |rs.rules| && LeavesOut(m, rs.rules[i].kind, p, size, mtime, now) ==>
              Decision(m, Some(rs), p, size, mtime, now) == rs.rules[i].action
    ensures i == |rs.rules| ==>
              (Decision(m, Some(rs), p, size, mtime, now) == Exclude <==> rs.excludeHidden && Hidden(p))
  {
    hide Matches, FirstMatch, LeavesOut, Hidden;
    forall j | 0 <= j < |rs.rules|
      ensures LeavesOut(m, rs.rules[j].kind, p, size, mtime, now) <==> Matches(m, rs.rules[j].kind, p, size, mtime, now)
    {
      LeavesOutIffMatches(m, rs.rules[j].kind, p, size, mtime, now);
    }
    FirstMatchWins(m, rs.rules, p, size, mtime, now, Include);
    FirstMatchWins(m, rs.rules, p, size, mtime, now, Exclude);
    if i < |rs.rules| && LeavesOut(m, rs.rules[i].kind, p, size, mtime, now) {
      assert Decided(m, rs.rules, p, size, mtime, now, i);
    }
  }

  /** A rule of a type nobody knows leaves nothing out. */
  lemma UnknownLeavesNothingOut(m: Matchers, p: string, size: int, mtime: int, now: int)
    ensures !LeavesOut(m, UnknownKind, p, size, mtime, now)
  {
    LeavesOutIffMatches(m, UnknownKind, p, size, mtime, now);
  }
}
