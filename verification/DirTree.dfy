/** Clearing away the directories that a removed file leaves empty. */
module DirTrees {
  import opened Prelude

  /** A cleaned absolute path, as its segments. */
  type Loc = seq<string>

  /** A first segment below the root that starts with two dots reads as a step out of the root. */
  predicate LooksOutside(root: Loc, d: Loc) {
    !(root <= d) || (|root| < |d| && |d[|root|]| >= 2 && d[|root|][0] == '.' && d[|root|][1] == '.')
  }

  /** Each ancestor of a directory or file is a directory, and no path is both. */
  ghost predicate Closed(dirs: set<Loc>, files: map<Loc, bytes>) {
    && (forall x, i :: x in dirs && 0 <= i <= |x| ==> x[..i] in dirs)
    && (forall x, i :: x in files && 0 <= i < |x| ==> x[..i] in dirs)
    && (forall x :: x in files ==> x !in dirs)
  }

  /** One step below d. */
  predicate ChildOf(d: Loc, x: Loc) {
    |x| == |d| + 1 && d <= x
  }

  predicate Empty(dirs: set<Loc>, files: map<Loc, bytes>, d: Loc) {
    && (forall x | x in dirs :: !ChildOf(d, x))
    && (forall x | x in files :: !ChildOf(d, x))
  }

  /**
   * The directories that are in the way: strictly inside the root, not in one whose name begins with two
   * dots there, on the line from start upwards, with no file anywhere below, and no directory below that is off the line or that cannot be removed.
   */
  ghost predicate Hollow(dirs: set<Loc>, files: map<Loc, bytes>, stuck: set<Loc>, root: Loc, start: Loc, d: Loc) {
    && start in dirs && d <= start && root < d
    && !(|d[|root|]| >= 2 && d[|root|][0] == '.' && d[|root|][1] == '.')
    && (forall x :: x in files ==> !(d <= x))
    && (forall x :: x in dirs && d <= x ==> x <= start && x !in stuck)
  }

  lemma SomethingBelow(dirs: set<Loc>, files: map<Loc, bytes>, d: Loc, x: Loc)
    requires Closed(dirs, files) && d <= x && |d| < |x| && (x in dirs || x in files)
    ensures !Empty(dirs, files, d)
  {
    var c := x[..|d| + 1];
    assert c[..|d|] == d;
    assert x[..|x|] == x;
    assert ChildOf(d, c);
  }

  /** In a closed tree an empty directory has nothing below it at any depth. */
  lemma EmptyIsBare(dirs: set<Loc>, files: map<Loc, bytes>, d: Loc, x: Loc)
    requires Closed(dirs, files) && Empty(dirs, files, d) && d <= x && (x in dirs || x in files)
    ensures x == d
  {
    if |d| < |x| { SomethingBelow(dirs, files, d, x); }
  }

  /** The directories below length j on the line from start. */
  function Line(start: Loc, j: nat): set<Loc>
    requires j <= |start|
  {
    set i | j < i <= |start| :: start[..i]
  }

  lemma LineStep(start: Loc, j: nat)
    requires 0 < j <= |start|
    ensures Line(start, j - 1) == Line(start, j) + {start[..j]}
  {
    var whole := Line(start, j - 1);
    assert start[..j] in whole;
  }

  /** A directory whose chain below is gone and that is empty and removable was in the way. */
  lemma EmptyIsHollow(dirs: set<Loc>, files: map<Loc, bytes>, stuck: set<Loc>, root: Loc, start: Loc, j: nat)
    requires Closed(dirs, files) && start in dirs && |root| < j <= |start|
    requires forall i :: j < i <= |start| ==> start[..i] !in stuck
    requires Closed(dirs - Line(start, j), files) && Empty(dirs - Line(start, j), files, start[..j])
    requires start[..j] !in stuck && !LooksOutside(root, start[..j]) && root < start[..j]
    ensures Hollow(dirs, files, stuck, root, start, start[..j])
  {
    var d := start[..j];
    forall x | x in files
      ensures !(d <= x)
    {
      if d <= x { EmptyIsBare(dirs - Line(start, j), files, d, x); }
    }
    forall x | x in dirs && d <= x
      ensures x <= start && x !in stuck
    {
      if x in Line(start, j) {
      } else {
        EmptyIsBare(dirs - Line(start, j), files, d, x);
      }
    }
  }

  /** Removing an empty directory leaves a closed tree. */
  lemma RemovalKeepsClosed(dirs: set<Loc>, files: map<Loc, bytes>, d: Loc)
    requires Closed(dirs, files) && Empty(dirs, files, d)
    ensures Closed(dirs - {d}, files)
  {
    forall x, i | (x in dirs - {d} || x in files) && 0 <= i < |x|
      ensures x[..i] != d
    {
      if x[..i] == d { EmptyIsBare(dirs, files, d, x); }
    }
    forall x | x in dirs
      ensures x[..|x|] == x
    {
    }
  }

  /** Where the climb stops, nothing shorter is in the way. */
  lemma NothingAboveTheStop(dirs: set<Loc>, files: map<Loc, bytes>, stuck: set<Loc>, root: Loc, start: Loc, j: nat, d: Loc)
    requires Closed(dirs, files) && j <= |start| && Hollow(dirs, files, stuck, root, start, d) && |d| <= j
    ensures Hollow(dirs, files, stuck, root, start, start[..j])
    ensures start[..j] !in stuck && start[..j] in dirs && Empty(dirs - Line(start, j), files, start[..j])
  {
    var c := start[..j];
    assert d <= c && c in dirs;
    forall x | x in files
      ensures !(c <= x)
    {
      assert c <= x ==> d <= x;
    }
    forall x | x in dirs && c <= x
      ensures x <= start && x !in stuck
    {
      assert d <= x;
    }
    forall x | x in dirs - Line(start, j)
      ensures !ChildOf(c, x)
    {
      if ChildOf(c, x) && x <= start { OnTheLine(start, j, x); }
    }
  }

  lemma OnTheLine(start: Loc, j: nat, x: Loc)
    requires j < |x| && x <= start
    ensures x in Line(start, j)
  {
    assert x == start[..|x|];
  }

  class DirTree {
    var dirs: set<Loc>
    var files: map<Loc, bytes>
    /** Directories that cannot be listed or removed. */
    const stuck: set<Loc>

    constructor (dirs: set<Loc>, files: map<Loc, bytes>, stuck: set<Loc>)
      requires Closed(dirs, files)
      ensures this.dirs == dirs && this.files == files && this.stuck == stuck
    {
      this.dirs, this.files, this.stuck := dirs, files, stuck;
    }

    /**
     * Climbs from start towards the root, removing empty directories until one stays. Exactly the hollow
     * directories go, and no file.
     */
    method PruneEmptyDirs(start: Loc, root: Loc)
      requires Closed(dirs, files)
      modifies this`dirs
      ensures Closed(dirs, files)
      ensures forall d :: d in dirs <==> d in old(dirs) && !Hollow(old(dirs), files, stuck, root, start, d)
    {
      hide Closed, Hollow, Empty;
      ghost var dirs0 := dirs;
      var dir := start;
      assert dirs == dirs0 - Line(start, |start|);
      while true
        invariant dir <= start && Closed(dirs, files) && dirs == dirs0 - Line(start, |dir|)
        invariant forall i :: |dir| < i <= |start| ==>
                    start[..i] !in stuck && Hollow(dirs0, files, stuck, root, start, start[..i])
        invariant |dir| < |start| ==> start in dirs0
        decreases |dir|
      {
        assert dir == start[..|dir|];
        if dir == root || LooksOutside(root, dir) {
          break;
        }
        if dir !in dirs || dir in stuck || !IsEmpty(dir) {
          break;
        }
        FoundHollow(dirs0, files, stuck, root, start, dir);
        RemovalKeepsClosed(dirs, files, dir);
        LineStep(start, |dir|);
        dirs := dirs - {dir};
        dir := dir[..|dir| - 1];
      }
      Stopped(dirs0, files, stuck, root, start, dir);
    }

    predicate IsEmpty(d: Loc)
      reads this
    {
      Empty(dirs, files, d)
    }
  }

  lemma FoundHollow(dirs0: set<Loc>, files: map<Loc, bytes>, stuck: set<Loc>, root: Loc, start: Loc, dir: Loc)
    requires Closed(dirs0, files) && dir <= start
    requires forall i :: |dir| < i <= |start| ==> start[..i] !in stuck
    requires var dirs := dirs0 - Line(start, |dir|);
             Closed(dirs, files) && Empty(dirs, files, dir) && dir in dirs && dir !in stuck
    requires |dir| < |start| ==> start in dirs0
    requires dir != root && !LooksOutside(root, dir)
    ensures |root| < |dir| && start in dirs0 && Hollow(dirs0, files, stuck, root, start, dir)
  {
    assert dir == start[..|dir|];
    if |dir| == |start| { assert dir == start; }
    EmptyIsHollow(dirs0, files, stuck, root, start, |dir|);
  }

  lemma Stopped(dirs0: set<Loc>, files: map<Loc, bytes>, stuck: set<Loc>, root: Loc, start: Loc, dir: Loc)
    requires Closed(dirs0, files) && dir <= start
    requires forall i :: |dir| < i <= |start| ==> Hollow(dirs0, files, stuck, root, start, start[..i])
    requires var dirs := dirs0 - Line(start, |dir|);
             dir == root || LooksOutside(root, dir) || dir !in dirs || dir in stuck || !Empty(dirs, files, dir)
    ensures forall d :: d in dirs0 ==> (d in Line(start, |dir|) <==> Hollow(dirs0, files, stuck, root, start, d))
  {
    forall d | d in dirs0
      ensures d in Line(start, |dir|) <==> Hollow(dirs0, files, stuck, root, start, d)
    {
      if Hollow(dirs0, files, stuck, root, start, d) {
        assert d == start[..|d|];
        if |d| <= |dir| {
          assert dir == start[..|dir|];
          NothingAboveTheStop(dirs0, files, stuck, root, start, |dir|, d);
          assert false;
        }
      }
    }
  }
}
