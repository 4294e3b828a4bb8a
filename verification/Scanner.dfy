/**
 * The parallel scan: one walker feeds a bounded channel, a pool of workers drains it. The state holds
 * what the goroutines share and where each one stands; a Move is one atomic step of one of them, and a
 * run is any sequence of moves that are possible when they are made.
 */
module Scanner {
  import opened Prelude

  const CHANNEL_SLOTS := 256
  const QUARANTINE_DIR := ".tidemarq-quarantine"

  /** A mount's contents; the lists are in the order the mount returns them. */
  datatype Node = FileNode(name: string, size: nat, mtime: int) | DirNode(name: string, children: seq<Node>)

  datatype Work = Work(path: seq<string>, size: nat, mtime: int)

  predicate Held(n: Node) {
    n.DirNode? && n.name == QUARANTINE_DIR
  }

  /** Every file below a list of entries, outside quarantine folders, in walking order. */
  function FilesIn(dir: seq<string>, nodes: seq<Node>): seq<Work>
    decreases nodes
  {
    if nodes == [] then [] else FilesAt(dir, nodes[0]) + FilesIn(dir, nodes[1..])
  }

  function FilesAt(dir: seq<string>, n: Node): seq<Work>
    decreases n
  {
    match n
    case FileNode(name, size, mtime) => [Work(dir + [name], size, mtime)]
    case DirNode(name, children) => if Held(n) then [] else FilesIn(dir + [name], children)
  }

  function Included(ws: seq<Work>, keep: Work -> bool): seq<Work> {
    if ws == [] then [] else (if keep(ws[0]) then [ws[0]] else []) + Included(ws[1..], keep)
  }

  function Sum(ws: seq<Work>): nat {
    if ws == [] then 0 else ws[0].size + Sum(ws[1..])
  }

  /** The names lead from these entries to a file of this size and time. */
  ghost predicate Leads(nodes: seq<Node>, names: seq<string>, size: nat, mtime: int)
    decreases |names|
  {
    exists i :: 0 <= i < |nodes| && LeadsBy(nodes[i], names, size, mtime)
  }

  ghost predicate LeadsBy(n: Node, names: seq<string>, size: nat, mtime: int)
    decreases |names|, 0
  {
    && names != [] && n.name == names[0]
    && if |names| == 1 then n == FileNode(names[0], size, mtime)
       else n.DirNode? && Leads(n.children, names[1..], size, mtime)
  }

  /** None of the directories on the way is a quarantine folder. */
  predicate OffQuarantine(names: seq<string>) {
    forall k :: 0 <= k < |names| - 1 ==> names[k] != ".tidemarq-quarantine"
  }

  /** The walk reaches exactly the files that can be reached by names outside quarantine folders. */
  lemma {:induction false} FilesInIff(dir: seq<string>, nodes: seq<Node>, w: Work)
    ensures w in FilesIn(dir, nodes) <==>
              dir <= w.path && Leads(nodes, w.path[|dir|..], w.size, w.mtime) && OffQuarantine(w.path[|dir|..])
    decreases nodes
  {
    hide OffQuarantine, LeadsBy;
    if nodes != [] {
      FilesAtIff(dir, nodes[0], w);
      FilesInIff(dir, nodes[1..], w);
      if dir <= w.path {
        var names := w.path[|dir|..];
        if Leads(nodes, names, w.size, w.mtime) {
          var i :| 0 <= i < |nodes| && LeadsBy(nodes[i], names, w.size, w.mtime);
          assert i > 0 ==> nodes[1..][i - 1] == nodes[i];
        }
        if Leads(nodes[1..], names, w.size, w.mtime) {
          var i :| 0 <= i < |nodes[1..]| && LeadsBy(nodes[1..][i], names, w.size, w.mtime);
          assert nodes[i + 1] == nodes[1..][i];
        }
      }
    }
  }

  lemma {:induction false} FilesAtIff(dir: seq<string>, n: Node, w: Work)
    ensures w in FilesAt(dir, n) <==>
              dir <= w.path && LeadsBy(n, w.path[|dir|..], w.size, w.mtime) && OffQuarantine(w.path[|dir|..])
    decreases n
  {
    match n
    case FileNode(name, size, mtime) =>
      if dir <= w.path && |w.path| == |dir| + 1 { assert w.path == dir + [w.path[|dir|]]; }
    case DirNode(name, children) =>
      var inside := dir + [name];
      if !Held(n) { FilesInIff(inside, children, w); }
      if dir <= w.path && |w.path| > |dir| {
        BelowName(dir, name, w.path);
      }
  }

  lemma BelowName(dir: seq<string>, name: string, path: seq<string>)
    requires dir <= path && |path| > |dir|
    ensures dir + [name] <= path <==> path[|dir|] == name
    ensures var names := path[|dir|..];
            && path[|dir + [name]|..] == names[1..]
            && (|names| > 1 ==> (OffQuarantine(names) <==> names[0] != ".tidemarq-quarantine" && OffQuarantine(names[1..])))
  {
    var names := path[|dir|..];
    if |names| > 1 && names[0] != ".tidemarq-quarantine" && OffQuarantine(names[1..]) {
      forall k | 0 <= k < |names| - 1
        ensures names[k] != ".tidemarq-quarantine"
      {
        if k > 0 { assert names[1..][k - 1] == names[k]; }
      }
    }
    if OffQuarantine(names) {
      assert forall k :: 0 <= k < |names[1..]| - 1 ==> names[1..][k] == names[k + 1];
    }
  }

  /** A directory being walked and the entries not reached yet. */
  datatype Frame = Frame(dir: seq<string>, rest: seq<Node>)

  datatype Worker = Waiting | Holding(work: Work) | Gone

  datatype Scan = Scan(
    stack: seq<Frame>,
    failed: bool,
    closed: bool,
    channel: seq<Work>,
    workers: seq<Worker>,
    cancelled: bool,
    results: seq<Work>,
    bytesSeen: nat)

  datatype Move =
    | Walk                // next directory entry, or return from a directory
    | Abort               // a send that notices the cancellation instead
    | Close               // the walker is back: close the channel
    | Take(worker: nat)
    | Finish(worker: nat) // filter, then append under the mutex
    | Quit(worker: nat)   // channel closed and drained, or cancellation noticed
    | Cancel

  datatype Setup = Setup(root: seq<Node>, workers: nat, keep: Work -> bool, readable: seq<string> -> bool)

  function Pool(n: nat): (r: seq<Worker>)
    ensures |r| == n && forall i :: 0 <= i < n ==> r[i] == Waiting
  {
    seq(n, i => Waiting)
  }

  /** The walker has listed the root; if that fails there is nothing to walk. */
  function Init(u: Setup): Scan {
    Scan(if u.readable([]) then [Frame([], u.root)] else [], !u.readable([]), false, [], Pool(u.workers), false, [], 0)
  }

  function Top(s: Scan): Frame
    requires s.stack != []
  {
    s.stack[|s.stack| - 1]
  }

  function Below(s: Scan): seq<Frame>
    requires s.stack != []
  {
    s.stack[..|s.stack| - 1]
  }

  predicate Enabled(u: Setup, s: Scan, m: Move) {
    match m
    case Walk => s.stack != [] && (Top(s).rest != [] && Top(s).rest[0].FileNode? ==> |s.channel| < CHANNEL_SLOTS)
    case Abort => s.cancelled && s.stack != [] && Top(s).rest != [] && Top(s).rest[0].FileNode?
    case Close => s.stack == [] && !s.closed
    case Take(i) => i < |s.workers| && s.workers[i].Waiting? && s.channel != []
    case Finish(i) => i < |s.workers| && s.workers[i].Holding?
    case Quit(i) => i < |s.workers| && s.workers[i].Waiting? && (s.cancelled || (s.closed && s.channel == []))
    case Cancel => !s.cancelled
  }

  function WalkStep(u: Setup, s: Scan): Scan
    requires s.stack != []
  {
    var f := Top(s);
    if f.rest == [] then s.(stack := Below(s))
    else
      var n, f' := f.rest[0], Frame(f.dir, f.rest[1..]);
      var path := f.dir + [n.name];
      if Held(n) then s.(stack := Below(s) + [f'])
      else if n.FileNode? then s.(stack := Below(s) + [f'], channel := s.channel + [Work(path, n.size, n.mtime)])
      else if s.cancelled || !u.readable(path) then s.(stack := [], failed := true)
      else s.(stack := Below(s) + [f', Frame(path, n.children)])
  }

  function FinishStep(u: Setup, s: Scan, i: nat): Scan
    requires i < |s.workers| && s.workers[i].Holding?
  {
    var w := s.workers[i].work;
    var s' := s.(workers := s.workers[i := Waiting]);
    if u.keep(w) then s'.(results := s.results + [w], bytesSeen := s.bytesSeen + w.size) else s'
  }

  function Next(u: Setup, s: Scan, m: Move): Scan
    requires Enabled(u, s, m)
  {
    match m
    case Walk => WalkStep(u, s)
    case Abort => s.(stack := [], failed := true)
    case Close => s.(closed := true)
    case Take(i) => s.(channel := s.channel[1..], workers := s.workers[i := Holding(s.channel[0])])
    case Finish(i) => FinishStep(u, s, i)
    case Quit(i) => s.(workers := s.workers[i := Gone])
    case Cancel => s.(cancelled := true)
  }

  ghost predicate Possible(u: Setup, s: Scan, moves: seq<Move>)
    decreases |moves|
  {
    moves == [] || (Enabled(u, s, moves[0]) && Possible(u, Next(u, s, moves[0]), moves[1..]))
  }

  ghost function Run(u: Setup, s: Scan, moves: seq<Move>): Scan
    requires Possible(u, s, moves)
    decreases |moves|
  {
    if moves == [] then s else Run(u, Next(u, s, moves[0]), moves[1..])
  }

  /** The walk is over and every worker has left: the scan returns. */
  predicate Returned(s: Scan) {
    s.closed && forall i :: 0 <= i < |s.workers| ==> s.workers[i].Gone?
  }

  // --- Conservation ---

  function Count(ws: seq<Work>, w: Work): nat {
    multiset(ws)[w]
  }

  /** How often the walker has still to reach w. */
  function Ahead(stack: seq<Frame>, w: Work): nat {
    if stack == [] then 0
    else Ahead(stack[..|stack| - 1], w) + Count(FilesIn(stack[|stack| - 1].dir, stack[|stack| - 1].rest), w)
  }

  function Holds(worker: Worker, w: Work): nat {
    if worker == Holding(w) then 1 else 0
  }

  /** How many workers hold w. */
  function InHand(workers: seq<Worker>, w: Work): nat {
    if workers == [] then 0 else InHand(workers[..|workers| - 1], w) + Holds(workers[|workers| - 1], w)
  }

  /** How often w is on its way to a worker's decision. */
  function OnTheWay(s: Scan, w: Work): nat {
    Ahead(s.stack, w) + Count(s.channel, w) + InHand(s.workers, w)
  }

  /**
   * Nothing is lost and nothing is taken twice: every wanted file of the mount is a result or still on its
   * way, as often as the mount holds it, unless the walk gave up.
   */
  ghost predicate Conserved(u: Setup, s: Scan, w: Work) {
    && (!u.keep(w) ==> Count(s.results, w) == 0)
    && (u.keep(w) ==> Count(s.results, w) + OnTheWay(s, w) <= Count(FilesIn([], u.root), w))
    && (u.keep(w) && !s.failed ==> Count(s.results, w) + OnTheWay(s, w) == Count(FilesIn([], u.root), w))
  }

  ghost predicate AllReadable(u: Setup) {
    forall path :: u.readable(path)
  }

  /** How the walker, the channel, the pool and the counter stand to each other. */
  ghost predicate Orderly(u: Setup, s: Scan) {
    && |s.workers| == u.workers
    && |s.channel| <= CHANNEL_SLOTS
    && s.bytesSeen == Sum(s.results)
    && (s.closed || s.failed ==> s.stack == [])
    && (s.failed ==> s.cancelled || !AllReadable(u))
    && (forall i :: 0 <= i < |s.workers| && s.workers[i].Gone? ==> s.cancelled || (s.closed && s.channel == []))
  }

  lemma {:induction false} PoolHoldsNothing(n: nat, w: Work)
    ensures InHand(Pool(n), w) == 0
  {
    if n > 0 {
      PoolHoldsNothing(n - 1, w);
      assert Pool(n)[..n - 1] == Pool(n - 1);
    }
  }

  lemma StartIsConserved(u: Setup, w: Work)
    ensures Conserved(u, Init(u), w) && Orderly(u, Init(u))
  {
    PoolHoldsNothing(u.workers, w);
    AheadPush([], Frame([], u.root), w);
    assert [] + [Frame([], u.root)] == [Frame([], u.root)];
  }

  lemma {:induction false} InHandUpdate(workers: seq<Worker>, i: nat, x: Worker, w: Work)
    requires i < |workers|
    ensures InHand(workers[i := x], w) + Holds(workers[i], w) == InHand(workers, w) + Holds(x, w)
  {
    hide Holds;
    var n := |workers| - 1;
    if i == n {
      assert workers[i := x][..n] == workers[..n];
    } else {
      InHandUpdate(workers[..n], i, x, w);
      assert workers[i := x][..n] == workers[..n][i := x];
    }
  }

  lemma AheadPush(below: seq<Frame>, f: Frame, w: Work)
    ensures Ahead(below + [f], w) == Ahead(below, w) + Count(FilesIn(f.dir, f.rest), w)
  {
    assert (below + [f])[..|below|] == below;
  }

  lemma {:induction false} SumPush(ws: seq<Work>, w: Work)
    ensures Sum(ws + [w]) == Sum(ws) + w.size
  {
    if ws == [] {
      assert Sum([w]) == w.size + Sum([w][1..]);
    } else {
      SumPush(ws[1..], w);
      assert (ws + [w])[1..] == ws[1..] + [w];
    }
  }

  lemma CountJoin(a: seq<Work>, b: seq<Work>, w: Work)
    ensures Count(a + b, w) == Count(a, w) + Count(b, w)
  {
  }

  /** The files of a list are those of its first entry and those of the rest. */
  lemma FilesSplit(dir: seq<string>, nodes: seq<Node>, w: Work)
    requires nodes != []
    ensures Count(FilesIn(dir, nodes), w) == Count(FilesAt(dir, nodes[0]), w) + Count(FilesIn(dir, nodes[1..]), w)
  {
    hide FilesAt, Count;
    CountJoin(FilesAt(dir, nodes[0]), FilesIn(dir, nodes[1..]), w);
  }

  /** What is ahead once the first entry of the top frame is taken off. */
  lemma AheadPop(s: Scan, w: Work)
    requires s.stack != [] && Top(s).rest != []
    ensures var f := Top(s);
            Ahead(s.stack, w) == Ahead(Below(s) + [Frame(f.dir, f.rest[1..])], w) + Count(FilesAt(f.dir, f.rest[0]), w)
  {
    hide FilesIn, FilesAt, Count;
    var f := Top(s);
    FilesSplit(f.dir, f.rest, w);
    AheadPush(Below(s), f, w);
    AheadPush(Below(s), Frame(f.dir, f.rest[1..]), w);
    assert s.stack == Below(s) + [f];
  }

  lemma AheadReturn(s: Scan, w: Work)
    requires s.stack != [] && Top(s).rest == []
    ensures Ahead(s.stack, w) == Ahead(Below(s), w)
  {
    AheadPush(Below(s), Top(s), w);
    assert s.stack == Below(s) + [Top(s)];
  }

  lemma AheadEnter(s: Scan, w: Work)
    requires s.stack != [] && Top(s).rest != [] && Top(s).rest[0].DirNode? && !Held(Top(s).rest[0])
    ensures var f := Top(s);
            var n := f.rest[0];
            Ahead(s.stack, w) == Ahead(Below(s) + [Frame(f.dir, f.rest[1..]), Frame(f.dir + [n.name], n.children)], w)
  {
    hide Count;
    var f := Top(s);
    var n := f.rest[0];
    AheadPop(s, w);
    var g := Frame(f.dir + [n.name], n.children);
    var stack := Below(s) + [Frame(f.dir, f.rest[1..])];
    AheadPush(stack, g, w);
    assert stack + [g] == Below(s) + [Frame(f.dir, f.rest[1..]), g];
  }

  /** Each walker step moves files from ahead of it into the channel, or gives up. */
  lemma WalkMoves(u: Setup, s: Scan, w: Work)
    requires s.stack != [] && !s.failed
    ensures var s' := WalkStep(u, s);
            && OnTheWay(s', w) <= OnTheWay(s, w)
            && (!s'.failed ==> OnTheWay(s', w) == OnTheWay(s, w))
            && (s'.failed ==> s'.stack == [] && (s.cancelled || !AllReadable(u)))
  {
    hide FilesIn, Ahead, Count, InHand;
    var f := Top(s);
    if f.rest == [] {
      AheadReturn(s, w);
    } else {
      AheadPop(s, w);
      var n := f.rest[0];
      if n.FileNode? {
        CountJoin(s.channel, FilesAt(f.dir, n), w);
      } else if Held(n) {
        CountNothing(w);
      } else {
        AheadEnter(s, w);
        AheadOfNothing(s, w);
      }
    }
  }

  lemma CountNothing(w: Work)
    ensures Count([], w) == 0
  {
  }

  lemma AheadOfNothing(s: Scan, w: Work)
    ensures Ahead([], w) <= Ahead(s.stack, w)
  {
  }

  lemma TakeMoves(u: Setup, s: Scan, i: nat, w: Work)
    requires Enabled(u, s, Take(i))
    ensures OnTheWay(Next(u, s, Take(i)), w) == OnTheWay(s, w)
  {
    hide InHand, Ahead;
    InHandUpdate(s.workers, i, Holding(s.channel[0]), w);
    assert s.channel == [s.channel[0]] + s.channel[1..];
  }

  lemma FinishMoves(u: Setup, s: Scan, i: nat, w: Work)
    requires Enabled(u, s, Finish(i))
    ensures var done, s' := s.workers[i].work, Next(u, s, Finish(i));
            && OnTheWay(s', w) + (if done == w then 1 else 0) == OnTheWay(s, w)
            && Count(s'.results, w) == Count(s.results, w) + (if u.keep(done) && done == w then 1 else 0)
            && (s.bytesSeen == Sum(s.results) ==> s'.bytesSeen == Sum(s'.results))
  {
    hide InHand, Ahead, Sum;
    InHandUpdate(s.workers, i, Waiting, w);
    SumPush(s.results, s.workers[i].work);
  }

  lemma QuitMoves(u: Setup, s: Scan, i: nat, w: Work)
    requires Enabled(u, s, Quit(i))
    ensures OnTheWay(Next(u, s, Quit(i)), w) == OnTheWay(s, w)
  {
    hide InHand, Ahead, Count;
    InHandUpdate(s.workers, i, Gone, w);
  }

  /** Every move keeps the account. */
  lemma MoveConserves(u: Setup, s: Scan, m: Move, w: Work)
    requires Enabled(u, s, m) && Conserved(u, s, w) && Orderly(u, s)
    ensures Conserved(u, Next(u, s, m), w) && Orderly(u, Next(u, s, m))
  {
    hide InHand, Ahead, FilesIn, Sum, Count;
    match m
    case Walk => WalkMoves(u, s, w);
    case Abort => AheadOfNothing(s, w);
    case Take(i) => TakeMoves(u, s, i, w);
    case Finish(i) => FinishMoves(u, s, i, w);
    case Quit(i) => QuitMoves(u, s, i, w);
    case Close =>
    case Cancel =>
  }

  lemma {:induction false} RunConserves(u: Setup, s: Scan, moves: seq<Move>, w: Work)
    requires Possible(u, s, moves) && Conserved(u, s, w) && Orderly(u, s)
    ensures Conserved(u, Run(u, s, moves), w) && Orderly(u, Run(u, s, moves))
    decreases |moves|
  {
    hide Conserved, Orderly, Enabled, Next;
    if moves != [] {
      MoveConserves(u, s, moves[0], w);
      RunConserves(u, Next(u, s, moves[0]), moves[1..], w);
    }
  }

  // --- Termination and progress ---

  function Weight(n: Node): nat
    decreases n
  {
    match n
    case FileNode(_, _, _) => 3
    case DirNode(_, children) => if Held(n) then 1 else 2 + Weights(children)
  }

  function Weights(nodes: seq<Node>): nat
    decreases nodes
  {
    if nodes == [] then 0 else Weight(nodes[0]) + Weights(nodes[1..])
  }

  function StackWeight(stack: seq<Frame>): nat {
    if stack == [] then 0 else StackWeight(stack[..|stack| - 1]) + 1 + Weights(stack[|stack| - 1].rest)
  }

  function WorkerWeight(w: Worker): nat {
    if w.Waiting? then 1 else if w.Holding? then 2 else 0
  }

  function PoolWeight(workers: seq<Worker>): nat {
    if workers == [] then 0 else PoolWeight(workers[..|workers| - 1]) + WorkerWeight(workers[|workers| - 1])
  }

  /** An upper bound on the moves still to come. */
  function MovesLeft(s: Scan): nat {
    StackWeight(s.stack) + 2 * |s.channel| + PoolWeight(s.workers)
    + (if s.closed then 0 else 1) + (if s.cancelled then 0 else 1)
  }

  lemma StackWeightPush(below: seq<Frame>, f: Frame)
    ensures StackWeight(below + [f]) == StackWeight(below) + 1 + Weights(f.rest)
  {
    assert (below + [f])[..|below|] == below;
  }

  lemma {:induction false} PoolWeightUpdate(workers: seq<Worker>, i: nat, x: Worker)
    requires i < |workers|
    ensures PoolWeight(workers[i := x]) + WorkerWeight(workers[i]) == PoolWeight(workers) + WorkerWeight(x)
  {
    hide WorkerWeight;
    var n := |workers| - 1;
    if i == n {
      assert workers[i := x][..n] == workers[..n];
    } else {
      PoolWeightUpdate(workers[..n], i, x);
      assert workers[i := x][..n] == workers[..n][i := x];
    }
  }

  lemma WalkShrinks(u: Setup, s: Scan)
    requires s.stack != []
    ensures StackWeight(WalkStep(u, s).stack) + 2 * |WalkStep(u, s).channel| < StackWeight(s.stack) + 2 * |s.channel|
  {
    hide StackWeight;
    var f := Top(s);
    assert s.stack == Below(s) + [f];
    StackWeightPush(Below(s), f);
    if f.rest != [] {
      var n, f' := f.rest[0], Frame(f.dir, f.rest[1..]);
      StackWeightPush(Below(s), f');
      if n.DirNode? && !Held(n) {
        var g := Frame(f.dir + [n.name], n.children);
        StackWeightPush(Below(s) + [f'], g);
        assert (Below(s) + [f']) + [g] == Below(s) + [f', g];
        EmptyStack();
      }
    }
  }

  lemma EmptyStack()
    ensures StackWeight([]) == 0
  {
  }

  /** Every move brings the end nearer, so no schedule goes on for ever. */
  lemma MoveShrinks(u: Setup, s: Scan, m: Move)
    requires Enabled(u, s, m)
    ensures MovesLeft(Next(u, s, m)) < MovesLeft(s)
  {
    hide PoolWeight;
    match m
    case Walk => WalkShrinks(u, s);
    case Abort =>
    case Take(i) => PoolWeightUpdate(s.workers, i, Holding(s.channel[0]));
    case Finish(i) => PoolWeightUpdate(s.workers, i, Waiting);
    case Quit(i) => PoolWeightUpdate(s.workers, i, Gone);
    case Close =>
    case Cancel =>
  }

  lemma {:induction false} RunsAreBounded(u: Setup, s: Scan, moves: seq<Move>)
    requires Possible(u, s, moves)
    ensures |moves| + MovesLeft(Run(u, s, moves)) <= MovesLeft(s)
    decreases |moves|
  {
    hide Enabled, Next, MovesLeft;
    if moves != [] {
      MoveShrinks(u, s, moves[0]);
      RunsAreBounded(u, Next(u, s, moves[0]), moves[1..]);
    }
  }

  /** Until the scan returns some goroutine can move: there is no deadlock, whatever the channel holds. */
  lemma NeverStuck(u: Setup, s: Scan) returns (m: Move)
    requires Orderly(u, s) && u.workers > 0 && !Returned(s)
    ensures Enabled(u, s, m) && m != Cancel
  {
    if i :| 0 <= i < |s.workers| && s.workers[i].Holding? {
      return Finish(i);
    } else if j :| 0 <= j < |s.workers| && s.workers[j].Waiting? {
      if s.channel != [] { return Take(j); }
      if s.stack != [] { return Walk; }
      return if s.closed then Quit(j) else Close;
    } else {
      assert s.workers[0].Gone?;
      if s.stack == [] { return Close; }
      return if Top(s).rest != [] && Top(s).rest[0].FileNode? then Abort else Walk;
    }
  }

  // --- Main results ---

  lemma {:induction false} CountIncluded(ws: seq<Work>, keep: Work -> bool, w: Work)
    ensures Count(Included(ws, keep), w) == if keep(w) then Count(ws, w) else 0
  {
    hide Count;
    if ws == [] {
      CountNothing(w);
    } else {
      CountIncluded(ws[1..], keep, w);
      CountJoin([ws[0]], ws[1..], w);
      assert [ws[0]] + ws[1..] == ws;
      CountJoin(if keep(ws[0]) then [ws[0]] else [], Included(ws[1..], keep), w);
      CountOne(ws[0], w);
    }
  }

  lemma CountOne(x: Work, w: Work)
    ensures Count([x], w) == (if x == w then 1 else 0) && Count([], w) == 0
  {
  }

  lemma {:induction false} NoneInHand(workers: seq<Worker>, w: Work)
    requires forall i :: 0 <= i < |workers| ==> workers[i].Gone?
    ensures InHand(workers, w) == 0
  {
    if workers != [] { NoneInHand(workers[..|workers| - 1], w); }
  }

  lemma {:induction false} SumSplit(a: seq<Work>, b: seq<Work>)
    ensures Sum(a + b) == Sum(a) + Sum(b)
  {
    if a == [] {
      assert a + b == b;
    } else {
      SumSplit(a[1..], b);
      assert (a + b)[1..] == a[1..] + b;
    }
  }

  lemma {:induction false} SumOfPermutation(a: seq<Work>, b: seq<Work>)
    requires multiset(a) == multiset(b)
    ensures Sum(a) == Sum(b)
  {
    assert |multiset(a)| == |a| && |multiset(b)| == |b|;
    if a == [] {
    } else {
      assert a[0] in multiset(b);
      var i :| 0 <= i < |b| && b[i] == a[0];
      var rest := b[..i] + b[i + 1..];
      assert b == b[..i] + ([b[i]] + b[i + 1..]);
      RestIsPermutation(a, b, i);
      SumOfPermutation(a[1..], rest);
      SumSplit(b[..i], [b[i]] + b[i + 1..]);
      SumSplit(b[..i], b[i + 1..]);
    }
  }

  lemma RestIsPermutation(a: seq<Work>, b: seq<Work>, i: nat)
    requires a != [] && i < |b| && b[i] == a[0] && multiset(a) == multiset(b)
    ensures multiset(a[1..]) == multiset(b[..i] + b[i + 1..])
  {
    forall w
      ensures multiset(a[1..])[w] == multiset(b[..i] + b[i + 1..])[w]
    {
      SameCountWithout(a, b, i, w);
    }
  }

  lemma SameCountWithout(a: seq<Work>, b: seq<Work>, i: nat, w: Work)
    requires a != [] && i < |b| && b[i] == a[0] && Count(a, w) == Count(b, w)
    ensures Count(a[1..], w) == Count(b[..i] + b[i + 1..], w)
  {
    hide Count;
    assert a == [a[0]] + a[1..];
    assert b == b[..i] + [b[i]] + b[i + 1..];
    CountJoin([a[0]], a[1..], w);
    CountJoin(b[..i] + [b[i]], b[i + 1..], w);
    CountJoin(b[..i], [b[i]], w);
    CountJoin(b[..i], b[i + 1..], w);
  }

  ghost predicate Complete(u: Setup, s: Scan) {
    multiset(s.results) == multiset(Included(FilesIn([], u.root), u.keep))
  }

  /** What a finished scan reports, file by file. */
  lemma CountAtReturn(u: Setup, s: Scan, w: Work)
    requires Conserved(u, s, w) && Orderly(u, s) && Returned(s) && !s.failed
    ensures Count(s.results, w) + (if u.keep(w) then Count(s.channel, w) else 0)
            == Count(Included(FilesIn([], u.root), u.keep), w)
  {
    hide FilesIn, Included, Count;
    NoneInHand(s.workers, w);
    CountIncluded(FilesIn([], u.root), u.keep, w);
  }

  /** Some directory outside quarantine folders is still to be entered. */
  ghost predicate DirAhead(stack: seq<Frame>) {
    exists i, k :: 0 <= i < |stack| && 0 <= k < |stack[i].rest| && stack[i].rest[k].DirNode? && !Held(stack[i].rest[k])
  }

  /** A walk that has been told to stop gives up at the next directory, if not before. */
  ghost predicate Doomed(s: Scan) {
    s.cancelled && (s.closed ==> s.failed) && (s.failed || DirAhead(s.stack))
  }

  lemma WalkStaysDoomed(u: Setup, s: Scan)
    requires Doomed(s) && s.stack != []
    ensures Doomed(WalkStep(u, s))
  {
    var s' := WalkStep(u, s);
    if !s'.failed {
      var i, k :| 0 <= i < |s.stack| && 0 <= k < |s.stack[i].rest| && s.stack[i].rest[k].DirNode? && !Held(s.stack[i].rest[k]);
      if i < |s.stack| - 1 {
        assert s'.stack[i].rest[k] == s.stack[i].rest[k];
      } else {
        assert k > 0 && s'.stack[i].rest[k - 1] == s.stack[i].rest[k];
      }
    }
  }

  lemma MoveStaysDoomed(u: Setup, s: Scan, m: Move)
    requires Doomed(s) && Enabled(u, s, m)
    ensures Doomed(Next(u, s, m))
  {
    if m.Walk? { WalkStaysDoomed(u, s); }
  }

  lemma {:induction false} RunStaysDoomed(u: Setup, s: Scan, moves: seq<Move>)
    requires Doomed(s) && Possible(u, s, moves)
    ensures Doomed(Run(u, s, moves))
    decreases |moves|
  {
    hide Doomed, Enabled, Next;
    if moves != [] {
      MoveStaysDoomed(u, s, moves[0]);
      RunStaysDoomed(u, Next(u, s, moves[0]), moves[1..]);
    }
  }

  /** A scan that was cancelled while a directory was still to be entered never reports success. */
  lemma CancelledWalkFails(u: Setup, before: seq<Move>, after: seq<Move>)
    requires Possible(u, Init(u), before)
    requires var s := Run(u, Init(u), before); s.cancelled && DirAhead(s.stack) && Possible(u, s, after)
    ensures var s := Run(u, Run(u, Init(u), before), after); Returned(s) ==> s.failed
  {
    hide Run, Possible, Init, DirAhead, Conserved;
    StartIsConserved(u, Work([], 0, 0));
    RunConserves(u, Init(u), before, Work([], 0, 0));
    var s := Run(u, Init(u), before);
    AheadIsSomewhere(s.stack);
    RunStaysDoomed(u, s, after);
  }

  lemma AheadIsSomewhere(stack: seq<Frame>)
    requires DirAhead(stack)
    ensures stack != []
  {
  }

  /**
   * Every schedule of a scan that is not cancelled and reports success returns each wanted file outside
   * quarantine folders exactly as often as the mount holds it, and their total size; and where every
   * directory can be read it does report success.
   */
  lemma ScanIsExact(u: Setup, moves: seq<Move>)
    requires u.workers > 0 && Possible(u, Init(u), moves)
    requires var s := Run(u, Init(u), moves); Returned(s) && !s.cancelled
    ensures var s := Run(u, Init(u), moves);
            && (AllReadable(u) ==> !s.failed)
            && (!s.failed ==> Complete(u, s) && s.bytesSeen == Sum(Included(FilesIn([], u.root), u.keep)))
  {
    hide FilesIn, Included, Run, Possible, Init, Conserved;
    var s := Run(u, Init(u), moves);
    var files := Included(FilesIn([], u.root), u.keep);
    StartIsConserved(u, Work([], 0, 0));
    RunConserves(u, Init(u), moves, Work([], 0, 0));
    assert s.workers[0].Gone?;
    if !s.failed {
      forall w
        ensures multiset(s.results)[w] == multiset(files)[w]
      {
        StartIsConserved(u, w);
        RunConserves(u, Init(u), moves, w);
        CountAtReturn(u, s, w);
      }
      SumOfPermutation(s.results, files);
    }
  }

  /**
   * In general a scan that reports success lacks exactly the wanted files left in the channel; the workers
   * also leave when they notice a cancellation, and then nobody takes what is left.
   */
  lemma SuccessIsCompleteIff(u: Setup, moves: seq<Move>)
    requires Possible(u, Init(u), moves)
    requires var s := Run(u, Init(u), moves); Returned(s) && !s.failed
    ensures var s := Run(u, Init(u), moves); Complete(u, s) <==> forall w :: w in s.channel ==> !u.keep(w)
  {
    hide FilesIn, Included, Run, Possible, Init, Conserved;
    var s := Run(u, Init(u), moves);
    var files := Included(FilesIn([], u.root), u.keep);
    forall w
      ensures multiset(s.results)[w] + (if u.keep(w) then multiset(s.channel)[w] else 0) == multiset(files)[w]
    {
      StartIsConserved(u, w);
      RunConserves(u, Init(u), moves, w);
      CountAtReturn(u, s, w);
    }
    forall w | w in s.channel
      ensures multiset(s.channel)[w] > 0
    {
    }
  }

  lemma RunStep(u: Setup, s: Scan, m: Move, rest: seq<Move>)
    requires Enabled(u, s, m) && Possible(u, Next(u, s, m), rest)
    ensures Possible(u, s, [m] + rest) && Run(u, s, [m] + rest) == Run(u, Next(u, s, m), rest)
  {
    assert ([m] + rest)[1..] == rest;
  }

  // --- What a late cancellation can cost ---

  /** The files the walker has still to reach, in walking order. */
  function Upcoming(stack: seq<Frame>): seq<Work> {
    if stack == [] then []
    else FilesIn(stack[|stack| - 1].dir, stack[|stack| - 1].rest) + Upcoming(stack[..|stack| - 1])
  }

  ghost predicate Suffix(tail: seq<Work>, all: seq<Work>) {
    |tail| <= |all| && all[|all| - |tail|..] == tail
  }

  /** The channel is first in, first out: it holds the files sent last, in walking order. */
  ghost predicate InOrder(u: Setup, s: Scan) {
    !s.failed ==> Suffix(s.channel + Upcoming(s.stack), FilesIn([], u.root))
  }

  lemma UpcomingPush(below: seq<Frame>, f: Frame)
    ensures Upcoming(below + [f]) == FilesIn(f.dir, f.rest) + Upcoming(below)
  {
    assert (below + [f])[..|below|] == below;
  }

  /** A walker step that does not give up keeps the line of files: it only moves one into the channel. */
  lemma WalkKeepsLine(u: Setup, s: Scan)
    requires s.stack != []
    ensures var s' := WalkStep(u, s);
            !s'.failed ==> s'.channel + Upcoming(s'.stack) == s.channel + Upcoming(s.stack)
  {
    hide Upcoming;
    var f, s' := Top(s), WalkStep(u, s);
    assert s.stack == Below(s) + [f];
    UpcomingPush(Below(s), f);
    if f.rest == [] {
      assert FilesIn(f.dir, f.rest) == [];
    } else if !s'.failed {
      var n, f' := f.rest[0], Frame(f.dir, f.rest[1..]);
      UpcomingPush(Below(s), f');
      if Held(n) {
        assert FilesAt(f.dir, n) == [];
      } else if n.FileNode? {
        var w := Work(f.dir + [n.name], n.size, n.mtime);
        assert FilesIn(f.dir, f.rest) == [w] + FilesIn(f.dir, f'.rest);
      } else {
        var g := Frame(f.dir + [n.name], n.children);
        EnterKeepsLine(s, f, n, f', g);
      }
    }
  }

  lemma EnterKeepsLine(s: Scan, f: Frame, n: Node, f': Frame, g: Frame)
    requires s.stack != [] && f == Top(s) && f.rest != [] && n == f.rest[0] && n.DirNode? && !Held(n)
    requires f' == Frame(f.dir, f.rest[1..]) && g == Frame(f.dir + [n.name], n.children)
    ensures Upcoming(Below(s) + [f', g]) == FilesIn(f.dir, f.rest) + Upcoming(Below(s))
  {
    hide Upcoming;
    UpcomingPush(Below(s), f');
    UpcomingPush(Below(s) + [f'], g);
    assert (Below(s) + [f']) + [g] == Below(s) + [f', g];
    assert FilesIn(f.dir, f.rest) == FilesIn(g.dir, g.rest) + FilesIn(f'.dir, f'.rest);
  }

  lemma TakeShortensLine(channel: seq<Work>, ahead: seq<Work>, all: seq<Work>)
    requires channel != [] && Suffix(channel + ahead, all)
    ensures Suffix(channel[1..] + ahead, all)
  {
    assert channel[1..] + ahead == (channel + ahead)[1..];
  }

  lemma MoveKeepsOrder(u: Setup, s: Scan, m: Move)
    requires Enabled(u, s, m) && InOrder(u, s)
    ensures InOrder(u, Next(u, s, m))
  {
    hide Upcoming, FilesIn, Suffix;
    match m
    case Walk =>
      WalkKeepsLine(u, s);
      if s.failed { GivingUpLasts(u, s); }
    case Take(i) => if !s.failed { TakeShortensLine(s.channel, Upcoming(s.stack), FilesIn([], u.root)); }
    case _ =>
  }

  lemma GivingUpLasts(u: Setup, s: Scan)
    requires s.stack != [] && s.failed
    ensures WalkStep(u, s).failed
  {
  }

  lemma {:induction false} RunKeepsOrder(u: Setup, s: Scan, moves: seq<Move>)
    requires Possible(u, s, moves) && InOrder(u, s)
    ensures InOrder(u, Run(u, s, moves))
    decreases |moves|
  {
    hide InOrder, Enabled, Next;
    if moves != [] {
      MoveKeepsOrder(u, s, moves[0]);
      RunKeepsOrder(u, Next(u, s, moves[0]), moves[1..]);
    }
  }

  lemma {:induction false} RunJoin(u: Setup, s: Scan, a: seq<Move>, b: seq<Move>)
    requires Possible(u, s, a) && Possible(u, Run(u, s, a), b)
    ensures Possible(u, s, a + b) && Run(u, s, a + b) == Run(u, Run(u, s, a), b)
    decreases |a|
  {
    hide Enabled, Next;
    if a == [] {
      assert a + b == b;
    } else {
      RunJoin(u, Next(u, s, a[0]), a[1..], b);
      RunStep(u, s, a[0], a[1..] + b);
      assert [a[0]] + (a[1..] + b) == a + b;
    }
  }

  lemma OneMove(u: Setup, s: Scan, m: Move)
    requires Enabled(u, s, m)
    ensures Possible(u, s, [m]) && Run(u, s, [m]) == Next(u, s, m)
  {
    assert Possible(u, Next(u, s, m), []);
    RunStep(u, s, m, []);
    assert [m] + [] == [m];
  }

  /** The walk is going on undisturbed, with nothing in the hands of a worker. */
  ghost predicate Quiet(u: Setup, s: Scan) {
    !s.failed && !s.closed && !s.cancelled && s.workers == Pool(u.workers) && |s.channel| <= CHANNEL_SLOTS
  }

  /** The last files of a sequence that fit in the channel. */
  function LastSlots(ws: seq<Work>): seq<Work> {
    LastN(ws, 256)
  }

  /** One worker makes room in a full channel. */
  lemma MakeRoom(u: Setup, s: Scan) returns (next: Scan)
    requires Quiet(u, s) && u.workers > 0 && |s.channel| == CHANNEL_SLOTS
    ensures Possible(u, s, [Take(0), Finish(0)]) && Run(u, s, [Take(0), Finish(0)]) == next
    ensures Quiet(u, next) && next.stack == s.stack && next.channel == s.channel[1..] && MovesLeft(next) < MovesLeft(s)
  {
    hide MovesLeft, Run, Possible;
    var s1 := Next(u, s, Take(0));
    assert s1.workers[0].Holding? && s1.workers[0].work == s.channel[0];
    next := Next(u, s1, Finish(0));
    assert s.workers[0 := Holding(s.channel[0])][0 := Waiting] == s.workers;
    OneMove(u, s1, Finish(0));
    RunStep(u, s, Take(0), [Finish(0)]);
    assert [Take(0)] + [Finish(0)] == [Take(0), Finish(0)];
    MoveShrinks(u, s, Take(0));
    MoveShrinks(u, s1, Finish(0));
  }

  lemma FileIsUpcoming(s: Scan)
    requires s.stack != [] && Top(s).rest != [] && Top(s).rest[0].FileNode?
    ensures Upcoming(s.stack) != []
  {
    assert s.stack == Below(s) + [Top(s)];
    UpcomingPush(Below(s), Top(s));
  }

  lemma LastSlotsShift(channel: seq<Work>, ahead: seq<Work>)
    requires |channel| == CHANNEL_SLOTS && ahead != []
    ensures LastSlots(channel[1..] + ahead) == LastSlots(channel + ahead)
  {
    assert channel[1..] + ahead == (channel + ahead)[1..];
  }

  lemma QuietWalk(u: Setup, s: Scan)
    requires Quiet(u, s) && AllReadable(u) && Enabled(u, s, Walk)
    ensures Quiet(u, Next(u, s, Walk))
  {
  }

  /** The lazy schedule: workers act only when the channel is full, so the walk ends with the last files in it. */
  lemma {:induction false} LazyWalk(u: Setup, s: Scan) returns (moves: seq<Move>)
    requires Quiet(u, s) && u.workers > 0 && AllReadable(u)
    ensures Possible(u, s, moves)
    ensures var s' := Run(u, s, moves);
            Quiet(u, s') && s'.stack == [] && s'.channel == LastSlots(s.channel + Upcoming(s.stack))
    decreases MovesLeft(s)
  {
    hide MovesLeft, Run, Possible, WalkStep, AllReadable, Next;
    if s.stack == [] {
      RunNothing(u, s);
      assert s.channel + Upcoming(s.stack) == s.channel;
      return [];
    }
    if Enabled(u, s, Walk) {
      QuietWalk(u, s);
      MoveShrinks(u, s, Walk);
      var rest := LazyWalk(u, Next(u, s, Walk));
      WalkLine(u, s);
      RunStep(u, s, Walk, rest);
      return [Walk] + rest;
    }
    var next := MakeRoom(u, s);
    FileIsUpcoming(s);
    LastSlotsShift(s.channel, Upcoming(s.stack));
    var rest := LazyWalk(u, next);
    RunJoin(u, s, [Take(0), Finish(0)], rest);
    return [Take(0), Finish(0)] + rest;
  }

  lemma WalkLine(u: Setup, s: Scan)
    requires Enabled(u, s, Walk) && Quiet(u, s) && AllReadable(u)
    ensures var s' := Next(u, s, Walk); s'.channel + Upcoming(s'.stack) == s.channel + Upcoming(s.stack)
  {
    hide Upcoming;
    QuietWalk(u, s);
    WalkKeepsLine(u, s);
  }

  lemma RunNothing(u: Setup, s: Scan)
    ensures Possible(u, s, []) && Run(u, s, []) == s
  {
  }

  /** After a cancellation the workers leave one by one. */
  lemma {:induction false} AllQuit(u: Setup, s: Scan, k: nat) returns (moves: seq<Move>)
    requires s.cancelled && k <= |s.workers|
    requires forall i :: 0 <= i < |s.workers| ==> s.workers[i] == if i < k then Gone else Waiting
    ensures Possible(u, s, moves)
    ensures var s' := Run(u, s, moves);
            s' == s.(workers := s'.workers) && forall i :: 0 <= i < |s'.workers| ==> s'.workers[i].Gone?
    decreases |s.workers| - k
  {
    hide Run, Possible;
    if k == |s.workers| {
      RunNothing(u, s);
      return [];
    }
    var rest := AllQuit(u, Next(u, s, Quit(k)), k + 1);
    RunStep(u, s, Quit(k), rest);
    return [Quit(k)] + rest;
  }

  /** A schedule that succeeds and leaves the last files of the mount, as many as the channel holds, in the channel. */
  lemma LateCancel(u: Setup) returns (moves: seq<Move>)
    requires u.workers > 0 && AllReadable(u)
    ensures Possible(u, Init(u), moves)
    ensures var s := Run(u, Init(u), moves);
            Returned(s) && !s.failed && s.channel == LastSlots(FilesIn([], u.root))
  {
    hide Run, Possible, AllReadable, LastSlots;
    var s0 := Init(u);
    InitLine(u);
    var walk := LazyWalk(u, s0);
    var s1 := Run(u, s0, walk);
    var s2 := Next(u, s1, Close);
    var s3 := Next(u, s2, Cancel);
    var quit := AllQuit(u, s3, 0);
    RunStep(u, s2, Cancel, quit);
    RunStep(u, s1, Close, [Cancel] + quit);
    moves := walk + ([Close] + ([Cancel] + quit));
    RunJoin(u, s0, walk, [Close] + ([Cancel] + quit));
  }

  lemma InitLine(u: Setup)
    ensures AllReadable(u) ==> Quiet(u, Init(u))
    ensures !Init(u).failed ==> Init(u).channel + Upcoming(Init(u).stack) == FilesIn([], u.root)
    ensures InOrder(u, Init(u))
  {
    UpcomingPush([], Frame([], u.root));
    assert [] + [Frame([], u.root)] == [Frame([], u.root)];
  }

  /** The file can be cut off by a late cancellation: it is among the last the walk reaches. */
  lemma LeftInChannel(u: Setup, moves: seq<Move>, w: Work)
    requires Possible(u, Init(u), moves)
    requires var s := Run(u, Init(u), moves); Returned(s) && !s.failed && w in s.channel
    ensures w in LastSlots(FilesIn([], u.root))
  {
    hide FilesIn, Run, Possible, Init;
    InitLine(u);
    RunKeepsOrder(u, Init(u), moves);
    StartIsConserved(u, w);
    RunConserves(u, Init(u), moves, w);
    var s, all := Run(u, Init(u), moves), FilesIn([], u.root);
    assert s.channel + [] == s.channel;
    var i :| 0 <= i < |s.channel| && s.channel[i] == w;
    assert all[|all| - |s.channel|..][i] == w;
    InLastSlots(all, |all| - |s.channel| + i);
  }

  lemma InLastSlots(all: seq<Work>, k: nat)
    requires k < |all| <= k + CHANNEL_SLOTS
    ensures all[k] in LastSlots(all)
  {
    if |all| > CHANNEL_SLOTS { assert LastSlots(all)[k - (|all| - CHANNEL_SLOTS)] == all[k]; }
  }

  ghost predicate Succeeds(u: Setup, moves: seq<Move>) {
    Possible(u, Init(u), moves) && Returned(Run(u, Init(u), moves)) && !Run(u, Init(u), moves).failed
  }

  /** On any readable mount, each wanted file among the last in walking order is missing from some successful scan. */
  lemma CancelCanTruncate(u: Setup, w: Work) returns (moves: seq<Move>)
    requires u.workers > 0 && AllReadable(u) && w in LastSlots(FilesIn([], u.root)) && u.keep(w)
    ensures Succeeds(u, moves) && w in Run(u, Init(u), moves).channel && !Complete(u, Run(u, Init(u), moves))
  {
    hide FilesIn, Run, Possible, Init, Complete, LastSlots, AllReadable;
    moves := LateCancel(u);
    SuccessIsCompleteIff(u, moves);
  }

  /**
   * With cancellations at any moment, every successful scan of a readable mount is complete if and only if
   * none of the last 256 files in walking order, as many as the channel has slots, is wanted.
   */
  lemma SuccessMeansCompleteIff(u: Setup)
    requires u.workers > 0 && AllReadable(u)
    ensures (forall moves :: Succeeds(u, moves) ==> Complete(u, Run(u, Init(u), moves)))
            <==> forall w :: w in LastSlots(FilesIn([], u.root)) ==> !u.keep(w)
  {
    hide FilesIn, Run, Possible, Init, Complete, LastSlots, AllReadable;
    forall moves | Succeeds(u, moves)
      ensures (forall w :: w in LastSlots(FilesIn([], u.root)) ==> !u.keep(w)) ==> Complete(u, Run(u, Init(u), moves))
    {
      SuccessIsCompleteIff(u, moves);
      forall w | w in Run(u, Init(u), moves).channel
        ensures w in LastSlots(FilesIn([], u.root))
      {
        LeftInChannel(u, moves, w);
      }
    }
    if w :| w in LastSlots(FilesIn([], u.root)) && u.keep(w) {
      var late := CancelCanTruncate(u, w);
    }
  }
}
