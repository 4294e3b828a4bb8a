/**
 * The life of job runs: requests and run goroutines interleave, sharing the map of running jobs (under a
 * mutex), the job's stored status, and the table of run rows. A Move is one atomic step.
 */
module Jobs {
  type JobId = int

  datatype Status = Idle | Running | Paused | Error

  datatype Outcome = Completed | WasPaused | Failed

  /**
   * Where a run goroutine stands: started; status "running" stored; end status stored; id deleted from the
   * running map (and context cancelled); run row written. The deferred steps come in that order.
   */
  datatype Phase = Started | Working | Ended | Cleaned | Recorded

  datatype Goroutine = Goroutine(job: JobId, phase: Phase, pauseClosed: bool, outcome: Outcome)

  datatype Row = Row(run: nat, outcome: Outcome)

  datatype Service = Service(
    running: map<JobId, nat>,      // the run that holds each running job
    runs: seq<Goroutine>,          // every accepted run, oldest first
    status: map<JobId, Status>,
    rows: seq<Row>)

  datatype Move =
    | Run(job: JobId)              // also Resume and the cron and watch triggers
    | Pause(job: JobId)
    | Begin(run: nat)
    | End(run: nat, outcome: Outcome)
    | Cleanup(run: nat)
    | Record(run: nat)

  function StatusFor(o: Outcome): Status {
    match o
    case Completed => Idle
    case WasPaused => Paused
    case Failed => Error
  }

  /** At start-up a status left at "running" by a crash is reset. */
  function Init(stored: map<JobId, Status>): Service {
    Service(map[], [], map j | j in stored :: if stored[j].Running? then Idle else stored[j], [])
  }

  predicate At(s: Service, r: nat, phase: Phase) {
    r < |s.runs| && s.runs[r].phase == phase
  }

  /** A goroutine makes its steps in order; it ends as paused only if its own pause channel was closed. */
  predicate Enabled(s: Service, m: Move) {
    match m
    case Run(_) => true
    case Pause(_) => true
    case Begin(r) => At(s, r, Started)
    case End(r, o) => At(s, r, Working) && (o.WasPaused? ==> s.runs[r].pauseClosed)
    case Cleanup(r) => At(s, r, Ended)
    case Record(r) => At(s, r, Cleaned)
  }

  /** Whether a request is accepted. */
  predicate Accepted(s: Service, m: Move) {
    match m
    case Run(j) => j !in s.running
    case Pause(j) => j in s.running && s.running[j] < |s.runs|
    case _ => true
  }

  function Next(s: Service, m: Move): Service
    requires Enabled(s, m)
  {
    match m
    case Run(j) =>
      if !Accepted(s, m) then s
      else s.(running := s.running[j := |s.runs|], runs := s.runs + [Goroutine(j, Started, false, Failed)])
    case Pause(j) =>
      if !Accepted(s, m) then s
      else s.(runs := s.runs[s.running[j] := s.runs[s.running[j]].(pauseClosed := true)])
    case Begin(r) =>
      s.(runs := s.runs[r := s.runs[r].(phase := Working)], status := s.status[s.runs[r].job := Running])
    case End(r, o) =>
      s.(runs := s.runs[r := s.runs[r].(phase := Ended, outcome := o)], status := s.status[s.runs[r].job := StatusFor(o)])
    case Cleanup(r) =>
      s.(runs := s.runs[r := s.runs[r].(phase := Cleaned)], running := s.running - {s.runs[r].job})
    case Record(r) =>
      s.(runs := s.runs[r := s.runs[r].(phase := Recorded)], rows := s.rows + [Row(r, s.runs[r].outcome)])
  }

  ghost predicate Possible(s: Service, moves: seq<Move>)
    decreases |moves|
  {
    moves == [] || (Enabled(s, moves[0]) && Possible(Next(s, moves[0]), moves[1..]))
  }

  ghost function Play(s: Service, moves: seq<Move>): Service
    requires Possible(s, moves)
    decreases |moves|
  {
    if moves == [] then s else Play(Next(s, moves[0]), moves[1..])
  }

  /** Before its cleanup. */
  predicate Live(g: Goroutine) {
    g.phase.Started? || g.phase.Working? || g.phase.Ended?
  }

  function Unfinished(runs: seq<Goroutine>): nat {
    if runs == [] then 0
    else Unfinished(runs[..|runs| - 1]) + if runs[|runs| - 1].phase.Recorded? then 0 else 1
  }

  ghost predicate HasRow(rows: seq<Row>, r: nat) {
    exists k :: 0 <= k < |rows| && rows[k].run == r
  }

  /** The map names exactly the live goroutines. */
  ghost predicate MapIsLive(s: Service) {
    && (forall j :: j in s.running ==> s.running[j] < |s.runs| && s.runs[s.running[j]].job == j && Live(s.runs[s.running[j]]))
    && (forall r :: 0 <= r < |s.runs| && Live(s.runs[r]) ==> s.runs[r].job in s.running && s.running[s.runs[r].job] == r)
  }

  /** A stored status is "running" exactly while the job's goroutine is between its first and its last status write. */
  ghost predicate StatusIsTrue(s: Service) {
    && (forall j :: j in s.status && s.status[j].Running? ==> j in s.running && At(s, s.running[j], Working))
    && (forall r :: 0 <= r < |s.runs| ==> Shown(s, s.runs[r]))
  }

  predicate Shown(s: Service, g: Goroutine) {
    && (g.phase.Working? ==> g.job in s.status && s.status[g.job].Running?)
    && (g.phase.Ended? ==> g.job in s.status && s.status[g.job] == StatusFor(g.outcome))
  }

  /** One row for each finished run, with its outcome; a paused one was asked to pause while it was running. */
  ghost predicate RowsAreTrue(s: Service) {
    && |s.runs| == |s.rows| + Unfinished(s.runs)
    && (forall k :: 0 <= k < |s.rows| ==> At(s, s.rows[k].run, Recorded) && s.rows[k].outcome == s.runs[s.rows[k].run].outcome)
    && (forall i, k :: 0 <= i < k < |s.rows| ==> s.rows[i].run != s.rows[k].run)
    && (forall r :: 0 <= r < |s.runs| ==> Justified(s.runs[r]) && (s.runs[r].phase.Recorded? ==> HasRow(s.rows, r)))
  }

  predicate Justified(g: Goroutine) {
    !g.phase.Started? && !g.phase.Working? && g.outcome.WasPaused? ==> g.pauseClosed
  }

  ghost predicate Inv(s: Service) {
    MapIsLive(s) && StatusIsTrue(s) && RowsAreTrue(s)
  }

  lemma {:induction false} UnfinishedUpdate(runs: seq<Goroutine>, r: nat, g: Goroutine)
    requires r < |runs| && !runs[r].phase.Recorded?
    ensures Unfinished(runs[r := g]) == Unfinished(runs) - if g.phase.Recorded? then 1 else 0
  {
    var n := |runs| - 1;
    if r == n {
      assert runs[r := g][..n] == runs[..n];
    } else {
      UnfinishedUpdate(runs[..n], r, g);
      assert runs[r := g][..n] == runs[..n][r := g];
    }
  }

  lemma MoveKeepsMap(s: Service, m: Move)
    requires MapIsLive(s) && Enabled(s, m)
    ensures MapIsLive(Next(s, m))
  {
    hide MapIsLive;
    match m
    case Run(j) => RunKeepsMap(s, j);
    case Pause(j) =>
      if Accepted(s, m) { StepKeepsMap(s, Next(s, m), s.running[j]); }
    case Begin(r) => StepKeepsMap(s, Next(s, m), r);
    case End(r, o) => StepKeepsMap(s, Next(s, m), r);
    case Cleanup(r) => CleanupKeepsMap(s, r);
    case Record(r) => StepKeepsMap(s, Next(s, m), r);
  }

  /** A change to a goroutine that makes it neither live nor dead. */
  lemma StepKeepsMap(s: Service, s': Service, r: nat)
    requires MapIsLive(s) && r < |s.runs|
    requires |s'.runs| == |s.runs| && s'.runs == s.runs[r := s'.runs[r]] && s'.running == s.running
    requires s'.runs[r].job == s.runs[r].job && (Live(s'.runs[r]) <==> Live(s.runs[r]))
    ensures MapIsLive(s')
  {
    hide Live;
  }

  lemma RunKeepsMap(s: Service, j: JobId)
    requires MapIsLive(s)
    ensures MapIsLive(Next(s, Run(j)))
  {
  }

  lemma CleanupKeepsMap(s: Service, r: nat)
    requires MapIsLive(s) && Enabled(s, Cleanup(r))
    ensures MapIsLive(Next(s, Cleanup(r)))
  {
  }

  lemma MoveKeepsStatus(s: Service, m: Move)
    requires MapIsLive(s) && StatusIsTrue(s) && Enabled(s, m)
    ensures StatusIsTrue(Next(s, m))
  {
    var s' := Next(s, m);
    forall r | 0 <= r < |s'.runs|
      ensures Shown(s', s'.runs[r])
    {
      if r < |s.runs| { assert Shown(s, s.runs[r]); }
    }
  }

  lemma MoveKeepsRows(s: Service, m: Move)
    requires MapIsLive(s) && RowsAreTrue(s) && Enabled(s, m)
    ensures RowsAreTrue(Next(s, m))
  {
    match m
    case Run(j) => RunKeepsRows(s, j);
    case Record(r) => RecordKeepsRows(s, r);
    case Pause(j) =>
      if Accepted(s, m) { StepKeepsRows(s, Next(s, m), s.running[j]); }
    case Begin(r) => PhaseKeepsRows(s, m, r);
    case End(r, o) => PhaseKeepsRows(s, m, r);
    case Cleanup(r) => PhaseKeepsRows(s, m, r);
  }

  lemma PhaseKeepsRows(s: Service, m: Move, r: nat)
    requires RowsAreTrue(s) && Enabled(s, m) && (m == Begin(r) || (m.End? && m.run == r) || m == Cleanup(r))
    ensures RowsAreTrue(Next(s, m))
  {
    assert Justified(s.runs[r]);
    StepKeepsRows(s, Next(s, m), r);
  }

  lemma RunKeepsRows(s: Service, j: JobId)
    requires RowsAreTrue(s)
    ensures RowsAreTrue(Next(s, Run(j)))
  {
    var s' := Next(s, Run(j));
    if Accepted(s, Run(j)) {
      assert s'.runs[..|s.runs|] == s.runs;
      forall r | 0 <= r < |s'.runs|
        ensures Justified(s'.runs[r]) && (s'.runs[r].phase.Recorded? ==> HasRow(s'.rows, r))
      {
        if r < |s.runs| { assert Justified(s.runs[r]); }
      }
    }
  }

  /** A change to an unfinished goroutine that leaves it unfinished and justified. */
  lemma StepKeepsRows(s: Service, s': Service, r: nat)
    requires RowsAreTrue(s) && r < |s.runs| && !s.runs[r].phase.Recorded?
    requires |s'.runs| == |s.runs| && s'.runs == s.runs[r := s'.runs[r]] && s'.rows == s.rows
    requires !s'.runs[r].phase.Recorded? && Justified(s'.runs[r])
    ensures RowsAreTrue(s')
  {
    UnfinishedUpdate(s.runs, r, s'.runs[r]);
  }

  lemma RecordKeepsRows(s: Service, r: nat)
    requires RowsAreTrue(s) && Enabled(s, Record(r))
    ensures RowsAreTrue(Next(s, Record(r)))
  {
    hide HasRow, Justified;
    var s' := Next(s, Record(r));
    UnfinishedUpdate(s.runs, r, s'.runs[r]);
    forall q | 0 <= q < |s'.runs|
      ensures Justified(s'.runs[q]) && (s'.runs[q].phase.Recorded? ==> HasRow(s'.rows, q))
    {
      RecordedHasRow(s, r, q);
    }
  }

  lemma RecordedHasRow(s: Service, r: nat, q: nat)
    requires Enabled(s, Record(r)) && q < |s.runs| && Justified(s.runs[q])
    requires s.runs[q].phase.Recorded? ==> HasRow(s.rows, q)
    ensures var s' := Next(s, Record(r));
            Justified(s'.runs[q]) && (s'.runs[q].phase.Recorded? ==> HasRow(s'.rows, q))
  {
    var s' := Next(s, Record(r));
    if q == r {
      assert s'.rows[|s.rows|].run == q;
    } else if s.runs[q].phase.Recorded? {
      var k :| 0 <= k < |s.rows| && s.rows[k].run == q;
      assert s'.rows[k].run == q;
    }
  }

  /** The invariant holds of every state any interleaving reaches, from any stored statuses. */
  lemma {:induction false} InvHolds(s: Service, moves: seq<Move>)
    requires Inv(s) && Possible(s, moves)
    ensures Inv(Play(s, moves))
    decreases |moves|
  {
    hide MapIsLive, StatusIsTrue, RowsAreTrue, Enabled, Next;
    if moves != [] {
      MoveKeepsMap(s, moves[0]);
      MoveKeepsStatus(s, moves[0]);
      MoveKeepsRows(s, moves[0]);
      InvHolds(Next(s, moves[0]), moves[1..]);
    }
  }

  /** At most one goroutine of a job runs before its cleanup, and a job is in the map exactly when one does. */
  lemma OneLiveRun(stored: map<JobId, Status>, moves: seq<Move>)
    requires Possible(Init(stored), moves)
    ensures var s := Play(Init(stored), moves);
            && (forall p, q :: 0 <= p < q < |s.runs| && s.runs[p].job == s.runs[q].job ==>
                  !Live(s.runs[p]) || !Live(s.runs[q]))
            && (forall j :: j in s.running <==> exists r :: 0 <= r < |s.runs| && s.runs[r].job == j && Live(s.runs[r]))
  {
    InvHolds(Init(stored), moves);
  }

  /**
   * A stored "running" means the job holds its place in the map, and the converse fails exactly in two
   * windows: before the goroutine has stored it, and after it has stored its end status. A job shown as
   * paused refuses to resume exactly in the first, or in the second when the run ended by a pause.
   */
  lemma RunningStatusIff(stored: map<JobId, Status>, moves: seq<Move>, j: JobId)
    requires Possible(Init(stored), moves)
    ensures var s := Play(Init(stored), moves);
            (j in s.status && s.status[j].Running?)
            <==> j in s.running && !At(s, s.running[j], Started) && !At(s, s.running[j], Ended)
    ensures var s := Play(Init(stored), moves);
            j in s.status && s.status[j].Paused? ==>
              (!Accepted(s, Run(j)) <==>
                j in s.running && (At(s, s.running[j], Started)
                                   || (At(s, s.running[j], Ended) && s.runs[s.running[j]].outcome.WasPaused?)))
  {
    InvHolds(Init(stored), moves);
    var s := Play(Init(stored), moves);
    if j in s.running { assert Shown(s, s.runs[s.running[j]]); }
  }

  /** The window is real: pause, let the run store its status, and resume is refused. */
  lemma ResumeCanBeRefusedWhilePaused(j: JobId)
    ensures var moves := [Run(j), Begin(0), Pause(j), End(0, WasPaused)];
            && Possible(Init(map[]), moves)
            && var s := Play(Init(map[]), moves);
               j in s.status && s.status[j].Paused? && !Accepted(s, Run(j))
  {
    var s0 := Init(map[]);
    var s1 := Next(s0, Run(j));
    var s2 := Next(s1, Begin(0));
    var s3 := Next(s2, Pause(j));
    PlayStep(s3, End(0, WasPaused), []);
    PlayStep(s2, Pause(j), [End(0, WasPaused)]);
    PlayStep(s1, Begin(0), [Pause(j), End(0, WasPaused)]);
    PlayStep(s0, Run(j), [Begin(0), Pause(j), End(0, WasPaused)]);
  }

  lemma PlayStep(s: Service, m: Move, rest: seq<Move>)
    requires Enabled(s, m) && Possible(Next(s, m), rest)
    ensures Possible(s, [m] + rest) && Play(s, [m] + rest) == Play(Next(s, m), rest)
  {
    assert ([m] + rest)[1..] == rest;
  }

  /**
   * No accepted run is lost: accepted runs are the rows written plus the goroutines not yet finished, each
   * finished run has exactly one row with its outcome, and a paused outcome answers a pause of that run.
   */
  lemma RunsAreAccountedFor(stored: map<JobId, Status>, moves: seq<Move>)
    requires Possible(Init(stored), moves)
    ensures var s := Play(Init(stored), moves);
            && |s.runs| == |s.rows| + Unfinished(s.runs)
            && (forall r :: 0 <= r < |s.runs| ==> (s.runs[r].phase.Recorded? <==> HasRow(s.rows, r)))
            && (forall i, k :: 0 <= i < k < |s.rows| ==> s.rows[i].run != s.rows[k].run)
            && (forall k :: 0 <= k < |s.rows| ==>
                  && s.rows[k].run < |s.runs| && s.rows[k].outcome == s.runs[s.rows[k].run].outcome
                  && (s.rows[k].outcome.WasPaused? ==> s.runs[s.rows[k].run].pauseClosed))
  {
    InvHolds(Init(stored), moves);
  }

  // ---- What is shown of a job ----

  /** The last run of its job so far. */
  predicate IsLast(s: Service, r: nat) {
    r < |s.runs| && forall q :: r < q < |s.runs| ==> s.runs[q].job != s.runs[r].job
  }

  /** The stored status tells how the run ended. */
  predicate Tells(s: Service, g: Goroutine) {
    && g.job in s.status
    && (g.outcome.Completed? ==> s.status[g.job] == Idle)
    && (g.outcome.WasPaused? ==> s.status[g.job] == Paused)
    && (g.outcome.Failed? ==> s.status[g.job] == Error)
  }

  predicate HasEnded(g: Goroutine) {
    g.phase.Ended? || g.phase.Cleaned? || g.phase.Recorded?
  }

  /** A goroutine before its cleanup is the last of its job, and the last one of a job is told of once it has ended. */
  ghost predicate LastIsTold(s: Service) {
    && (forall r :: 0 <= r < |s.runs| && Live(s.runs[r]) ==> IsLast(s, r))
    && (forall r :: 0 <= r < |s.runs| && IsLast(s, r) && HasEnded(s.runs[r]) ==> Tells(s, s.runs[r]))
  }

  /** A step of one goroutine that changes neither its job nor, once it has ended, its outcome. */
  lemma StepKeepsTold(s: Service, s': Service, r: nat)
    requires LastIsTold(s) && r < |s.runs| && IsLast(s, r)
    requires |s'.runs| == |s.runs| && s'.runs == s.runs[r := s'.runs[r]] && s'.runs[r].job == s.runs[r].job
    requires forall j :: j != s.runs[r].job && j in s.status ==> j in s'.status && s'.status[j] == s.status[j]
    requires HasEnded(s'.runs[r]) ==> Tells(s', s'.runs[r])
    ensures LastIsTold(s')
  {
    hide Live, HasEnded;
    forall q | 0 <= q < |s.runs|
      ensures IsLast(s', q) == IsLast(s, q)
    {
      assert forall k :: 0 <= k < |s.runs| ==> s'.runs[k].job == s.runs[k].job;
    }
  }

  /** A step that leaves the statuses alone, and the goroutine as ended, or as live, as it was. */
  lemma QuietStepKeepsTold(s: Service, s': Service, r: nat)
    requires LastIsTold(s) && r < |s.runs| && s'.status == s.status
    requires |s'.runs| == |s.runs| && s'.runs == s.runs[r := s'.runs[r]]
    requires s'.runs[r].job == s.runs[r].job && s'.runs[r].outcome == s.runs[r].outcome
    requires Live(s'.runs[r]) ==> Live(s.runs[r])
    requires HasEnded(s'.runs[r]) ==> HasEnded(s.runs[r])
    ensures LastIsTold(s')
  {
    hide Live, HasEnded;
    forall q | 0 <= q < |s.runs|
      ensures IsLast(s', q) == IsLast(s, q)
    {
      assert forall k :: 0 <= k < |s.runs| ==> s'.runs[k].job == s.runs[k].job;
    }
  }

  lemma RunKeepsTold(s: Service, j: JobId)
    requires MapIsLive(s) && LastIsTold(s)
    ensures LastIsTold(Next(s, Run(j)))
  {
    var s' := Next(s, Run(j));
    if Accepted(s, Run(j)) {
      forall q | 0 <= q < |s.runs|
        ensures IsLast(s', q) == (IsLast(s, q) && s.runs[q].job != j)
        ensures Live(s.runs[q]) ==> s.runs[q].job != j
      {
        assert s'.runs[|s.runs|].job == j;
        assert forall k :: 0 <= k < |s.runs| ==> s'.runs[k] == s.runs[k];
      }
    }
  }

  lemma MoveKeepsTold(s: Service, m: Move)
    requires MapIsLive(s) && LastIsTold(s) && Enabled(s, m)
    ensures LastIsTold(Next(s, m))
  {
    hide MapIsLive, LastIsTold;
    match m
    case Run(j) => RunKeepsTold(s, j);
    case Pause(j) =>
      if Accepted(s, m) { QuietStepKeepsTold(s, Next(s, m), s.running[j]); }
    case Begin(r) => LiveIsLast(s, r); StepKeepsTold(s, Next(s, m), r);
    case End(r, o) => LiveIsLast(s, r); StepKeepsTold(s, Next(s, m), r);
    case Cleanup(r) => QuietStepKeepsTold(s, Next(s, m), r);
    case Record(r) => QuietStepKeepsTold(s, Next(s, m), r);
  }

  lemma LiveIsLast(s: Service, r: nat)
    requires LastIsTold(s) && r < |s.runs| && Live(s.runs[r])
    ensures IsLast(s, r)
  {
  }

  lemma {:induction false} AlwaysTold(s: Service, moves: seq<Move>)
    requires Inv(s) && LastIsTold(s) && Possible(s, moves)
    ensures LastIsTold(Play(s, moves))
    decreases |moves|
  {
    hide MapIsLive, StatusIsTrue, RowsAreTrue, LastIsTold, Enabled, Next;
    if moves != [] {
      MoveKeepsMap(s, moves[0]);
      MoveKeepsStatus(s, moves[0]);
      MoveKeepsRows(s, moves[0]);
      MoveKeepsTold(s, moves[0]);
      AlwaysTold(Next(s, moves[0]), moves[1..]);
    }
  }

  /**
   * Over every interleaving: once the last run of a job has ended, the job is shown as idle, paused or in
   * error, as that run completed, was paused or failed, until the next run has begun.
   */
  lemma LastOutcomeIsShown(stored: map<JobId, Status>, moves: seq<Move>, r: nat)
    requires Possible(Init(stored), moves) && IsLast(Play(Init(stored), moves), r)
    requires HasEnded(Play(Init(stored), moves).runs[r])
    ensures var s := Play(Init(stored), moves);
            var g := s.runs[r];
            && g.job in s.status
            && (g.outcome.Completed? ==> s.status[g.job] == Idle)
            && (g.outcome.WasPaused? ==> s.status[g.job] == Paused)
            && (g.outcome.Failed? ==> s.status[g.job] == Error)
  {
    hide Play, Possible;
    AlwaysTold(Init(stored), moves);
    assert Tells(Play(Init(stored), moves), Play(Init(stored), moves).runs[r]);
  }

  predicate NeverRun(s: Service, j: JobId) {
    forall r :: 0 <= r < |s.runs| ==> s.runs[r].job != j
  }

  lemma MoveKeepsUnrun(s: Service, m: Move, j: JobId)
    requires MapIsLive(s) && Enabled(s, m) && NeverRun(Next(s, m), j)
    ensures NeverRun(s, j)
    ensures j in Next(s, m).status <==> j in s.status
    ensures j in s.status ==> Next(s, m).status[j] == s.status[j]
  {
    var s' := Next(s, m);
    forall r | 0 <= r < |s.runs|
      ensures s.runs[r].job == s'.runs[r].job
    {
    }
  }

  lemma {:induction false} UnrunKeepsStatus(s: Service, moves: seq<Move>, j: JobId)
    requires Inv(s) && Possible(s, moves) && NeverRun(Play(s, moves), j)
    ensures NeverRun(s, j)
    ensures j in Play(s, moves).status <==> j in s.status
    ensures j in s.status ==> Play(s, moves).status[j] == s.status[j]
    decreases |moves|
  {
    hide MapIsLive, StatusIsTrue, RowsAreTrue, NeverRun, Enabled, Next;
    if moves != [] {
      MoveKeepsMap(s, moves[0]);
      MoveKeepsStatus(s, moves[0]);
      MoveKeepsRows(s, moves[0]);
      UnrunKeepsStatus(Next(s, moves[0]), moves[1..], j);
      MoveKeepsUnrun(s, moves[0], j);
    }
  }

  /** A job not run since start-up shows the status it was stored with, or idle where a crash had left it running. */
  lemma StoredStatusIsShown(stored: map<JobId, Status>, moves: seq<Move>, j: JobId)
    requires Possible(Init(stored), moves) && NeverRun(Play(Init(stored), moves), j)
    ensures var s := Play(Init(stored), moves);
            && (j in s.status <==> j in stored)
            && (j in stored ==> s.status[j] == if stored[j] == Running then Idle else stored[j])
  {
    hide Play, Possible, NeverRun;
    UnrunKeepsStatus(Init(stored), moves, j);
  }

  /** Some step of goroutine r is possible. */
  predicate CanStep(s: Service, r: nat) {
    Enabled(s, Begin(r)) || Enabled(s, End(r, Failed)) || Enabled(s, Cleanup(r)) || Enabled(s, Record(r))
  }

  lemma QuietState(s: Service, j: JobId)
    requires Inv(s) && forall r :: 0 <= r < |s.runs| ==> !CanStep(s, r)
    ensures Unfinished(s.runs) == 0 && j !in s.running
  {
    forall r | 0 <= r < |s.runs|
      ensures s.runs[r].phase.Recorded?
    {
      assert !CanStep(s, r);
    }
    NoneUnfinished(s.runs);
  }

  /** Once no goroutine can move any more, every run has its row, no job is held, and none is shown as running. */
  lemma QuietMeansRecorded(stored: map<JobId, Status>, moves: seq<Move>, j: JobId)
    requires Possible(Init(stored), moves)
    requires var s := Play(Init(stored), moves); forall r :: 0 <= r < |s.runs| ==> !CanStep(s, r)
    ensures var s := Play(Init(stored), moves);
            |s.rows| == |s.runs| && Accepted(s, Run(j)) && !(j in s.status && s.status[j].Running?)
  {
    hide Play, Possible, CanStep;
    InvHolds(Init(stored), moves);
    QuietState(Play(Init(stored), moves), j);
  }

  lemma {:induction false} NoneUnfinished(runs: seq<Goroutine>)
    requires forall r :: 0 <= r < |runs| ==> runs[r].phase.Recorded?
    ensures Unfinished(runs) == 0
  {
    if runs != [] { NoneUnfinished(runs[..|runs| - 1]); }
  }
}
