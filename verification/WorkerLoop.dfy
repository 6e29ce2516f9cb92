/** The Postgres queue's worker: the claim loop and the settling of claimed rows
    (`_worker_loop` and `_run_claimed`, backend/app/cli.py). */
module WorkerLoop {
  import opened Wrappers
  import opened Pipeline

  /** How run_stage ends for a row: with an outcome, with an exception, or cancelled. */
  datatype StageEnd = OutcomeReturned | ExceptionRaised | RunCancelled

  datatype Settlement = CompleteCall(row: nat) | FailCall(row: nat)

  /** How a driver call ends: it raises without effect or after it took effect (a lost
      connection, a cancellation), or it returns. */
  datatype Fault = Fine | NotApplied | ReplyLost

  /** What the end of a run asks of the driver: nothing at all when it was cancelled. */
  function Settlements(row: nat, end: StageEnd): seq<Settlement> {
    match end
    case OutcomeReturned => [CompleteCall(row)]
    case ExceptionRaised => [FailCall(row)]
    case RunCancelled => []
  }

  /** `calls` is what was asked of the driver, `applied` what took effect. */
  class Driver {
    var calls: seq<Settlement>
    var applied: seq<Settlement>

    constructor ()
      ensures calls == [] && applied == []
    {
      calls, applied := [], [];
    }

    method Settle(c: Settlement, fault: Fault) returns (raised: bool)
      modifies this
      ensures calls == old(calls) + [c]
      ensures applied == old(applied) + (if fault.NotApplied? then [] else [c])
      ensures raised <==> !fault.Fine?
    {
      calls := calls + [c];
      if !fault.NotApplied? { applied := applied + [c]; }
      raised := !fault.Fine?;
    }
  }

  /** `complete` stands after the try and `fail` in its handler, so a call that raises ends
      the task and leads to no other call. */
  method RunClaimed(driver: Driver, row: nat, end: StageEnd, fault: Fault) returns (raised: bool)
    modifies driver
    ensures driver.calls == old(driver.calls) + Settlements(row, end)
    ensures driver.applied == old(driver.applied) + (if fault.NotApplied? then [] else Settlements(row, end))
    ensures raised <==> end.RunCancelled? || !fault.Fine?
  {
    match end {
      case RunCancelled => return true;
      case ExceptionRaised =>
        var failed := driver.Settle(FailCall(row), fault);
        if failed { return true; }
        return false;
      case OutcomeReturned =>
    }
    raised := driver.Settle(CompleteCall(row), fault);
  }

  type Running = r: map<PipelineStage, set<nat>> | forall s: PipelineStage :: s in r
    witness map s: PipelineStage | true :: {}

  class Loop {
    var running: Running

    constructor (running: Running)
      ensures this.running == running
    {
      this.running := running;
    }

    /** One turn of the claim loop. While the i-th stage's claim is awaited, tasks of any stage
        end and leave: `ended(i, s)`. `claims(s, limit)` are the tasks made of the rows that a
        claim returns. */
    method Pass(caps: PipelineStage -> int, ended: (nat, PipelineStage) -> set<nat>, claims: (PipelineStage, nat) -> set<nat>)
      returns (claimedAny: bool)
      requires forall s, limit: nat :: |claims(s, limit)| <= limit
      requires forall s: PipelineStage :: |running[s]| <= Cap(caps, s)
      modifies this
      ensures forall s: PipelineStage :: |running[s]| <= Cap(caps, s)
      ensures running == Reached(old(running), |STAGE_ORDER|, caps, ended, claims)
      ensures claimedAny <==>
        exists i :: 0 <= i < |STAGE_ORDER| && Claimed(Reached(old(running), i, caps, ended, claims), i, caps, claims) != {}
    {
      hide Turn, Claimed, Cap, STAGE_ORDER;
      claimedAny := false;
      for i := 0 to |STAGE_ORDER|
        invariant running == Reached(old(running), i, caps, ended, claims)
        invariant forall s: PipelineStage :: |running[s]| <= Cap(caps, s)
        invariant claimedAny <==>
          exists j :: 0 <= j < i && Claimed(Reached(old(running), j, caps, ended, claims), j, caps, claims) != {}
      {
        TurnFits(running, i, caps, ended, claims);
        var started := ClaimStage(i, caps, ended, claims);
        if started { claimedAny := true; }
      }
    }

    /** The i-th stage's turn in the loop. */
    method ClaimStage(i: nat, caps: PipelineStage -> int, ended: (nat, PipelineStage) -> set<nat>, claims: (PipelineStage, nat) -> set<nat>)
      returns (started: bool)
      requires i < |STAGE_ORDER|
      modifies this
      ensures running == Turn(old(running), i, caps, ended, claims)
      ensures started <==> Claimed(old(running), i, caps, claims) != {}
    {
      hide STAGE_ORDER;
      var stage := STAGE_ORDER[i];
      var free := caps(stage) - |running[stage]|;
      if free <= 0 { return false; }
      var tasks := claims(stage, free);
      assert tasks == Claimed(running, i, caps, claims);
      hide Claimed;
      running := map s: PipelineStage | true :: (running[s] - ended(i, s)) + (if s == stage then tasks else {});
      return tasks != {};
    }
  }

  function Cap(caps: PipelineStage -> int, s: PipelineStage): nat {
    if caps(s) > 0 then caps(s) else 0
  }

  /** The tasks that the i-th stage's claim starts: none without a free place. */
  function Claimed(r: Running, i: nat, caps: PipelineStage -> int, claims: (PipelineStage, nat) -> set<nat>): set<nat>
    requires i < |STAGE_ORDER|
  {
    var stage := STAGE_ORDER[i];
    if caps(stage) - |r[stage]| <= 0 then {} else claims(stage, caps(stage) - |r[stage]|)
  }

  /** The i-th stage's turn: no claim, or one claim during which tasks of any stage end. */
  function Turn(r: Running, i: nat, caps: PipelineStage -> int, ended: (nat, PipelineStage) -> set<nat>,
                claims: (PipelineStage, nat) -> set<nat>): Running
    requires i < |STAGE_ORDER|
  {
    var stage := STAGE_ORDER[i];
    if caps(stage) - |r[stage]| <= 0 then r
    else map s: PipelineStage | true :: (r[s] - ended(i, s)) + (if s == stage then Claimed(r, i, caps, claims) else {})
  }

  /** What is running when the i-th stage has its turn. */
  function Reached(r: Running, i: nat, caps: PipelineStage -> int, ended: (nat, PipelineStage) -> set<nat>,
                   claims: (PipelineStage, nat) -> set<nat>): Running
    requires i <= |STAGE_ORDER|
  {
    if i == 0 then r else Turn(Reached(r, i - 1, caps, ended, claims), i - 1, caps, ended, claims)
  }

  lemma TurnFits(r: Running, i: nat, caps: PipelineStage -> int, ended: (nat, PipelineStage) -> set<nat>,
                 claims: (PipelineStage, nat) -> set<nat>)
    requires i < |STAGE_ORDER| && forall s, limit: nat :: |claims(s, limit)| <= limit
    requires forall s: PipelineStage :: |r[s]| <= Cap(caps, s)
    ensures forall s: PipelineStage :: |Turn(r, i, caps, ended, claims)[s]| <= Cap(caps, s)
  {
    hide STAGE_ORDER;
    var started := Claimed(r, i, caps, claims);
    forall s: PipelineStage
      ensures |Turn(r, i, caps, ended, claims)[s]| <= Cap(caps, s)
    {
      SubsetIsSmaller(r[s] - ended(i, s), r[s]);
      UnionIsBounded(r[s] - ended(i, s), if s == STAGE_ORDER[i] then started else {});
    }
  }

  lemma TurnAt(r: Running, i: nat, caps: PipelineStage -> int, ended: (nat, PipelineStage) -> set<nat>,
               claims: (PipelineStage, nat) -> set<nat>, s: PipelineStage)
    requires i < |STAGE_ORDER|
    ensures var st, all := STAGE_ORDER[i], Turn(r, i, caps, ended, claims);
            if |r[st]| >= caps(st) then all[s] == r[s] && Claimed(r, i, caps, claims) == {}
            else
              && Claimed(r, i, caps, claims) == claims(st, caps(st) - |r[st]|)
              && all[s] == (r[s] - ended(i, s)) + (if s == st then claims(st, caps(st) - |r[st]|) else {})
  {
    hide STAGE_ORDER;
  }

  lemma NewToOrder(n: nat)
    requires n < |STAGE_ORDER|
    ensures STAGE_ORDER[n] !in STAGE_ORDER[..n] && STAGE_ORDER[..n + 1] == STAGE_ORDER[..n] + [STAGE_ORDER[n]]
  {
    OrderIsStrict();
    hide STAGE_ORDER;
  }

  /** A stage's tasks once the first n stages had their turns and nothing has ended: one of
      them with a free place claimed exactly its free places and runs what the claim returned
      beside what it ran; the others are as they were. */
  function Quiet(before: set<nat>, s: PipelineStage, n: nat, cap: int, claims: (PipelineStage, nat) -> set<nat>): set<nat>
    requires n <= |STAGE_ORDER|
  {
    if s in STAGE_ORDER[..n] && |before| < cap then before + claims(s, cap - |before|) else before
  }

  lemma QuietTurn(before: Running, n: nat, caps: PipelineStage -> int, ended: (nat, PipelineStage) -> set<nat>,
                  claims: (PipelineStage, nat) -> set<nat>, s: PipelineStage)
    requires n < |STAGE_ORDER| && ended(n, s) == {}
    ensures Turn(before, n, caps, ended, claims)[s]
            == if s == STAGE_ORDER[n] && |before[s]| < caps(s) then before[s] + claims(s, caps(s) - |before[s]|) else before[s]
  {
    hide STAGE_ORDER, Turn, Claimed;
    TurnAt(before, n, caps, ended, claims, s);
    assert before[s] - {} == before[s] && before[s] + {} == before[s];
  }

  lemma QuietNext(before: set<nat>, s: PipelineStage, n: nat, cap: int, claims: (PipelineStage, nat) -> set<nat>)
    requires n < |STAGE_ORDER|
    ensures s == STAGE_ORDER[n] ==>
              && Quiet(before, s, n, cap, claims) == before
              && Quiet(before, s, n + 1, cap, claims) == if |before| < cap then before + claims(s, cap - |before|) else before
    ensures s != STAGE_ORDER[n] ==> Quiet(before, s, n + 1, cap, claims) == Quiet(before, s, n, cap, claims)
  {
    NewToOrder(n);
    hide STAGE_ORDER;
  }

  lemma {:induction false} QuietPass(r: Running, n: nat, caps: PipelineStage -> int, ended: (nat, PipelineStage) -> set<nat>,
                                     claims: (PipelineStage, nat) -> set<nat>, s: PipelineStage)
    requires n <= |STAGE_ORDER| && forall i, st :: ended(i, st) == {}
    ensures Reached(r, n, caps, ended, claims)[s] == Quiet(r[s], s, n, caps(s), claims)
    decreases n
  {
    hide STAGE_ORDER, Turn, Claimed, Quiet;
    if n > 0 {
      var before := Reached(r, n - 1, caps, ended, claims);
      QuietPass(r, n - 1, caps, ended, claims, s);
      QuietNext(r[s], s, n - 1, caps(s), claims);
      QuietTurn(before, n - 1, caps, ended, claims, s);
    } else {
      NothingYet(r[s], s, caps(s), claims);
    }
  }

  lemma NothingYet(before: set<nat>, s: PipelineStage, cap: int, claims: (PipelineStage, nat) -> set<nat>)
    ensures Quiet(before, s, 0, cap, claims) == before
  {
  }

  /** With tasks ending meanwhile: a task leaves only by ending during some claim, and a stage
      gains only what its own claim returns. */
  lemma {:induction false} OnlyEndedLeave(r: Running, n: nat, caps: PipelineStage -> int, ended: (nat, PipelineStage) -> set<nat>,
                                          claims: (PipelineStage, nat) -> set<nat>, s: PipelineStage, task: nat)
    requires n <= |STAGE_ORDER|
    ensures task in r[s] && task !in Reached(r, n, caps, ended, claims)[s] ==> exists i :: 0 <= i < n && task in ended(i, s)
    ensures task !in r[s] && task in Reached(r, n, caps, ended, claims)[s] ==>
              exists i :: 0 <= i < n && STAGE_ORDER[i] == s && task in Claimed(Reached(r, i, caps, ended, claims), i, caps, claims)
  {
    hide STAGE_ORDER, Turn, Claimed;
    if n > 0 {
      OnlyEndedLeave(r, n - 1, caps, ended, claims, s, task);
      TurnAt(Reached(r, n - 1, caps, ended, claims), n - 1, caps, ended, claims, s);
    }
  }

  lemma {:induction false} SubsetIsSmaller(a: set<nat>, b: set<nat>)
    requires a <= b
    ensures |a| <= |b|
  {
    assert b == a + (b - a);
  }

  lemma UnionIsBounded(a: set<nat>, b: set<nat>)
    ensures |a + b| <= |a| + |b|
  {
    assert a + b == a + (b - a);
    SubsetIsSmaller(b - a, b);
  }

  // ------------------------------------------------------------------ interleavings

  /** Where a task of _run_claimed stands: in run_stage, about to call the driver, past the
      call whether it returned or raised, or ended. */
  datatype Point = InStage | AtComplete | AtFail | Leaving | Ended

  /** A task's row is identified with its claim: a row claimed again is another claim. `end`
      is history: how its run ended. */
  datatype Task = Task(stage: PipelineStage, at: Point, end: Option<StageEnd>, calls: seq<Settlement>, applied: seq<Settlement>)

  /** Claiming with perhaps one claim awaited, draining the tasks found running, or shut down. */
  datatype Phase = Idle | Awaiting(stage: PipelineStage, limit: nat) | Draining(inFlight: set<nat>) | ShutDown

  datatype State = State(phase: Phase, running: Running, tasks: map<nat, Task>)

  datatype Step =
    | AskClaim(stage: PipelineStage)
    | ClaimReturns(rows: set<nat>)
    | StageEnds(row: nat, end: StageEnd)
    | DriverCall(row: nat, fault: Fault)
    | TaskEnds(row: nat)
    | Callback(row: nat)
    | Stop
    | Finish

  predicate Enabled(s: State, step: Step, caps: PipelineStage -> int) {
    match step
    case AskClaim(stage) => s.phase.Idle? && caps(stage) - |s.running[stage]| > 0
    case ClaimReturns(rows) => s.phase.Awaiting? && |rows| <= s.phase.limit && rows !! s.tasks.Keys
    case StageEnds(row, _) => row in s.tasks && s.tasks[row].at == InStage
    case DriverCall(row, _) => row in s.tasks && (s.tasks[row].at == AtComplete || s.tasks[row].at == AtFail)
    case TaskEnds(row) => row in s.tasks && s.tasks[row].at == Leaving
    case Callback(row) => row in s.tasks && s.tasks[row].at == Ended
    case Stop => s.phase.Idle? || s.phase.Awaiting?
    case Finish => s.phase.Draining? && forall row :: row in s.phase.inFlight && row in s.tasks ==> s.tasks[row].at == Ended
  }

  /** The code after run_stage: the statement that follows the try, its handler, or out. */
  function AfterStage(end: StageEnd): Point {
    match end
    case OutcomeReturned => AtComplete
    case ExceptionRaised => AtFail
    case RunCancelled => Leaving
  }

  /** Either call leaves the function, by returning or by raising. */
  function Called(row: nat, t: Task, fault: Fault): Task {
    var c := if t.at == AtComplete then CompleteCall(row) else FailCall(row);
    t.(at := Leaving, calls := t.calls + [c], applied := if fault.NotApplied? then t.applied else t.applied + [c])
  }

  function InFlight(running: Running): set<nat> {
    set s: PipelineStage, row | s in running && row in running[s] :: row
  }

  /** A task's done callback runs some time after its end. */
  function Apply(s: State, step: Step, caps: PipelineStage -> int): State
    requires Enabled(s, step, caps)
  {
    match step
    case AskClaim(stage) => s.(phase := Awaiting(stage, caps(stage) - |s.running[stage]|))
    case ClaimReturns(rows) =>
      State(Idle, s.running[s.phase.stage := s.running[s.phase.stage] + rows],
            map row | row in s.tasks.Keys + rows :: if row in rows then Task(s.phase.stage, InStage, None, [], []) else s.tasks[row])
    case StageEnds(row, end) => s.(tasks := s.tasks[row := s.tasks[row].(at := AfterStage(end), end := Some(end))])
    case DriverCall(row, fault) => s.(tasks := s.tasks[row := Called(row, s.tasks[row], fault)])
    case TaskEnds(row) => s.(tasks := s.tasks[row := s.tasks[row].(at := Ended)])
    case Callback(row) =>
      var stage := s.tasks[row].stage;
      s.(running := s.running[stage := s.running[stage] - {row}])
    case Stop => s.(phase := Draining(InFlight(s.running)))
    case Finish => s.(phase := ShutDown)
  }

  ghost predicate IsRun(s: State, steps: seq<Step>, caps: PipelineStage -> int)
    decreases steps
  {
    steps == [] || (Enabled(s, steps[0], caps) && IsRun(Apply(s, steps[0], caps), steps[1..], caps))
  }

  ghost function Exec(s: State, steps: seq<Step>, caps: PipelineStage -> int): State
    decreases steps
  {
    if steps == [] || !Enabled(s, steps[0], caps) then s else Exec(Apply(s, steps[0], caps), steps[1..], caps)
  }

  ghost const START := State(Idle, map s: PipelineStage | true :: {}, map[])

  /** Room is kept for what an awaited claim may still return. */
  ghost predicate Roomy(s: State, caps: PipelineStage -> int) {
    && (forall st: PipelineStage :: |s.running[st]| <= Cap(caps, st))
    && (s.phase.Awaiting? ==> |s.running[s.phase.stage]| + s.phase.limit <= Cap(caps, s.phase.stage))
  }

  predicate TaskOk(row: nat, t: Task) {
    && (t.applied == t.calls || t.applied == [])
    && match t.at
       case InStage => t.end == None && t.calls == []
       case AtComplete => t.end == Some(OutcomeReturned) && t.calls == []
       case AtFail => t.end == Some(ExceptionRaised) && t.calls == []
       case _ => t.end.Some? && t.calls == Settlements(row, t.end.value)
  }

  ghost predicate Kept(s: State) {
    && (forall row :: row in s.tasks ==> TaskOk(row, s.tasks[row]))
    && (forall row :: row in s.tasks && s.tasks[row].at != Ended ==> row in s.running[s.tasks[row].stage])
    && (s.phase.Draining? ==> forall row :: row in s.tasks && s.tasks[row].at != Ended ==> row in s.phase.inFlight)
    && (s.phase.ShutDown? ==> forall row :: row in s.tasks ==> s.tasks[row].at == Ended)
  }

  lemma StepKeepsRoom(s: State, step: Step, caps: PipelineStage -> int)
    requires Roomy(s, caps) && Enabled(s, step, caps)
    ensures Roomy(Apply(s, step, caps), caps)
  {
    match step
    case ClaimReturns(rows) => UnionIsBounded(s.running[s.phase.stage], rows);
    case Callback(row) =>
      var stage := s.tasks[row].stage;
      SubsetIsSmaller(s.running[stage] - {row}, s.running[stage]);
    case _ =>
  }

  lemma ClaimKeepsTasks(s: State, rows: set<nat>, caps: PipelineStage -> int)
    requires Kept(s) && Enabled(s, ClaimReturns(rows), caps)
    ensures Kept(Apply(s, ClaimReturns(rows), caps))
  {
    var t := Apply(s, ClaimReturns(rows), caps);
    forall row | row in t.tasks
      ensures TaskOk(row, t.tasks[row]) && (t.tasks[row].at != Ended ==> row in t.running[t.tasks[row].stage])
    {
      if row !in rows { assert row in s.tasks && t.tasks[row] == s.tasks[row]; }
    }
    hide TaskOk;
  }

  /** A task moves on within its own stage; the others stay. */
  lemma TaskChangeKeepsTasks(s: State, row: nat, task: Task)
    requires Kept(s) && !s.phase.ShutDown? && row in s.tasks && TaskOk(row, task)
    requires task.stage == s.tasks[row].stage && s.tasks[row].at != Ended
    ensures Kept(s.(tasks := s.tasks[row := task]))
  {
    hide TaskOk;
  }

  lemma StepKeepsTasks(s: State, step: Step, caps: PipelineStage -> int)
    requires Kept(s) && Enabled(s, step, caps)
    ensures Kept(Apply(s, step, caps))
  {
    match step
    case ClaimReturns(rows) => ClaimKeepsTasks(s, rows, caps);
    case StageEnds(row, end) =>
      assert TaskOk(row, s.tasks[row]);
      TaskChangeKeepsTasks(s, row, s.tasks[row].(at := AfterStage(end), end := Some(end)));
    case DriverCall(row, fault) =>
      assert TaskOk(row, s.tasks[row]);
      TaskChangeKeepsTasks(s, row, Called(row, s.tasks[row], fault));
    case TaskEnds(row) =>
      assert TaskOk(row, s.tasks[row]);
      TaskChangeKeepsTasks(s, row, s.tasks[row].(at := Ended));
    case Callback(row) => hide TaskOk;
    case _ => hide TaskOk;
  }

  lemma {:induction false} RunKeepsAll(s: State, steps: seq<Step>, caps: PipelineStage -> int)
    requires Roomy(s, caps) && Kept(s) && IsRun(s, steps, caps)
    ensures Roomy(Exec(s, steps, caps), caps) && Kept(Exec(s, steps, caps))
    decreases steps
  {
    hide Roomy, Kept;
    if steps != [] {
      StepKeepsRoom(s, steps[0], caps);
      StepKeepsTasks(s, steps[0], caps);
      RunKeepsAll(Apply(s, steps[0], caps), steps[1..], caps);
    }
  }

  /** The tasks of a stage that have not ended. */
  function Unfinished(s: State, stage: PipelineStage): set<nat> {
    set row | row in s.tasks && s.tasks[row].stage == stage && s.tasks[row].at != Ended
  }

  /** In every interleaving of claims and completions no stage has more unfinished tasks
      than its cap. */
  lemma CapsHold(steps: seq<Step>, caps: PipelineStage -> int, stage: PipelineStage)
    requires IsRun(START, steps, caps)
    ensures |Unfinished(Exec(START, steps, caps), stage)| <= Cap(caps, stage)
  {
    RunKeepsAll(START, steps, caps);
    var s := Exec(START, steps, caps);
    SubsetIsSmaller(Unfinished(s, stage), s.running[stage]);
  }

  /** In every interleaving, whatever driver calls raise or lose their replies: a claim whose
      run was not cancelled has exactly one of complete and fail called for it by the time its
      task has left, complete exactly when run_stage returned; a complete that raises is never
      followed by a fail; a cancelled run has neither; and no call takes effect twice. */
  lemma RowsAreSettledOnce(steps: seq<Step>, caps: PipelineStage -> int, row: nat)
    requires IsRun(START, steps, caps) && row in Exec(START, steps, caps).tasks
    ensures var t := Exec(START, steps, caps).tasks[row];
            && |t.calls| <= 1 && (t.applied == t.calls || t.applied == [])
            && (CompleteCall(row) in t.calls ==> t.end == Some(OutcomeReturned) && FailCall(row) !in t.calls)
            && (FailCall(row) in t.calls ==> t.end == Some(ExceptionRaised))
            && (t.at == Leaving || t.at == Ended ==>
                  && t.end.Some?
                  && (|t.calls| == 1 <==> !t.end.value.RunCancelled?)
                  && (CompleteCall(row) in t.calls <==> t.end.value.OutcomeReturned?)
                  && (FailCall(row) in t.calls <==> t.end.value.ExceptionRaised?))
  {
    RunKeepsAll(START, steps, caps);
    var t := Exec(START, steps, caps).tasks[row];
    assert TaskOk(row, t);
    assert CompleteCall(row) != FailCall(row);
  }

  /** When the engine is shut down every task that was ever started has ended. */
  lemma NothingOutlivesTheEngine(steps: seq<Step>, caps: PipelineStage -> int, row: nat)
    requires IsRun(START, steps, caps)
    requires var s := Exec(START, steps, caps); s.phase.ShutDown? && row in s.tasks
    ensures Exec(START, steps, caps).tasks[row].at == Ended
  {
    RunKeepsAll(START, steps, caps);
  }
}
