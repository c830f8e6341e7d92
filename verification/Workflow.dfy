/**
 * The saga workflow manager: activities run in order with bounded retries, and the completed
 * ones are compensated in reverse when one fails.
 *
 * `Advance` is the manager's control as a step function: one step per handler call. The manager's
 * own loops, over records updated in place, are proved to make exactly those steps.
 */
module Workflow {

  /** What a handler can raise. `Transient` stands for every fault of the network or the database. */
  datatype Error =
    | UserNotFound | InsufficientFunds | InvalidPaymentMethod | InvalidAmount
    | ProductNotFound | OutOfStock
    | WrongStatus | TransactionNotFound | NoReservation
    | DuplicateKey | BadArguments | Transient

  /** The errors whose message contains one of the "completable" phrases: these are not retried.
      "Insufficient funds" is not one of them, the phrase looked for being "insufficient balance". */
  predicate IsCompletable(e: Error) {
    e.UserNotFound? || e.InvalidPaymentMethod? || e.OutOfStock?
  }

  datatype Outcome = Returned | Raised(error: Error)

  datatype WorkflowStatus = WRunning | WCompleted | WFailed | WCompensating | WCompensated
  datatype ActivityStatus = Pending | Running | Completed | Failed | Compensated

  datatype Activity = Activity(
    compensable: bool, maxRetries: nat,
    status: ActivityStatus, retryCount: nat, error: Outcome)

  function NewActivity(compensable: bool, maxRetries: nat): Activity {
    Activity(compensable, maxRetries, Pending, 0, Returned)
  }

  /** Where the manager stands: about to make this attempt of the current handler, about to make
      this attempt of the compensation of activity `i`, or done, compensation (if any) having got
      down to activity `low`. */
  datatype Phase = Trying(attempt: nat) | Undoing(i: nat, tries: nat) | Finished(low: nat)

  datatype Call = Handler(activity: nat) | Compensation(undone: nat)

  const MAX_COMPENSATION_RETRIES: nat := 5

  datatype Execution = Execution(
    status: WorkflowStatus, activities: seq<Activity>, index: nat, phase: Phase)

  // --- The control, one handler call at a time -------------------------------------------------

  /** The phase plays no part between two calls. */
  function Between(x: Execution): Execution {
    x.(phase := Finished(x.index))
  }

  /** The while loop's head: start the activity at `index`, or complete the workflow. */
  function Enter(x: Execution): Execution
    requires x.index <= |x.activities|
  {
    if x.index == |x.activities| then x.(status := WCompleted, phase := Finished(x.index))
    else
      var a := x.activities[x.index].(status := Running);
      x.(activities := x.activities[x.index := a], phase := Trying(0))
  }

  /** The compensation loop's search, from activity `i` downwards. */
  function SeekUndo(x: Execution, i: int): (r: Execution)
    requires -1 <= i < |x.activities|
    ensures r.activities == x.activities && r.index == x.index
    ensures r.status == if r.phase.Finished? then WCompensated else x.status
    decreases i + 1
  {
    if i < 0 then x.(status := WCompensated, phase := Finished(0))
    else if x.activities[i].status.Completed? && x.activities[i].compensable then
      x.(phase := Undoing(i, 0))
    else SeekUndo(x, i - 1)
  }

  function NextCall(x: Execution): Call
    requires !x.phase.Finished?
  {
    match x.phase
    case Trying(_) => Handler(x.index)
    case Undoing(i, _) => Compensation(i)
  }

  predicate Placed(x: Execution) {
    match x.phase
    case Trying(_) => x.index < |x.activities|
    case Undoing(i, _) => i < x.index < |x.activities|
    case Finished(low) => low <= x.index <= |x.activities|
  }

  /** The pending attempt raised: count it and keep the error. */
  function CountFailure(x: Execution, o: Outcome): Activity
    requires x.phase.Trying? && x.index < |x.activities|
  {
    x.activities[x.index].(retryCount := x.phase.attempt + 1, error := o)
  }

  predicate Retries(x: Execution, o: Outcome)
    requires x.phase.Trying? && x.index < |x.activities|
  {
    o.Raised? && !IsCompletable(o.error) && x.phase.attempt < x.activities[x.index].maxRetries
  }

  /** The current activity fails for good. */
  function Fail(x: Execution, o: Outcome): Execution
    requires x.phase.Trying? && x.index < |x.activities|
  {
    Between(x.(activities := x.activities[x.index := CountFailure(x, o).(status := Failed)], status := WCompensating))
  }

  function MarkUndone(x: Execution): Execution
    requires x.phase.Undoing? && x.phase.i < |x.activities|
  {
    Between(x.(activities := x.activities[x.phase.i := x.activities[x.phase.i].(status := Compensated)]))
  }

  /** The effect of the pending call's outcome on the workflow. */
  function Advance(x: Execution, o: Outcome): (r: Execution)
    requires Placed(x)
    ensures Placed(r) && |r.activities| == |x.activities|
  {
    match x.phase
    case Finished(_) => x
    case Trying(attempt) =>
      var a := x.activities[x.index];
      if o.Returned? then
        Enter(Between(x.(activities := x.activities[x.index := a.(status := Completed)], index := x.index + 1)))
      else if Retries(x, o) then
        x.(activities := x.activities[x.index := CountFailure(x, o)], phase := Trying(attempt + 1))
      else
        SeekPlaced(Fail(x, o), x.index - 1);
        SeekUndo(Fail(x, o), x.index - 1)
    case Undoing(i, tries) =>
      if o.Returned? then
        SeekPlaced(MarkUndone(x), i - 1);
        SeekUndo(MarkUndone(x), i - 1)
      else if tries < MAX_COMPENSATION_RETRIES - 1 then x.(phase := Undoing(i, tries + 1))
      else x.(status := WFailed, phase := Finished(i + 1))
  }

  lemma SeekPlaced(x: Execution, i: int)
    requires -1 <= i < x.index < |x.activities|
    ensures Placed(SeekUndo(x, i))
    decreases i + 1
  {
  }

  // --- Whole runs ------------------------------------------------------------------------------

  function Start(init: seq<Activity>): Execution {
    Enter(Between(Execution(WRunning, init, 0, Trying(0))))
  }

  /** The execution after `n` handler calls whose outcomes the environment dictates. */
  function Replay(init: seq<Activity>, env: nat -> Outcome, n: nat): (x: Execution)
    ensures Placed(x)
  {
    if n == 0 then Start(init) else Advance(Replay(init, env, n - 1), env(n - 1))
  }

  /** `x` is where the step function stands after `n` calls, and it had not finished before. */
  ghost predicate Stands(init: seq<Activity>, env: nat -> Outcome, n: nat, x: Execution) {
    x == Replay(init, env, n) && forall m: nat :: m < n ==> !Replay(init, env, m).phase.Finished?
  }

  lemma StandsNext(init: seq<Activity>, env: nat -> Outcome, n: nat, x: Execution)
    requires Stands(init, env, n, x) && !x.phase.Finished?
    ensures Stands(init, env, n + 1, Advance(x, env(n)))
  {
    assert Replay(init, env, n + 1) == Advance(Replay(init, env, n), env(n));
  }

  datatype Made = Made(call: Call, outcome: Outcome)

  /** The calls made on the way there, with their outcomes; none once the workflow has finished. */
  function Trace(init: seq<Activity>, env: nat -> Outcome, n: nat): seq<Made> {
    if n == 0 then []
    else
      var x := Replay(init, env, n - 1);
      Trace(init, env, n - 1) + if x.phase.Finished? then [] else [Made(NextCall(x), env(n - 1))]
  }

  predicate Fresh(init: seq<Activity>) {
    forall j :: 0 <= j < |init| ==> init[j] == NewActivity(init[j].compensable, init[j].maxRetries)
  }

  predicate SameSetup(a: Activity, b: Activity) {
    a.compensable == b.compensable && a.maxRetries == b.maxRetries
  }

  function UndoneStatus(a: Activity): ActivityStatus {
    if a.compensable then Compensated else Completed
  }

  /** The lowest activity whose compensation is over. */
  function Low(x: Execution): nat {
    match x.phase
    case Trying(_) => x.index
    case Undoing(i, _) => i + 1
    case Finished(low) => low
  }

  /** Activities below `low` stand as completed, those from `low` up to the index as undone. */
  predicate UndoneFrom(x: Execution, low: nat) {
    && low <= x.index <= |x.activities|
    && (forall j :: 0 <= j < low ==> x.activities[j].status == Completed)
    && (forall j :: low <= j < x.index ==> x.activities[j].status == UndoneStatus(x.activities[j]))
  }

  predicate Setup(init: seq<Activity>, x: Execution) {
    && |x.activities| == |init| && x.index <= |init|
    && (forall j :: 0 <= j < |init| ==> SameSetup(x.activities[j], init[j]))
    && (forall j :: x.index < j < |init| ==> x.activities[j] == init[j])
  }

  predicate FailedAt(x: Execution) {
    x.index < |x.activities| && x.activities[x.index].status == Failed
  }

  /** The strict prefix machine: what every reachable execution looks like. */
  predicate Shape(init: seq<Activity>, x: Execution) {
    && Setup(init, x) && UndoneFrom(x, Low(x))
    && match x.phase
       case Trying(attempt) =>
         && x.status == WRunning && x.index < |init| && x.activities[x.index].status == Running
         && x.activities[x.index].retryCount == attempt <= x.activities[x.index].maxRetries
       case Undoing(i, tries) =>
         && x.status == WCompensating && FailedAt(x)
         && x.activities[i].compensable && tries < MAX_COMPENSATION_RETRIES
       case Finished(low) =>
         || (x.status == WCompleted && low == x.index == |init|)
         || (x.status == WCompensated && low == 0 && FailedAt(x))
         || (x.status == WFailed && low > 0 && FailedAt(x) && x.activities[low - 1].compensable)
  }

  lemma {:induction false} SeekUndoShape(init: seq<Activity>, x: Execution, i: int)
    requires -1 <= i < x.index && x.status == WCompensating
    requires Setup(init, x) && FailedAt(x) && UndoneFrom(x, i + 1)
    ensures var r := SeekUndo(x, i);
      && Shape(init, r) && Low(r) <= i + 1 && (r.phase.Undoing? ==> r.phase.tries == 0)
      && Descending(init, i + 1, x.index) == Descending(init, Low(r), x.index)
    decreases i + 1
  {
    if i >= 0 && !x.activities[i].compensable {
      SeekUndoShape(init, x, i - 1);
    }
  }

  lemma ReturnKeepsShape(init: seq<Activity>, x: Execution)
    requires Fresh(init) && Shape(init, x) && x.phase.Trying?
    ensures Shape(init, Advance(x, Returned))
  {
  }

  lemma RaiseKeepsShape(init: seq<Activity>, x: Execution, o: Outcome)
    requires Shape(init, x) && x.phase.Trying? && o.Raised?
    ensures Shape(init, Advance(x, o))
  {
    if !Retries(x, o) { SeekUndoShape(init, Fail(x, o), x.index - 1); }
  }

  lemma UndoKeepsShape(init: seq<Activity>, x: Execution, o: Outcome)
    requires Shape(init, x) && x.phase.Undoing?
    ensures Shape(init, Advance(x, o))
  {
    if o.Returned? { SeekUndoShape(init, MarkUndone(x), x.phase.i - 1); }
  }

  lemma AdvanceKeepsShape(init: seq<Activity>, x: Execution, o: Outcome)
    requires Fresh(init) && Shape(init, x)
    ensures Shape(init, Advance(x, o))
  {
    if x.phase.Trying? {
      if o.Returned? { ReturnKeepsShape(init, x); } else { RaiseKeepsShape(init, x, o); }
    } else if x.phase.Undoing? {
      UndoKeepsShape(init, x, o);
    }
  }

  // --- Termination and call bounds -------------------------------------------------------------

  /** The handler calls still allowed from activity `k` on. */
  function Allowance(s: seq<Activity>, k: nat): nat
    requires k <= |s|
    decreases |s| - k
  {
    if k == |s| then 0 else s[k].maxRetries + 1 + Allowance(s, k + 1)
  }

  lemma {:induction false} AllowanceSame(s: seq<Activity>, t: seq<Activity>, k: nat)
    requires |s| == |t| && k <= |s|
    requires forall j :: k <= j < |s| ==> SameSetup(s[j], t[j])
    ensures Allowance(s, k) == Allowance(t, k)
    decreases |s| - k
  {
    if k < |s| { AllowanceSame(s, t, k + 1); }
  }

  /** An upper bound on the calls a workflow can still make. */
  function CallsLeft(init: seq<Activity>, x: Execution): int
    requires Shape(init, x)
  {
    match x.phase
    case Finished(_) => 0
    case Trying(attempt) => Allowance(init, x.index) - attempt + MAX_COMPENSATION_RETRIES * |init|
    case Undoing(i, tries) => MAX_COMPENSATION_RETRIES * (i + 1) - tries
  }

  lemma CallsLeftDecreases(init: seq<Activity>, x: Execution, o: Outcome)
    requires Fresh(init) && Shape(init, x) && !x.phase.Finished?
    ensures Shape(init, Advance(x, o))
    ensures 0 <= CallsLeft(init, Advance(x, o)) < CallsLeft(init, x)
  {
    AdvanceKeepsShape(init, x, o);
    if x.phase.Undoing? && o.Returned? { SeekUndoShape(init, MarkUndone(x), x.phase.i - 1); }
  }

  lemma {:induction false} RunShape(init: seq<Activity>, env: nat -> Outcome, n: nat)
    requires Fresh(init)
    ensures Shape(init, Replay(init, env, n))
  {
    if n > 0 {
      RunShape(init, env, n - 1);
      AdvanceKeepsShape(init, Replay(init, env, n - 1), env(n - 1));
    }
  }

  ghost predicate Reachable(init: seq<Activity>, x: Execution) {
    exists env: nat -> Outcome, n: nat :: x == Replay(init, env, n)
  }

  lemma ReachableShape(init: seq<Activity>, x: Execution)
    requires Fresh(init) && Reachable(init, x)
    ensures Shape(init, x)
  {
    var env: nat -> Outcome, n: nat :| x == Replay(init, env, n);
    RunShape(init, env, n);
  }

  /** The calls a workflow of these activities can make in all. */
  function MaxCalls(init: seq<Activity>): nat {
    Allowance(init, 0) + MAX_COMPENSATION_RETRIES * |init|
  }

  ghost predicate CallsBounded(init: seq<Activity>, x: Execution, n: nat) {
    Shape(init, x) && (x.phase.Finished? || n + CallsLeft(init, x) <= MaxCalls(init))
  }

  lemma CallsBoundedStep(init: seq<Activity>, x: Execution, o: Outcome, n: nat)
    requires Fresh(init) && Reachable(init, x) && CallsBounded(init, x, n)
    ensures CallsBounded(init, Advance(x, o), n + 1)
  {
    ReachableShape(init, x);
    AdvanceKeepsShape(init, x, o);
    if !x.phase.Finished? { CallsLeftDecreases(init, x, o); }
  }

  /** Every run finishes within the calls its activities allow, whatever the outcomes are. */
  lemma {:induction false} RunTerminates(init: seq<Activity>, env: nat -> Outcome, n: nat)
    requires Fresh(init)
    ensures CallsBounded(init, Replay(init, env, n), n)
    ensures n >= MaxCalls(init) ==> Replay(init, env, n).phase.Finished?
  {
    if n > 0 {
      RunTerminates(init, env, n - 1);
      CallsBoundedStep(init, Replay(init, env, n - 1), env(n - 1), n - 1);
    }
  }

  // --- What was called, how often and in which order -------------------------------------------

  function Calls(trace: seq<Made>, c: Call): nat {
    if trace == [] then 0
    else Calls(trace[..|trace| - 1], c) + if trace[|trace| - 1].call == c then 1 else 0
  }

  /** The activities whose handler returned, in order. */
  function Done(trace: seq<Made>): seq<nat> {
    if trace == [] then []
    else
      var m := trace[|trace| - 1];
      Done(trace[..|trace| - 1]) + if m.call.Handler? && m.outcome.Returned? then [m.call.activity] else []
  }

  /** The activities whose compensation returned, in order. */
  function Undone(trace: seq<Made>): seq<nat> {
    if trace == [] then []
    else
      var m := trace[|trace| - 1];
      Undone(trace[..|trace| - 1]) + if m.call.Compensation? && m.outcome.Returned? then [m.call.undone] else []
  }

  function UpTo(n: nat): seq<nat> { seq(n, (i: nat) => i) }

  /** The compensable activities in `[lo, hi)`, highest first. */
  function Descending(init: seq<Activity>, lo: nat, hi: nat): seq<nat>
    decreases hi - lo
  {
    if lo >= hi then []
    else Descending(init, lo + 1, hi) + if lo < |init| && init[lo].compensable then [lo] else []
  }

  /** How many times the handler of activity `j` has been called. */
  predicate HandlerCalls(x: Execution, trace: seq<Made>, j: nat)
    requires j < |x.activities|
  {
    var a := x.activities[j];
    Calls(trace, Handler(j)) ==
    match a.status
    case Pending => 0
    case Running => a.retryCount
    case Failed => a.retryCount
    case Completed => a.retryCount + 1
    case Compensated => a.retryCount + 1
  }

  predicate HandlerBound(a: Activity) {
    match a.status
    case Failed => 1 <= a.retryCount <= a.maxRetries + 1
    case _ => a.retryCount <= a.maxRetries
  }

  /** How many times the compensation of activity `j` has been called. */
  predicate CompensationCalls(x: Execution, trace: seq<Made>, j: nat) {
    var c := Calls(trace, Compensation(j));
    match x.phase
    case Trying(_) => c == 0
    case Undoing(i, tries) =>
      if j < i || j >= x.index then c == 0 else if j == i then c == tries else c <= MAX_COMPENSATION_RETRIES
    case Finished(_) => c <= MAX_COMPENSATION_RETRIES
  }

  /** The numbers of calls of activity `j` made are those the retry counter and the phase show. */
  predicate Counts(x: Execution, trace: seq<Made>, j: nat) {
    j < |x.activities| && HandlerCalls(x, trace, j) && HandlerBound(x.activities[j]) && CompensationCalls(x, trace, j)
  }

  lemma CallsAppend(trace: seq<Made>, m: Made, c: Call)
    ensures Calls(trace + [m], c) == Calls(trace, c) + if m.call == c then 1 else 0
  {
    assert (trace + [m])[..|trace|] == trace;
  }

  /** What one call changes: the statuses and counters of at most two activities. */
  predicate TryMoved(x: Execution, o: Outcome, y: Execution)
    requires x.phase.Trying? && x.index < |x.activities| == |y.activities|
  {
    if o.Returned? then
      && y.index == x.index + 1 && !y.phase.Undoing?
      && (forall j :: 0 <= j < |x.activities| && j != x.index && j != y.index ==> y.activities[j] == x.activities[j])
      && y.activities[x.index] == x.activities[x.index].(status := Completed)
      && (y.index < |x.activities| ==> y.activities[y.index] == x.activities[y.index].(status := Running))
    else
      && y.index == x.index
      && (forall j :: 0 <= j < |x.activities| && j != x.index ==> y.activities[j] == x.activities[j])
      && y.activities[x.index].retryCount == x.phase.attempt + 1
      && (y.phase == Trying(x.phase.attempt + 1) || (!y.phase.Trying? && y.activities[x.index].status == Failed))
      && (y.phase.Undoing? ==> y.phase.tries == 0)
  }

  predicate UndoMoved(x: Execution, o: Outcome, y: Execution)
    requires x.phase.Undoing? && x.phase.i < |x.activities| == |y.activities|
  {
    var i := x.phase.i;
    && y.index == x.index && !y.phase.Trying?
    && (forall j :: 0 <= j < |x.activities| && j != i ==> y.activities[j] == x.activities[j])
    && y.activities[i] == (if o.Returned? then x.activities[i].(status := Compensated) else x.activities[i])
    && (y.phase.Undoing? ==> if o.Returned? then y.phase.i < i && y.phase.tries == 0
                             else y.phase.i == i && y.phase.tries == x.phase.tries + 1)
    && (o.Raised? ==> Low(y) == i + 1)
  }

  predicate Moved(x: Execution, o: Outcome, y: Execution) {
    && Placed(x) && |y.activities| == |x.activities|
    && match x.phase
       case Trying(_) => TryMoved(x, o, y)
       case Undoing(_, _) => UndoMoved(x, o, y)
       case Finished(_) => y == x
  }

  lemma AdvanceTries(init: seq<Activity>, x: Execution, o: Outcome)
    requires Fresh(init) && Shape(init, x) && x.phase.Trying?
    ensures TryMoved(x, o, Advance(x, o))
  {
    if o.Raised? && !Retries(x, o) { SeekUndoShape(init, Fail(x, o), x.index - 1); }
  }

  lemma AdvanceUndoes(init: seq<Activity>, x: Execution, o: Outcome)
    requires Shape(init, x) && x.phase.Undoing?
    ensures UndoMoved(x, o, Advance(x, o))
  {
    if o.Returned? { SeekUndoShape(init, MarkUndone(x), x.phase.i - 1); }
  }

  lemma AdvanceMoves(init: seq<Activity>, x: Execution, o: Outcome)
    requires Fresh(init) && Shape(init, x)
    ensures Moved(x, o, Advance(x, o))
  {
    if x.phase.Trying? { AdvanceTries(init, x, o); } else if x.phase.Undoing? { AdvanceUndoes(init, x, o); }
  }

  lemma CountsStep(init: seq<Activity>, x: Execution, trace: seq<Made>, o: Outcome, j: nat)
    requires Fresh(init) && Reachable(init, x) && Counts(x, trace, j) && !x.phase.Finished?
    ensures Counts(Advance(x, o), trace + [Made(NextCall(x), o)], j)
  {
    ReachableShape(init, x);
    AdvanceMoves(init, x, o);
    AdvanceKeepsShape(init, x, o);
    CallsAppend(trace, Made(NextCall(x), o), Handler(j));
    CallsAppend(trace, Made(NextCall(x), o), Compensation(j));
    CountsMoved(init, x, trace, o, j, Advance(x, o), trace + [Made(NextCall(x), o)]);
  }

  lemma CountsMoved(init: seq<Activity>, x: Execution, trace: seq<Made>, o: Outcome, j: nat, y: Execution,
      next: seq<Made>)
    requires Fresh(init) && Shape(init, x) && !x.phase.Finished? && Counts(x, trace, j) && Moved(x, o, y)
        && Shape(init, y)
    requires Calls(next, Handler(j)) == Calls(trace, Handler(j)) + if NextCall(x) == Handler(j) then 1 else 0
    requires Calls(next, Compensation(j))
          == Calls(trace, Compensation(j)) + if NextCall(x) == Compensation(j) then 1 else 0
    ensures Counts(y, next, j)
  {
  }

  lemma OrderStep(init: seq<Activity>, x: Execution, trace: seq<Made>, o: Outcome)
    requires Fresh(init) && Reachable(init, x) && !x.phase.Finished?
    requires Done(trace) == UpTo(x.index) && Undone(trace) == Descending(init, Low(x), x.index)
    ensures Done(trace + [Made(NextCall(x), o)]) == UpTo(Advance(x, o).index)
    ensures Undone(trace + [Made(NextCall(x), o)]) == Descending(init, Low(Advance(x, o)), Advance(x, o).index)
  {
    assert (trace + [Made(NextCall(x), o)])[..|trace|] == trace;
    ReachableShape(init, x);
    AdvanceOrder(init, x, o);
    assert UpTo(x.index) + [x.index] == UpTo(x.index + 1);
  }

  lemma AdvanceOrder(init: seq<Activity>, x: Execution, o: Outcome)
    requires Fresh(init) && Shape(init, x) && !x.phase.Finished?
    ensures Advance(x, o).index == x.index + if x.phase.Trying? && o.Returned? then 1 else 0
    ensures Descending(init, Low(Advance(x, o)), Advance(x, o).index)
         == Descending(init, Low(x), x.index) + if x.phase.Undoing? && o.Returned? then [x.phase.i] else []
  {
    if x.phase.Trying? { TryOrder(init, x, o); } else { UndoOrder(init, x, o); }
  }

  lemma TryOrder(init: seq<Activity>, x: Execution, o: Outcome)
    requires Fresh(init) && Shape(init, x) && x.phase.Trying?
    ensures Advance(x, o).index == x.index + if o.Returned? then 1 else 0
    ensures Descending(init, Low(Advance(x, o)), Advance(x, o).index) == []
  {
    if o.Raised? && !Retries(x, o) { SeekUndoShape(init, Fail(x, o), x.index - 1); }
  }

  lemma UndoOrder(init: seq<Activity>, x: Execution, o: Outcome)
    requires Shape(init, x) && x.phase.Undoing?
    ensures Advance(x, o).index == x.index
    ensures Descending(init, Low(Advance(x, o)), x.index)
         == Descending(init, x.phase.i + 1, x.index) + if o.Returned? then [x.phase.i] else []
  {
    if o.Returned? { SeekUndoShape(init, MarkUndone(x), x.phase.i - 1); }
  }

  /** Which handlers and which compensations have returned, in order. */
  predicate InRunOrder(init: seq<Activity>, x: Execution, trace: seq<Made>) {
    && Done(trace) == UpTo(x.index)
    && x.index <= |init| && Undone(trace) == Descending(init, Low(x), x.index)
  }

  lemma NextInOrder(init: seq<Activity>, x: Execution, trace: seq<Made>, o: Outcome)
    requires Fresh(init) && Reachable(init, x) && InRunOrder(init, x, trace)
    ensures InRunOrder(init, Advance(x, o), trace + if x.phase.Finished? then [] else [Made(NextCall(x), o)])
  {
    if x.phase.Finished? {
      assert trace + [] == trace;
    } else {
      OrderStep(init, x, trace, o);
      ReachableShape(init, x);
      AdvanceKeepsShape(init, x, o);
    }
  }

  /** The main result about the manager: in every run the handlers that returned are exactly the
      activities below the index, in order, and the compensations that returned are exactly the
      compensable ones among them, in reverse, down to `Low`: to 0 unless one ran out of retries. */
  lemma {:induction false} RunOrder(init: seq<Activity>, env: nat -> Outcome, n: nat)
    requires Fresh(init)
    ensures InRunOrder(init, Replay(init, env, n), Trace(init, env, n))
  {
    if n > 0 {
      RunOrder(init, env, n - 1);
      assert Reachable(init, Replay(init, env, n - 1));
      NextInOrder(init, Replay(init, env, n - 1), Trace(init, env, n - 1), env(n - 1));
    }
  }

  lemma {:induction false} RunCounts(init: seq<Activity>, env: nat -> Outcome, n: nat, j: nat)
    requires Fresh(init) && j < |init|
    ensures Counts(Replay(init, env, n), Trace(init, env, n), j)
  {
    if n > 0 {
      RunCounts(init, env, n - 1, j);
      var x := Replay(init, env, n - 1);
      if !x.phase.Finished? {
        CountsStep(init, x, Trace(init, env, n - 1), env(n - 1), j);
      } else {
        assert Trace(init, env, n) == Trace(init, env, n - 1);
      }
    }
  }

  /** No run calls an activity more than `maxRetries + 1` times or a compensation more than five;
      the retry counter of a failed activity is the number of calls made of it. */
  lemma RunCallBounds(init: seq<Activity>, env: nat -> Outcome, n: nat, j: nat)
    requires Fresh(init) && j < |init|
    ensures Calls(Trace(init, env, n), Handler(j)) <= init[j].maxRetries + 1
    ensures Calls(Trace(init, env, n), Compensation(j)) <= MAX_COMPENSATION_RETRIES
    ensures |Replay(init, env, n).activities| == |init|
    ensures Replay(init, env, n).activities[j].status == Failed ==>
              Replay(init, env, n).activities[j].retryCount == Calls(Trace(init, env, n), Handler(j)) >= 1
  {
    RunShape(init, env, n);
    RunCounts(init, env, n, j);
    assert SameSetup(Replay(init, env, n).activities[j], init[j]);
  }

  /** The execution after the pending call and those that follow it have raised these errors. */
  function Failing(x: Execution, errors: seq<Error>): (y: Execution)
    requires Placed(x)
    ensures Placed(y)
  {
    if errors == [] then x else Advance(Failing(x, errors[..|errors| - 1]), Raised(errors[|errors| - 1]))
  }

  /** From attempt `a` on, these errors do not end the activity: none is completable and the retries
      are not used up. */
  predicate AllRetried(errors: seq<Error>, a: nat, maxRetries: nat) {
    a + |errors| <= maxRetries && forall j :: 0 <= j < |errors| ==> !IsCompletable(errors[j])
  }

  /** Error number `k` is the one that ends the activity. */
  predicate EndsTrying(errors: seq<Error>, a: nat, maxRetries: nat, k: nat) {
    k < |errors| && AllRetried(errors[..k], a, maxRetries) && (IsCompletable(errors[k]) || a + k == maxRetries)
  }

  /** The activity of `x` is not tried any more: it failed at error number `k`, and was counted so. */
  predicate GivenUp(x: Execution, y: Execution, a: nat, k: nat) {
    y.index == x.index && !y.phase.Trying? && FailedAt(y) && y.activities[y.index].retryCount == a + k + 1
  }

  /** Still trying exactly if everything was retried, and given up at the error that ended it if not. */
  ghost predicate RetriedUntil(x: Execution, errors: seq<Error>, a: nat, y: Execution)
    requires x.index < |x.activities|
  {
    var maxRetries := x.activities[x.index].maxRetries;
    if AllRetried(errors, a, maxRetries) then y.phase == Trying(a + |errors|) && y.index == x.index
    else exists k: nat :: EndsTrying(errors, a, maxRetries, k) && GivenUp(x, y, a, k)
  }

  lemma NextError(init: seq<Activity>, x: Execution, errors: seq<Error>, a: nat, y: Execution, e: Error)
    requires Fresh(init) && Shape(init, x) && Shape(init, y) && x.index < |init|
    requires RetriedUntil(x, errors, a, y)
    ensures RetriedUntil(x, errors + [e], a, Advance(y, Raised(e)))
  {
    var next, z, m := errors + [e], Advance(y, Raised(e)), x.activities[x.index].maxRetries;
    assert next[..|errors|] == errors && next[|errors|] == e;
    AdvanceMoves(init, y, Raised(e));
    AdvanceKeepsShape(init, y, Raised(e));
    if AllRetried(errors, a, m) {
      assert SameSetup(x.activities[x.index], init[x.index]) && SameSetup(y.activities[x.index], init[x.index]);
      assert AllRetried(next, a, m) <==> Retries(y, Raised(e));
      assert !AllRetried(next, a, m) ==> EndsTrying(next, a, m, |errors|) && GivenUp(x, z, a, |errors|);
    } else {
      var k: nat :| EndsTrying(errors, a, m, k) && GivenUp(x, y, a, k);
      assert next[..k] == errors[..k] && next[k] == errors[k];
      assert EndsTrying(next, a, m, k) && GivenUp(x, z, a, k);
      NotAllRetried(next, a, m, k);
    }
  }

  lemma NotAllRetried(errors: seq<Error>, a: nat, maxRetries: nat, k: nat)
    requires EndsTrying(errors, a, maxRetries, k)
    ensures !AllRetried(errors, a, maxRetries)
  {
  }

  lemma {:induction false} ShapeRetries(init: seq<Activity>, x: Execution, errors: seq<Error>)
    requires Fresh(init) && Shape(init, x) && x.phase.Trying?
    ensures Shape(init, Failing(x, errors)) && RetriedUntil(x, errors, x.phase.attempt, Failing(x, errors))
  {
    if errors != [] {
      var before, e := errors[..|errors| - 1], errors[|errors| - 1];
      ShapeRetries(init, x, before);
      assert errors == before + [e];
      NextError(init, x, before, x.phase.attempt, Failing(x, before), e);
      AdvanceKeepsShape(init, Failing(x, before), Raised(e));
    }
  }

  /** At any point of any run, at any activity, under any errors in a row: the activity is still being
      tried exactly if none of the errors is completable and the retries are not used up; if not, it
      failed at the first error that was completable or met the last retry. Insufficient funds is not
      completable. */
  lemma RetriedUnlessCompletable(init: seq<Activity>, x: Execution, errors: seq<Error>)
    requires Fresh(init) && Reachable(init, x) && x.phase.Trying?
    ensures x.index < |x.activities| && RetriedUntil(x, errors, x.phase.attempt, Failing(x, errors))
    ensures !IsCompletable(InsufficientFunds)
  {
    ReachableShape(init, x);
    ShapeRetries(init, x, errors);
  }
}
