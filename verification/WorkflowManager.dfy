/**
 * The workflow manager in its own form: an execution record updated in place by a while loop over
 * the activities, a retry loop per activity and a compensation loop with its own retries. The
 * methods are proved to make exactly the steps of `Workflow.Advance`, so the results about runs
 * hold of them.
 */
module WorkflowManager {
  import opened Workflow

  class WorkflowExecution {
    var status: WorkflowStatus
    var index: nat
    const activities: array<Activity>

    constructor (init: seq<Activity>)
      ensures fresh(this) && fresh(activities)
      ensures activities[..] == init && status == WRunning && index == 0
    {
      status, index := WRunning, 0;
      activities := new Activity[|init|](i requires 0 <= i < |init| => init[i]);
      new;
      assert activities[..] == init;
    }

    ghost function View(phase: Phase): Execution
      reads this, activities
    {
      Execution(status, activities[..], index, phase)
    }
  }

  class SagaWorkflowManager {
    /** How the handlers answer, call by call: the services and everything that runs beside us. */
    const env: nat -> Outcome
    ghost const init: seq<Activity>
    var made: nat
    /** Where the step function stands after the calls made so far. */
    ghost var at: Execution

    ghost predicate Valid()
      reads this
    {
      Stands(init, env, made, at)
    }

    constructor (env: nat -> Outcome, ghost init: seq<Activity>)
      ensures Valid() && this.env == env && this.init == init && made == 0 && at == Start(init)
    {
      this.env, this.init, made, at := env, init, 0, Start(init);
    }

    /** One call of a handler or of a compensation handler. */
    method Invoke() returns (o: Outcome)
      requires Valid() && !at.phase.Finished?
      modifies this`made, this`at
      ensures Valid() && o == env(old(made)) && made == old(made) + 1 && at == Advance(old(at), o)
    {
      o := env(made);
      StandsNext(init, env, made, at);
      made := made + 1;
      at := Advance(at, o);
    }

    method ExecuteActivity(x: WorkflowExecution) returns (success: bool)
      requires Valid() && x.index < x.activities.Length && at == Enter(x.View(Finished(x.index)))
      modifies this`made, this`at, x.activities
      ensures Valid()
      ensures at == if success then Enter(Between(x.View(Finished(0)).(index := x.index + 1)))
                    else SeekUndo(Between(x.View(Finished(0)).(status := WCompensating)), x.index - 1)
    {
      x.activities[x.index] := x.activities[x.index].(status := Running);
      var maxRetries := x.activities[x.index].maxRetries;
      for attempt := 0 to maxRetries + 1
        invariant attempt <= maxRetries && x.activities[x.index].maxRetries == maxRetries
        invariant Valid() && at == x.View(Trying(attempt))
      {
        ghost var before := at;
        var o := Invoke();
        if o.Returned? {
          x.activities[x.index] := x.activities[x.index].(status := Completed);
          return true;
        }
        x.activities[x.index] := x.activities[x.index].(retryCount := attempt + 1, error := o);
        if IsCompletable(o.error) || attempt == maxRetries {
          x.activities[x.index] := x.activities[x.index].(status := Failed);
          assert Between(x.View(Finished(0)).(status := WCompensating)) == Fail(before, o);
          return false;
        }
      }
      return false;
    }

    method CompensateWorkflow(x: WorkflowExecution) returns (raised: bool, ghost low: nat)
      requires Valid() && x.index < x.activities.Length
      requires at == SeekUndo(Between(x.View(Finished(0)).(status := WCompensating)), x.index - 1)
      modifies this`made, this`at, x`status, x.activities
      ensures Valid() && at == x.View(Finished(low))
      ensures x.status == if raised then WFailed else WCompensated
    {
      x.status := WCompensating;
      for k := x.index downto 0
        invariant Valid() && x.status == WCompensating
        invariant at == SeekUndo(Between(x.View(Finished(0))), k - 1)
      {
        if x.activities[k].status == Completed && x.activities[k].compensable {
          var undone := false;
          for attempt := 0 to MAX_COMPENSATION_RETRIES
            invariant Valid() && x.status == WCompensating
            invariant !undone && at == x.View(Undoing(k, attempt))
            invariant attempt < MAX_COMPENSATION_RETRIES
          {
            var o := Invoke();
            if o.Returned? {
              x.activities[k] := x.activities[k].(status := Compensated);
              undone := true;
              break;
            }
            if attempt == MAX_COMPENSATION_RETRIES - 1 {
              x.status := WFailed;
              return true, k + 1;
            }
          }
        }
      }
      x.status := WCompensated;
      return false, 0;
    }

    /** Runs the workflow to its end: the record is left in the state the step function reaches
        after the calls made, and there the step function has finished. */
    method ExecuteWorkflow(x: WorkflowExecution) returns (raised: bool, ghost low: nat)
      requires Valid() && made == 0 && Fresh(init)
      requires x.activities[..] == init && x.index == 0 && x.status == WRunning
      modifies this`made, this`at, x, x.activities
      ensures Valid() && x.View(Finished(low)) == Replay(init, env, made)
      ensures raised <==> x.status == WFailed
    {
      while x.index < x.activities.Length
        invariant Valid() && x.status == WRunning && x.index <= x.activities.Length
        invariant at == Enter(x.View(Finished(x.index)))
        decreases x.activities.Length - x.index
      {
        var success := ExecuteActivity(x);
        if success {
          x.index := x.index + 1;
        } else {
          raised, low := CompensateWorkflow(x);
          return;
        }
      }
      x.status := WCompleted;
      return false, x.index;
    }
  }
}
