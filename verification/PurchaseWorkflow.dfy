/** Creating and executing one purchase with the manager: the six activities added one by one. */
module PurchaseWorkflow {
  import opened Workflow
  import opened WorkflowManager
  import opened PurchaseSaga

  method CreatePurchaseWorkflow() returns (x: WorkflowExecution)
    ensures fresh(x) && fresh(x.activities)
    ensures x.activities[..] == PurchaseActivities() && x.index == 0 && x.status == WRunning
  {
    var reserveBalance := NewActivity(true, 3);
    var reservePayment := NewActivity(true, 3);
    var reserveProduct := NewActivity(true, 3);
    var confirmBalance := NewActivity(false, 3);
    var chargePayment := NewActivity(false, 3);
    var confirmOrder := NewActivity(false, 3);
    var defined := [reserveBalance, reservePayment, reserveProduct, confirmBalance, chargePayment, confirmOrder];
    var added: seq<Activity> := [];
    for i := 0 to |defined|
      invariant added == defined[..i]
    {
      added := added + [defined[i]];
    }
    x := new WorkflowExecution(added);
  }

  /** A purchase executed to its end, however its handlers answer: at most 24 handler calls and 30
      compensation calls were made, and the record stands where the step function stopped. */
  method ExecutePurchase(env: nat -> Outcome) returns (status: WorkflowStatus, made: nat)
    ensures Replay(PurchaseActivities(), env, made).phase.Finished?
    ensures status == Replay(PurchaseActivities(), env, made).status
    ensures forall n: nat :: n < made ==> !Replay(PurchaseActivities(), env, n).phase.Finished?
    ensures made <= 54
  {
    var x := CreatePurchaseWorkflow();
    var manager := new SagaWorkflowManager(env, PurchaseActivities());
    var raised, low := manager.ExecuteWorkflow(x);
    status, made := x.status, manager.made;
    if made > 0 {
      RunTerminates(PurchaseActivities(), env, made - 1);
      assert MaxCalls(PurchaseActivities()) == 54 by { PurchaseAllowance(); }
    }
  }

  lemma PurchaseAllowance()
    ensures MaxCalls(PurchaseActivities()) == 54
  {
    var s := PurchaseActivities();
    assert Allowance(s, 6) == 0 && Allowance(s, 5) == 4 && Allowance(s, 4) == 8;
    assert Allowance(s, 3) == 12 && Allowance(s, 2) == 16 && Allowance(s, 1) == 20;
  }
}
