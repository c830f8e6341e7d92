/** Concrete runs in which a purchase ends neither settled nor with nothing left. */
module PurchaseExamples {
  import opened Workflow
  import opened TccServices
  import opened TccAccounting
  import opened PurchaseSaga
  import opened PurchaseSafety
  import opened PurchaseOutcome

  /** One user with a balance of 1000, one payment method, ten pieces of one product. */
  const SHOP := System(
    UserDb(map[1 := Account(1000, 0)], map[]),
    PaymentDb(map[1 := PaymentMethod(1, true)], map[]),
    OrderDb(map[1 := Product(50000, 10, 0)], map[]), map[])

  const ONE_PIECE := Request(1, 1, 1, 1)

  /** The state after the purchase was submitted and made `n` undisturbed calls. */
  function Calls(b: Binding, n: nat): System {
    if n == 0 then Step(b, SHOP, Submit(7, ONE_PIECE)) else Step(b, Calls(b, n - 1), Attempt(7, NoFault))
  }

  lemma {:induction false} CallsReached(b: Binding, n: nat)
    ensures Reached(b, SHOP, Calls(b, n))
  {
    if n == 0 {
      assert Run(b, SHOP, []) == SHOP && Orderly([]);
      ReachedStep(b, SHOP, SHOP, Submit(7, ONE_PIECE));
    } else {
      CallsReached(b, n - 1);
      ReachedStep(b, SHOP, Calls(b, n - 1), Attempt(7, NoFault));
    }
  }

  /** ... and then `n` calls that failed before reaching the service. */
  function Failures(b: Binding, calls: nat, n: nat): System {
    if n == 0 then Calls(b, calls) else Step(b, Failures(b, calls, n - 1), Attempt(7, FailBefore))
  }

  /** ... and then `n` undisturbed ones again. */
  function Compensations(b: Binding, calls: nat, n: nat): System {
    if n == 0 then Failures(b, calls, 4) else Step(b, Compensations(b, calls, n - 1), Attempt(7, NoFault))
  }

  lemma {:induction false} FailuresReached(b: Binding, calls: nat, n: nat)
    ensures Reached(b, SHOP, Failures(b, calls, n))
  {
    if n == 0 {
      CallsReached(b, calls);
    } else {
      FailuresReached(b, calls, n - 1);
      ReachedStep(b, SHOP, Failures(b, calls, n - 1), Attempt(7, FailBefore));
    }
  }

  lemma {:induction false} CompensationsReached(b: Binding, calls: nat, n: nat)
    ensures Reached(b, SHOP, Compensations(b, calls, n))
  {
    if n == 0 {
      FailuresReached(b, calls, 4);
    } else {
      CompensationsReached(b, calls, n - 1);
      ReachedStep(b, SHOP, Compensations(b, calls, n - 1), Attempt(7, NoFault));
    }
  }

  lemma TwoCalls()
    ensures var s := Calls(Projecting, 2);
      && At(s, 2, Trying(0), 2, {}) && |s.flows[7].exec.activities| == STEPS
      && s.users == UserDb(map[1 := Account(1000, 100)], map[7 := BalanceTx(1, 100, Reserved)]) && s.stock == SHOP.stock
  {
    var s0, s1 := Calls(Projecting, 0), Calls(Projecting, 1);
    assert s0.flows[7].exec.phase == Trying(0) && s0.flows[7].exec.index == 0;
    assert s1.flows[7].exec.phase == Trying(0) && s1.flows[7].exec.index == 1;
  }

  lemma FourCalls()
    ensures At(Calls(Projecting, 4), 4, Trying(0), 4, {})
  {
    TwoCalls();
    var s2, s3 := Calls(Projecting, 2), Calls(Projecting, 3);
    assert At(s3, 3, Trying(0), 3, {});
  }

  predicate At(s: System, index: nat, phase: Phase, effects: nat, undone: set<nat>) {
    && 7 in s.flows && s.flows[7].exec.index == index && s.flows[7].exec.phase == phase
    && |s.flows[7].effects| == effects && s.flows[7].undone == undone && s.flows[7].req == ONE_PIECE
  }

  function AfterFailure(k: nat, attempt: nat): Phase {
    if attempt < 3 then Trying(attempt + 1)
    else Undoing(if k == 0 then 0 else if k < TRIES then k - 1 else TRIES - 1, 0)
  }

  lemma ExecutionFails(x: Execution, attempt: nat)
    requires Shape(PurchaseActivities(), x) && x.phase == Trying(attempt) && x.index > 0
    ensures Advance(x, Raised(Transient)).index == x.index
    ensures Advance(x, Raised(Transient)).phase == AfterFailure(x.index, attempt)
  {
    if attempt == 3 { SeekFrom(Fail(x, Raised(Transient)), x.index - 1); }
  }

  /** Looking for something to undo finds the highest reservation. */
  lemma {:induction false} SeekFrom(x: Execution, i: nat)
    requires i < |x.activities| == STEPS
    requires forall j :: 0 <= j <= i ==>
      x.activities[j].status == Completed && (x.activities[j].compensable <==> j < TRIES)
    ensures SeekUndo(x, i).phase == Undoing(if i < TRIES then i else TRIES - 1, 0)
  {
    if i >= TRIES { SeekFrom(x, i - 1); }
  }

  /** The current handler, `k`, cannot be reached: four times, and compensation starts. */
  lemma Fails(b: Binding, s: System, k: nat, attempt: nat)
    requires Reached(b, SHOP, s) && At(s, k, Trying(attempt), k, {}) && attempt <= 3 && 0 < k < STEPS
    ensures At(Step(b, s, Attempt(7, FailBefore)), k, AfterFailure(k, attempt), k, {})
  {
    ReachedFlow(b, SHOP, s, 7);
    assert AwaitsReply(s, 7);
    AttemptFlow(b, s, 7, FailBefore);
    ExecutionFails(s.flows[7].exec, attempt);
  }

  lemma FourFailures(b: Binding, k: nat)
    requires At(Calls(b, k), k, Trying(0), k, {}) && 0 < k < STEPS
    ensures At(Failures(b, k, 4), k, AfterFailure(k, 3), k, {})
  {
    forall n: nat | n <= 4 ensures Reached(b, SHOP, Failures(b, k, n)) { FailuresReached(b, k, n); }
    Fails(b, Failures(b, k, 0), k, 0);
    Fails(b, Failures(b, k, 1), k, 1);
    Fails(b, Failures(b, k, 2), k, 2);
    Fails(b, Failures(b, k, 3), k, 3);
  }

  lemma Compensates(s: System, i: nat, undone: set<nat>)
    requires Reached(Projecting, SHOP, s) && At(s, 4, Undoing(i, 0), 4, undone) && i < TRIES
    requires forall j :: j in undone ==> i < j
    ensures At(Step(Projecting, s, Attempt(7, NoFault)), 4,
               if i > 0 then Undoing(i - 1, 0) else Finished(0), 4, undone + {i})
  {
    ReachedFlow(Projecting, SHOP, s, 7);
    assert AwaitsReply(s, 7);
    AttemptFlow(Projecting, s, 7, NoFault);
    PendingIsLive(s.flows[7]);
    CallReply(Projecting, s, 7, s.flows[7], Compensation(i));
    AdvanceMoves(PurchaseActivities(), s.flows[7].exec, Returned);
  }

  lemma CompensatedAfterConfirm(s: System)
    requires Reached(Projecting, SHOP, s) && At(s, 4, Finished(0), 4, {2, 1, 0})
    ensures 1 in s.users.users && s.flows[7].exec.status == WCompensated
    ensures !NothingLeft(s, 7) && !ExactAccount(SHOP, s, 1)
  {
    ReachedFlow(Projecting, SHOP, s, 7);
    AccountExactIff(Projecting, SHOP, s, 1);
  }

  /** Charging fails four times after the balance was confirmed: the workflow reports compensated,
      but the user has been debited and the books no longer agree. */
  lemma ConfirmedThenCompensated()
    ensures var s := Compensations(Projecting, 4, 3);
      && Reached(Projecting, SHOP, s) && 7 in s.flows && 1 in s.users.users
      && s.flows[7].exec.status == WCompensated && !NothingLeft(s, 7) && !ExactAccount(SHOP, s, 1)
  {
    ThreeCompensations();
    CompensationsReached(Projecting, 4, 3);
    CompensatedAfterConfirm(Compensations(Projecting, 4, 3));
  }

  lemma ThreeCompensations()
    ensures At(Compensations(Projecting, 4, 3), 4, Finished(0), 4, {2, 1, 0})
  {
    FourCalls();
    FourFailures(Projecting, 4);
    FailuresReached(Projecting, 4, 4);
    ThreeFrom(Failures(Projecting, 4, 4));
  }

  lemma ThreeFrom(s: System)
    requires Reached(Projecting, SHOP, s) && At(s, 4, Undoing(2, 0), 4, {})
    ensures var again := Attempt(7, NoFault);
      At(Step(Projecting, Step(Projecting, Step(Projecting, s, again), again), again), 4, Finished(0), 4, {2, 1, 0})
  {
    var again := Attempt(7, NoFault);
    Compensates(s, 2, {});
    ReachedStep(Projecting, SHOP, s, again);
    Compensates(Step(Projecting, s, again), 1, {2});
    ReachedStep(Projecting, SHOP, Step(Projecting, s, again), again);
    Compensates(Step(Projecting, Step(Projecting, s, again), again), 0, {2, 1});
  }

  lemma FiveCalls()
    ensures At(Calls(Projecting, 5), 5, Trying(0), 5, {})
  {
    FourCalls();
    CallsReached(Projecting, 4);
    Calls4Charges(Calls(Projecting, 4));
  }

  lemma Calls4Charges(s: System)
    requires Reached(Projecting, SHOP, s) && At(s, 4, Trying(0), 4, {})
    ensures At(Step(Projecting, s, Attempt(7, NoFault)), 5, Trying(0), 5, {})
  {
    ReachedFlow(Projecting, SHOP, s, 7);
    assert AwaitsReply(s, 7);
    AttemptFlow(Projecting, s, 7, NoFault);
    PendingIsLive(s.flows[7]);
    CallReply(Projecting, s, 7, s.flows[7], Handler(4));
  }

  /** The order's reservation is cancelled. */
  lemma OrderCancelled(s: System)
    requires Reached(Projecting, SHOP, s) && At(s, 5, Undoing(2, 0), 5, {})
    ensures At(Step(Projecting, s, Attempt(7, NoFault)), 5, Undoing(1, 0), 5, {2})
  {
    ReachedFlow(Projecting, SHOP, s, 7);
    assert AwaitsReply(s, 7);
    AttemptFlow(Projecting, s, 7, NoFault);
    PendingIsLive(s.flows[7]);
    CallReply(Projecting, s, 7, s.flows[7], Compensation(2));
    AdvanceMoves(PurchaseActivities(), s.flows[7].exec, Returned);
  }

  /** A charged payment is not. */
  lemma PaymentRefused(s: System, tries: nat)
    requires Reached(Projecting, SHOP, s) && At(s, 5, Undoing(1, tries), 5, {2}) && tries < MAX_COMPENSATION_RETRIES
    ensures At(Step(Projecting, s, Attempt(7, NoFault)), 5,
               if tries < MAX_COMPENSATION_RETRIES - 1 then Undoing(1, tries + 1) else Finished(2), 5, {2})
  {
    ReachedFlow(Projecting, SHOP, s, 7);
    assert AwaitsReply(s, 7);
    AttemptFlow(Projecting, s, 7, NoFault);
    PendingIsLive(s.flows[7]);
    CallReply(Projecting, s, 7, s.flows[7], Compensation(1));
  }

  /** Confirming the order fails four times after the payment was charged: the order's reservation is
      taken back, the payment's refused five times, and the user stays debited and charged for an order
      that is cancelled. */
  lemma FailedOrderIsDebitedAndCharged()
    ensures var s := Compensations(Projecting, 5, 6);
      && Reached(Projecting, SHOP, s) && 7 in s.flows && s.flows[7].exec.status == WFailed
      && 7 in s.users.txs && s.users.txs[7].status == Confirmed
      && 7 in s.pay.payments && s.pay.payments[7].status == Charged
      && 7 in s.stock.orders && s.stock.orders[7].status == Cancelled
  {
    FiveCalls();
    FourFailures(Projecting, 5);
    CompensationsReached(Projecting, 5, 6);
    Refusals(5, 6);
    StuckAtPayment(Compensations(Projecting, 5, 6));
  }

  /** After `n` compensation calls: the order's is taken, the payment's are refused. */
  predicate AtRefusal(s: System, n: nat) {
    At(s, 5, if n == 0 then Undoing(2, 0) else if n <= MAX_COMPENSATION_RETRIES then Undoing(1, n - 1) else Finished(2),
       5, if n == 0 then {} else {2})
  }

  lemma NextRefusal(s: System, n: nat)
    requires Reached(Projecting, SHOP, s) && AtRefusal(s, n) && n <= MAX_COMPENSATION_RETRIES
    ensures AtRefusal(Step(Projecting, s, Attempt(7, NoFault)), n + 1)
  {
    if n == 0 { OrderCancelled(s); } else { PaymentRefused(s, n - 1); }
  }

  lemma {:induction false} Refusals(calls: nat, n: nat)
    requires n <= MAX_COMPENSATION_RETRIES + 1 && AtRefusal(Failures(Projecting, calls, 4), 0)
    ensures AtRefusal(Compensations(Projecting, calls, n), n)
  {
    if n > 0 {
      Refusals(calls, n - 1);
      CompensationsReached(Projecting, calls, n - 1);
      NextRefusal(Compensations(Projecting, calls, n - 1), n - 1);
    }
  }

  lemma StuckAtPayment(s: System)
    requires Reached(Projecting, SHOP, s) && At(s, 5, Finished(2), 5, {2})
    ensures s.flows[7].exec.status == WFailed
    ensures 7 in s.users.txs && s.users.txs[7].status == Confirmed
    ensures 7 in s.pay.payments && s.pay.payments[7].status == Charged
    ensures 7 in s.stock.orders && s.stock.orders[7].status == Cancelled
  {
    ReachedFlow(Projecting, SHOP, s, 7);
    FinishedStatus(s.flows[7]);
    FailedOrderStaysCharged(Projecting, SHOP, s, 7);
  }

  lemma BareRefuses(s: System, tries: nat)
    requires Reached(Bare, SHOP, s) && At(s, 1, Undoing(0, tries), 1, {}) && tries < MAX_COMPENSATION_RETRIES
    ensures At(Step(Bare, s, Attempt(7, NoFault)), 1,
               if tries < MAX_COMPENSATION_RETRIES - 1 then Undoing(0, tries + 1) else Finished(1), 1, {})
  {
    ReachedFlow(Bare, SHOP, s, 7);
    assert AwaitsReply(s, 7);
    AttemptFlow(Bare, s, 7, NoFault);
    PendingIsLive(s.flows[7]);
    CallReply(Bare, s, 7, s.flows[7], Compensation(0));
  }

  /** Handlers bound as the manager binds them: reserving the payment fails, and although every
      compensation call is made the balance stays reserved for good. */
  lemma BareLeavesReservation()
    ensures var s := Compensations(Bare, 1, 5);
      && Reached(Bare, SHOP, s) && 7 in s.flows && s.flows[7].exec.phase.Finished? && !NothingLeft(s, 7)
  {
    var s0 := Calls(Bare, 0);
    assert At(s0, 0, Trying(0), 0, {});
    FourFailures(Bare, 1);
    forall n: nat | n <= 5 ensures Reached(Bare, SHOP, Compensations(Bare, 1, n)) { CompensationsReached(Bare, 1, n); }
    BareRefuses(Compensations(Bare, 1, 0), 0);
    BareRefuses(Compensations(Bare, 1, 1), 1);
    BareRefuses(Compensations(Bare, 1, 2), 2);
    BareRefuses(Compensations(Bare, 1, 3), 3);
    BareRefuses(Compensations(Bare, 1, 4), 4);
    BareNeverCompensates(SHOP, Compensations(Bare, 1, 5), 7);
  }

  lemma FirstFails(s: System, attempt: nat)
    requires At(s, 0, Trying(attempt), 0, {}) && attempt < 3
    requires |s.flows[7].exec.activities| == STEPS && s.flows[7].exec.activities[0].maxRetries == 3
    ensures var s' := Step(Projecting, s, Attempt(7, FailBefore));
      && At(s', 0, Trying(attempt + 1), 0, {}) && s'.users == s.users
      && |s'.flows[7].exec.activities| == STEPS && s'.flows[7].exec.activities[0].maxRetries == 3
  {
  }

  /** The reservation of the balance commits at the last attempt but its reply is lost: the
      workflow reports compensated, and the amount stays reserved for good. */
  lemma LostReplyLeavesReservation()
    ensures var s := Step(Projecting, Failures(Projecting, 0, 3), Attempt(7, ReplyLost));
      && Reached(Projecting, SHOP, s) && 7 in s.flows && s.flows[7].exec.status == WCompensated && !NothingLeft(s, 7)
  {
    FirstFails(Failures(Projecting, 0, 0), 0);
    FirstFails(Failures(Projecting, 0, 1), 1);
    FirstFails(Failures(Projecting, 0, 2), 2);
    FailuresReached(Projecting, 0, 3);
    LastReplyLost(Failures(Projecting, 0, 3));
  }

  lemma LastReplyLost(s: System)
    requires Reached(Projecting, SHOP, s) && At(s, 0, Trying(3), 0, {}) && s.users == SHOP.users
    ensures var s' := Step(Projecting, s, Attempt(7, ReplyLost));
      && Reached(Projecting, SHOP, s') && 7 in s'.flows
      && s'.flows[7].exec.status == WCompensated && !NothingLeft(s', 7)
  {
    ReachedStep(Projecting, SHOP, s, Attempt(7, ReplyLost));
    ReachedFlow(Projecting, SHOP, s, 7);
    assert AwaitsReply(s, 7);
    AttemptFlow(Projecting, s, 7, ReplyLost);
    CompensatedLeavesNothingIff(Projecting, SHOP, Step(Projecting, s, Attempt(7, ReplyLost)), 7);
  }
}
