/** How far a failed purchase can take the state: settled although it failed, and a reservation below
    zero. */
module PurchaseExtremes {
  import opened Sums
  import opened Workflow
  import opened TccServices
  import opened TccAccounting
  import opened PurchaseSaga
  import opened PurchaseSafety
  import opened PurchaseOutcome
  import opened PurchaseExamples

  // --- Failed and settled -----------------------------------------------------------------------

  /** All replies of the last confirmation are lost. */
  function LostReplies(n: nat): System {
    if n == 0 then PurchaseExamples.Calls(Projecting, 5)
        else Step(Projecting, LostReplies(n - 1), Attempt(7, ReplyLost))
  }

  function Refused(n: nat): System {
    if n == 0 then LostReplies(4) else Step(Projecting, Refused(n - 1), Attempt(7, NoFault))
  }

  predicate AtLost(s: System, n: nat) {
    At(s, 5, if n <= 3 then Trying(n) else Undoing(2, 0), if n == 0 then 5 else 6, {})
  }

  lemma LoseReply(s: System, n: nat)
    requires Reached(Projecting, SHOP, s) && AtLost(s, n) && n <= 3
    ensures AtLost(Step(Projecting, s, Attempt(7, ReplyLost)), n + 1)
    ensures Reached(Projecting, SHOP, Step(Projecting, s, Attempt(7, ReplyLost)))
  {
    ReachedFlow(Projecting, SHOP, s, 7);
    assert AwaitsReply(s, 7);
    AttemptFlow(Projecting, s, 7, ReplyLost);
    PendingIsLive(s.flows[7]);
    CallReply(Projecting, s, 7, s.flows[7], Handler(5));
    ExecutionFails(s.flows[7].exec, n);
    ReachedStep(Projecting, SHOP, s, Attempt(7, ReplyLost));
  }

  lemma {:induction false} RepliesLost(n: nat)
    requires n <= 4
    ensures Reached(Projecting, SHOP, LostReplies(n)) && AtLost(LostReplies(n), n)
  {
    if n == 0 {
      FiveCalls();
      CallsReached(Projecting, 5);
    } else {
      RepliesLost(n - 1);
      LoseReply(LostReplies(n - 1), n - 1);
    }
  }

  predicate AtRefused(s: System, n: nat) {
    At(s, 5, if n < MAX_COMPENSATION_RETRIES then Undoing(2, n) else Finished(3), 6, {})
  }

  lemma RefuseOrder(s: System, n: nat)
    requires Reached(Projecting, SHOP, s) && AtRefused(s, n) && n < MAX_COMPENSATION_RETRIES
    ensures AtRefused(Step(Projecting, s, Attempt(7, NoFault)), n + 1)
    ensures Reached(Projecting, SHOP, Step(Projecting, s, Attempt(7, NoFault)))
  {
    ReachedFlow(Projecting, SHOP, s, 7);
    assert AwaitsReply(s, 7);
    AttemptFlow(Projecting, s, 7, NoFault);
    PendingIsLive(s.flows[7]);
    CallReply(Projecting, s, 7, s.flows[7], Compensation(2));
    ReachedStep(Projecting, SHOP, s, Attempt(7, NoFault));
  }

  lemma {:induction false} OrderRefused(n: nat)
    requires n <= MAX_COMPENSATION_RETRIES
    ensures Reached(Projecting, SHOP, Refused(n)) && AtRefused(Refused(n), n)
  {
    if n == 0 {
      RepliesLost(4);
    } else {
      OrderRefused(n - 1);
      RefuseOrder(Refused(n - 1), n - 1);
    }
  }

  /** The order is confirmed but every reply is lost: the workflow reports FAILED, and the purchase is
      settled in all three services. */
  lemma FailedButSettled()
    ensures var s := Refused(5);
      && Reached(Projecting, SHOP, s) && 7 in s.flows
      && s.flows[7].exec.status == WFailed && Settled(s, 7)
  {
    OrderRefused(5);
    SettledThough(Refused(5));
  }

  lemma SettledThough(s: System)
    requires Reached(Projecting, SHOP, s) && AtRefused(s, 5)
    ensures 7 in s.flows && s.flows[7].exec.status == WFailed && Settled(s, 7)
  {
    ReachedFlow(Projecting, SHOP, s, 7);
    SettledIff(Projecting, SHOP, s, 7);
  }

  // --- A reservation below zero -----------------------------------------------------------------

  lemma AttemptKeeps(b: Binding, s: System, t: TxId, fault: Fault)
    ensures var s' := Step(b, s, Attempt(t, fault));
            s'.flows.Keys == s.flows.Keys && s'.pay.methods == s.pay.methods
  {
    if t in s.flows && Placed(s.flows[t].exec) && !s.flows[t].exec.phase.Finished? {
      InvokeFrame(b, s, t, s.flows[t].req, NextCall(s.flows[t].exec), t);
    }
  }

  predicate OneFlow(s: System) { s.flows.Keys == {7} && s.pay.methods == SHOP.pay.methods }

  lemma {:induction false} CallsOneFlow(b: Binding, n: nat)
    ensures OneFlow(PurchaseExamples.Calls(b, n))
  {
    if n > 0 {
      CallsOneFlow(b, n - 1);
      AttemptKeeps(b, PurchaseExamples.Calls(b, n - 1), 7, NoFault);
    }
  }

  lemma {:induction false} FailuresOneFlow(b: Binding, calls: nat, n: nat)
    ensures OneFlow(Failures(b, calls, n))
  {
    if n > 0 {
      FailuresOneFlow(b, calls, n - 1);
      AttemptKeeps(b, Failures(b, calls, n - 1), 7, FailBefore);
    } else {
      CallsOneFlow(b, calls);
    }
  }

  lemma {:induction false} CompensationsOneFlow(b: Binding, calls: nat, n: nat)
    ensures OneFlow(Compensations(b, calls, n))
  {
    if n > 0 {
      CompensationsOneFlow(b, calls, n - 1);
      AttemptKeeps(b, Compensations(b, calls, n - 1), 7, NoFault);
    } else {
      FailuresOneFlow(b, calls, 4);
    }
  }

  /** One purchase of the user was confirmed and then compensated; another has made `k` reservations. */
  ghost predicate Second(s: System, k: nat) {
    && Reached(Projecting, SHOP, s) && s.flows.Keys == {7, 8} && s.pay.methods == SHOP.pay.methods
    && At(s, 4, Finished(0), 4, {2, 1, 0})
    && s.flows[8].req == ONE_PIECE && s.flows[8].exec.phase == Trying(0) && s.flows[8].exec.index == k
    && |s.flows[8].effects| == k && s.flows[8].undone == {}
  }

  lemma TransactionsNow(s: System, k: nat)
    requires Second(s, k) && k <= 3
    ensures Total(s.users.txs, ReservedFor(1)) == if k == 0 then 0 else 100
    ensures Total(s.users.txs, ConfirmedFor(1)) == 0
  {
    ReachedOk(Projecting, SHOP, s);
    ReachedFlow(Projecting, SHOP, s, 7);
    ReachedFlow(Projecting, SHOP, s, 8);
    TotalOfTwo(s.users.txs, ReservedFor(1), 7, 8);
    TotalOfTwo(s.users.txs, ConfirmedFor(1), 7, 8);
  }

  lemma LostNow(s: System, k: nat)
    requires Second(s, k)
    ensures Total(s.flows, LostFor(1)) == 100
  {
    TotalOfTwo(s.flows, LostFor(1), 7, 8);
  }

  /** The first one's debit is missing from the reservation. */
  lemma AccountNow(s: System, k: nat)
    requires Second(s, k) && k <= 3
    ensures 1 in s.users.users && s.users.users[1] == Account(900, if k == 0 then -100 else 0)
  {
    TransactionsNow(s, k);
    LostNow(s, k);
    ReachedAccount(Projecting, SHOP, s, 1);
  }

  lemma StockNow(s: System, k: nat)
    requires Second(s, k) && k <= 2
    ensures 1 in s.stock.products && s.stock.products[1].stock == 10 && s.stock.products[1].reserved == 0
  {
    ReachedOk(Projecting, SHOP, s);
    ReachedFlow(Projecting, SHOP, s, 7);
    ReachedFlow(Projecting, SHOP, s, 8);
    StockExact(Projecting, SHOP, s, 1);
    TotalOfTwo(s.stock.orders, ReservedQuantity(1), 7, 8);
    TotalOfTwo(s.stock.orders, SoldQuantity(1), 7, 8);
  }

  /** So the other one's reservations are granted. */
  lemma ReservationGranted(s: System, k: nat)
    requires Second(s, k) && k <= 2
    ensures Invoke(Projecting, s, 8, ONE_PIECE, Handler(k)).1.Applied?
  {
    ReachedFlow(Projecting, SHOP, s, 8);
    AccountNow(s, k);
    StockNow(s, k);
  }

  lemma NextReservation(s: System, k: nat)
    requires Second(s, k) && k <= 2
    ensures Second(Step(Projecting, s, Attempt(8, NoFault)), k + 1)
  {
    ReachedFlow(Projecting, SHOP, s, 8);
    ReservationGranted(s, k);
    assert AwaitsReply(s, 8);
    AttemptFlow(Projecting, s, 8, NoFault);
    AttemptKeeps(Projecting, s, 8, NoFault);
    OtherFlows(Projecting, s, Attempt(8, NoFault), 7);
    ReachedStep(Projecting, SHOP, s, Attempt(8, NoFault));
  }

  /** The user buys again after the purchase that was compensated, and reserves everything. */
  function Reserved(n: nat): System {
    if n == 0 then Step(Projecting, Compensations(Projecting, 4, 3), Submit(8, ONE_PIECE))
    else Step(Projecting, Reserved(n - 1), Attempt(8, NoFault))
  }

  lemma Submitted(s: System)
    requires Reached(Projecting, SHOP, s) && OneFlow(s) && At(s, 4, Finished(0), 4, {2, 1, 0})
    ensures Second(Step(Projecting, s, Submit(8, ONE_PIECE)), 0)
  {
    ReachedStep(Projecting, SHOP, s, Submit(8, ONE_PIECE));
  }

  lemma {:induction false} AllReserved(n: nat)
    requires n <= 3
    ensures Second(Reserved(n), n)
  {
    if n == 0 {
      ThreeCompensations();
      CompensationsReached(Projecting, 4, 3);
      CompensationsOneFlow(Projecting, 4, 3);
      Submitted(Compensations(Projecting, 4, 3));
    } else {
      AllReserved(n - 1);
      NextReservation(Reserved(n - 1), n - 1);
    }
  }

  /** The user's account covers the next purchase only because the reservation is short: confirming it
      takes the reservation below zero. */
  lemma ConfirmationGoesBelowZero()
    ensures var s := Reserved(3);
      && Reached(Projecting, SHOP, s) && Confirming(s, 8) && 1 in s.users.users
          && 1 in Confirm(Projecting, s, 8).0.users.users
      && s.users.users[1].reserved == 0 && Confirm(Projecting, s, 8).0.users.users[1].reserved == -100
  {
    AllReserved(3);
    BelowZero(Reserved(3));
  }

  lemma BelowZero(s: System)
    requires Second(s, 3)
    ensures Confirming(s, 8) && 1 in s.users.users && 1 in Confirm(Projecting, s, 8).0.users.users
    ensures s.users.users[1].reserved == 0 && Confirm(Projecting, s, 8).0.users.users[1].reserved == -100
  {
    ReachedFlow(Projecting, SHOP, s, 8);
    AccountNow(s, 3);
    DebitTaken(Projecting, s, 8, 1);
  }
}
