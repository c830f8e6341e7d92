/**
 * What becomes of each purchase: all or nothing, exactly once, and exactly when not.
 */
module PurchaseOutcome {
  import opened Sums
  import opened Workflow
  import opened TccServices
  import opened TccAccounting
  import opened PurchaseSaga
  import opened PurchaseSafety

  lemma ReachedFlow(b: Binding, start: System, s: System, t: TxId)
    requires Reached(b, start, s) && t in s.flows
    ensures FlowOk(s.flows[t]) && s.flows[t].req.quantity > 0 && RowsOk(s, t, s.flows[t])
  {
    ReachedOk(b, start, s);
    assert PurchaseOk(s, t);
  }

  // --- Exactly once -----------------------------------------------------------------------------

  lemma {:induction false} UpToCounts(n: nat, j: nat)
    ensures multiset(UpTo(n))[j] == if j < n then 1 else 0
  {
    if n > 0 {
      assert UpTo(n) == UpTo(n - 1) + [n - 1];
      UpToCounts(n - 1, j);
    }
  }

  /** How often an activity with this status has taken effect. */
  predicate OnceAtMost(status: ActivityStatus, count: nat) {
    match status
    case Completed => count == 1
    case Compensated => count == 1
    case Pending => count == 0
    case _ => count <= 1
  }

  /** Exactly once under at-least-once delivery: whatever replies are lost, a completed activity
      has taken effect exactly once, a failed or running one at most once, a pending one never. */
  lemma ExactlyOnce(b: Binding, start: System, s: System, t: TxId, j: nat)
    requires Reached(b, start, s) && t in s.flows && j < STEPS
    ensures var f := s.flows[t];
            j < |f.exec.activities| && OnceAtMost(f.exec.activities[j].status, multiset(f.effects)[j])
  {
    ReachedFlow(b, start, s, t);
    var f := s.flows[t];
    UpToCounts(|f.effects|, j);
    FlowEffects(f, j);
  }

  lemma FlowEffects(f: Flow, j: nat)
    requires FlowOk(f) && j < STEPS
    ensures |f.exec.activities| == STEPS
    ensures var n := |f.effects|;
            match f.exec.activities[j].status
            case Completed => j < n
            case Compensated => j < n
            case Pending => n <= j
            case _ => true
  {
    if f.exec.index < j { assert f.exec.activities[j] == PurchaseActivities()[j]; }
  }

  // --- Confirmations ----------------------------------------------------------------------------

  predicate Confirming(s: System, t: TxId) {
    t in s.flows && s.flows[t].exec.phase.Trying? && TRIES <= s.flows[t].exec.index < STEPS
  }

  function Confirm(b: Binding, s: System, t: TxId): (System, Reply) requires t in s.flows {
    Invoke(b, s, t, s.flows[t].req, Handler(s.flows[t].exec.index))
  }

  /** Once its three reservations are made, no confirmation of a purchase is refused, whatever
      other purchases did in between. */
  lemma ConfirmsNeverRefused(b: Binding, start: System, s: System, t: TxId)
    requires Reached(b, start, s) && Confirming(s, t)
    ensures !Confirm(b, s, t).1.Refused?
  {
    ReachedFlow(b, start, s, t);
    PendingIsLive(s.flows[t]);
    CallReply(b, s, t, s.flows[t], Handler(s.flows[t].exec.index));
  }

  /** ... and none drives a stock or its reservation below zero, nor a user's balance below the
      reservation. The user's reservation stays at or above zero exactly if it covers what is about to
      be taken off it: that is, if what the user's spoiled purchases have taken off is no more than
      what is then reserved, and always if there are none. */
  lemma ConfirmsStayAboveZero(b: Binding, start: System, s: System, t: TxId, u: int, p: int)
    requires Reached(b, start, s) && Confirming(s, t) && u in start.users.users && p in start.stock.products
    ensures var s' := Confirm(b, s, t).0;
      && u in s'.users.users && s'.users.users[u].reserved <= s'.users.users[u].balance
      && u in s.users.users
      && (0 <= s'.users.users[u].reserved <==>
            s.users.users[u].reserved >= if Debits(s, t, u) then PRICE * s.flows[t].req.quantity else 0)
      && (0 <= s'.users.users[u].reserved <==> Total(s.flows, LostFor(u)) <= Total(s'.users.txs, ReservedFor(u)))
      && (Unspoiled(s, u) ==> 0 <= s'.users.users[u].reserved)
      && p in s'.stock.products && 0 <= s'.stock.products[p].reserved <= s'.stock.products[p].stock
  {
    var e := Attempt(t, NoFault);
    var s' := Step(b, s, e);
    ReachedFlow(b, start, s, t);
    ReachedStep(b, start, s, e);
    StepIsCall(b, s, t, NoFault);
    ConfirmingLosesNothing(b, s, t, u);
    ReachedAccount(b, start, s, u);
    ReachedAccount(b, start, s', u);
    if Unspoiled(s, u) { AccountExactIff(b, start, s', u); }
    StockExact(b, start, s', p);
    DebitTaken(b, s, t, u);
  }

  /** The pending confirmation is one of the user's balance that has not taken effect yet. */
  predicate Debits(s: System, t: TxId, u: int)
    requires t in s.flows
  {
    s.flows[t].req.user == u && s.flows[t].exec.index == TRIES == |s.flows[t].effects|
  }

  lemma DebitTaken(b: Binding, s: System, t: TxId, u: int)
    requires AwaitsReply(s, t) && Confirming(s, t) && u in s.users.users
    ensures u in Confirm(b, s, t).0.users.users
    ensures Confirm(b, s, t).0.users.users[u].reserved
         == s.users.users[u].reserved - if Debits(s, t, u) then PRICE * s.flows[t].req.quantity else 0
  {
    PendingIsLive(s.flows[t]);
  }

  /** A confirmation spoils no purchase. */
  lemma ConfirmingLosesNothing(b: Binding, s: System, t: TxId, u: int)
    requires AwaitsReply(s, t) && Confirming(s, t)
    ensures Total(Step(b, s, Attempt(t, NoFault)).flows, LostFor(u)) == Total(s.flows, LostFor(u))
  {
    PendingIsLive(s.flows[t]);
    StepIsCall(b, s, t, NoFault);
    TotalUpdate(s.flows, LostFor(u), t, Step(b, s, Attempt(t, NoFault)).flows[t]);
  }

  lemma ReachedAccount(b: Binding, start: System, s: System, u: int)
    requires Reached(b, start, s) && u in start.users.users
    ensures u in s.users.users && s.users.users[u].reserved <= s.users.users[u].balance
    ensures s.users.users[u].reserved == Total(s.users.txs, ReservedFor(u)) - Total(s.flows, LostFor(u))
    ensures s.users.users[u].balance
         == start.users.users[u].balance - Total(s.users.txs, ConfirmedFor(u)) - Total(s.flows, LostFor(u))
    ensures Unspoiled(s, u) <==> Total(s.flows, LostFor(u)) == 0
  {
    ReachedOk(b, start, s);
    LostIffSpoiled(s, u);
    assert AccountOk(s.users, Balances(start), u, Total(s.flows, LostFor(u)));
  }

  // --- All or nothing ---------------------------------------------------------------------------

  /** Paid, charged and sold. */
  predicate Settled(s: System, t: TxId) {
    && t in s.users.txs && s.users.txs[t].status == Confirmed
    && t in s.pay.payments && s.pay.payments[t].status == Charged
    && t in s.stock.orders && s.stock.orders[t].status == Confirmed
  }

  /** No row of the purchase is in force and nothing was debited. */
  predicate NothingLeft(s: System, t: TxId) requires t in s.flows {
    && (t in s.users.txs ==> s.users.txs[t].status == Cancelled)
    && (t in s.pay.payments ==> s.pay.payments[t].status == Cancelled)
    && (t in s.stock.orders ==> s.stock.orders[t].status == Cancelled)
    && !Spoiled(s.flows[t])
  }

  lemma RowsSettled(s: System, t: TxId)
    requires t in s.flows && RowsOk(s, t, s.flows[t]) && |s.flows[t].effects| == STEPS && s.flows[t].undone == {}
    ensures Settled(s, t)
  {
  }

  lemma RowsUndone(s: System, t: TxId)
    requires t in s.flows && RowsOk(s, t, s.flows[t])
    ensures NothingLeft(s, t) <==>
      && !Spoiled(s.flows[t])
      && forall i :: 0 <= i < TRIES && i < |s.flows[t].effects| ==> i in s.flows[t].undone
  {
    var f := s.flows[t];
    assert (forall i :: 0 <= i < TRIES && i < |f.effects| ==> i in f.undone) <==>
      && (0 < |f.effects| ==> 0 in f.undone)
      && (1 < |f.effects| ==> 1 in f.undone)
      && (2 < |f.effects| ==> 2 in f.undone);
  }

  lemma CompletedFlow(f: Flow)
    requires FlowOk(f) && f.exec.status == WCompleted
    ensures |f.effects| == STEPS && f.undone == {}
  {
  }

  lemma CompensatedFlow(f: Flow)
    requires FlowOk(f) && f.exec.status == WCompensated
    ensures f.exec.index <= |f.effects| <= f.exec.index + 1
    ensures forall i :: 0 <= i < TRIES ==> (i in f.undone <==> i < f.exec.index)
  {
  }

  /** A completed purchase is settled in all three services. */
  lemma CompletedIsSettled(b: Binding, start: System, s: System, t: TxId)
    requires Reached(b, start, s) && t in s.flows && s.flows[t].exec.status == WCompleted
    ensures Settled(s, t)
  {
    ReachedFlow(b, start, s, t);
    CompletedFlow(s.flows[t]);
    RowsSettled(s, t);
  }

  /** A compensated purchase has nothing left if and only if the activity that failed had not taken
      effect (no attempt of it committed and lost its reply) and the balance had not been confirmed. */
  lemma CompensatedLeavesNothingIff(b: Binding, start: System, s: System, t: TxId)
    requires Reached(b, start, s) && t in s.flows && s.flows[t].exec.status == WCompensated
    ensures NothingLeft(s, t) <==> |s.flows[t].effects| == s.flows[t].exec.index <= TRIES
  {
    ReachedFlow(b, start, s, t);
    var f := s.flows[t];
    CompensatedFlow(f);
    RowsUndone(s, t);
    if |f.effects| == f.exec.index + 1 && f.exec.index < TRIES { assert f.exec.index !in f.undone; }
  }

  lemma FailedFlow(f: Flow)
    requires FlowOk(f) && f.exec.status == WFailed
    ensures f.exec.phase.Finished? && 0 < f.exec.phase.low <= f.exec.index <= |f.effects| <= f.exec.index + 1
    ensures forall i :: i in f.undone ==> f.exec.phase.low - 1 <= i < f.exec.index
    ensures forall i :: f.exec.phase.low <= i < f.exec.index && i < TRIES ==> i in f.undone
  {
  }

  /** A purchase whose compensation ran out of attempts has nothing left if and only if that was the
      last compensation, it had taken effect and lost its replies, the activity that failed had not
      taken effect, and the balance had not been confirmed. */
  lemma FailedLeavesNothingIff(b: Binding, start: System, s: System, t: TxId)
    requires Reached(b, start, s) && t in s.flows && s.flows[t].exec.status == WFailed
    ensures var f := s.flows[t];
      && f.exec.phase.Finished?
      && (NothingLeft(s, t) <==> f.exec.phase.low == 1 && 0 in f.undone && |f.effects| == f.exec.index <= TRIES)
  {
    ReachedFlow(b, start, s, t);
    var f := s.flows[t];
    FailedFlow(f);
    RowsUndone(s, t);
    if |f.effects| == f.exec.index + 1 && f.exec.index < TRIES { assert f.exec.index !in f.undone; }
    if f.exec.phase.low > 1 { assert 0 !in f.undone; }
  }

  /** A purchase that fails in confirming the order always ends FAILED, with the balance debited and
      the payment charged: a charged payment cannot be cancelled, so the balance is never reached. */
  lemma FailedOrderStaysCharged(b: Binding, start: System, s: System, t: TxId)
    requires Reached(b, start, s) && t in s.flows && s.flows[t].exec.phase.Finished?
    requires FailedAt(s.flows[t].exec) && s.flows[t].exec.index == STEPS - 1
    ensures s.flows[t].exec.status == WFailed
    ensures t in s.users.txs && s.users.txs[t].status == Confirmed
    ensures t in s.pay.payments && s.pay.payments[t].status == Charged
  {
    ReachedFlow(b, start, s, t);
    FailedOrderFlow(s.flows[t]);
  }

  lemma FailedOrderFlow(f: Flow)
    requires FlowOk(f) && f.exec.phase.Finished? && FailedAt(f.exec) && f.exec.index == STEPS - 1
    ensures f.exec.status == WFailed && |f.effects| >= STEPS - 1 && 0 !in f.undone && 1 !in f.undone
  {
    assert 1 !in f.undone;
    assert f.exec.phase.low > 1;
  }

  /** In every reachable state a purchase is settled in all three services if and only if all six
      activities have taken effect, whatever its workflow came to: FAILED, if only the last one's
      replies were lost. */
  lemma SettledIff(b: Binding, start: System, s: System, t: TxId)
    requires Reached(b, start, s) && t in s.flows
    ensures Settled(s, t) <==> |s.flows[t].effects| == STEPS
    ensures |s.flows[t].effects| == STEPS ==> s.flows[t].undone == {}
  {
    ReachedFlow(b, start, s, t);
    var f := s.flows[t];
    if |f.effects| == STEPS {
      AllEffectsStay(f);
      RowsSettled(s, t);
    }
    if Settled(s, t) { SettledRows(s, t); }
  }

  /** With all six effects no compensation can take anything back: the first to be tried is refused. */
  lemma AllEffectsStay(f: Flow)
    requires FlowOk(f) && |f.effects| == STEPS
    ensures f.undone == {}
  {
    assert 1 !in f.undone && 2 !in f.undone;
    assert Low(f.exec) > 1;
  }

  // --- Runs without lost replies ----------------------------------------------------------------

  predicate NoLostReply(es: seq<Event>, t: TxId) {
    Attempt(t, ReplyLost) !in es
  }

  /** Without lost replies the effects are exactly the activities below the index, and what has been
      undone is what compensation is past. */
  predicate InStep(f: Flow) {
    |f.effects| == f.exec.index && forall i :: i in f.undone ==> Low(f.exec) <= i
  }

  lemma InStepStep(b: Binding, s: System, e: Event, t: TxId)
    requires FlowsOk(s) && (t in s.flows ==> InStep(s.flows[t])) && e != Attempt(t, ReplyLost)
    ensures t in Step(b, s, e).flows ==> InStep(Step(b, s, e).flows[t])
  {
    if t in s.flows {
      assert PurchaseOk(s, t);
      if e.Attempt? && e.t == t && !s.flows[t].exec.phase.Finished? {
        InStepAttempt(b, s, t, e.fault);
      } else {
        OtherFlows(b, s, e, t);
      }
    }
  }

  lemma InStepAttempt(b: Binding, s: System, t: TxId, fault: Fault)
    requires AwaitsReply(s, t) && InStep(s.flows[t]) && !fault.ReplyLost?
    ensures InStep(Step(b, s, Attempt(t, fault)).flows[t])
  {
    var f := s.flows[t];
    var c := NextCall(f.exec);
    AttemptFlow(b, s, t, fault);
    PendingIsLive(f);
    CallReply(b, s, t, f, c);
    InStepCall(f, c, if fault.FailBefore? then Refused(Transient) else Invoke(b, s, t, f.req, c).1, b);
  }

  lemma InStepCall(f: Flow, c: Call, r: Reply, b: Binding)
    requires FlowOk(f) && InStep(f) && !f.exec.phase.Finished? && c == NextCall(f.exec)
    requires r.Refused? || ReplyFits(b, f, c, r)
    ensures InStep(Record(f, c, r, OutcomeOf(r, NoFault)))
  {
    var o := OutcomeOf(r, NoFault);
    AdvanceMoves(PurchaseActivities(), f.exec, o);
    AdvanceKeepsShape(PurchaseActivities(), f.exec, o);
    if f.exec.phase.Trying? {
      PendingIsLive(f);
    } else {
      UndoLowers(f.exec, o);
    }
  }

  /** A compensation that returns takes `Low` to its activity or below, one that raises leaves it. */
  lemma UndoLowers(x: Execution, o: Outcome)
    requires Shape(PurchaseActivities(), x) && x.phase.Undoing?
    ensures if o.Returned? then Low(Advance(x, o)) <= x.phase.i else Low(Advance(x, o)) == Low(x)
  {
    if o.Returned? { SeekUndoShape(PurchaseActivities(), MarkUndone(x), x.phase.i - 1); }
  }

  lemma {:induction false} RunInStep(b: Binding, start: System, es: seq<Event>, t: TxId)
    requires Opening(start) && Orderly(es) && NoLostReply(es, t)
    ensures t in Run(b, start, es).flows ==> InStep(Run(b, start, es).flows[t])
  {
    if es != [] {
      RunInStep(b, start, es[..|es| - 1], t);
      RunOk(b, start, es[..|es| - 1]);
      InStepStep(b, Run(b, start, es[..|es| - 1]), es[|es| - 1], t);
    }
  }

  /** The promise of the pattern, for every finished purchase none of whose replies was lost: it is
      settled in all three services exactly when it ended COMPLETED, and has nothing left exactly
      when it ended COMPENSATED having failed no later than in confirming the balance. Any other
      end, each FAILED one among them, is neither. */
  lemma AllOrNothing(b: Binding, start: System, es: seq<Event>, t: TxId)
    requires Opening(start) && Orderly(es) && NoLostReply(es, t) && t in Run(b, start, es).flows
    ensures var s := Run(b, start, es);
            var x := s.flows[t].exec;
      && (x.status == WCompleted ==> Settled(s, t))
      && (x.status == WCompensated ==> (NothingLeft(s, t) <==> x.index <= TRIES))
      && (x.phase.Finished? ==>
            && (Settled(s, t) <==> x.status == WCompleted)
            && (NothingLeft(s, t) <==> x.status == WCompensated && x.index <= TRIES))
  {
    var s := Run(b, start, es);
    assert Reached(b, start, s);
    RunInStep(b, start, es, t);
    ReachedFlow(b, start, s, t);
    FinishedStatus(s.flows[t]);
    if s.flows[t].exec.status == WCompleted { CompletedIsSettled(b, start, s, t); }
    if s.flows[t].exec.status == WCompensated { CompensatedLeavesNothingIff(b, start, s, t); }
    if s.flows[t].exec.status == WFailed { FailedLeavesNothingIff(b, start, s, t); }
    if Settled(s, t) { SettledRows(s, t); }
  }

  lemma FinishedStatus(f: Flow)
    requires FlowOk(f)
    ensures f.exec.phase.Finished?
        <==> f.exec.status == WCompleted || f.exec.status == WCompensated || f.exec.status == WFailed
    ensures FailedAt(f.exec) ==> f.exec.index < STEPS
    ensures f.exec.status == WCompensated || f.exec.status == WFailed ==> FailedAt(f.exec)
  {
  }

  lemma SettledRows(s: System, t: TxId)
    requires t in s.flows && RowsOk(s, t, s.flows[t]) && Settled(s, t)
    ensures |s.flows[t].effects| >= STEPS
  {
  }

  // --- The handlers as the manager binds them ---------------------------------------------------

  /** Nothing is undone, and nothing was waiting to be. */
  predicate NeverUndone(f: Flow) {
    f.undone == {} && (f.exec.status == WCompensated ==> f.exec.index == 0)
  }

  lemma BareStep(s: System, e: Event, t: TxId)
    requires FlowsOk(s) && (t in s.flows ==> NeverUndone(s.flows[t]))
    ensures t in Step(Bare, s, e).flows ==> NeverUndone(Step(Bare, s, e).flows[t])
  {
    if t in s.flows {
      assert PurchaseOk(s, t);
      if e.Attempt? && e.t == t && !s.flows[t].exec.phase.Finished? {
        BareAttempt(s, t, e.fault);
      } else {
        OtherFlows(Bare, s, e, t);
      }
    }
  }

  lemma BareAttempt(s: System, t: TxId, fault: Fault)
    requires AwaitsReply(s, t) && NeverUndone(s.flows[t])
    ensures NeverUndone(Step(Bare, s, Attempt(t, fault)).flows[t])
  {
    var f := s.flows[t];
    var c := NextCall(f.exec);
    AttemptFlow(Bare, s, t, fault);
    PendingIsLive(f);
    CallReply(Bare, s, t, f, c);
    AttemptKeepsPurchase(Bare, s, t, fault);
    var g := Step(Bare, s, Attempt(t, fault)).flows[t];
    if g.exec.status == WCompensated { CompensatedFlow(g); }
  }

  lemma {:induction false} BareRun(start: System, es: seq<Event>, t: TxId)
    requires Opening(start) && Orderly(es)
    ensures t in Run(Bare, start, es).flows ==> NeverUndone(Run(Bare, start, es).flows[t])
  {
    if es != [] {
      BareRun(start, es[..|es| - 1], t);
      RunOk(Bare, start, es[..|es| - 1]);
      BareStep(Run(Bare, start, es[..|es| - 1]), es[|es| - 1], t);
    }
  }

  lemma UnfinishedFlow(f: Flow)
    requires FlowOk(f) && f.exec.phase.Finished? && f.exec.index > 0
    ensures |f.effects| > 0
  {
  }

  /** With the compensation handlers bound as the manager binds them, every compensation is refused
      for its parameters, no reservation is ever taken back, and a finished purchase has nothing
      left if and only if it failed in its very first activity without that taking effect. */
  lemma BareNeverCompensates(start: System, s: System, t: TxId)
    requires Reached(Bare, start, s) && t in s.flows
    ensures s.flows[t].undone == {}
    ensures s.flows[t].exec.phase.Finished? ==>
              (NothingLeft(s, t) <==> s.flows[t].exec.index == 0 && s.flows[t].effects == [])
  {
    var es: seq<Event> :| Orderly(es) && s == Run(Bare, start, es);
    BareRun(start, es, t);
    ReachedFlow(Bare, start, s, t);
    RowsUndone(s, t);
    var f := s.flows[t];
    if f.exec.phase.Finished? && f.exec.index > 0 { UnfinishedFlow(f); assert 0 !in f.undone; }
    if |f.effects| > 0 { assert 0 !in f.undone; }
  }

  // --- When the books can go wrong --------------------------------------------------------------

  /** Only a purchase that failed in confirming the balance or in charging can be spoiled. */
  lemma SpoiledOnlyWhileConfirming(b: Binding, start: System, s: System, t: TxId)
    requires Reached(b, start, s) && t in s.flows && Spoiled(s.flows[t])
    ensures FailedAt(s.flows[t].exec) && TRIES <= s.flows[t].exec.index <= TRIES + 1
  {
    ReachedFlow(b, start, s, t);
    SpoiledFlow(s.flows[t]);
  }

  lemma SpoiledFlow(f: Flow)
    requires FlowOk(f) && Spoiled(f)
    ensures FailedAt(f.exec) && TRIES <= f.exec.index
  {
  }

  /** As long as no purchase has failed in a confirmation, every account is exact and within its
      bounds, whatever else failed and whatever replies were lost. */
  lemma ExactUnlessConfirmationFails(b: Binding, start: System, s: System, u: int)
    requires Reached(b, start, s) && u in start.users.users
    requires forall t :: t in s.flows && FailedAt(s.flows[t].exec) ==> s.flows[t].exec.index < TRIES
    ensures u in s.users.users && ExactAccount(start, s, u)
    ensures 0 <= s.users.users[u].reserved <= s.users.users[u].balance
  {
    forall t | t in s.flows && s.flows[t].req.user == u ensures !Spoiled(s.flows[t]) {
      if Spoiled(s.flows[t]) { SpoiledOnlyWhileConfirming(b, start, s, t); }
    }
    AccountExactIff(b, start, s, u);
  }
}
