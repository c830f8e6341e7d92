/** What the saga's status and step log say of the replies that led there. */
module OrderRecord {
  import opened OrderWorkflow

  /** The first `k` commands were answered with success. */
  predicate AllYes(env: nat -> bool, k: nat) { forall i: nat :: i < k ==> env(i) }

  predicate RefusedAfter(env: nat -> bool, k: nat) { AllYes(env, k) && !env(k) }

  function Undone(ok: bool): StepStatus { if ok then StepCompensated else StepCompleted }

  /** The inventory step counts as compensated only if there is no list: with one the compensation
      returns before it is logged. */
  function InventoryUndone(p: Payload, ok: bool): StepStatus { Undone(!ByList(p) && ok) }

  /** Before the saga has ended: how many commands have been sent, and with which replies. */
  predicate OnTheWay(p: Payload, env: nat -> bool, n: nat, c: Control) {
    var m := |ToReserve(p)|;
    match c.pc
    case Reserving(k) => n == k && AllYes(env, k) && c.status == Started && c.log == [StepStarted]
    case RollingBack(r, j) => n == r + 1 + j && RefusedAfter(env, r) && c.status == Started && c.log == [StepStarted]
    case Paying => n == m && AllYes(env, m) && c.status == StockReserved && c.log == [StepCompleted, StepStarted]
    case Shipping =>
      && n == m + 1 && AllYes(env, m + 1) && c.status == PaymentCompleted
      && c.log == [StepCompleted, StepCompleted, StepStarted]
    case CancellingPayment =>
      && n == m + 2 && RefusedAfter(env, m + 1) && c.status == CompensationStarted
      && c.log == [StepCompleted, StepCompleted, StepFailed]
    case Releasing(j) =>
      && c.status == CompensationStarted
      && if |c.log| == 2 then n == m + 1 + j && RefusedAfter(env, m) && c.log == [StepCompleted, StepFailed]
         else n == m + 3 + j && RefusedAfter(env, m + 1) && c.log == [StepCompleted, Undone(env(m + 2)), StepFailed]
    case Ended => Recorded(p, env, c)
  }

  /** The record of an ended saga, from the first command that was refused: none, a reservation, the
      payment (command `m`), or the shipping (command `m + 1`, followed by the payment's cancellation). */
  predicate Recorded(p: Payload, env: nat -> bool, c: Control) {
    var m := |ToReserve(p)|;
    if AllYes(env, m + 2) then c.status == SagaCompleted && c.log == [StepCompleted, StepCompleted, StepCompleted]
    else if !AllYes(env, m) then c.status == SagaFailed && c.log == [StepFailed]
    else if !env(m) then c.status == SagaFailed && c.log == [InventoryUndone(p, env(m + 1)), StepFailed]
    else c.status == SagaFailed && c.log == [InventoryUndone(p, env(m + 3)), Undone(env(m + 2)), StepFailed]
  }

  lemma ReserveOnTheWay(p: Payload, env: nat -> bool, n: nat, c: Control)
    requires Placed(p, c) && OnTheWay(p, env, n, c) && (c.pc.Reserving? || c.pc.RollingBack?)
    ensures OnTheWay(p, env, n + 1, Advance(p, c, env(n)))
  {
  }

  lemma ReleaseOnTheWay(p: Payload, env: nat -> bool, n: nat, c: Control)
    requires Placed(p, c) && OnTheWay(p, env, n, c) && c.pc.Releasing?
    ensures OnTheWay(p, env, n + 1, Advance(p, c, env(n)))
  {
  }

  lemma OtherOnTheWay(p: Payload, env: nat -> bool, n: nat, c: Control)
    requires Placed(p, c) && OnTheWay(p, env, n, c)
    requires c.pc.Paying? || c.pc.Shipping? || c.pc.CancellingPayment? || c.pc.Ended?
    ensures OnTheWay(p, env, n + 1, Advance(p, c, env(n)))
  {
  }

  lemma StepOnTheWay(p: Payload, env: nat -> bool, n: nat, c: Control)
    requires Placed(p, c) && OnTheWay(p, env, n, c)
    ensures OnTheWay(p, env, n + 1, Advance(p, c, env(n)))
  {
    if c.pc.Reserving? || c.pc.RollingBack? {
      ReserveOnTheWay(p, env, n, c);
    } else if c.pc.Releasing? {
      ReleaseOnTheWay(p, env, n, c);
    } else {
      OtherOnTheWay(p, env, n, c);
    }
  }

  lemma {:induction false} RunOnTheWay(p: Payload, env: nat -> bool, n: nat)
    ensures OnTheWay(p, env, n, Replay(p, env, n))
  {
    if n > 0 {
      RunOnTheWay(p, env, n - 1);
      StepOnTheWay(p, env, n - 1, Replay(p, env, n - 1));
    }
  }

  /** Every ended saga's status and log are those of the replies its commands had: in particular the
      payment step is compensated exactly if the shipping was refused and the cancellation was not. */
  lemma EndIsRecorded(p: Payload, env: nat -> bool, n: nat)
    requires Replay(p, env, n).pc.Ended?
    ensures Recorded(p, env, Replay(p, env, n))
  {
    RunOnTheWay(p, env, n);
  }
}
