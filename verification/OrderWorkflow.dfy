/**
 * The order saga's orchestrator: reserve the items one by one (rolling back those reserved when
 * one is refused), take the payment, arrange the shipping; on failure compensate the completed
 * steps in reverse.
 *
 * `Advance` is its control as a step function over the replies to its commands; the class below
 * has the orchestrator's own loops and is proved to make exactly those steps.
 */
module OrderWorkflow {

  /** `NoBook` is what a payload names that names no book: no inventory has it. */
  datatype BookId = NoBook | Book(id: nat)

  datatype Item = Item(book: BookId, quantity: int)

  /** An order lists items or, in the old format, names one book outside any list. */
  datatype Payload = Listed(items: seq<Item>) | OldFormat(item: Item)

  /** An empty list counts as no list. */
  predicate ByList(p: Payload) { p.Listed? && p.items != [] }

  /** What the payload names outside any list. */
  function Named(p: Payload): Item { if p.OldFormat? then p.item else Item(NoBook, 1) }

  datatype SagaStatus = Started | StockReserved | PaymentCompleted | CompensationStarted | SagaCompleted | SagaFailed
  datatype StepStatus = StepStarted | StepCompleted | StepFailed | StepCompensated

  /** The command the orchestrator is about to send. */
  datatype Pc =
    | Reserving(k: nat)
    | RollingBack(refused: nat, j: nat)
    | Paying
    | Shipping
    | CancellingPayment
    | Releasing(j: nat)
    | Ended

  datatype Control = Control(pc: Pc, status: SagaStatus, log: seq<StepStatus>)

  /** What the inventory step reserves: only listed items. */
  function ToReserve(p: Payload): seq<Item> {
    if ByList(p) then p.items else []
  }

  /** What its compensation releases: without a list, what is named outside it. */
  function ToRelease(p: Payload): (items: seq<Item>)
    ensures items != []
  {
    if ByList(p) then p.items else [Named(p)]
  }

  // --- Control ----------------------------------------------------------------------------------

  function CompleteStep(c: Control, step: nat): Control
    requires step < |c.log|
  {
    var log := c.log[step := StepCompleted];
    if step == 0 then Control(Paying, StockReserved, log + [StepStarted])
    else if step == 1 then Control(Shipping, PaymentCompleted, log + [StepStarted])
    else Control(Ended, SagaCompleted, log)
  }

  function StartReleasing(c: Control): Control { c.(pc := Releasing(0)) }

  function FailStep(c: Control, step: nat): Control
    requires step < |c.log|
  {
    var d := Control(c.pc, CompensationStarted, c.log[step := StepFailed]);
    if step == 0 then d.(pc := Ended, status := SagaFailed)
    else if step == 1 then StartReleasing(d)
    else d.(pc := CancellingPayment)
  }

  function Begin(p: Payload): Control {
    var c := Control(Reserving(0), Started, [StepStarted]);
    if ToReserve(p) == [] then CompleteStep(c, 0) else c
  }

  predicate Placed(p: Payload, c: Control) {
    match c.pc
    case Reserving(k) => k < |ToReserve(p)| && |c.log| == 1
    case RollingBack(r, j) => j < r < |ToReserve(p)| && |c.log| == 1
    case Paying => |c.log| == 2
    case Shipping => |c.log| == 3
    case CancellingPayment => |c.log| == 3
    case Releasing(j) => j < |ToRelease(p)| && 2 <= |c.log| <= 3
    case Ended => true
  }

  function Advance(p: Payload, c: Control, ok: bool): (d: Control)
    requires Placed(p, c)
    ensures Placed(p, d)
  {
    match c.pc
    case Reserving(k) =>
      if ok then if k + 1 == |ToReserve(p)| then CompleteStep(c, 0) else c.(pc := Reserving(k + 1))
      else if k == 0 then FailStep(c, 0) else c.(pc := RollingBack(k, 0))
    case RollingBack(r, j) => if j + 1 == r then FailStep(c, 0) else c.(pc := RollingBack(r, j + 1))
    case Paying => if ok then CompleteStep(c, 1) else FailStep(c, 1)
    case Shipping => if ok then CompleteStep(c, 2) else FailStep(c, 2)
    case CancellingPayment => StartReleasing(if ok then c.(log := c.log[1 := StepCompensated]) else c)
    case Releasing(j) =>
      var d := if ok && !ByList(p) then c.(log := c.log[0 := StepCompensated]) else c;
      if j + 1 == |ToRelease(p)| then d.(pc := Ended, status := SagaFailed) else d.(pc := Releasing(j + 1))
    case Ended => c
  }

  function Replay(p: Payload, env: nat -> bool, n: nat): (c: Control)
    ensures Placed(p, c)
  {
    if n == 0 then Begin(p) else Advance(p, Replay(p, env, n - 1), env(n - 1))
  }

  // --- The orchestrator -------------------------------------------------------------------------

  class SagaRun {
    const payload: Payload
    /** Whether the replies to the commands sent are successes, in order. */
    const env: nat -> bool
    var sent: nat
    var status: SagaStatus
    var log: seq<StepStatus>
    /** Where the step function stands after the commands sent so far. */
    ghost var at: Control

    ghost predicate Valid()
      reads this
    {
      at == Replay(payload, env, sent)
    }

    ghost function View(pc: Pc): Control
      reads this
    {
      Control(pc, status, log)
    }

    constructor (payload: Payload, env: nat -> bool)
      ensures Valid() && this.payload == payload && this.env == env
      ensures sent == 0 && status == Started && log == []
    {
      this.payload, this.env, sent, status, log := payload, env, 0, Started, [];
      at := Begin(payload);
    }

    method SendCommand() returns (ok: bool)
      requires Valid()
      modifies this`sent, this`at
      ensures Valid() && sent == old(sent) + 1 && ok == env(old(sent)) && at == Advance(payload, old(at), ok)
    {
      ok := env(sent);
      sent := sent + 1;
      at := Advance(payload, at, ok);
    }

    /** Reserve every listed item; if one is refused, release those reserved before it. */
    method ReserveItems() returns (success: bool)
      requires Valid() && ToReserve(payload) != [] && |log| == 1 && at == View(Reserving(0))
      modifies this`sent, this`at
      ensures Valid()
      ensures at == if success then CompleteStep(old(View(Paying)), 0) else FailStep(old(View(Paying)), 0)
    {
      var items := ToReserve(payload);
      var reserved: seq<Item> := [];
      for k := 0 to |items|
        invariant Valid() && reserved == items[..k]
        invariant at == if k < |items| then View(Reserving(k)) else CompleteStep(View(Paying), 0)
      {
        var ok := SendCommand();
        if ok {
          reserved := reserved + [items[k]];
        } else {
          for j := 0 to |reserved|
            invariant Valid()
            invariant at == if j < k then View(RollingBack(k, j)) else FailStep(View(Paying), 0)
          {
            var _ := SendCommand();
          }
          return false;
        }
      }
      success := true;
    }

    method ExecuteStep(step: nat) returns (success: bool)
      requires Valid() && step < 3 && |log| == step
      requires step == 0 ==> status == Started && at == Begin(payload)
      requires step == 1 ==> at == Control(Paying, status, log + [StepStarted])
      requires step == 2 ==> at == Control(Shipping, status, log + [StepStarted])
      modifies this`sent, this`at, this`log
      ensures Valid() && |log| == step + 1 && log[..step] == old(log)
      ensures log[step] == if success then StepCompleted else StepFailed
      ensures success ==> at == CompleteStep(View(Paying), step)
      ensures !success ==> at == FailStep(View(Paying), step)
    {
      log := log + [StepStarted];
      if step == 0 {
        if ToReserve(payload) != [] {
          success := ReserveItems();
        } else {
          success := true;
        }
      } else {
        success := SendCommand();
      }
      log := log[step := if success then StepCompleted else StepFailed];
    }

    /** Compensate a completed step: a refused or lost command is logged and passed over. */
    method ExecuteCompensation(step: nat)
      requires Valid() && step < 2 && step < |log| && status == CompensationStarted && 2 <= |log| <= 3
      requires step == 1 ==> |log| == 3 && at == View(CancellingPayment)
      requires step == 0 ==> at == StartReleasing(View(CancellingPayment))
      modifies this`sent, this`at, this`log
      ensures Valid() && |log| == |old(log)| && (step == 1 ==> log[0] == old(log)[0])
      ensures step == 1 ==> at == StartReleasing(View(CancellingPayment))
      ensures step == 0 ==> at == View(Ended).(status := SagaFailed)
    {
      if step == 0 && ByList(payload) {
        var items := payload.items;
        for j := 0 to |items|
          invariant Valid() && log == old(log)
          invariant at == if j < |items| then View(Releasing(j)) else View(Ended).(status := SagaFailed)
        {
          var _ := SendCommand();
        }
      } else {
        var ok := SendCommand();
        if ok { log := log[step := StepCompensated]; }
      }
    }

    /** Compensate the steps completed before the failed one, last first. */
    method CompensateSteps(failed: nat)
      requires Valid() && failed < 3 && |log| == failed + 1 && at == FailStep(View(Paying), failed)
      requires log[failed] == StepFailed && forall m :: 0 <= m < failed ==> log[m] == StepCompleted
      modifies this`sent, this`at, this`log, this`status
      ensures Valid() && status == SagaFailed && at == View(Ended)
    {
      status := CompensationStarted;
      assert log[failed := StepFailed] == log;
      for j := failed downto 0
        invariant Valid() && status == CompensationStarted && |log| == failed + 1
        invariant forall m :: 0 <= m < j ==> log[m] == StepCompleted
        invariant j == 0 ==> at == View(Ended).(status := SagaFailed)
        invariant j == 1 ==> at == StartReleasing(View(CancellingPayment))
        invariant j == 2 ==> at == View(CancellingPayment)
      {
        if log[j] == StepCompleted { ExecuteCompensation(j); }
      }
      status := SagaFailed;
    }

    /** Runs the saga to its end: the record is left in the state the step function reaches after
        the commands sent, and there it has ended. */
    method Run()
      requires Valid() && sent == 0 && status == Started && log == []
      modifies this
      ensures View(Ended) == Replay(payload, env, sent)
      ensures status == SagaCompleted || status == SagaFailed
    {
      for i := 0 to 3
        invariant Valid() && |log| == i && (forall j :: 0 <= j < i ==> log[j] == StepCompleted)
        invariant i == 0 ==> status == Started && at == Begin(payload)
        invariant i == 1 ==> at == Control(Paying, status, log + [StepStarted])
        invariant i == 2 ==> at == Control(Shipping, status, log + [StepStarted])
        invariant i == 3 ==> at == View(Ended).(status := SagaCompleted)
      {
        var success := ExecuteStep(i);
        if !success {
          CompensateSteps(i);
          return;
        }
        status := if i == 0 then StockReserved else if i == 1 then PaymentCompleted else status;
      }
      status := SagaCompleted;
    }
  }
}
