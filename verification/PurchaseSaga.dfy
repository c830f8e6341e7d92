/**
 * Any number of purchases running side by side over the three services.
 *
 * Every event lets one workflow make its next handler call. The environment decides whether the
 * call goes through, fails before reaching the service, or takes effect and fails afterwards (the
 * reply is lost), so the results below hold for every interleaving and every pattern of faults.
 */
module PurchaseSaga {
  import opened Workflow
  import opened TccServices
  import opened TccAccounting

  const PRICE := 100
  const TRIES: nat := 3
  const STEPS: nat := 6

  datatype Request = Request(user: int, product: int, quantity: int, paymentMethod: int)

  /** How compensation handlers meet the parameters of the activity they undo. `Bare` hands them
      over unchanged, as the manager does; `Projecting` passes those the handler declares. */
  datatype Binding = Bare | Projecting

  datatype Param =
    | UserIdParam | AmountParam | TransactionIdParam | PaymentMethodIdParam | ProductIdParam | QuantityParam

  function ParamsOf(activity: nat): set<Param> {
    match activity
    case 0 => {UserIdParam, AmountParam, TransactionIdParam}
    case 1 => {UserIdParam, PaymentMethodIdParam, AmountParam, TransactionIdParam}
    case 2 => {UserIdParam, ProductIdParam, QuantityParam, TransactionIdParam}
    case _ => {UserIdParam, TransactionIdParam}
  }

  /** The parameters every cancel handler declares. */
  const CANCEL_PARAMS := {UserIdParam, TransactionIdParam}

  predicate Accepts(b: Binding, activity: nat) {
    b.Projecting? || ParamsOf(activity) == CANCEL_PARAMS
  }

  /** Reserve balance, reserve payment, reserve product; confirm balance, charge payment, confirm
      order. Only the reservations have a compensation. */
  function PurchaseActivities(): (s: seq<Activity>)
    ensures |s| == STEPS && Fresh(s)
    ensures forall j :: 0 <= j < STEPS ==> s[j] == NewActivity(j < TRIES, 3)
  {
    [NewActivity(true, 3), NewActivity(true, 3), NewActivity(true, 3),
     NewActivity(false, 3), NewActivity(false, 3), NewActivity(false, 3)]
  }

  /** A purchase: its request, its workflow, and as history the activities whose effect reached
      the services and the reservations that were taken back. */
  datatype Flow = Flow(req: Request, exec: Execution, effects: seq<nat>, undone: set<nat>)

  datatype System = System(users: UserDb, pay: PaymentDb, stock: OrderDb, flows: map<TxId, Flow>)

  datatype Fault = NoFault | FailBefore | ReplyLost
  datatype Event = Submit(t: TxId, req: Request) | Attempt(t: TxId, fault: Fault)

  /** The handler behind a call, applied to the services. */
  function Invoke(b: Binding, s: System, t: TxId, q: Request, c: Call): (System, Reply) {
    match c
    case Handler(0) => var (d, r) := ReserveBalance(s.users, q.user, PRICE * q.quantity, t); (s.(users := d), r)
    case Handler(1) =>
      var (d, r) := ReservePayment(s.pay, q.user, q.paymentMethod, PRICE * q.quantity, t);
      (s.(pay := d), r)
    case Handler(2) => var (d, r) := ReserveProduct(s.stock, q.user, q.product, q.quantity, t); (s.(stock := d), r)
    case Handler(3) => var (d, r) := ConfirmBalance(s.users, q.user, t); (s.(users := d), r)
    case Handler(4) => var (d, r) := SettlePayment(s.pay, q.user, t, Charged); (s.(pay := d), r)
    case Handler(_) => var (d, r) := ConfirmOrder(s.stock, q.user, t); (s.(stock := d), r)
    case Compensation(i) =>
      if !Accepts(b, i) then (s, Refused(BadArguments))
      else
        match i
        case 0 => var (d, r) := CancelBalance(s.users, q.user, t); (s.(users := d), r)
        case 1 => var (d, r) := SettlePayment(s.pay, q.user, t, Cancelled); (s.(pay := d), r)
        case _ => var (d, r) := CancelOrder(s.stock, q.user, t); (s.(stock := d), r)
  }

  function OutcomeOf(r: Reply, fault: Fault): Outcome {
    match r
    case Refused(e) => Raised(e)
    case _ => if fault.ReplyLost? then Raised(Transient) else Returned
  }

  /** The flow after its pending call was answered. */
  function Record(f: Flow, c: Call, r: Reply, o: Outcome): Flow
    requires Placed(f.exec)
  {
    f.(exec := Advance(f.exec, o),
       effects := if r.Applied? && c.Handler? then f.effects + [c.activity] else f.effects,
       undone := if r.Applied? && c.Compensation? then f.undone + {c.undone} else f.undone)
  }

  function Step(b: Binding, s: System, e: Event): System {
    match e
    case Submit(t, q) =>
      if t in s.flows then s else s.(flows := s.flows[t := Flow(q, Start(PurchaseActivities()), [], {})])
    case Attempt(t, fault) =>
      if t !in s.flows || !Placed(s.flows[t].exec) || s.flows[t].exec.phase.Finished? then s
      else
        var f := s.flows[t];
        var c := NextCall(f.exec);
        if fault.FailBefore? then
          s.(flows := s.flows[t := f.(exec := Advance(f.exec, Raised(Transient)))])
        else
          var (s', r) := Invoke(b, s, t, f.req, c);
          s'.(flows := s.flows[t := Record(f, c, r, OutcomeOf(r, fault))])
  }

  function Run(b: Binding, s: System, es: seq<Event>): System {
    if es == [] then s else Step(b, Run(b, s, es[..|es| - 1]), es[|es| - 1])
  }

  /** Before any purchase: nothing reserved, no rows. */
  predicate Opening(s: System) {
    && s.flows == map[] && s.users.txs == map[] && s.pay.payments == map[] && s.stock.orders == map[]
    && (forall u :: u in s.users.users ==> s.users.users[u].reserved == 0 <= s.users.users[u].balance)
    && (forall p :: p in s.stock.products ==> s.stock.products[p].reserved == 0 <= s.stock.products[p].stock)
  }

  predicate Orderly(es: seq<Event>) {
    forall k :: 0 <= k < |es| && es[k].Submit? ==> es[k].req.quantity > 0
  }

  // --- What a flow and its rows look like -------------------------------------------------------

  /** The reservations compensation is past, plus possibly the one it is at. */
  predicate UndoneOk(f: Flow) {
    && (forall i :: i in f.undone ==>
         && i < TRIES && i < f.exec.index && (i > 0 ==> |f.effects| <= i + TRIES)
         && (Low(f.exec) <= i || (i == Low(f.exec) - 1 && (f.exec.phase.Undoing? || f.exec.status == WFailed))))
    && (forall i :: Low(f.exec) <= i < f.exec.index && i < TRIES ==> i in f.undone)
  }

  /** The effects on the services are those of the activities in order, each exactly once: all
      below the index, and possibly the one at it. */
  ghost predicate FlowOk(f: Flow) {
    && Shape(PurchaseActivities(), f.exec)
    && f.effects == UpTo(|f.effects|)
    && f.exec.index <= |f.effects| <= f.exec.index + 1 && |f.effects| <= STEPS
    && UndoneOk(f)
  }

  /** The status a row has after these effects: `i` reserves it and `i + 3` settles it. */
  datatype RowStatus = NoRow | Row(status: TxStatus)

  function Expected(f: Flow, i: nat, settled: TxStatus): RowStatus {
    if i in f.undone then Row(Cancelled)
    else if |f.effects| > i + TRIES then Row(settled)
    else if |f.effects| > i then Row(Reserved)
    else NoRow
  }

  predicate BalanceRowOk(db: UserDb, t: TxId, f: Flow) {
    match Expected(f, 0, Confirmed)
    case NoRow => t !in db.txs
    case Row(st) =>
      t in db.txs && f.req.user in db.users && db.txs[t] == BalanceTx(f.req.user, PRICE * f.req.quantity, st)
  }

  predicate PaymentRowOk(db: PaymentDb, t: TxId, f: Flow) {
    match Expected(f, 1, Charged)
    case NoRow => t !in db.payments
    case Row(st) =>
      t in db.payments
      && db.payments[t] == Payment(f.req.user, f.req.paymentMethod, PRICE * f.req.quantity, st)
  }

  predicate OrderRowOk(db: OrderDb, t: TxId, f: Flow) {
    match Expected(f, 2, Confirmed)
    case NoRow => t !in db.orders
    case Row(st) =>
      && t in db.orders && f.req.product in db.products
      && var o := db.orders[t];
         o.user == f.req.user && o.product == f.req.product && o.quantity == f.req.quantity && o.status == st
  }

  predicate RowsOk(s: System, t: TxId, f: Flow) {
    BalanceRowOk(s.users, t, f) && PaymentRowOk(s.pay, t, f) && OrderRowOk(s.stock, t, f)
  }

  ghost predicate PurchaseOk(s: System, t: TxId) requires t in s.flows {
    FlowOk(s.flows[t]) && s.flows[t].req.quantity > 0 && RowsOk(s, t, s.flows[t])
  }

  ghost predicate FlowsOk(s: System) {
    && (forall t :: t in s.flows ==> PurchaseOk(s, t))
    && s.users.txs.Keys <= s.flows.Keys && s.pay.payments.Keys <= s.flows.Keys && s.stock.orders.Keys <= s.flows.Keys
  }

  // --- One call ---------------------------------------------------------------------------------

  /** A call touches only the rows of its own transaction, and removes no user and no product. */
  lemma InvokeFrame(b: Binding, s: System, t: TxId, q: Request, c: Call, t': TxId)
    ensures var s' := Invoke(b, s, t, q, c).0;
      && s'.flows == s.flows && s'.pay.methods == s.pay.methods
      && s'.users.users.Keys == s.users.users.Keys && s'.stock.products.Keys == s.stock.products.Keys
      && s'.users.txs.Keys <= s.users.txs.Keys + {t}
      && s'.pay.payments.Keys <= s.pay.payments.Keys + {t}
      && s'.stock.orders.Keys <= s.stock.orders.Keys + {t}
      && (t' != t ==>
           && (t' in s'.users.txs <==> t' in s.users.txs) && (t' in s.users.txs ==> s'.users.txs[t'] == s.users.txs[t'])
           && (t' in s'.pay.payments <==> t' in s.pay.payments)
           && (t' in s.pay.payments ==> s'.pay.payments[t'] == s.pay.payments[t'])
           && (t' in s'.stock.orders <==> t' in s.stock.orders)
           && (t' in s.stock.orders ==> s'.stock.orders[t'] == s.stock.orders[t']))
  {
  }

  /** A call a flow can make: a handler whose activity has not taken effect or has just done so,
      or the compensation of a reservation that has. */
  predicate Live(f: Flow, c: Call) {
    match c
    case Handler(k) => f.undone == {} && k <= |f.effects| <= k + 1 && k < STEPS
    case Compensation(i) => i < TRIES && i < |f.effects|
  }

  lemma PendingIsLive(f: Flow)
    requires FlowOk(f) && !f.exec.phase.Finished?
    ensures Live(f, NextCall(f.exec))
  {
  }

  /** What a reply can be, given what the flow has done: an activity takes effect once, its later
      attempts find the work done, and after the reservations nothing is refused any more. */
  predicate ReplyFits(b: Binding, f: Flow, c: Call, r: Reply) {
    match c
    case Handler(k) =>
      if |f.effects| == k then r.Applied? || (r.Refused? && k < TRIES) else r.Repeat?
    case Compensation(i) =>
      if b.Bare? then r.Refused?
      else if i in f.undone then r.Repeat?
      else if i > 0 && |f.effects| > i + TRIES then r.Refused?
      else r.Applied?
  }

  lemma CallReply(b: Binding, s: System, t: TxId, f: Flow, c: Call)
    requires Live(f, c) && RowsOk(s, t, f) && f.req.quantity > 0
    ensures ReplyFits(b, f, c, Invoke(b, s, t, f.req, c).1)
    ensures !Invoke(b, s, t, f.req, c).1.Applied? ==> Invoke(b, s, t, f.req, c).0 == s
  {
    assert TransactionIdParam in CANCEL_PARAMS && AmountParam !in CANCEL_PARAMS && QuantityParam !in CANCEL_PARAMS;
  }

  /** The flow's history after a call took effect. */
  function Took(f: Flow, c: Call): Flow {
    match c
    case Handler(k) => f.(effects := f.effects + [k])
    case Compensation(i) => f.(undone := f.undone + {i})
  }

  /** The rows of a transaction follow its history through a call that takes effect. */
  lemma CallRows(b: Binding, s: System, t: TxId, f: Flow, c: Call)
    requires Live(f, c) && RowsOk(s, t, f) && f.req.quantity > 0
    requires Invoke(b, s, t, f.req, c).1.Applied?
    ensures RowsOk(Invoke(b, s, t, f.req, c).0, t, Took(f, c))
  {
    CallReply(b, s, t, f, c);
    var n := |f.effects|;
    match c
    case Handler(k) => assert |Took(f, c).effects| == n + 1;
    case Compensation(i) =>
  }

  ghost predicate Answered(b: Binding, f: Flow, r: Reply, o: Outcome) {
    && FlowOk(f) && !f.exec.phase.Finished?
    && if r.Refused? then o.Raised? else ReplyFits(b, f, NextCall(f.exec), r)
  }

  /** `g` is `f` after one step of its workflow, with `taken` the reservation then taken back. */
  ghost predicate Undid(f: Flow, g: Flow, o: Outcome, taken: set<nat>) {
    && Shape(PurchaseActivities(), f.exec) && Shape(PurchaseActivities(), g.exec) && Moved(f.exec, o, g.exec)
    && g.undone == f.undone + taken
  }

  lemma UndoneTry(f: Flow, g: Flow, o: Outcome)
    requires Undid(f, g, o, {}) && UndoneOk(f) && f.exec.phase.Trying?
    ensures UndoneOk(g)
  {
    var x, y := f.exec, g.exec;
    forall j: nat | j < x.index && j < TRIES ensures Low(y) <= j ==> j in g.undone {
      assert x.activities[j].status == Completed && y.activities[j].compensable;
    }
  }

  lemma UndoneUndo(f: Flow, g: Flow, o: Outcome, taken: set<nat>)
    requires Undid(f, g, o, taken) && UndoneOk(f) && f.exec.phase.Undoing? && g.effects == f.effects
    requires taken <= {f.exec.phase.i} && (forall i :: i in taken && i > 0 ==> |f.effects| <= i + TRIES)
    requires o.Returned? ==> f.exec.phase.i in g.undone
    ensures UndoneOk(g)
  {
    var x, y := f.exec, g.exec;
    forall j | Low(y) <= j < y.index && j < TRIES ensures j in g.undone {
      assert y.activities[j].compensable && y.activities[j].status == Compensated;
    }
  }

  lemma RecordStep(f: Flow, r: Reply, o: Outcome)
    requires FlowOk(f) && !f.exec.phase.Finished?
    ensures var c := NextCall(f.exec);
            Undid(f, Record(f, c, r, o), o, if r.Applied? && c.Compensation? then {c.undone} else {})
  {
    AdvanceKeepsShape(PurchaseActivities(), f.exec, o);
    AdvanceMoves(PurchaseActivities(), f.exec, o);
  }

  /** The history of a flow stays what `FlowOk` says, whatever the outcome of the call. */
  lemma FlowStep(b: Binding, f: Flow, r: Reply, o: Outcome)
    requires Answered(b, f, r, o)
    ensures FlowOk(Record(f, NextCall(f.exec), r, o))
  {
    RecordStep(f, r, o);
    PendingIsLive(f);
    var g := Record(f, NextCall(f.exec), r, o);
    FlowMoved(b, f, r, o, g);
  }

  lemma FlowMoved(b: Binding, f: Flow, r: Reply, o: Outcome, g: Flow)
    requires Answered(b, f, r, o) && Live(f, NextCall(f.exec))
    requires var c := NextCall(f.exec);
             Undid(f, g, o, if r.Applied? && c.Compensation? then {c.undone} else {})
    requires g.effects == if r.Applied? && f.exec.phase.Trying? then f.effects + [f.exec.index] else f.effects
    ensures FlowOk(g)
  {
    assert UpTo(|f.effects|) + [|f.effects|] == UpTo(|f.effects| + 1);
    if f.exec.phase.Trying? {
      UndoneTry(f, g, o);
    } else {
      UndoneUndo(f, g, o, if r.Applied? then {f.exec.phase.i} else {});
    }
  }

  ghost predicate AwaitsReply(s: System, t: TxId) {
    t in s.flows && PurchaseOk(s, t) && !s.flows[t].exec.phase.Finished?
  }

  /** Only the history matters to the rows. */
  lemma RowsSame(s: System, t: TxId, f: Flow, g: Flow, s': System)
    requires RowsOk(s, t, f) && g.req == f.req && g.effects == f.effects && g.undone == f.undone
    requires s'.users == s.users && s'.pay == s.pay && s'.stock == s.stock
    ensures RowsOk(s', t, g)
  {
  }

  lemma AttemptKeepsPurchase(b: Binding, s: System, t: TxId, fault: Fault)
    requires AwaitsReply(s, t)
    ensures PurchaseOk(Step(b, s, Attempt(t, fault)), t)
  {
    var f := s.flows[t];
    var c := NextCall(f.exec);
    var s' := Step(b, s, Attempt(t, fault));
    PendingIsLive(f);
    if fault.FailBefore? {
      FlowStep(b, f, Refused(Transient), Raised(Transient));
      RowsSame(s, t, f, s'.flows[t], s');
    } else {
      CallReply(b, s, t, f, c);
      var (d, r) := Invoke(b, s, t, f.req, c);
      FlowStep(b, f, r, OutcomeOf(r, fault));
      if r.Applied? {
        CallRows(b, s, t, f, c);
        RowsSame(d, t, Took(f, c), s'.flows[t], s');
      } else {
        RowsSame(s, t, f, s'.flows[t], s');
      }
    }
  }

  lemma RowsFrame(s: System, s': System, t: TxId, f: Flow)
    requires RowsOk(s, t, f)
    requires s'.users.users.Keys == s.users.users.Keys && s'.stock.products.Keys == s.stock.products.Keys
    requires (t in s'.users.txs <==> t in s.users.txs) && (t in s.users.txs ==> s'.users.txs[t] == s.users.txs[t])
    requires t in s'.pay.payments <==> t in s.pay.payments
    requires t in s.pay.payments ==> s'.pay.payments[t] == s.pay.payments[t]
    requires t in s'.stock.orders <==> t in s.stock.orders
    requires t in s.stock.orders ==> s'.stock.orders[t] == s.stock.orders[t]
    ensures RowsOk(s', t, f)
  {
  }

  /** What `InvokeFrame` says, of the whole step. */
  lemma AttemptFrame(b: Binding, s: System, t: TxId, fault: Fault, t': TxId)
    requires AwaitsReply(s, t) && t' != t
    ensures var s' := Step(b, s, Attempt(t, fault));
      && s'.users.users.Keys == s.users.users.Keys && s'.stock.products.Keys == s.stock.products.Keys
      && (t' in s'.users.txs <==> t' in s.users.txs) && (t' in s.users.txs ==> s'.users.txs[t'] == s.users.txs[t'])
      && (t' in s'.pay.payments <==> t' in s.pay.payments)
      && (t' in s.pay.payments ==> s'.pay.payments[t'] == s.pay.payments[t'])
      && (t' in s'.stock.orders <==> t' in s.stock.orders)
      && (t' in s.stock.orders ==> s'.stock.orders[t'] == s.stock.orders[t'])
  {
    InvokeFrame(b, s, t, s.flows[t].req, NextCall(s.flows[t].exec), t');
  }

  lemma StepKeepsOthers(b: Binding, s: System, t: TxId, fault: Fault, t': TxId)
    requires AwaitsReply(s, t) && t' in s.flows && t' != t && PurchaseOk(s, t')
    ensures t' in Step(b, s, Attempt(t, fault)).flows && PurchaseOk(Step(b, s, Attempt(t, fault)), t')
  {
    var s' := Step(b, s, Attempt(t, fault));
    AttemptFrame(b, s, t, fault, t');
    OtherFlows(b, s, Attempt(t, fault), t');
    RowsFrame(s, s', t', s.flows[t']);
  }

  lemma KeysKept(b: Binding, s: System, t: TxId, fault: Fault)
    requires AwaitsReply(s, t)
    requires s.users.txs.Keys <= s.flows.Keys && s.pay.payments.Keys <= s.flows.Keys
        && s.stock.orders.Keys <= s.flows.Keys
    ensures var s' := Step(b, s, Attempt(t, fault));
      && s'.flows.Keys == s.flows.Keys
      && s'.users.txs.Keys <= s'.flows.Keys
      && s'.pay.payments.Keys <= s'.flows.Keys && s'.stock.orders.Keys <= s'.flows.Keys
  {
    InvokeFrame(b, s, t, s.flows[t].req, NextCall(s.flows[t].exec), t);
  }

  lemma AttemptKeepsFlows(b: Binding, s: System, t: TxId, fault: Fault)
    requires FlowsOk(s) && AwaitsReply(s, t)
    ensures FlowsOk(Step(b, s, Attempt(t, fault)))
  {
    var s' := Step(b, s, Attempt(t, fault));
    KeysKept(b, s, t, fault);
    AttemptKeepsPurchase(b, s, t, fault);
    forall t' | t' in s'.flows && t' != t ensures PurchaseOk(s', t') { StepKeepsOthers(b, s, t, fault, t'); }
  }

  lemma SubmitKeepsFlows(b: Binding, s: System, t: TxId, q: Request)
    requires FlowsOk(s) && q.quantity > 0
    ensures FlowsOk(Step(b, s, Submit(t, q)))
  {
    var s' := Step(b, s, Submit(t, q));
    if t !in s.flows {
      assert PurchaseOk(s', t);
      forall t' | t' in s'.flows && t' != t ensures PurchaseOk(s', t') { assert PurchaseOk(s, t'); }
    }
  }

  lemma StepKeepsFlows(b: Binding, s: System, e: Event)
    requires FlowsOk(s) && (e.Submit? ==> e.req.quantity > 0)
    ensures FlowsOk(Step(b, s, e))
  {
    if e.Submit? {
      SubmitKeepsFlows(b, s, e.t, e.req);
    } else if e.t in s.flows {
      assert PurchaseOk(s, e.t);
      if !s.flows[e.t].exec.phase.Finished? { AttemptKeepsFlows(b, s, e.t, e.fault); }
    }
  }

  /** The flow of a pending purchase after an attempt: a call that fails before reaching the
      service is one refused for a transient error. */
  lemma AttemptFlow(b: Binding, s: System, t: TxId, fault: Fault)
    requires AwaitsReply(s, t)
    ensures var f := s.flows[t];
            var c := NextCall(f.exec);
            var r := if fault.FailBefore? then Refused(Transient) else Invoke(b, s, t, f.req, c).1;
            t in Step(b, s, Attempt(t, fault)).flows
            && Step(b, s, Attempt(t, fault)).flows[t] == Record(f, c, r, OutcomeOf(r, fault))
  {
  }

  /** An event leaves the flows of all other purchases, and of a finished one, as they are. */
  lemma OtherFlows(b: Binding, s: System, e: Event, t: TxId)
    requires t in s.flows && !(e.Attempt? && e.t == t && !s.flows[t].exec.phase.Finished?)
    ensures t in Step(b, s, e).flows && Step(b, s, e).flows[t] == s.flows[t]
  {
  }
}
