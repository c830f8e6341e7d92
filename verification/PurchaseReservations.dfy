/**
 * What the reservations of a purchase come to, in every state that any interleaving can reach: which
 * of them are granted, in terms of the opening state and the books, and what the manager makes of one
 * that is not.
 */
module PurchaseReservations {
  import opened Sums
  import opened Workflow
  import opened TccServices
  import opened TccAccounting
  import opened PurchaseSaga
  import opened PurchaseSafety
  import R = PaymentRecords

  // --- Rows -------------------------------------------------------------------------------------

  ghost predicate OrdersPriced(start: System, s: System) {
    && (forall p :: p in s.stock.products ==>
         p in start.stock.products && s.stock.products[p].price == start.stock.products[p].price)
    && (forall t :: t in s.stock.orders ==>
         var o := s.stock.orders[t];
         o.product in start.stock.products && o.total == start.stock.products[o.product].price * o.quantity)
  }

  ghost predicate RowsSound(start: System, s: System) {
    s.pay.methods == start.pay.methods && R.AllSound(s.pay) && OrdersPriced(start, s)
  }

  lemma InvokeKeepsRows(b: Binding, start: System, s: System, t: TxId, q: Request, c: Call)
    requires RowsSound(start, s)
    ensures RowsSound(start, Invoke(b, s, t, q, c).0)
  {
  }

  lemma {:induction false} RunRows(b: Binding, start: System, es: seq<Event>)
    requires Opening(start)
    ensures RowsSound(start, Run(b, start, es))
  {
    if es != [] {
      var s, e := Run(b, start, es[..|es| - 1]), es[|es| - 1];
      RunRows(b, start, es[..|es| - 1]);
      if e.Attempt? && e.t in s.flows && Placed(s.flows[e.t].exec) && !s.flows[e.t].exec.phase.Finished? {
        InvokeKeepsRows(b, start, s, e.t, s.flows[e.t].req, NextCall(s.flows[e.t].exec));
      }
    }
  }

  /** Every payment is made with an active payment method of the purchaser, over a positive amount. */
  lemma PaidWithOwnMethod(b: Binding, start: System, s: System, t: TxId)
    requires Reached(b, start, s) && t in s.pay.payments
    ensures var p := s.pay.payments[t];
      && p.paymentMethod in start.pay.methods && start.pay.methods[p.paymentMethod] == PaymentMethod(p.user, true)
      && p.amount > 0
  {
    var es: seq<Event> :| Orderly(es) && s == Run(b, start, es);
    RunRows(b, start, es);
    assert R.Sound(s.pay.methods, s.pay.payments[t]);
  }

  /** Every order is over the product's price times its quantity. */
  lemma OrderTotals(b: Binding, start: System, s: System, t: TxId)
    requires Reached(b, start, s) && t in s.stock.orders
    ensures var o := s.stock.orders[t];
            o.product in start.stock.products && o.total == start.stock.products[o.product].price * o.quantity
  {
    var es: seq<Event> :| Orderly(es) && s == Run(b, start, es);
    RunRows(b, start, es);
  }

  // --- Replies ----------------------------------------------------------------------------------

  /** What the user's opening balance leaves besides what has been confirmed or is reserved. */
  ghost function Free(start: System, s: System, u: int): int
    requires u in start.users.users
  {
    start.users.users[u].balance - Total(s.users.txs, ConfirmedFor(u)) - Total(s.users.txs, ReservedFor(u))
  }

  ghost function InStock(start: System, s: System, p: int): int
    requires p in start.stock.products
  {
    start.stock.products[p].stock - Total(s.stock.orders, SoldQuantity(p)) - Total(s.stock.orders, ReservedQuantity(p))
  }

  /** What reservation `k` answers when it is first made. */
  ghost function Granted(start: System, s: System, q: Request, k: nat): Reply {
    match k
    case 0 =>
      if q.user !in start.users.users then Refused(UserNotFound)
      else if Free(start, s, q.user) < PRICE * q.quantity then Refused(InsufficientFunds)
      else Applied
    case 1 =>
      if q.paymentMethod !in start.pay.methods then Refused(InvalidPaymentMethod)
      else if start.pay.methods[q.paymentMethod] != PaymentMethod(q.user, true) then Refused(InvalidPaymentMethod)
      else Applied
    case _ =>
      if q.product !in start.stock.products then Refused(ProductNotFound)
      else if InStock(start, s, q.product) < q.quantity then Refused(OutOfStock)
      else Applied
  }

  /** A purchase is about to make reservation `k`, which has not taken effect yet. */
  predicate Reserving(s: System, t: TxId, k: nat) {
    t in s.flows && k < TRIES && Placed(s.flows[t].exec) && s.flows[t].exec.phase.Trying?
    && s.flows[t].exec.index == k && |s.flows[t].effects| == k
  }

  predicate NoRow(s: System, t: TxId, k: nat) {
    match k
    case 0 => t !in s.users.txs
    case 1 => t !in s.pay.payments
    case _ => t !in s.stock.orders
  }

  lemma LiveHasNoRow(s: System, t: TxId, f: Flow, k: nat)
    requires RowsOk(s, t, f) && Live(f, Handler(k)) && |f.effects| == k < TRIES
    ensures NoRow(s, t, k)
  {
  }

  lemma FreshRow(s: System, t: TxId, k: nat)
    requires FlowsOk(s) && Reserving(s, t, k)
    ensures NoRow(s, t, k) && s.flows[t].req.quantity > 0
  {
    assert PurchaseOk(s, t);
    PendingIsLive(s.flows[t]);
    LiveHasNoRow(s, t, s.flows[t], k);
  }

  lemma BalanceGranted(start: System, s: System, q: Request, t: TxId)
    requires AccountsOk(start, s) && t !in s.users.txs
    ensures ReserveBalance(s.users, q.user, PRICE * q.quantity, t).1 == Granted(start, s, q, 0)
  {
    if q.user in start.users.users { BalanceFree(start, s, q.user); }
  }

  lemma PaymentGranted(start: System, s: System, q: Request, t: TxId)
    requires s.pay.methods == start.pay.methods && t !in s.pay.payments && q.quantity > 0
    ensures ReservePayment(s.pay, q.user, q.paymentMethod, PRICE * q.quantity, t).1 == Granted(start, s, q, 1)
  {
  }

  lemma StockGranted(start: System, s: System, q: Request, t: TxId)
    requires StocksOk(start, s) && t !in s.stock.orders
    ensures ReserveProduct(s.stock, q.user, q.product, q.quantity, t).1 == Granted(start, s, q, 2)
  {
    if q.product in start.stock.products { StockFree(start, s, q.product); }
  }

  lemma MethodsStay(b: Binding, start: System, s: System)
    requires Reached(b, start, s)
    ensures s.pay.methods == start.pay.methods
  {
    var es: seq<Event> :| Orderly(es) && s == Run(b, start, es);
    RunRows(b, start, es);
  }

  /** A reservation is granted exactly if what it asks for is free: the balance and the stock of the
      opening less all that other purchases have confirmed or reserved, and a payment method of the
      user that is active. */
  lemma GrantedIff(b: Binding, start: System, s: System, t: TxId, k: nat)
    requires Reached(b, start, s) && Reserving(s, t, k)
    ensures Invoke(b, s, t, s.flows[t].req, Handler(k)).1 == Granted(start, s, s.flows[t].req, k)
  {
    ReachedOk(b, start, s);
    MethodsStay(b, start, s);
    FreshRow(s, t, k);
    var q := s.flows[t].req;
    match k
    case 0 => BalanceGranted(start, s, q, t);
    case 1 => PaymentGranted(start, s, q, t);
    case _ => StockGranted(start, s, q, t);
  }

  /** What is missing of an inexact account is missing of both columns. */
  lemma BalanceFree(start: System, s: System, u: int)
    requires AccountsOk(start, s) && u in start.users.users
    ensures u in s.users.users && s.users.users[u].balance - s.users.users[u].reserved == Free(start, s, u)
  {
    assert AccountOk(s.users, Balances(start), u, Total(s.flows, LostFor(u)));
  }

  lemma StockFree(start: System, s: System, p: int)
    requires StocksOk(start, s) && p in start.stock.products
    ensures p in s.stock.products
    ensures s.stock.products[p].stock - s.stock.products[p].reserved == InStock(start, s, p)
  {
    assert StockOk(s.stock, Stocks(start), p);
  }

  /** The purchase after the attempt: on to the next activity, trying again, or given up. */
  datatype Progress = GoesOn | TriesAgain | GivesUp

  predicate Progresses(x: Execution, y: Execution, p: Progress)
    requires x.phase.Trying?
  {
    match p
    case GoesOn => y.index == x.index + 1 && y.phase == Trying(0)
    case TriesAgain => y.index == x.index && y.phase == Trying(x.phase.attempt + 1)
    case GivesUp => y.index == x.index && FailedAt(y) && !y.phase.Trying?
  }

  /** An unknown user, a payment method that is not the user's or not active, and a product out of stock
      end the purchase at once. Missing funds and an unknown product are tried again, three times. */
  function After(r: Reply, attempt: nat): Progress {
    if r == Applied then GoesOn
    else if (r == Refused(InsufficientFunds) || r == Refused(ProductNotFound)) && attempt < 3 then TriesAgain
    else GivesUp
  }

  predicate AnswersFirst(r: Reply) {
    r.Applied? || r == Refused(UserNotFound) || r == Refused(InsufficientFunds) || r == Refused(InvalidPaymentMethod)
    || r == Refused(ProductNotFound) || r == Refused(OutOfStock)
  }

  lemma AfterOutcome(x: Execution, k: nat, r: Reply)
    requires Shape(PurchaseActivities(), x) && x.phase.Trying? && x.index == k < TRIES && AnswersFirst(r)
    ensures Progresses(x, Advance(x, OutcomeOf(r, NoFault)), After(r, x.phase.attempt))
  {
    AdvanceMoves(PurchaseActivities(), x, OutcomeOf(r, NoFault));
    AdvanceKeepsShape(PurchaseActivities(), x, OutcomeOf(r, NoFault));
  }

  lemma AfterAttempt(b: Binding, s: System, t: TxId, k: nat, r: Reply)
    requires AwaitsReply(s, t) && Reserving(s, t, k)
    requires r == Invoke(b, s, t, s.flows[t].req, Handler(k)).1 && AnswersFirst(r)
    ensures var s', x := Step(b, s, Attempt(t, NoFault)), s.flows[t].exec;
            t in s'.flows && Progresses(x, s'.flows[t].exec, After(r, x.phase.attempt))
  {
    AttemptFlow(b, s, t, NoFault);
    AfterOutcome(s.flows[t].exec, k, r);
  }

  /** What a first attempt at a reservation comes to. */
  lemma AttemptProgress(b: Binding, start: System, s: System, t: TxId, k: nat)
    requires Reached(b, start, s) && Reserving(s, t, k)
    ensures var s', x := Step(b, s, Attempt(t, NoFault)), s.flows[t].exec;
      && t in s'.flows
      && Progresses(x, s'.flows[t].exec, After(Granted(start, s, s.flows[t].req, k), x.phase.attempt))
  {
    GrantedIff(b, start, s, t, k);
    ReachedOk(b, start, s);
    assert PurchaseOk(s, t);
    AfterAttempt(b, s, t, k, Granted(start, s, s.flows[t].req, k));
  }
}
