/**
 * The nine calls of the three services one by one, in any state whatever: when they take effect, when
 * they find their work done, and that making one again does nothing more.
 */
module TccReplies {
  import opened TccServices
  import R = PaymentRecords

  datatype Call =
    | ReserveBalanceCall(user: int, amount: int, t: TxId)
    | ConfirmBalanceCall(user: int, t: TxId)
    | CancelBalanceCall(user: int, t: TxId)
    | PaymentCall(call: R.Call)
    | ReserveProductCall(user: int, product: int, quantity: int, t: TxId)
    | ConfirmOrderCall(user: int, t: TxId)
    | CancelOrderCall(user: int, t: TxId)

  datatype Services = Services(users: UserDb, pay: PaymentDb, stock: OrderDb)

  function Make(s: Services, c: Call): (Services, Reply) {
    match c
    case ReserveBalanceCall(user, amount, t) =>
      var (db, r) := ReserveBalance(s.users, user, amount, t);
      (s.(users := db), r)
    case ConfirmBalanceCall(user, t) => var (db, r) := ConfirmBalance(s.users, user, t); (s.(users := db), r)
    case CancelBalanceCall(user, t) => var (db, r) := CancelBalance(s.users, user, t); (s.(users := db), r)
    case PaymentCall(call) => var (db, r) := R.Answer(s.pay, call); (s.(pay := db), r)
    case ReserveProductCall(user, product, quantity, t) =>
      var (db, r) := ReserveProduct(s.stock, user, product, quantity, t);
      (s.(stock := db), r)
    case ConfirmOrderCall(user, t) => var (db, r) := ConfirmOrder(s.stock, user, t); (s.(stock := db), r)
    case CancelOrderCall(user, t) => var (db, r) := CancelOrder(s.stock, user, t); (s.(stock := db), r)
  }

  /** Only a call that takes effect changes anything, and making it again finds the work done. */
  lemma Idempotent(s: Services, c: Call)
    ensures var (s', r) := Make(s, c);
      && (!r.Applied? ==> s' == s)
      && (!r.Refused? ==> Make(s', c) == (s', Repeat))
  {
  }

  /** The user's own row of this transaction, in this state. */
  predicate BalanceIs(s: Services, t: TxId, st: TxStatus) { t in s.users.txs && s.users.txs[t].status == st }

  predicate PaymentIs(s: Services, user: int, t: TxId, st: TxStatus) {
    t in s.pay.payments && s.pay.payments[t].user == user && s.pay.payments[t].status == st
  }

  predicate OrderIs(s: Services, user: int, t: TxId, st: TxStatus) {
    t in s.stock.orders && s.stock.orders[t].user == user && s.stock.orders[t].status == st
  }

  /** A call's work is done exactly if its row says so; only cancelling a balance that was never reserved
      passes for done as well. */
  lemma DoneIff(s: Services, c: Call)
    ensures Make(s, c).1.Repeat? <==>
      match c
      case ReserveBalanceCall(_, _, t) => BalanceIs(s, t, Reserved)
      case ConfirmBalanceCall(_, t) => BalanceIs(s, t, Confirmed)
      case CancelBalanceCall(_, t) => t !in s.users.txs || BalanceIs(s, t, Cancelled)
      case PaymentCall(Reserving(user, _, _, t)) => PaymentIs(s, user, t, Reserved)
      case PaymentCall(Charging(user, t)) => PaymentIs(s, user, t, Charged)
      case PaymentCall(Cancelling(user, t)) => PaymentIs(s, user, t, Cancelled)
      case ReserveProductCall(user, _, _, t) => OrderIs(s, user, t, Reserved)
      case ConfirmOrderCall(user, t) => OrderIs(s, user, t, Confirmed)
      case CancelOrderCall(user, t) => OrderIs(s, user, t, Cancelled)
  {
  }

  /** A call takes effect exactly under these conditions. Payments and orders are settled only out of a
      reservation of the same user, a balance out of any state but the one it would be left in. */
  lemma AppliedIff(s: Services, c: Call)
    ensures Make(s, c).1.Applied? <==>
      match c
      case ReserveBalanceCall(user, amount, t) =>
        && t !in s.users.txs && user in s.users.users
        && s.users.users[user].balance >= s.users.users[user].reserved + amount
      case ConfirmBalanceCall(user, t) =>
        t in s.users.txs && s.users.txs[t].status != Confirmed && user in s.users.users
      case CancelBalanceCall(user, t) =>
        t in s.users.txs && s.users.txs[t].status != Cancelled && user in s.users.users
      case PaymentCall(Reserving(user, m, amount, t)) =>
        t !in s.pay.payments && R.OwnMethod(s.pay.methods, user, m) && amount > 0
      case PaymentCall(Charging(user, t)) => PaymentIs(s, user, t, Reserved)
      case PaymentCall(Cancelling(user, t)) => PaymentIs(s, user, t, Reserved)
      case ReserveProductCall(_, product, quantity, t) =>
        && t !in s.stock.orders && product in s.stock.products
        && s.stock.products[product].stock >= s.stock.products[product].reserved + quantity
      case ConfirmOrderCall(user, t) => OrderIs(s, user, t, Reserved) && s.stock.orders[t].product in s.stock.products
      case CancelOrderCall(user, t) => OrderIs(s, user, t, Reserved) && s.stock.orders[t].product in s.stock.products
  {
  }
}
