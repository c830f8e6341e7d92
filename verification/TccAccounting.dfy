/**
 * The books of the user and order services: what every account and product row must equal, given
 * the transaction rows, and which calls keep it so.
 */
module TccAccounting {
  import opened Sums
  import opened TccServices

  // --- Balances ---------------------------------------------------------------------------------

  function ReservedFor(user: int): (TxId, BalanceTx) -> int {
    (t, tx: BalanceTx) => if tx.user == user && tx.status.Reserved? then tx.amount else 0
  }

  function ConfirmedFor(user: int): (TxId, BalanceTx) -> int {
    (t, tx: BalanceTx) => if tx.user == user && tx.status.Confirmed? then tx.amount else 0
  }

  /** The account equals its opening balance less what was confirmed, and its reservation the sum
      of the reserved transactions; `lost` is the amount by which both fall short. */
  ghost predicate AccountOk(db: UserDb, opening: map<int, int>, user: int, lost: int) {
    user in db.users && user in opening ==>
      var a := db.users[user];
      && a.reserved == Total(db.txs, ReservedFor(user)) - lost
      && a.balance == opening[user] - Total(db.txs, ConfirmedFor(user)) - lost
      && a.reserved <= a.balance
  }

  predicate AmountsPositive(db: UserDb) {
    forall t :: t in db.txs ==> db.txs[t].amount > 0
  }

  lemma ReserveKeepsAccount(db: UserDb, user: int, amount: int, t: TxId, opening: map<int, int>, u: int, lost: int)
    requires AccountOk(db, opening, u, lost)
    ensures AccountOk(ReserveBalance(db, user, amount, t).0, opening, u, lost)
  {
    TotalUpdate(db.txs, ReservedFor(u), t, BalanceTx(user, amount, Reserved));
    TotalUpdate(db.txs, ConfirmedFor(u), t, BalanceTx(user, amount, Reserved));
  }

  /** Confirming keeps the books of a user if and only if the transaction is reserved or confirmed, or
      another user's: a cancelled one is debited, and taken off the reservation a second time, unless
      its amount is zero. */
  lemma ConfirmKeepsAccount(db: UserDb, t: TxId, opening: map<int, int>, u: int, lost: int)
    requires AccountOk(db, opening, u, lost) && t in db.txs
    ensures var tx := db.txs[t];
            var own := u == tx.user && u in db.users && u in opening;
            AccountOk(ConfirmBalance(db, tx.user, t).0, opening, u, lost)
            <==> (own ==> tx.status.Reserved? || tx.status.Confirmed? || tx.amount == 0)
  {
    TotalUpdate(db.txs, ReservedFor(u), t, db.txs[t].(status := Confirmed));
    TotalUpdate(db.txs, ConfirmedFor(u), t, db.txs[t].(status := Confirmed));
  }

  /** What cancelling does to the books: nothing if the transaction was reserved, and if it was
      confirmed both columns of its user fall short by its amount from then on. */
  lemma CancelAccount(db: UserDb, t: TxId, opening: map<int, int>, u: int, lost: int)
    requires AmountsPositive(db) && AccountOk(db, opening, u, lost)
    requires t in db.txs && !db.txs[t].status.Charged?
    ensures var short := u == db.txs[t].user && db.txs[t].status.Confirmed? && u in db.users;
            var more := if short then db.txs[t].amount else 0;
            AccountOk(CancelBalance(db, db.txs[t].user, t).0, opening, u, lost + more)
  {
    TotalUpdate(db.txs, ReservedFor(u), t, db.txs[t].(status := Cancelled));
    TotalUpdate(db.txs, ConfirmedFor(u), t, db.txs[t].(status := Cancelled));
  }

  /** Cancelling keeps an exact account exact if and only if the transaction is not confirmed. */
  lemma CancelExactIff(db: UserDb, t: TxId, opening: map<int, int>)
    requires AmountsPositive(db) && t in db.txs && !db.txs[t].status.Charged?
    requires var u := db.txs[t].user; u in db.users && u in opening && AccountOk(db, opening, u, 0)
    ensures AccountOk(CancelBalance(db, db.txs[t].user, t).0, opening, db.txs[t].user, 0)
       <==> !db.txs[t].status.Confirmed?
  {
    CancelAccount(db, t, opening, db.txs[t].user, 0);
  }

  /** Exact books: nothing is reserved beyond the balance or below zero. */
  lemma ExactAccountBounds(db: UserDb, opening: map<int, int>, user: int)
    requires AmountsPositive(db) && user in db.users && user in opening && AccountOk(db, opening, user, 0)
    ensures 0 <= db.users[user].reserved <= db.users[user].balance
  {
    TotalZero(db.txs, ReservedFor(user));
  }

  // --- Stock ------------------------------------------------------------------------------------

  function ReservedQuantity(product: int): (TxId, Order) -> int {
    (t, o: Order) => if o.product == product && o.status.Reserved? then o.quantity else 0
  }

  function SoldQuantity(product: int): (TxId, Order) -> int {
    (t, o: Order) => if o.product == product && o.status.Confirmed? then o.quantity else 0
  }

  ghost predicate StockOk(db: OrderDb, opening: map<int, int>, product: int) {
    product in db.products && product in opening ==>
      var p := db.products[product];
      && p.reserved == Total(db.orders, ReservedQuantity(product))
      && p.stock == opening[product] - Total(db.orders, SoldQuantity(product))
      && p.reserved <= p.stock
  }

  predicate QuantitiesPositive(db: OrderDb) {
    forall t :: t in db.orders ==> db.orders[t].quantity > 0
  }

  lemma ReserveKeepsStock(db: OrderDb, user: int, product: int, quantity: int, t: TxId, opening: map<int, int>, p: int)
    requires StockOk(db, opening, p)
    ensures StockOk(ReserveProduct(db, user, product, quantity, t).0, opening, p)
  {
    if product in db.products {
      var o := Order(user, product, quantity, db.products[product].price * quantity, Reserved);
      TotalUpdate(db.orders, ReservedQuantity(p), t, o);
      TotalUpdate(db.orders, SoldQuantity(p), t, o);
    }
  }

  /** Unlike the balance, the stock survives any order of calls: both check that the row is
      still reserved. */
  lemma SettleKeepsStock(db: OrderDb, user: int, t: TxId, opening: map<int, int>, p: int)
    requires QuantitiesPositive(db) && StockOk(db, opening, p)
    ensures StockOk(ConfirmOrder(db, user, t).0, opening, p)
    ensures StockOk(CancelOrder(db, user, t).0, opening, p)
  {
    if HasOrder(db, user, t) {
      TotalUpdate(db.orders, ReservedQuantity(p), t, db.orders[t].(status := Confirmed));
      TotalUpdate(db.orders, SoldQuantity(p), t, db.orders[t].(status := Confirmed));
      TotalUpdate(db.orders, ReservedQuantity(p), t, db.orders[t].(status := Cancelled));
      TotalUpdate(db.orders, SoldQuantity(p), t, db.orders[t].(status := Cancelled));
    }
  }

  lemma StockBounds(db: OrderDb, opening: map<int, int>, product: int)
    requires QuantitiesPositive(db) && product in db.products && product in opening && StockOk(db, opening, product)
    ensures 0 <= db.products[product].reserved <= db.products[product].stock
  {
    TotalZero(db.orders, ReservedQuantity(product));
  }
}
