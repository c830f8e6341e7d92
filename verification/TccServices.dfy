/**
 * The three services of a purchase: balances, payments and stock, each with reserve, confirm and
 * cancel. A call is one database transaction; `Refused` is an exception raised before anything
 * was written, `Repeat` the branch that finds the work already done.
 *
 * The functions say what each call does to the tables; the classes hold the tables in fields and
 * are proved to do the same.
 */
module TccServices {
  import opened Workflow

  type TxId = nat

  datatype Reply = Applied | Repeat | Refused(error: Error)

  datatype TxStatus = Reserved | Confirmed | Charged | Cancelled

  // --- Balances ---------------------------------------------------------------------------------

  datatype Account = Account(balance: int, reserved: int)
  datatype BalanceTx = BalanceTx(user: int, amount: int, status: TxStatus)
  datatype UserDb = UserDb(users: map<int, Account>, txs: map<TxId, BalanceTx>)

  function ReserveBalance(db: UserDb, user: int, amount: int, t: TxId): (UserDb, Reply) {
    if t in db.txs then
      (db, if db.txs[t].status.Reserved? then Repeat else Refused(WrongStatus))
    else if user !in db.users then (db, Refused(UserNotFound))
    else
      var a := db.users[user];
      if a.balance - a.reserved < amount then (db, Refused(InsufficientFunds))
      else
        (UserDb(db.users[user := a.(reserved := a.reserved + amount)],
                db.txs[t := BalanceTx(user, amount, Reserved)]), Applied)
  }

  /** Confirming looks only at whether the transaction is already confirmed. */
  function ConfirmBalance(db: UserDb, user: int, t: TxId): (UserDb, Reply) {
    if t !in db.txs then (db, Refused(TransactionNotFound))
    else if db.txs[t].status.Confirmed? then (db, Repeat)
    else if user !in db.users then (db, Refused(UserNotFound))
    else
      var a, amount := db.users[user], db.txs[t].amount;
      (UserDb(db.users[user := Account(a.balance - amount, a.reserved - amount)],
              db.txs[t := db.txs[t].(status := Confirmed)]), Applied)
  }

  /** Cancelling looks only at whether the transaction is already cancelled: a confirmed one has
      its amount taken off the reservation again. */
  function CancelBalance(db: UserDb, user: int, t: TxId): (UserDb, Reply) {
    if t !in db.txs || db.txs[t].status.Cancelled? then (db, Repeat)
    else if user !in db.users then (db, Refused(UserNotFound))
    else
      var a, amount := db.users[user], db.txs[t].amount;
      (UserDb(db.users[user := a.(reserved := a.reserved - amount)],
              db.txs[t := db.txs[t].(status := Cancelled)]), Applied)
  }

  class UserService {
    var users: map<int, Account>
    var txs: map<TxId, BalanceTx>

    function Db(): UserDb reads this { UserDb(users, txs) }

    constructor (users: map<int, Account>)
      ensures Db() == UserDb(users, map[])
    {
      this.users, txs := users, map[];
    }

    method Reserve(user: int, amount: int, t: TxId) returns (r: Reply)
      modifies this
      ensures (Db(), r) == ReserveBalance(old(Db()), user, amount, t)
    {
      if t in txs {
        if txs[t].status.Reserved? { return Repeat; }
        return Refused(WrongStatus);
      }
      if user !in users { return Refused(UserNotFound); }
      var available := users[user].balance - users[user].reserved;
      if available < amount { return Refused(InsufficientFunds); }
      users := users[user := users[user].(reserved := users[user].reserved + amount)];
      txs := txs[t := BalanceTx(user, amount, Reserved)];
      r := Applied;
    }

    method Confirm(user: int, t: TxId) returns (r: Reply)
      modifies this
      ensures (Db(), r) == ConfirmBalance(old(Db()), user, t)
    {
      if t !in txs { return Refused(TransactionNotFound); }
      var tx := txs[t];
      if tx.status.Confirmed? { return Repeat; }
      if user !in users { return Refused(UserNotFound); }
      users := users[user := Account(users[user].balance - tx.amount, users[user].reserved - tx.amount)];
      txs := txs[t := tx.(status := Confirmed)];
      r := Applied;
    }

    method Cancel(user: int, t: TxId) returns (r: Reply)
      modifies this
      ensures (Db(), r) == CancelBalance(old(Db()), user, t)
    {
      if t !in txs { return Repeat; }
      var tx := txs[t];
      if tx.status.Cancelled? { return Repeat; }
      if user !in users { return Refused(UserNotFound); }
      users := users[user := users[user].(reserved := users[user].reserved - tx.amount)];
      txs := txs[t := tx.(status := Cancelled)];
      r := Applied;
    }
  }

  // --- Payments ---------------------------------------------------------------------------------

  datatype PaymentMethod = PaymentMethod(user: int, active: bool)
  datatype Payment = Payment(user: int, paymentMethod: int, amount: int, status: TxStatus)
  datatype PaymentDb = PaymentDb(methods: map<int, PaymentMethod>, payments: map<TxId, Payment>)

  /** Rows are looked up by user and transaction, but inserted under the transaction alone. */
  predicate HasPayment(db: PaymentDb, user: int, t: TxId) {
    t in db.payments && db.payments[t].user == user
  }

  function ReservePayment(db: PaymentDb, user: int, paymentMethod: int, amount: int, t: TxId): (PaymentDb, Reply) {
    if HasPayment(db, user, t) then
      (db, if db.payments[t].status.Reserved? then Repeat else Refused(WrongStatus))
    else if !(paymentMethod in db.methods && db.methods[paymentMethod] == PaymentMethod(user, true)) then
      (db, Refused(InvalidPaymentMethod))
    else if amount <= 0 then (db, Refused(InvalidAmount))
    else if t in db.payments then (db, Refused(DuplicateKey))
    else (db.(payments := db.payments[t := Payment(user, paymentMethod, amount, Reserved)]), Applied)
  }

  function SettlePayment(db: PaymentDb, user: int, t: TxId, to: TxStatus): (PaymentDb, Reply) {
    if !HasPayment(db, user, t) then (db, Refused(NoReservation))
    else if db.payments[t].status.Reserved? then
      (db.(payments := db.payments[t := db.payments[t].(status := to)]), Applied)
    else (db, if db.payments[t].status == to then Repeat else Refused(NoReservation))
  }

  class PaymentService {
    const methods: map<int, PaymentMethod>
    var payments: map<TxId, Payment>

    function Db(): PaymentDb reads this { PaymentDb(methods, payments) }

    constructor (methods: map<int, PaymentMethod>)
      ensures Db() == PaymentDb(methods, map[])
    {
      this.methods, payments := methods, map[];
    }

    method Reserve(user: int, paymentMethod: int, amount: int, t: TxId) returns (r: Reply)
      modifies this
      ensures (Db(), r) == ReservePayment(old(Db()), user, paymentMethod, amount, t)
      ensures r.Applied? <==> && t !in old(payments) && amount > 0
                              && paymentMethod in methods && methods[paymentMethod] == PaymentMethod(user, true)
    {
      if t in payments && payments[t].user == user {
        if payments[t].status.Reserved? { return Repeat; }
        return Refused(WrongStatus);
      }
      if paymentMethod !in methods || methods[paymentMethod].user != user || !methods[paymentMethod].active {
        return Refused(InvalidPaymentMethod);
      }
      if amount <= 0 { return Refused(InvalidAmount); }
      if t in payments { return Refused(DuplicateKey); }
      payments := payments[t := Payment(user, paymentMethod, amount, Reserved)];
      r := Applied;
    }

    method Charge(user: int, t: TxId) returns (r: Reply)
      modifies this
      ensures (Db(), r) == SettlePayment(old(Db()), user, t, Charged)
    {
      if t in payments && payments[t].user == user && payments[t].status.Reserved? {
        payments := payments[t := payments[t].(status := Charged)];
        return Applied;
      }
      if t in payments && payments[t].user == user && payments[t].status.Charged? { return Repeat; }
      r := Refused(NoReservation);
    }

    method Cancel(user: int, t: TxId) returns (r: Reply)
      modifies this
      ensures (Db(), r) == SettlePayment(old(Db()), user, t, Cancelled)
    {
      if t in payments && payments[t].user == user && payments[t].status.Reserved? {
        payments := payments[t := payments[t].(status := Cancelled)];
        return Applied;
      }
      if t in payments && payments[t].user == user && payments[t].status.Cancelled? { return Repeat; }
      r := Refused(NoReservation);
    }
  }

  // --- Stock ------------------------------------------------------------------------------------

  datatype Product = Product(price: int, stock: int, reserved: int)
  datatype Order = Order(user: int, product: int, quantity: int, total: int, status: TxStatus)
  datatype OrderDb = OrderDb(products: map<int, Product>, orders: map<TxId, Order>)

  predicate HasOrder(db: OrderDb, user: int, t: TxId) {
    t in db.orders && db.orders[t].user == user
  }

  function ReserveProduct(db: OrderDb, user: int, product: int, quantity: int, t: TxId): (OrderDb, Reply) {
    if HasOrder(db, user, t) then
      (db, if db.orders[t].status.Reserved? then Repeat else Refused(WrongStatus))
    else if product !in db.products then (db, Refused(ProductNotFound))
    else
      var p := db.products[product];
      if p.stock - p.reserved < quantity then (db, Refused(OutOfStock))
      else if t in db.orders then (db, Refused(DuplicateKey))
      else
        (OrderDb(db.products[product := p.(reserved := p.reserved + quantity)],
                 db.orders[t := Order(user, product, quantity, p.price * quantity, Reserved)]), Applied)
  }

  /** Confirming takes the quantity off the stock and off the reservation. */
  function ConfirmOrder(db: OrderDb, user: int, t: TxId): (OrderDb, Reply) {
    if !HasOrder(db, user, t) then (db, Refused(NoReservation))
    else if !db.orders[t].status.Reserved? then
      (db, if db.orders[t].status.Confirmed? then Repeat else Refused(NoReservation))
    else
      var o := db.orders[t];
      if o.product !in db.products then (db, Refused(ProductNotFound))
      else
        var p := db.products[o.product];
        (OrderDb(db.products[o.product := p.(stock := p.stock - o.quantity, reserved := p.reserved - o.quantity)],
                 db.orders[t := o.(status := Confirmed)]), Applied)
  }

  /** Cancelling gives the reservation back and leaves the stock alone. */
  function CancelOrder(db: OrderDb, user: int, t: TxId): (OrderDb, Reply) {
    if !HasOrder(db, user, t) then (db, Refused(NoReservation))
    else if !db.orders[t].status.Reserved? then
      (db, if db.orders[t].status.Cancelled? then Repeat else Refused(NoReservation))
    else
      var o := db.orders[t];
      if o.product !in db.products then (db, Refused(ProductNotFound))
      else
        var p := db.products[o.product];
        (OrderDb(db.products[o.product := p.(reserved := p.reserved - o.quantity)],
                 db.orders[t := o.(status := Cancelled)]), Applied)
  }

  class OrderService {
    var products: map<int, Product>
    var orders: map<TxId, Order>

    function Db(): OrderDb reads this { OrderDb(products, orders) }

    constructor (products: map<int, Product>)
      ensures Db() == OrderDb(products, map[])
    {
      this.products, orders := products, map[];
    }

    method Reserve(user: int, product: int, quantity: int, t: TxId) returns (r: Reply)
      modifies this
      ensures (Db(), r) == ReserveProduct(old(Db()), user, product, quantity, t)
    {
      if t in orders && orders[t].user == user {
        if orders[t].status.Reserved? { return Repeat; }
        return Refused(WrongStatus);
      }
      if product !in products { return Refused(ProductNotFound); }
      var p := products[product];
      var available := p.stock - p.reserved;
      if available < quantity { return Refused(OutOfStock); }
      if t in orders { return Refused(DuplicateKey); }
      orders := orders[t := Order(user, product, quantity, p.price * quantity, Reserved)];
      products := products[product := p.(reserved := p.reserved + quantity)];
      r := Applied;
    }

    method Confirm(user: int, t: TxId) returns (r: Reply)
      modifies this
      ensures (Db(), r) == ConfirmOrder(old(Db()), user, t)
    {
      if t !in orders || orders[t].user != user || !orders[t].status.Reserved? {
        if t in orders && orders[t].user == user && orders[t].status.Confirmed? { return Repeat; }
        return Refused(NoReservation);
      }
      var o := orders[t];
      if o.product !in products { return Refused(ProductNotFound); }
      var p := products[o.product];
      products := products[o.product := p.(stock := p.stock - o.quantity, reserved := p.reserved - o.quantity)];
      orders := orders[t := o.(status := Confirmed)];
      r := Applied;
    }

    method Cancel(user: int, t: TxId) returns (r: Reply)
      modifies this
      ensures (Db(), r) == CancelOrder(old(Db()), user, t)
    {
      if t !in orders || orders[t].user != user || !orders[t].status.Reserved? {
        if t in orders && orders[t].user == user && orders[t].status.Cancelled? { return Repeat; }
        return Refused(NoReservation);
      }
      var o := orders[t];
      if o.product !in products { return Refused(ProductNotFound); }
      var p := products[o.product];
      products := products[o.product := p.(reserved := p.reserved - o.quantity)];
      orders := orders[t := o.(status := Cancelled)];
      r := Applied;
    }
  }
}
