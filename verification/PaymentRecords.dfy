/** The payment table under any calls at all: whose methods it charges, and what never changes. */
module PaymentRecords {
  import opened TccServices

  datatype Call =
    | Reserving(user: int, paymentMethod: int, amount: int, t: TxId)
    | Charging(user: int, t: TxId)
    | Cancelling(user: int, t: TxId)

  function Answer(db: PaymentDb, c: Call): (PaymentDb, Reply) {
    match c
    case Reserving(user, m, amount, t) => ReservePayment(db, user, m, amount, t)
    case Charging(user, t) => SettlePayment(db, user, t, Charged)
    case Cancelling(user, t) => SettlePayment(db, user, t, Cancelled)
  }

  function After(db: PaymentDb, cs: seq<Call>): PaymentDb {
    if cs == [] then db else Answer(After(db, cs[..|cs| - 1]), cs[|cs| - 1]).0
  }

  /** The method is one of the payer's own, and active. */
  predicate OwnMethod(methods: map<int, PaymentMethod>, user: int, paymentMethod: int) {
    && paymentMethod in methods
    && methods[paymentMethod].user == user && methods[paymentMethod].active
  }

  predicate Sound(methods: map<int, PaymentMethod>, p: Payment) {
    OwnMethod(methods, p.user, p.paymentMethod) && p.amount > 0
  }

  ghost predicate AllSound(db: PaymentDb) { forall t :: t in db.payments ==> Sound(db.methods, db.payments[t]) }

  /** Whatever is called in whatever order, every payment is made with an active method of its own
      user, over a positive amount. */
  lemma {:induction false} EveryPaymentSound(methods: map<int, PaymentMethod>, cs: seq<Call>)
    ensures var db := After(PaymentDb(methods, map[]), cs); db.methods == methods && AllSound(db)
  {
    if cs != [] {
      EveryPaymentSound(methods, cs[..|cs| - 1]);
    }
  }

  /** What may become of a payment: its status is settled once at most, and nothing else changes. */
  predicate Follows(p: Payment, p': Payment) {
    && p'.user == p.user && p'.paymentMethod == p.paymentMethod && p'.amount == p.amount
    && (p.status.Reserved? || p'.status == p.status)
  }

  /** A charged payment is never cancelled and a cancelled one never charged, whatever is called. */
  lemma {:induction false} SettledForEver(db: PaymentDb, cs: seq<Call>, t: TxId)
    requires t in db.payments
    ensures t in After(db, cs).payments && Follows(db.payments[t], After(db, cs).payments[t])
  {
    if cs != [] { SettledForEver(db, cs[..|cs| - 1], t); }
  }
}
