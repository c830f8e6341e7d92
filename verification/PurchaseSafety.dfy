/**
 * What holds in every reachable state of the purchase system, for any number of interleaved
 * purchases and any faults: the books of the services, and what becomes of each purchase.
 */
module PurchaseSafety {
  import opened Sums
  import opened Workflow
  import opened TccServices
  import opened TccAccounting
  import opened PurchaseSaga

  // --- The books --------------------------------------------------------------------------------

  ghost function Balances(s: System): map<int, int> { map u | u in s.users.users :: s.users.users[u].balance }

  ghost function Stocks(s: System): map<int, int> { map p | p in s.stock.products :: s.stock.products[p].stock }

  /** The purchase was debited by confirming and then cancelled all the same. */
  predicate Spoiled(f: Flow) {
    0 in f.undone && |f.effects| > TRIES
  }

  function LostFor(user: int): (TxId, Flow) -> int {
    (t, f: Flow) => if f.req.user == user && Spoiled(f) then PRICE * f.req.quantity else 0
  }

  ghost predicate AccountsOk(start: System, s: System) {
    s.users.users.Keys == start.users.users.Keys
    && forall u :: u in s.users.users ==> AccountOk(s.users, Balances(start), u, Total(s.flows, LostFor(u)))
  }

  ghost predicate StocksOk(start: System, s: System) {
    s.stock.products.Keys == start.stock.products.Keys
    && forall p :: p in s.stock.products ==> StockOk(s.stock, Stocks(start), p)
  }

  ghost predicate SystemOk(start: System, s: System) {
    FlowsOk(s) && AccountsOk(start, s) && StocksOk(start, s)
  }

  lemma AmountsArePositive(s: System)
    requires FlowsOk(s)
    ensures AmountsPositive(s.users) && QuantitiesPositive(s.stock)
  {
    forall t | t in s.users.txs ensures s.users.txs[t].amount > 0 { assert PurchaseOk(s, t); }
    forall t | t in s.stock.orders ensures s.stock.orders[t].quantity > 0 { assert PurchaseOk(s, t); }
  }

  lemma CallAccount(b: Binding, start: System, s: System, t: TxId, f: Flow, c: Call, u: int, lost: int)
    requires Live(f, c) && RowsOk(s, t, f) && f.req.quantity > 0 && AmountsPositive(s.users)
    requires AccountOk(s.users, Balances(start), u, lost)
    ensures var (s', r) := Invoke(b, s, t, f.req, c);
            var g := if r.Applied? then Took(f, c) else f;
            var spoils := u == f.req.user && Spoiled(g) && !Spoiled(f) && u in s.users.users;
            var more := if spoils then PRICE * f.req.quantity else 0;
            && (Spoiled(f) ==> Spoiled(g))
            && AccountOk(s'.users, Balances(start), u, lost + more)
  {
    CallReply(b, s, t, f, c);
    match c
    case Handler(0) => ReserveKeepsAccount(s.users, f.req.user, PRICE * f.req.quantity, t, Balances(start), u, lost);
    case Handler(3) => if t in s.users.txs { ConfirmKeepsAccount(s.users, t, Balances(start), u, lost); }
    case Compensation(0) => CancelAccount(s.users, t, Balances(start), u, lost);
    case _ =>
  }

  lemma CallStock(b: Binding, start: System, s: System, t: TxId, q: Request, c: Call, p: int)
    requires QuantitiesPositive(s.stock) && StockOk(s.stock, Stocks(start), p)
    ensures StockOk(Invoke(b, s, t, q, c).0.stock, Stocks(start), p)
  {
    ReserveKeepsStock(s.stock, q.user, q.product, q.quantity, t, Stocks(start), p);
    SettleKeepsStock(s.stock, q.user, t, Stocks(start), p);
  }

  /** `d` and `g` are the services and the flow's history after one call of `t`, made or not. */
  ghost predicate Called(b: Binding, s: System, t: TxId, d: System, g: Flow)
    requires t in s.flows && Placed(s.flows[t].exec) && !s.flows[t].exec.phase.Finished?
  {
    var f, c := s.flows[t], NextCall(s.flows[t].exec);
    var (s', r) := Invoke(b, s, t, f.req, c);
    && g.req == f.req
    && ((d == s && g.effects == f.effects && g.undone == f.undone)
        || (d == s' && var h := if r.Applied? then Took(f, c) else f; g.effects == h.effects && g.undone == h.undone))
  }

  lemma StepIsCall(b: Binding, s: System, t: TxId, fault: Fault)
    requires AwaitsReply(s, t)
    ensures var s' := Step(b, s, Attempt(t, fault));
      && s'.flows.Keys == s.flows.Keys
      && s'.flows == s.flows[t := s'.flows[t]]
      && Called(b, s, t, s'.(flows := s.flows), s'.flows[t])
  {
    InvokeFrame(b, s, t, s.flows[t].req, NextCall(s.flows[t].exec), t);
    PendingIsLive(s.flows[t]);
  }

  lemma CalledKeepsAccounts(b: Binding, start: System, s: System, t: TxId, d: System, g: Flow, u: int)
    requires AwaitsReply(s, t) && AmountsPositive(s.users) && Called(b, s, t, d, g) && u in s.users.users
    requires AccountOk(s.users, Balances(start), u, Total(s.flows, LostFor(u)))
    ensures AccountOk(d.users, Balances(start), u, Total(s.flows[t := g], LostFor(u)))
  {
    var f := s.flows[t];
    TotalUpdate(s.flows, LostFor(u), t, g);
    PendingIsLive(f);
    CallAccount(b, start, s, t, f, NextCall(f.exec), u, Total(s.flows, LostFor(u)));
  }

  lemma CalledKeepsBooks(b: Binding, start: System, s: System, t: TxId, d: System, g: Flow, s': System)
    requires AwaitsReply(s, t) && AmountsPositive(s.users) && QuantitiesPositive(s.stock) && Called(b, s, t, d, g)
    requires s'.users == d.users && s'.stock == d.stock && s'.flows == s.flows[t := g]
    requires AccountsOk(start, s) && StocksOk(start, s)
    ensures AccountsOk(start, s') && StocksOk(start, s')
  {
    InvokeFrame(b, s, t, s.flows[t].req, NextCall(s.flows[t].exec), t);
    forall u | u in s'.users.users ensures AccountOk(s'.users, Balances(start), u, Total(s'.flows, LostFor(u))) {
      CalledKeepsAccounts(b, start, s, t, d, g, u);
    }
    forall p | p in s'.stock.products ensures StockOk(s'.stock, Stocks(start), p) {
      CallStock(b, start, s, t, s.flows[t].req, NextCall(s.flows[t].exec), p);
    }
  }

  lemma SubmitKeepsBooks(start: System, s: System, t: TxId, g: Flow)
    requires AccountsOk(start, s) && StocksOk(start, s) && t !in s.flows && g.undone == {}
    ensures AccountsOk(start, s.(flows := s.flows[t := g])) && StocksOk(start, s.(flows := s.flows[t := g]))
  {
    forall u | u in s.users.users ensures AccountOk(s.users, Balances(start), u, Total(s.flows[t := g], LostFor(u))) {
      TotalUpdate(s.flows, LostFor(u), t, g);
    }
  }

  lemma StepKeepsBooks(b: Binding, start: System, s: System, e: Event)
    requires SystemOk(start, s) && (e.Submit? ==> e.req.quantity > 0)
    ensures SystemOk(start, Step(b, s, e))
  {
    StepKeepsFlows(b, s, e);
    var s' := Step(b, s, e);
    if s' != s {
      if e.Attempt? {
        AmountsArePositive(s);
        assert PurchaseOk(s, e.t);
        StepIsCall(b, s, e.t, e.fault);
        CalledKeepsBooks(b, start, s, e.t, s'.(flows := s.flows), s'.flows[e.t], s');
      } else {
        SubmitKeepsBooks(start, s, e.t, s'.flows[e.t]);
      }
    }
  }

  lemma {:induction false} RunOk(b: Binding, start: System, es: seq<Event>)
    requires Opening(start) && Orderly(es)
    ensures SystemOk(start, Run(b, start, es))
  {
    if es != [] {
      RunOk(b, start, es[..|es| - 1]);
      StepKeepsBooks(b, start, Run(b, start, es[..|es| - 1]), es[|es| - 1]);
    }
  }

  /** `s` is the state after some run, with any interleaving and any faults. */
  ghost predicate Reached(b: Binding, start: System, s: System) {
    Opening(start) && exists es: seq<Event> :: Orderly(es) && s == Run(b, start, es)
  }

  lemma ReachedOk(b: Binding, start: System, s: System)
    requires Reached(b, start, s)
    ensures SystemOk(start, s)
  {
    var es: seq<Event> :| Orderly(es) && s == Run(b, start, es);
    RunOk(b, start, es);
  }

  lemma ReachedStep(b: Binding, start: System, s: System, e: Event)
    requires Reached(b, start, s) && (e.Submit? ==> e.req.quantity > 0)
    ensures Reached(b, start, Step(b, s, e))
  {
    var es: seq<Event> :| Orderly(es) && s == Run(b, start, es);
    assert (es + [e])[..|es|] == es;
    assert Orderly(es + [e]) && Step(b, s, e) == Run(b, start, es + [e]);
  }

  /** The reservation is the sum of the reserved transactions, and balance and confirmed
      transactions together make up the opening balance. */
  ghost predicate ExactAccount(start: System, s: System, u: int)
    requires u in s.users.users && u in start.users.users
  {
    && s.users.users[u].reserved == Total(s.users.txs, ReservedFor(u))
    && s.users.users[u].balance + Total(s.users.txs, ConfirmedFor(u)) == start.users.users[u].balance
  }

  /** None of the user's purchases was confirmed and then cancelled. */
  predicate Unspoiled(s: System, u: int) {
    forall t :: t in s.flows && s.flows[t].req.user == u ==> !Spoiled(s.flows[t])
  }

  /** In every reachable state a user's account is exact if and only if none of the user's
      purchases was confirmed and then cancelled; and then 0 <= reserved <= balance. */
  lemma AccountExactIff(b: Binding, start: System, s: System, u: int)
    requires Reached(b, start, s) && u in start.users.users
    ensures u in s.users.users
    ensures ExactAccount(start, s, u) <==> Unspoiled(s, u)
    ensures ExactAccount(start, s, u) ==> 0 <= s.users.users[u].reserved <= s.users.users[u].balance
  {
    ReachedOk(b, start, s);
    LostIffSpoiled(s, u);
    AmountsArePositive(s);
    assert AccountOk(s.users, Balances(start), u, Total(s.flows, LostFor(u)));
    if Total(s.flows, LostFor(u)) == 0 { ExactAccountBounds(s.users, Balances(start), u); }
  }

  lemma LostIffSpoiled(s: System, u: int)
    requires FlowsOk(s)
    ensures Total(s.flows, LostFor(u)) == 0 <==> Unspoiled(s, u)
  {
    forall t | t in s.flows ensures LostFor(u)(t, s.flows[t]) >= 0
                          && (LostFor(u)(t, s.flows[t]) == 0 <==> !(s.flows[t].req.user == u && Spoiled(s.flows[t])))
    {
      assert PurchaseOk(s, t);
    }
    TotalZero(s.flows, LostFor(u));
  }

  /** In every reachable state a product's reservation is the sum of its reserved orders, stock
      and sold orders make up the opening stock, and neither is driven below zero. */
  lemma StockExact(b: Binding, start: System, s: System, p: int)
    requires Reached(b, start, s) && p in start.stock.products
    ensures p in s.stock.products
    ensures s.stock.products[p].reserved == Total(s.stock.orders, ReservedQuantity(p))
    ensures s.stock.products[p].stock + Total(s.stock.orders, SoldQuantity(p)) == start.stock.products[p].stock
    ensures 0 <= s.stock.products[p].reserved <= s.stock.products[p].stock
  {
    ReachedOk(b, start, s);
    AmountsArePositive(s);
    StockBounds(s.stock, Stocks(start), p);
  }
}
