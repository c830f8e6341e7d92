/**
 * Any number of order sagas sharing one inventory. Every event lets one saga send its next
 * command; the environment decides whether the command arrives, and whether its reply does.
 */
module OrderSaga {
  import opened Sums
  import opened OrderWorkflow
  import opened InventoryService

  type SagaId = nat

  datatype Delivery = Delivered | Dropped | ReplyLost

  /** `accepts` is the answer of the payment or shipping service, when one is asked. */
  datatype Event =
    | StartSaga(id: SagaId, payload: Payload)
    | Send(id: SagaId, delivery: Delivery, accepts: bool)

  /** A saga, with as history: the items (by position) whose reservation is in force, those that
      stay so because a command or its reply was lost or refused, and the quantity it has released
      without having reserved it. */
  datatype Saga = Saga(payload: Payload, control: Control, held: set<nat>, stuck: set<nat>, unearned: int)

  datatype System = System(inv: Inventory, sagas: map<SagaId, Saga>)

  function NewSaga(p: Payload): Saga { Saga(p, Begin(p), {}, {}, 0) }

  predicate IsReleasing(g: Saga) {
    g.control.pc.RollingBack? || g.control.pc.Releasing?
  }

  /** The item a saga is about to release, in a rollback or in a compensation. */
  function AboutToRelease(g: Saga): nat
    requires IsReleasing(g)
  {
    match g.control.pc
    case RollingBack(_, j) => j
    case Releasing(j) => j
  }

  function SendReserve(inv: Inventory, g: Saga, k: nat, d: Delivery): (Inventory, Saga)
    requires g.control.pc == Reserving(k) && OrderWorkflow.Placed(g.payload, g.control)
  {
    var (inv', r) := if d.Dropped? then (inv, Insufficient) else Reserve(inv, ToReserve(g.payload)[k]);
    (inv', g.(control := Advance(g.payload, g.control, r.Done? && d.Delivered?),
              held := if r.Done? then g.held + {k} else g.held,
              stuck := if r.Done? && d.ReplyLost? then g.stuck + {k} else g.stuck))
  }

  /** The release of item `j`, in a rollback or in a compensation. */
  function SendRelease(inv: Inventory, g: Saga, j: nat, d: Delivery): (Inventory, Saga)
    requires OrderWorkflow.Placed(g.payload, g.control)
    requires IsReleasing(g) && AboutToRelease(g) == j
  {
    var (inv', r) := if d.Dropped? then (inv, Insufficient) else Release(inv, ToRelease(g.payload)[j]);
    var h := g.(control := Advance(g.payload, g.control, r.Done? && d.Delivered?));
    (inv', if !ByList(g.payload) then
             h.(unearned := if r.Done? then g.unearned + Named(g.payload).quantity else g.unearned)
           else
             h.(held := if r.Done? then g.held - {j} else g.held,
                stuck := if r.Done? then g.stuck else g.stuck + {j}))
  }

  function Step(s: System, e: Event): System {
    match e
    case StartSaga(id, p) => if id in s.sagas then s else s.(sagas := s.sagas[id := NewSaga(p)])
    case Send(id, d, accepts) =>
      if id !in s.sagas || !OrderWorkflow.Placed(s.sagas[id].payload, s.sagas[id].control) then s
      else
        var g := s.sagas[id];
        match g.control.pc
        case Ended => s
        case Reserving(k) => var (inv, h) := SendReserve(s.inv, g, k, d); System(inv, s.sagas[id := h])
        case RollingBack(_, j) => var (inv, h) := SendRelease(s.inv, g, j, d); System(inv, s.sagas[id := h])
        case Releasing(j) => var (inv, h) := SendRelease(s.inv, g, j, d); System(inv, s.sagas[id := h])
        case _ => s.(sagas := s.sagas[id := g.(control := Advance(g.payload, g.control, d.Delivered? && accepts))])
  }

  function Run(s: System, es: seq<Event>): System {
    if es == [] then s else Step(Run(s, es[..|es| - 1]), es[|es| - 1])
  }

  predicate Opening(s: System) {
    s.sagas == map[] && NoBook !in s.inv && forall b :: b in s.inv ==> s.inv[b].reserved == 0 <= s.inv[b].available
  }

  /** Quantities are positive, and what is listed names a book. */
  predicate Positive(p: Payload) {
    && (forall i :: i in ToReserve(p) ==> i.quantity > 0 && i.book.Book?)
    && (forall i :: i in ToRelease(p) ==> i.quantity > 0)
  }

  predicate Orderly(es: seq<Event>) {
    forall k :: 0 <= k < |es| && es[k].StartSaga? ==> Positive(es[k].payload)
  }

  ghost predicate Reached(start: System, s: System) {
    Opening(start) && exists es: seq<Event> :: Orderly(es) && s == Run(start, es)
  }

  // --- What a saga holds ------------------------------------------------------------------------

  /** Whether the orchestrator counts on the reservation of item `i` at this point. */
  predicate CountsOn(p: Payload, c: Control, i: nat) {
    i < |ToReserve(p)| &&
    match c.pc
    case Reserving(k) => i < k
    case RollingBack(r, j) => j <= i < r
    case Releasing(j) => j <= i
    case Ended => c.status == SagaCompleted
    case _ => true
  }

  /** The reservations in force are those the orchestrator counts on and, apart from them, the
      stuck ones; nothing is stuck as long as nothing has failed. */
  ghost predicate SagaOk(g: Saga) {
    var c := g.control;
    && OrderWorkflow.Placed(g.payload, c) && Positive(g.payload)
    && (forall i: nat :: i in g.held <==> CountsOn(g.payload, c, i) || i in g.stuck)
    && (forall i: nat :: i in g.stuck ==> i < |ToReserve(g.payload)| && !CountsOn(g.payload, c, i))
    && g.unearned >= 0 && (g.unearned > 0 ==> !ByList(g.payload))
    && (c.pc.Ended? <==> c.status == SagaCompleted || c.status == SagaFailed)
    && (c.pc.Reserving? || c.pc.Paying? || c.pc.Shipping? || c.pc.CancellingPayment? ==> g.stuck == {})
    && (c.status == SagaCompleted ==> g.stuck == {})
  }

  /** The quantity of book `b` among the first `n` items that is in force. */
  function HeldOf(items: seq<Item>, held: set<nat>, b: BookId, n: nat): int
    requires n <= |items|
  {
    if n == 0 then 0
    else HeldOf(items, held, b, n - 1)
         + if n - 1 in held && items[n - 1].book == b then items[n - 1].quantity else 0
  }

  function HeldBy(b: BookId): (SagaId, Saga) -> int {
    (id, g: Saga) => HeldOf(ToReserve(g.payload), g.held, b, |ToReserve(g.payload)|)
  }

  function UnearnedBy(b: BookId): (SagaId, Saga) -> int {
    (id, g: Saga) => if !ByList(g.payload) && Named(g.payload).book == b then g.unearned else 0
  }

  lemma {:induction false} HeldSame(items: seq<Item>, held: set<nat>, held': set<nat>, b: BookId, n: nat)
    requires n <= |items| && forall i :: 0 <= i < n ==> (i in held <==> i in held')
    ensures HeldOf(items, held, b, n) == HeldOf(items, held', b, n)
  {
    if n > 0 { HeldSame(items, held, held', b, n - 1); }
  }

  lemma {:induction false} HeldAdd(items: seq<Item>, held: set<nat>, k: nat, b: BookId, n: nat)
    requires k < n <= |items| && k !in held
    ensures HeldOf(items, held + {k}, b, n)
         == HeldOf(items, held, b, n) + if items[k].book == b then items[k].quantity else 0
  {
    if k == n - 1 {
      HeldSame(items, held, held + {k}, b, n - 1);
    } else {
      HeldAdd(items, held, k, b, n - 1);
    }
  }

  lemma {:induction false} HeldNonNegative(items: seq<Item>, held: set<nat>, b: BookId, n: nat)
    requires n <= |items| && forall i :: i in items ==> i.quantity > 0
    ensures HeldOf(items, held, b, n) >= 0
    ensures forall k :: 0 <= k < n && k in held && items[k].book == b ==> items[k].quantity <= HeldOf(items, held, b, n)
  {
    if n > 0 { HeldNonNegative(items, held, b, n - 1); }
  }

  // --- The books --------------------------------------------------------------------------------

  /** A book's stock: nothing appears or disappears, neither column goes below zero, and what is
      reserved is what the sagas hold, less what was released without having been reserved. */
  ghost predicate BookOk(start: System, s: System, b: BookId) {
    b in s.inv && b in start.inv
    && s.inv[b].available + s.inv[b].reserved == start.inv[b].available
    && s.inv[b].available >= 0 && s.inv[b].reserved >= 0
    && s.inv[b].reserved == Total(s.sagas, HeldBy(b)) - Total(s.sagas, UnearnedBy(b))
  }

  /** What a saga holds are books of the inventory. */
  predicate Stocked(inv: Inventory, g: Saga) {
    forall i :: i in g.held && i < |ToReserve(g.payload)| ==> ToReserve(g.payload)[i].book in inv
  }

  ghost predicate SystemOk(start: System, s: System) {
    && s.inv.Keys == start.inv.Keys
    && (forall id :: id in s.sagas ==> SagaOk(s.sagas[id]) && Stocked(s.inv, s.sagas[id]))
    && (forall b :: b in s.inv ==> BookOk(start, s, b))
  }

  // --- One command ------------------------------------------------------------------------------

  lemma ReserveKeepsSaga(inv: Inventory, g: Saga, k: nat, d: Delivery)
    requires SagaOk(g) && g.control.pc == Reserving(k)
    ensures SagaOk(SendReserve(inv, g, k, d).1)
  {
  }

  lemma ReleaseKeepsSaga(inv: Inventory, g: Saga, j: nat, d: Delivery)
    requires SagaOk(g) && IsReleasing(g) && AboutToRelease(g) == j
    ensures SagaOk(SendRelease(inv, g, j, d).1)
  {
    if !ByList(g.payload) { assert Named(g.payload) in ToRelease(g.payload); }
  }

  lemma OtherKeepsSaga(g: Saga, ok: bool)
    requires SagaOk(g) && (g.control.pc.Paying? || g.control.pc.Shipping? || g.control.pc.CancellingPayment?)
    ensures SagaOk(g.(control := Advance(g.payload, g.control, ok)))
  {
  }

  /** What a command does to the row of book `b` and to what its saga holds of it. */
  ghost predicate Balanced(inv: Inventory, g: Saga, inv': Inventory, h: Saga, b: BookId) {
    b in inv ==>
      && b in inv' && h.payload == g.payload
      && inv'[b].available + inv'[b].reserved == inv[b].available + inv[b].reserved
      && (inv[b].available >= 0 ==> inv'[b].available >= 0) && (inv[b].reserved >= 0 ==> inv'[b].reserved >= 0)
      && inv'[b].reserved - inv[b].reserved
         == HeldBy(b)(0, h) - HeldBy(b)(0, g) - UnearnedBy(b)(0, h) + UnearnedBy(b)(0, g)
  }

  lemma ReserveBalanced(inv: Inventory, g: Saga, k: nat, d: Delivery, b: BookId)
    requires SagaOk(g) && g.control.pc == Reserving(k)
    ensures SendReserve(inv, g, k, d).0.Keys == inv.Keys
    ensures var (inv', h) := SendReserve(inv, g, k, d); Balanced(inv, g, inv', h, b)
  {
    var items := ToReserve(g.payload);
    assert items[k] in items && k !in g.held;
    HeldAdd(items, g.held, k, b, |items|);
  }

  lemma ReleaseBalanced(inv: Inventory, g: Saga, j: nat, d: Delivery, b: BookId)
    requires SagaOk(g) && IsReleasing(g) && AboutToRelease(g) == j
    ensures SendRelease(inv, g, j, d).0.Keys == inv.Keys
    ensures var (inv', h) := SendRelease(inv, g, j, d); Balanced(inv, g, inv', h, b)
  {
    var items := ToReserve(g.payload);
    assert ToRelease(g.payload)[j] in ToRelease(g.payload);
    if ByList(g.payload) {
      assert j in g.held && g.held - {j} + {j} == g.held;
      HeldAdd(items, g.held - {j}, j, b, |items|);
    }
  }

  lemma BalancedKeepsBook(start: System, s: System, id: SagaId, inv: Inventory, h: Saga, b: BookId)
    requires id in s.sagas && BookOk(start, s, b) && Balanced(s.inv, s.sagas[id], inv, h, b)
    ensures BookOk(start, System(inv, s.sagas[id := h]), b)
  {
    TotalUpdate(s.sagas, HeldBy(b), id, h);
    TotalUpdate(s.sagas, UnearnedBy(b), id, h);
  }

  /** The saga's command takes the inventory and the saga from here to there. */
  ghost predicate Moves(s: System, id: SagaId, inv: Inventory, h: Saga)
    requires id in s.sagas
  {
    && SagaOk(h) && inv.Keys == s.inv.Keys && Stocked(inv, h)
    && forall b :: b in s.inv ==> Balanced(s.inv, s.sagas[id], inv, h, b)
  }

  lemma SendReserveMoves(s: System, id: SagaId, d: Delivery)
    requires id in s.sagas && SagaOk(s.sagas[id]) && Stocked(s.inv, s.sagas[id]) && s.sagas[id].control.pc.Reserving?
    ensures var (inv, h) := SendReserve(s.inv, s.sagas[id], s.sagas[id].control.pc.k, d); Moves(s, id, inv, h)
  {
    var g := s.sagas[id];
    var (inv, h) := SendReserve(s.inv, g, g.control.pc.k, d);
    ReserveKeepsSaga(s.inv, g, g.control.pc.k, d);
    ReserveBalanced(s.inv, g, g.control.pc.k, d, NoBook);
    forall b | b in s.inv ensures Balanced(s.inv, g, inv, h, b) { ReserveBalanced(s.inv, g, g.control.pc.k, d, b); }
  }

  lemma SendReleaseMoves(s: System, id: SagaId, d: Delivery)
    requires id in s.sagas && SagaOk(s.sagas[id]) && Stocked(s.inv, s.sagas[id]) && IsReleasing(s.sagas[id])
    ensures var (inv, h) := SendRelease(s.inv, s.sagas[id], AboutToRelease(s.sagas[id]), d); Moves(s, id, inv, h)
  {
    var g := s.sagas[id];
    var (inv, h) := SendRelease(s.inv, g, AboutToRelease(g), d);
    ReleaseKeepsSaga(s.inv, g, AboutToRelease(g), d);
    ReleaseBalanced(s.inv, g, AboutToRelease(g), d, NoBook);
    forall b | b in s.inv ensures Balanced(s.inv, g, inv, h, b) { ReleaseBalanced(s.inv, g, AboutToRelease(g), d, b); }
  }

  lemma SendMoves(s: System, id: SagaId, d: Delivery, accepts: bool)
    requires id in s.sagas && SagaOk(s.sagas[id]) && Stocked(s.inv, s.sagas[id])
    ensures var s' := Step(s, Send(id, d, accepts));
            id in s'.sagas && s'.sagas == s.sagas[id := s'.sagas[id]] && Moves(s, id, s'.inv, s'.sagas[id])
  {
    var g := s.sagas[id];
    match g.control.pc
    case Ended => assert s.sagas[id := g] == s.sagas;
    case Reserving(k) => SendReserveMoves(s, id, d);
    case RollingBack(_, j) => SendReleaseMoves(s, id, d);
    case Releasing(j) => SendReleaseMoves(s, id, d);
    case _ => SendOtherMoves(s, id, d.Delivered? && accepts);
  }

  lemma SendOtherMoves(s: System, id: SagaId, ok: bool)
    requires id in s.sagas && SagaOk(s.sagas[id]) && Stocked(s.inv, s.sagas[id])
    requires s.sagas[id].control.pc.Paying? || s.sagas[id].control.pc.Shipping?
        || s.sagas[id].control.pc.CancellingPayment?
    ensures var g := s.sagas[id]; Moves(s, id, s.inv, g.(control := Advance(g.payload, g.control, ok)))
  {
    OtherKeepsSaga(s.sagas[id], ok);
  }

  lemma MovesKeepsSystem(start: System, s: System, id: SagaId, inv: Inventory, h: Saga)
    requires SystemOk(start, s) && id in s.sagas && Moves(s, id, inv, h)
    ensures SystemOk(start, System(inv, s.sagas[id := h]))
  {
    forall b | b in inv ensures BookOk(start, System(inv, s.sagas[id := h]), b) {
      BalancedKeepsBook(start, s, id, inv, h, b);
    }
  }

  lemma {:induction false} HeldNone(items: seq<Item>, b: BookId, n: nat)
    requires n <= |items|
    ensures HeldOf(items, {}, b, n) == 0
  {
    if n > 0 { HeldNone(items, b, n - 1); }
  }

  lemma StartKeepsSystem(start: System, s: System, id: SagaId, p: Payload)
    requires SystemOk(start, s) && id !in s.sagas && Positive(p)
    ensures SystemOk(start, s.(sagas := s.sagas[id := NewSaga(p)]))
  {
    var s' := s.(sagas := s.sagas[id := NewSaga(p)]);
    forall b | b in s'.inv ensures BookOk(start, s', b) {
      TotalUpdate(s.sagas, HeldBy(b), id, NewSaga(p));
      TotalUpdate(s.sagas, UnearnedBy(b), id, NewSaga(p));
      HeldNone(ToReserve(p), b, |ToReserve(p)|);
    }
  }

  lemma StepKeepsSystem(start: System, s: System, e: Event)
    requires SystemOk(start, s) && (e.StartSaga? ==> Positive(e.payload))
    ensures SystemOk(start, Step(s, e))
  {
    if e.StartSaga? {
      if e.id !in s.sagas { StartKeepsSystem(start, s, e.id, e.payload); }
    } else if e.id in s.sagas {
      SendMoves(s, e.id, e.delivery, e.accepts);
      var s' := Step(s, e);
      MovesKeepsSystem(start, s, e.id, s'.inv, s'.sagas[e.id]);
    }
  }

  lemma {:induction false} RunOk(start: System, es: seq<Event>)
    requires Opening(start) && Orderly(es)
    ensures SystemOk(start, Run(start, es))
  {
    if es != [] {
      RunOk(start, es[..|es| - 1]);
      StepKeepsSystem(start, Run(start, es[..|es| - 1]), es[|es| - 1]);
    }
  }

  lemma ReachedOk(start: System, s: System)
    requires Reached(start, s)
    ensures SystemOk(start, s)
  {
    var es: seq<Event> :| Orderly(es) && s == Run(start, es);
    RunOk(start, es);
  }

  // --- Main results -----------------------------------------------------------------------------

  /** Every reachable state, whatever was lost and whatever the payloads: a book's stock is
      conserved and neither column goes below zero. */
  lemma StockConserved(start: System, s: System, b: BookId)
    requires Reached(start, s) && b in start.inv
    ensures b in s.inv && s.inv[b].available >= 0 && s.inv[b].reserved >= 0
    ensures s.inv[b].available + s.inv[b].reserved == start.inv[b].available
  {
    ReachedOk(start, s);
    assert BookOk(start, s, b);
  }

  /** No saga has released anything of this book that it had not reserved. */
  predicate Earned(s: System, b: BookId) {
    forall id :: id in s.sagas && !ByList(s.sagas[id].payload) && Named(s.sagas[id].payload).book == b ==>
      s.sagas[id].unearned == 0
  }

  lemma EarnedIffZero(start: System, s: System, b: BookId)
    requires SystemOk(start, s)
    ensures Total(s.sagas, UnearnedBy(b)) == 0 <==> Earned(s, b)
  {
    forall id | id in s.sagas ensures UnearnedBy(b)(id, s.sagas[id]) >= 0 { assert SagaOk(s.sagas[id]); }
    TotalZero(s.sagas, UnearnedBy(b));
  }

  /** In every reachable state a reservation is granted exactly if the opening stock of its book covers
      it besides what the sagas hold, less what was released without having been reserved, and a
      release exactly if that covers it. */
  lemma GrantedIff(start: System, s: System, i: Item)
    requires Reached(start, s)
    ensures var r, r' := Reserve(s.inv, i).1, Release(s.inv, i).1;
      && (r == BookNotFound <==> i.book !in start.inv) && (r' == BookNotFound <==> i.book !in start.inv)
      && (i.book in start.inv ==>
           var held := Total(s.sagas, HeldBy(i.book)) - Total(s.sagas, UnearnedBy(i.book));
           && (r.Done? <==> start.inv[i.book].available >= held + i.quantity) && (r'.Done? <==> held >= i.quantity))
  {
    ReachedOk(start, s);
    if i.book in start.inv { assert BookOk(start, s, i.book); }
  }

  /** In every reachable state the reserved stock of a book is the sum of what the sagas hold of it
      if and only if no order in the old format has been compensated at its expense. */
  lemma ReservedIsHeldIff(start: System, s: System, b: BookId)
    requires Reached(start, s) && b in start.inv
    ensures b in s.inv
    ensures s.inv[b].reserved == Total(s.sagas, HeldBy(b)) <==> Earned(s, b)
  {
    ReachedOk(start, s);
    assert BookOk(start, s, b);
    EarnedIffZero(start, s, b);
  }

  lemma HeldByBounds(start: System, s: System, b: BookId, id: SagaId, j: nat)
    requires SystemOk(start, s) && id in s.sagas && j in s.sagas[id].held
    requires j < |ToReserve(s.sagas[id].payload)| && ToReserve(s.sagas[id].payload)[j].book == b
    ensures ToReserve(s.sagas[id].payload)[j].quantity <= Total(s.sagas, HeldBy(b))
  {
    forall r | r in s.sagas ensures HeldBy(b)(r, s.sagas[r]) >= 0 {
      assert SagaOk(s.sagas[r]);
      HeldNonNegative(ToReserve(s.sagas[r].payload), s.sagas[r].held, b, |ToReserve(s.sagas[r].payload)|);
    }
    TotalBounds(s.sagas, HeldBy(b), id);
    var g := s.sagas[id];
    assert SagaOk(g);
    HeldNonNegative(ToReserve(g.payload), g.held, b, |ToReserve(g.payload)|);
  }

  /** Then no release of a listed order that reaches the service is refused. */
  lemma ReleaseNeverRefused(start: System, s: System, id: SagaId)
    requires Reached(start, s) && id in s.sagas && ByList(s.sagas[id].payload) && IsReleasing(s.sagas[id])
    ensures AboutToRelease(s.sagas[id]) < |s.sagas[id].payload.items|
    ensures var i := s.sagas[id].payload.items[AboutToRelease(s.sagas[id])];
            Earned(s, i.book) ==> Release(s.inv, i).1.Done?
  {
    ReachedOk(start, s);
    var g := s.sagas[id];
    var j := AboutToRelease(g);
    assert SagaOk(g) && j in g.held;
    var b := g.payload.items[j].book;
    HeldByBounds(start, s, b, id, j);
    EarnedIffZero(start, s, b);
    assert Stocked(s.inv, g);
    assert BookOk(start, s, b);
  }

  // --- Releases that were not earned ------------------------------------------------------------

  /** With its next command the saga releases what it never reserved. */
  predicate Takes(inv: Inventory, g: Saga, d: Delivery) {
    !ByList(g.payload) && IsReleasing(g) && !d.Dropped? && Release(inv, Named(g.payload)).1.Done?
  }

  predicate TakesUnearned(s: System, e: Event, b: BookId) {
    && e.Send? && e.id in s.sagas && Named(s.sagas[e.id].payload).book == b
    && Takes(s.inv, s.sagas[e.id], e.delivery)
  }

  lemma ReleaseTakes(inv: Inventory, g: Saga, j: nat, d: Delivery)
    requires SagaOk(g) && IsReleasing(g) && AboutToRelease(g) == j
    ensures SendRelease(inv, g, j, d).1.payload == g.payload
    ensures !ByList(g.payload) ==>
              (SendRelease(inv, g, j, d).1.unearned == 0 <==> g.unearned == 0 && !Takes(inv, g, d))
  {
    assert Named(g.payload).quantity > 0;
  }

  lemma SagaTakes(s: System, e: Event, id: SagaId)
    requires e.Send? && e.id == id && id in s.sagas && SagaOk(s.sagas[id])
    ensures var g, s' := s.sagas[id], Step(s, e);
      && id in s'.sagas && s'.sagas[id].payload == g.payload && s'.sagas == s.sagas[id := s'.sagas[id]]
      && (!ByList(g.payload) ==> (s'.sagas[id].unearned == 0 <==> g.unearned == 0 && !Takes(s.inv, g, e.delivery)))
  {
    var g := s.sagas[id];
    match g.control.pc
    case Ended => assert s.sagas[id := g] == s.sagas;
    case RollingBack(_, j) => ReleaseTakes(s.inv, g, j, e.delivery);
    case Releasing(j) => ReleaseTakes(s.inv, g, j, e.delivery);
    case _ =>
  }

  lemma SendEarned(s: System, e: Event, b: BookId)
    requires e.Send? && e.id in s.sagas && SagaOk(s.sagas[e.id])
    ensures Earned(Step(s, e), b) <==> Earned(s, b) && !TakesUnearned(s, e, b)
  {
    var s' := Step(s, e);
    SagaTakes(s, e, e.id);
    assert forall id :: id in s.sagas && id != e.id ==> s'.sagas[id] == s.sagas[id];
  }

  lemma StepEarned(start: System, s: System, e: Event, b: BookId)
    requires Reached(start, s)
    ensures Earned(Step(s, e), b) <==> Earned(s, b) && !TakesUnearned(s, e, b)
  {
    if e.Send? && e.id in s.sagas {
      ReachedOk(start, s);
      assert SagaOk(s.sagas[e.id]);
      SendEarned(s, e, b);
    } else {
      assert forall id :: id in s.sagas ==> Step(s, e).sagas[id] == s.sagas[id];
    }
  }

  /** Step `n` of the run is such a release. */
  predicate TakesUnearnedAt(start: System, es: seq<Event>, n: nat, b: BookId)
    requires n < |es|
  {
    TakesUnearned(Run(start, es[..n]), es[n], b)
  }

  lemma TakesBefore(start: System, es: seq<Event>, n: nat, b: BookId)
    requires n < |es| - 1
    ensures TakesUnearnedAt(start, es, n, b) <==> TakesUnearnedAt(start, es[..|es| - 1], n, b)
  {
    assert es[..|es| - 1][..n] == es[..n];
  }

  lemma EarnedInOneMore(start: System, es: seq<Event>, b: BookId)
    requires Opening(start) && Orderly(es) && es != []
    ensures var m := |es| - 1;
      Earned(Run(start, es), b) <==> Earned(Run(start, es[..m]), b) && !TakesUnearnedAt(start, es, m, b)
  {
    var m := |es| - 1;
    assert Reached(start, Run(start, es[..m]));
    StepEarned(start, Run(start, es[..m]), es[m], b);
  }

  lemma {:induction false} EarnedIff(start: System, es: seq<Event>, b: BookId)
    requires Opening(start) && Orderly(es)
    ensures Earned(Run(start, es), b) <==> forall n: nat :: n < |es| ==> !TakesUnearnedAt(start, es, n, b)
  {
    if es != [] {
      var before := es[..|es| - 1];
      EarnedIff(start, before, b);
      EarnedInOneMore(start, es, b);
      forall n: nat | n < |before|
        ensures TakesUnearnedAt(start, es, n, b) <==> TakesUnearnedAt(start, before, n, b)
      {
        TakesBefore(start, es, n, b);
      }
    }
  }

  /** After any run the reserved stock of a book is the sum of what the sagas hold of it if and only if
      no release of the run took any that its saga had not reserved. */
  lemma ReservedIsHeldInRunIff(start: System, es: seq<Event>, b: BookId)
    requires Opening(start) && Orderly(es) && b in start.inv
    ensures var s := Run(start, es);
      && b in s.inv
      && ((forall n: nat :: n < |es| ==> !TakesUnearnedAt(start, es, n, b)) <==>
            s.inv[b].reserved == Total(s.sagas, HeldBy(b)))
  {
    ReservedIsHeldIff(start, Run(start, es), b);
    EarnedIff(start, es, b);
  }

  // --- Reservations lost track of ---------------------------------------------------------------

  /** With its next command the saga loses track of its item `i`: the item is reserved and the reply
      lost, or its release is lost on the way or refused. */
  predicate Mislays(inv: Inventory, g: Saga, d: Delivery, i: nat) {
    && ByList(g.payload) && i < |g.payload.items|
    && var item := g.payload.items[i];
       || (g.control.pc == Reserving(i) && d.ReplyLost? && Reserve(inv, item).1.Done?)
       || (IsReleasing(g) && AboutToRelease(g) == i && (d.Dropped? || !Release(inv, item).1.Done?))
  }

  predicate LosesTrack(s: System, e: Event, id: SagaId, i: nat) {
    e.Send? && e.id == id && id in s.sagas && Mislays(s.inv, s.sagas[id], e.delivery, i)
  }

  lemma ReserveSticks(inv: Inventory, g: Saga, k: nat, d: Delivery, i: nat)
    requires g.control.pc == Reserving(k) && OrderWorkflow.Placed(g.payload, g.control)
    ensures i in SendReserve(inv, g, k, d).1.stuck <==> i in g.stuck || Mislays(inv, g, d, i)
  {
  }

  lemma ReleaseSticks(inv: Inventory, g: Saga, j: nat, d: Delivery, i: nat)
    requires OrderWorkflow.Placed(g.payload, g.control)
    requires IsReleasing(g) && AboutToRelease(g) == j
    ensures i in SendRelease(inv, g, j, d).1.stuck <==> i in g.stuck || Mislays(inv, g, d, i)
  {
  }

  lemma StepSticks(start: System, s: System, e: Event, id: SagaId, i: nat)
    requires Reached(start, s)
    ensures var s' := Step(s, e);
      id in s'.sagas ==> (i in s'.sagas[id].stuck
          <==> (id in s.sagas && i in s.sagas[id].stuck) || LosesTrack(s, e, id, i))
  {
    if e.Send? && e.id == id && id in s.sagas {
      ReachedOk(start, s);
      assert SagaOk(s.sagas[id]);
      var g := s.sagas[id];
      match g.control.pc
      case Reserving(k) => ReserveSticks(s.inv, g, k, e.delivery, i);
      case RollingBack(_, j) => ReleaseSticks(s.inv, g, j, e.delivery, i);
      case Releasing(j) => ReleaseSticks(s.inv, g, j, e.delivery, i);
      case _ =>
    }
  }

  /** Step `n` of the run is such an event. */
  predicate LosesTrackAt(start: System, es: seq<Event>, n: nat, id: SagaId, i: nat)
    requires n < |es|
  {
    LosesTrack(Run(start, es[..n]), es[n], id, i)
  }

  lemma {:induction false} StuckIff(start: System, es: seq<Event>, id: SagaId, i: nat)
    requires Opening(start) && Orderly(es) && id in Run(start, es).sagas
    ensures i in Run(start, es).sagas[id].stuck <==> exists n: nat :: n < |es| && LosesTrackAt(start, es, n, id, i)
  {
    if es != [] {
      var before, m := es[..|es| - 1], |es| - 1;
      assert Reached(start, Run(start, before));
      StepSticks(start, Run(start, before), es[m], id, i);
      forall n: nat | n < m ensures LosesTrackAt(start, es, n, id, i) <==> LosesTrackAt(start, before, n, id, i) {
        assert before[..n] == es[..n];
      }
      assert LosesTrackAt(start, es, m, id, i) <==> LosesTrack(Run(start, before), es[m], id, i);
      if id in Run(start, before).sagas {
        StuckIff(start, before, id, i);
      } else {
        NotThereBefore(start, before, id, i);
      }
    }
  }

  lemma {:induction false} NotThereBefore(start: System, es: seq<Event>, id: SagaId, i: nat)
    requires id !in Run(start, es).sagas
    ensures forall n: nat :: n < |es| ==> !LosesTrackAt(start, es, n, id, i)
  {
    if es != [] {
      var before := es[..|es| - 1];
      NotThereBefore(start, before, id, i);
      forall n: nat | n < |es| ensures !LosesTrackAt(start, es, n, id, i) {
        if n < |before| {
          assert before[..n] == es[..n] && !LosesTrackAt(start, before, n, id, i);
        }
      }
    }
  }

  /** In any run a failed saga holds exactly the items it lost track of, and a completed one exactly its
      items, having lost track of none. */
  lemma EndedSagas(start: System, es: seq<Event>, id: SagaId, i: nat)
    requires Opening(start) && Orderly(es) && id in Run(start, es).sagas
    ensures var g := Run(start, es).sagas[id];
            var lost := exists n: nat :: n < |es| && LosesTrackAt(start, es, n, id, i);
      && (g.control.status == SagaFailed ==> (i in g.held <==> lost))
      && (g.control.status == SagaCompleted ==> (i in g.held <==> i < |ToReserve(g.payload)|) && !lost)
  {
    StuckIff(start, es, id, i);
    StuckIsHeld(start, Run(start, es), id, i);
  }

  lemma StuckIsHeld(start: System, s: System, id: SagaId, i: nat)
    requires Reached(start, s) && id in s.sagas
    ensures var g := s.sagas[id];
      && (g.control.status == SagaFailed ==> (i in g.held <==> i in g.stuck))
      && (g.control.status == SagaCompleted ==> (i in g.held <==> i < |ToReserve(g.payload)|) && i !in g.stuck)
  {
    ReachedOk(start, s);
    assert SagaOk(s.sagas[id]);
  }

  lemma ReachedStep(start: System, s: System, e: Event)
    requires Reached(start, s) && (e.StartSaga? ==> Positive(e.payload))
    ensures Reached(start, Step(s, e))
  {
    var es: seq<Event> :| Orderly(es) && s == Run(start, es);
    assert (es + [e])[..|es|] == es;
    assert Orderly(es + [e]) && Step(s, e) == Run(start, es + [e]);
  }
}
