/**
 * Orders without an item list reserve nothing, but their compensation releases what they name. When
 * they can harm the orders with a list, and what these are promised when they cannot.
 */
module OldFormatOrders {
  import opened Sums
  import opened OrderWorkflow
  import opened InventoryService
  import opened OrderSaga

  /** All that is asked of an order without a list can be read off the opening stock. */
  predicate Harmful(start: System, i: Item) {
    0 < i.quantity && i.book in start.inv && i.quantity <= start.inv[i.book].available
  }

  /** Of the orders without a list, only these are placed. */
  ghost predicate Uses(es: seq<Event>, named: iset<Item>) {
    forall k :: 0 <= k < |es| && es[k].StartSaga? && !ByList(es[k].payload) ==> Named(es[k].payload) in named
  }

  ghost predicate Harmless(start: System, named: iset<Item>) { forall i :: i in named ==> !Harmful(start, i) }

  /** Nothing sent by saga `id`, or to it, is lost. */
  predicate Undisturbed(es: seq<Event>, id: SagaId) {
    forall k :: 0 <= k < |es| && es[k].Send? && es[k].id == id ==> es[k].delivery.Delivered?
  }

  // --- Harmless orders --------------------------------------------------------------------------

  ghost predicate AllEarned(s: System, named: iset<Item>) {
    forall id :: id in s.sagas && !ByList(s.sagas[id].payload) ==>
      s.sagas[id].unearned == 0 && Named(s.sagas[id].payload) in named
  }

  /** A harmless order is never granted its release: there is never that much reserved. */
  lemma HarmlessRefused(start: System, s: System, i: Item)
    requires Reached(start, s) && i.quantity > 0 && !Harmful(start, i)
    ensures !Release(s.inv, i).1.Done?
  {
    ReachedOk(start, s);
    if i.book in s.inv { StockConserved(start, s, i.book); }
  }

  /** The command of a saga without a list earns nothing it does not have. */
  lemma SendKeepsEarned(start: System, s: System, id: SagaId, d: Delivery, accepts: bool)
    requires Reached(start, s) && id in s.sagas && !ByList(s.sagas[id].payload)
    requires !Harmful(start, Named(s.sagas[id].payload))
    ensures var s' := Step(s, Send(id, d, accepts));
      id in s'.sagas && s'.sagas[id].payload == s.sagas[id].payload && s'.sagas[id].unearned == s.sagas[id].unearned
  {
    var g := s.sagas[id];
    ReachedOk(start, s);
    assert SagaOk(g);
    assert Named(g.payload) in ToRelease(g.payload);
    HarmlessRefused(start, s, Named(g.payload));
  }

  lemma StepKeepsEarned(start: System, s: System, e: Event, named: iset<Item>)
    requires Reached(start, s) && Harmless(start, named) && AllEarned(s, named)
    requires e.StartSaga? && !ByList(e.payload) ==> Named(e.payload) in named
    ensures AllEarned(Step(s, e), named)
  {
    if e.Send? && e.id in s.sagas && !ByList(s.sagas[e.id].payload) {
      SendKeepsEarned(start, s, e.id, e.delivery, e.accepts);
    }
  }

  lemma {:induction false} RunEarned(start: System, es: seq<Event>, named: iset<Item>)
    requires Opening(start) && Orderly(es) && Uses(es, named) && Harmless(start, named)
    ensures AllEarned(Run(start, es), named)
  {
    if es != [] {
      var before := es[..|es| - 1];
      RunEarned(start, before, named);
      assert Reached(start, Run(start, before));
      StepKeepsEarned(start, Run(start, before), es[|es| - 1], named);
    }
  }

  lemma HarmlessIsExact(start: System, es: seq<Event>, named: iset<Item>, b: BookId)
    requires Opening(start) && Orderly(es) && Uses(es, named) && Harmless(start, named) && b in start.inv
    ensures b in Run(start, es).inv && Run(start, es).inv[b].reserved == Total(Run(start, es).sagas, HeldBy(b))
  {
    RunEarned(start, es, named);
    assert Reached(start, Run(start, es));
    ReservedIsHeldIff(start, Run(start, es), b);
  }

  lemma HarmlessReleases(start: System, es: seq<Event>, named: iset<Item>, id: SagaId)
    requires Opening(start) && Orderly(es) && Uses(es, named) && Harmless(start, named)
    requires var s := Run(start, es); id in s.sagas && ByList(s.sagas[id].payload) && IsReleasing(s.sagas[id])
    ensures ReleaseAccepted(Run(start, es), id)
  {
    RunEarned(start, es, named);
    assert Reached(start, Run(start, es));
    ReleaseNeverRefused(start, Run(start, es), id);
  }

  predicate ReleaseAccepted(s: System, id: SagaId)
    requires id in s.sagas && IsReleasing(s.sagas[id])
  {
    var j, items := AboutToRelease(s.sagas[id]), ToRelease(s.sagas[id].payload);
    j < |items| && Release(s.inv, items[j]).1.Done?
  }

  lemma {:induction false} NothingStuck(start: System, es: seq<Event>, named: iset<Item>, id: SagaId)
    requires Opening(start) && Orderly(es) && Uses(es, named) && Harmless(start, named) && Undisturbed(es, id)
    ensures id in Run(start, es).sagas ==> Run(start, es).sagas[id].stuck == {}
  {
    if es != [] {
      var before, e := es[..|es| - 1], es[|es| - 1];
      var s := Run(start, before);
      NothingStuck(start, before, named, id);
      if e.Send? && e.id == id && id in s.sagas && IsReleasing(s.sagas[id]) && ByList(s.sagas[id].payload) {
        HarmlessReleases(start, before, named, id);
      }
    }
  }

  /** The promise of the pattern: if the orders without a list that are placed are harmless, a saga
      that failed holds no stock, and one that completed holds exactly its items, however many other
      sagas ran in between and whatever they lost. */
  lemma FailedHoldsNothing(start: System, es: seq<Event>, named: iset<Item>, id: SagaId)
    requires Opening(start) && Orderly(es) && Uses(es, named) && Harmless(start, named) && Undisturbed(es, id)
    requires id in Run(start, es).sagas
    ensures var g := Run(start, es).sagas[id];
      && (g.control.status == SagaFailed ==> g.held == {})
      && (g.control.status == SagaCompleted ==> forall i: nat :: i in g.held <==> i < |ToReserve(g.payload)|)
  {
    var s := Run(start, es);
    assert Reached(start, s);
    NothingStuck(start, es, named, id);
    var g := s.sagas[id];
    forall i: nat ensures g.control.status == SagaFailed ==> i !in g.held
                  ensures g.control.status == SagaCompleted ==> (i in g.held <==> i < |ToReserve(g.payload)|)
    {
      StuckIsHeld(start, s, id, i);
    }
  }

  // --- Harmful orders ---------------------------------------------------------------------------

  /** A listed order reserves the item, an order without a list fails at the payment and releases it,
      and then the listed order fails at the payment too. */
  function HarmRun(i: Item): seq<Event> {
    [StartSaga(1, Listed([i])), Send(1, Delivered, true),
     StartSaga(2, OldFormat(i)), Send(2, Delivered, false), Send(2, Delivered, true),
     Send(1, Delivered, false), Send(1, Delivered, true)]
  }

  lemma RunNext(start: System, es: seq<Event>, n: nat)
    requires n < |es|
    ensures Run(start, es[..n + 1]) == Step(Run(start, es[..n]), es[n])
  {
    assert es[..n + 1][..n] == es[..n];
  }

  predicate ListedPaying(s: System, i: Item) {
    && 1 in s.sagas && s.sagas[1].payload == Listed([i]) && s.sagas[1].held == {0}
    && s.sagas[1].control.pc == Paying && |s.sagas[1].control.log| == 2
  }

  lemma ListedReserves(start: System, i: Item)
    requires Opening(start) && Harmful(start, i)
    ensures var s := Run(start, HarmRun(i)[..2]);
      && ListedPaying(s, i) && 2 !in s.sagas
      && s.inv == start.inv[i.book := Stock(start.inv[i.book].available - i.quantity, i.quantity)]
  {
    assert HarmRun(i)[..0] == [];
    RunNext(start, HarmRun(i), 0);
    RunNext(start, HarmRun(i), 1);
    assert Run(start, HarmRun(i)[..1]).sagas[1] == NewSaga(Listed([i]));
  }

  lemma OldFormatTakes(start: System, i: Item)
    requires Opening(start) && Harmful(start, i)
    ensures var s := Run(start, HarmRun(i)[..5]);
      && ListedPaying(s, i) && i.book in s.inv && s.inv[i.book] == Stock(start.inv[i.book].available, 0)
  {
    ListedReserves(start, i);
    RunNext(start, HarmRun(i), 2);
    RunNext(start, HarmRun(i), 3);
    RunNext(start, HarmRun(i), 4);
    assert Run(start, HarmRun(i)[..4]).sagas[2].control.pc == Releasing(0);
  }

  predicate ListedReleasing(s: System, i: Item) {
    && 1 in s.sagas && s.sagas[1].payload == Listed([i]) && s.sagas[1].held == {0}
    && s.sagas[1].control.pc == Releasing(0) && |s.sagas[1].control.log| == 2
  }

  /** Its compensation released what it never reserved, so the listed order is refused its own
      release, and fails holding the item for good although nothing was lost. */
  lemma OldFormatReleasesOthersStock(start: System, i: Item)
    requires Opening(start) && Harmful(start, i)
    ensures var s := Run(start, HarmRun(i)[..6]);
      ListedReleasing(s, i) && i.book in s.inv && s.inv[i.book].reserved == 0 && !ReleaseAccepted(s, 1)
    ensures var s := Run(start, HarmRun(i));
      1 in s.sagas && s.sagas[1].control.status == SagaFailed && s.sagas[1].held == {0}
  {
    OldFormatTakes(start, i);
    RunNext(start, HarmRun(i), 5);
    RunNext(start, HarmRun(i), 6);
    assert HarmRun(i)[..7] == HarmRun(i);
  }

  lemma HarmRunOrderly(start: System, i: Item, named: iset<Item>)
    requires Opening(start) && Harmful(start, i) && i in named
    ensures forall n :: 0 <= n <= 7 ==> Orderly(HarmRun(i)[..n]) && Uses(HarmRun(i)[..n], named)
    ensures Orderly(HarmRun(i)) && Uses(HarmRun(i), named) && Undisturbed(HarmRun(i), 1)
  {
  }

  // --- Main result ------------------------------------------------------------------------------

  /** In every run the reserved stock of every book is the sum of what the sagas hold of it. */
  ghost predicate AlwaysExact(start: System, named: iset<Item>) {
    forall es: seq<Event>, b: BookId :: Orderly(es) && Uses(es, named) && b in start.inv ==> ExactAfter(start, es, b)
  }

  ghost predicate ExactAfter(start: System, es: seq<Event>, b: BookId) {
    var s := Run(start, es); b in s.inv && s.inv[b].reserved == Total(s.sagas, HeldBy(b))
  }

  /** In every run no release of a listed order that reaches the service is refused. */
  ghost predicate NeverRefused(start: System, named: iset<Item>) {
    forall es: seq<Event>, id: SagaId :: Orderly(es) && Uses(es, named) ==> AcceptedAfter(start, es, id)
  }

  predicate AcceptedAfter(start: System, es: seq<Event>, id: SagaId) {
    var s := Run(start, es);
    id in s.sagas && ByList(s.sagas[id].payload) && IsReleasing(s.sagas[id]) ==> ReleaseAccepted(s, id)
  }

  /** In every run a failed saga that lost no message holds nothing. */
  ghost predicate NeverStuck(start: System, named: iset<Item>) {
    forall es: seq<Event>, id: SagaId :: Orderly(es) && Uses(es, named) && Undisturbed(es, id) ==>
      EmptyAfter(start, es, id)
  }

  predicate EmptyAfter(start: System, es: seq<Event>, id: SagaId) {
    var s := Run(start, es);
    id in s.sagas && s.sagas[id].control.status == SagaFailed ==> s.sagas[id].held == {}
  }

  lemma HarmShows(start: System, i: Item)
    requires Opening(start) && Harmful(start, i)
    ensures !ExactAfter(start, HarmRun(i)[..6], i.book)
    ensures !AcceptedAfter(start, HarmRun(i)[..6], 1)
    ensures !EmptyAfter(start, HarmRun(i), 1)
  {
    OldFormatReleasesOthersStock(start, i);
    HarmRunOrderly(start, i, iset{i});
    var s := Run(start, HarmRun(i)[..6]);
    assert Reached(start, s);
    ReachedOk(start, s);
    HeldByBounds(start, s, i.book, 1, 0);
  }

  /** Whatever orders without a list are placed among any others, each of the three promises to the
      orders with a list is kept in every run if and only if none of them names a book of the
      inventory in a quantity that the opening stock covers. */
  lemma PromisesIffHarmless(start: System, named: iset<Item>)
    requires Opening(start)
    ensures AlwaysExact(start, named) <==> Harmless(start, named)
    ensures NeverRefused(start, named) <==> Harmless(start, named)
    ensures NeverStuck(start, named) <==> Harmless(start, named)
  {
    if Harmless(start, named) {
      forall es: seq<Event>, b: BookId | Orderly(es) && Uses(es, named) && b in start.inv
        ensures ExactAfter(start, es, b)
      {
        HarmlessIsExact(start, es, named, b);
      }
      forall es: seq<Event>, id: SagaId | Orderly(es) && Uses(es, named) ensures AcceptedAfter(start, es, id) {
        var s := Run(start, es);
        if id in s.sagas && ByList(s.sagas[id].payload) && IsReleasing(s.sagas[id]) {
          HarmlessReleases(start, es, named, id);
        }
      }
      forall es: seq<Event>, id: SagaId | Orderly(es) && Uses(es, named) && Undisturbed(es, id)
        ensures EmptyAfter(start, es, id)
      {
        if id in Run(start, es).sagas { FailedHoldsNothing(start, es, named, id); }
      }
    } else {
      var i :| i in named && Harmful(start, i);
      HarmShows(start, i);
      HarmRunOrderly(start, i, named);
      assert Orderly(HarmRun(i)[..6]) && Uses(HarmRun(i)[..6], named);
    }
  }

  /** In particular for one such order: it can make another, undisturbed saga fail holding stock if and
      only if the opening stock has the book and covers the quantity. */
  lemma OneOrderHarmsIff(start: System, i: Item)
    requires Opening(start) && i.quantity > 0
    ensures !NeverStuck(start, iset{i}) <==> i.book in start.inv && i.quantity <= start.inv[i.book].available
  {
    PromisesIffHarmless(start, iset{i});
  }
}
