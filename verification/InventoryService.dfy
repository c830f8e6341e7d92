/** The inventory service: stock of a book moves between available and reserved. */
module InventoryService {
  import opened OrderWorkflow

  datatype Stock = Stock(available: int, reserved: int)
  type Inventory = map<BookId, Stock>

  datatype Reply = Done | BookNotFound | Insufficient

  function Reserve(inv: Inventory, i: Item): (Inventory, Reply) {
    if i.book !in inv then (inv, BookNotFound)
    else if inv[i.book].available < i.quantity then (inv, Insufficient)
    else
      var s := inv[i.book];
      (inv[i.book := Stock(s.available - i.quantity, s.reserved + i.quantity)], Done)
  }

  function Release(inv: Inventory, i: Item): (Inventory, Reply) {
    if i.book !in inv then (inv, BookNotFound)
    else if inv[i.book].reserved < i.quantity then (inv, Insufficient)
    else
      var s := inv[i.book];
      (inv[i.book := Stock(s.available + i.quantity, s.reserved - i.quantity)], Done)
  }

  /** A reservation that succeeded can be released, and that undoes it. */
  lemma ReleaseUndoesReserve(inv: Inventory, i: Item)
    requires Reserve(inv, i).1.Done? && inv[i.book].reserved >= 0
    ensures Release(Reserve(inv, i).0, i) == (inv, Done)
  {
    assert inv[i.book := inv[i.book]] == inv;
    assert Release(Reserve(inv, i).0, i).0 == inv[i.book := inv[i.book]];
  }

  class InventoryRow {
    var available: int
    var reserved: int

    constructor (available: int)
      ensures this.available == available && reserved == 0
    {
      this.available, reserved := available, 0;
    }

    function Row(): Stock reads this { Stock(available, reserved) }
  }

  class InventoryService {
    const rows: map<BookId, InventoryRow>

    /** Every book has a row of its own. */
    ghost predicate Valid() {
      forall a, b :: a in rows && b in rows && a != b ==> rows[a] != rows[b]
    }

    function View(): Inventory
      reads set b | b in rows :: rows[b]
    {
      map b | b in rows :: rows[b].Row()
    }

    constructor (rows: map<BookId, InventoryRow>)
      requires forall a, b :: a in rows && b in rows && a != b ==> rows[a] != rows[b]
      ensures Valid() && this.rows == rows
    {
      this.rows := rows;
    }

    method ReserveStock(i: Item) returns (r: Reply)
      requires Valid()
      modifies set b | b in rows :: rows[b]
      ensures (View(), r) == Reserve(old(View()), i)
    {
      if i.book !in rows { return BookNotFound; }
      var row := rows[i.book];
      if row.available < i.quantity { return Insufficient; }
      row.available := row.available - i.quantity;
      row.reserved := row.reserved + i.quantity;
      assert View() == Reserve(old(View()), i).0;
      r := Done;
    }

    method ReleaseStock(i: Item) returns (r: Reply)
      requires Valid()
      modifies set b | b in rows :: rows[b]
      ensures (View(), r) == Release(old(View()), i)
    {
      if i.book !in rows { return BookNotFound; }
      var row := rows[i.book];
      if row.reserved < i.quantity { return Insufficient; }
      row.reserved := row.reserved - i.quantity;
      row.available := row.available + i.quantity;
      assert View() == Release(old(View()), i).0;
      r := Done;
    }
  }
}
