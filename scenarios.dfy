/** Uses of the store: what a sequence of handler calls observes. The methods on a
    fresh table replay the service's own test cases; the others hold for any table. */
module Scenarios {
  import opened Items
  import opened Store

  /** Creating on any table, then getting the id it was given, returns the item. */
  method CreateThenGet(db: ItemsDb, item: Item) returns (id: int, got: Result<Item>)
    requires db.Valid()
    modifies db
    ensures db.Valid()
    ensures id !in old(db.items) && id >= 1
    ensures forall k :: k in old(db.items) ==> k < id
    ensures got == Ok(item)
  {
    id := NextId(db.order);
    var _ := db.CreateItem(item);
    got := db.GetItem(id);
  }

  /** After a successful update, getting that id returns the new item. */
  method UpdateThenGet(db: ItemsDb, id: int, item: Item) returns (updated: Result<Item>, got: Result<Item>)
    requires db.Valid()
    modifies db
    ensures db.Valid()
    ensures updated.Ok? <==> id in old(db.items)
    ensures updated.Ok? ==> got == Ok(item)
    ensures updated.NotFound? ==> got == NotFound && db.items == old(db.items)
  {
    updated := db.UpdateItem(id, item);
    got := db.GetItem(id);
  }

  /** After a delete, getting the id fails and deleting it again fails. */
  method DeleteThenGetAndDelete(db: ItemsDb, id: int) returns (first: Result<string>, got: Result<Item>, second: Result<string>)
    requires db.Valid()
    modifies db
    ensures db.Valid()
    ensures first.Ok? <==> id in old(db.items)
    ensures got == NotFound && second == NotFound
    ensures id !in db.items && id !in db.order
  {
    first := db.DeleteItem(id);
    got := db.GetItem(id);
    second := db.DeleteItem(id);
  }

  /** A fresh table lists nothing. */
  method ListEmpty() returns (listed: seq<Item>)
    ensures listed == []
  {
    var db := new ItemsDb();
    listed := db.ListItems();
  }

  /** Create an item, then get id 1: the same item comes back. */
  method CreateAndGetLaptop() returns (created: Item, got: Result<Item>)
    ensures created == Item("Laptop", Some("High-performance laptop"), 1299.99, Some(130.0))
    ensures got == Ok(created)
  {
    var db := new ItemsDb();
    created := db.CreateItem(Item("Laptop", Some("High-performance laptop"), 1299.99, Some(130.0)));
    got := db.GetItem(1);
  }

  /** An item given without description and tax is stored with both absent. */
  method CreateWithoutOptionalFields() returns (got: Result<Item>)
    ensures got.Ok?
    ensures got.value.name == "Minimal Item" && got.value.price == 9.99
    ensures got.value.description == None && got.value.tax == None
  {
    var db := new ItemsDb();
    var _ := db.CreateItem(Item("Minimal Item", price := 9.99));
    got := db.GetItem(1);
  }

  /** An empty name and a negative price are stored as given: nothing checks them. */
  method CreateUnchecked() returns (got: Result<Item>)
    ensures got == Ok(Item("", price := -1.0))
  {
    var db := new ItemsDb();
    var _ := db.CreateItem(Item("", price := -1.0));
    got := db.GetItem(1);
  }

  /** Getting an id that was never created fails. */
  method GetMissing() returns (got: Result<Item>)
    ensures got == NotFound
  {
    var db := new ItemsDb();
    got := db.GetItem(999);
  }

  /** Update id 1 after creating it; update an id that does not exist. */
  method UpdatePhone() returns (updated: Result<Item>, missing: Result<Item>, listed: seq<Item>)
    ensures updated == Ok(Item("Smartphone", Some("Latest model"), 799.99, Some(80.0)))
    ensures missing == NotFound
    ensures listed == [Item("Smartphone", Some("Latest model"), 799.99, Some(80.0))]
  {
    var db := new ItemsDb();
    var _ := db.CreateItem(Item("Phone", price := 699.99));
    updated := db.UpdateItem(1, Item("Smartphone", Some("Latest model"), 799.99, Some(80.0)));
    missing := db.UpdateItem(999, Item("Ghost Item", price := 0.99));
    listed := db.ListItems();
  }

  /** Delete id 1 after creating it; then it is gone, and id 999 was never there. */
  method DeleteTemporary() returns (deleted: Result<string>, got: Result<Item>, missing: Result<string>)
    ensures deleted == Ok("Item deleted successfully")
    ensures got == NotFound
    ensures missing == NotFound
  {
    var db := new ItemsDb();
    var _ := db.CreateItem(Item("Temporary Item", price := 5.99));
    deleted := db.DeleteItem(1);
    got := db.GetItem(1);
    missing := db.DeleteItem(999);
  }

  /** Three creates list three items, in the order they were created. */
  method ListThree() returns (listed: seq<Item>)
    ensures listed == [Item("Item 1", price := 10.0), Item("Item 2", price := 20.0), Item("Item 3", price := 30.0)]
  {
    var db := new ItemsDb();
    var _ := db.CreateItem(Item("Item 1", price := 10.0));
    var _ := db.CreateItem(Item("Item 2", price := 20.0));
    var _ := db.CreateItem(Item("Item 3", price := 30.0));
    listed := db.ListItems();
  }

  /** Create items A and B, then delete B, the newest: only id 1 is left. */
  method CreateTwoDeleteNewest() returns (db: ItemsDb)
    ensures fresh(db) && db.Valid()
    ensures db.order == [1] && 1 in db.items && db.items[1] == Item("A", price := 1.0)
  {
    db := new ItemsDb();
    var _ := db.CreateItem(Item("A", price := 1.0));
    var _ := db.CreateItem(Item("B", price := 2.0));
    assert db.order == [1, 2];
    var _ := db.DeleteItem(2);
    assert Without([2], 2) == [];
  }

  /** Deleting the newest item and creating again reuses its id: id 2 now holds
      the third item, and the listing shows it after the first. */
  method IdReusedAfterDelete() returns (got: Result<Item>, listed: seq<Item>)
    ensures got == Ok(Item("C", price := 3.0))
    ensures listed == [Item("A", price := 1.0), Item("C", price := 3.0)]
  {
    var db := CreateTwoDeleteNewest();
    var _ := db.CreateItem(Item("C", price := 3.0));
    assert db.order == [1, 2];
    got := db.GetItem(2);
    listed := db.ListItems();
  }
}
