/** The in-memory item table and its five handlers. */
module Store {
  import opened Items

  /** The largest key, or 0 when there is none: `max(keys, default=0)`, where the
      keys are visited in the table's own order. */
  function MaxKey(keys: seq<int>): (m: int)
    ensures keys == [] ==> m == 0
    ensures keys != [] ==> m in keys
    ensures forall k :: k in keys ==> k <= m
  {
    if keys == [] then 0
    else
      var rest := MaxKey(keys[1..]);
      assert forall k :: k in keys ==> k == keys[0] || k in keys[1..];
      if keys[1..] == [] || keys[0] > rest then keys[0] else rest
  }

  /** The id a new item gets: one more than the largest key, 1 on an empty table.
      It is above every key, so it is not a key yet. */
  function NextId(keys: seq<int>): (id: int)
    ensures forall k :: k in keys ==> k < id
    ensures id !in keys
    ensures keys == [] ==> id == 1
    ensures keys != [] ==> id - 1 in keys
  {
    MaxKey(keys) + 1
  }

  /** Every key is a valid id, that is at least 1. */
  ghost predicate PositiveKeys(keys: set<int>)
  {
    forall k :: k in keys ==> k >= 1
  }

  /** Ids are not monotonic across deletes. Deleting the largest id m and creating
      again hands out an id no greater than m, and hands out m itself exactly when
      m is 1 or m - 1 is still a key. */
  lemma NextIdAfterDeletingMax(keys: seq<int>)
    requires keys != [] && forall k :: k in keys ==> k >= 1
    ensures NextId(Without(keys, MaxKey(keys))) <= MaxKey(keys)
    ensures NextId(Without(keys, MaxKey(keys))) == MaxKey(keys)
            <==> MaxKey(keys) == 1 || MaxKey(keys) - 1 in keys
  {
    var m := MaxKey(keys);
    var rest := Without(keys, m);
    if rest == [] {
      assert forall k :: k in keys ==> k == m;
    } else {
      var m' := MaxKey(rest);
      assert m' < m;
      if m - 1 in keys {
        assert m - 1 in rest;
      }
    }
  }

  /** No element occurs twice in s. */
  ghost predicate Distinct(s: seq<int>)
  {
    forall i, j :: 0 <= i < j < |s| ==> s[i] != s[j]
  }

  /** A sequence without repetitions has as many elements as its set of elements. */
  lemma {:induction false} DistinctSize(s: seq<int>)
    requires Distinct(s)
    ensures |set k | k in s| == |s|
  {
    if s != [] {
      var tail := s[1..];
      assert Distinct(tail);
      DistinctSize(tail);
      assert (set k | k in s) == (set k | k in tail) + {s[0]};
      assert s[0] !in tail;
    }
  }

  /** s with x taken out; the other elements keep their order. */
  function Without(s: seq<int>, x: int): (r: seq<int>)
    ensures forall k :: k in r <==> k in s && k != x
    ensures Distinct(s) ==> Distinct(r)
    ensures x !in s ==> r == s
    ensures |r| <= |s|
  {
    if s == [] then []
    else if s[0] == x then Without(s[1..], x)
    else
      var rest := Without(s[1..], x);
      assert Distinct(s) ==> Distinct(s[1..]) && s[0] !in rest;
      [s[0]] + rest
  }

  /** The values stored under the keys ks, in the order of ks. */
  function ValuesAt(ks: seq<int>, m: map<int, Item>): (r: seq<Item>)
    requires forall i :: 0 <= i < |ks| ==> ks[i] in m
    ensures |r| == |ks|
    ensures forall i :: 0 <= i < |ks| ==> r[i] == m[ks[i]]
  {
    if ks == [] then [] else [m[ks[0]]] + ValuesAt(ks[1..], m)
  }

  /** The module-level dictionary `items_db`. A Python dict remembers insertion
      order: `order` is that order, `items` the mapping itself. */
  class ItemsDb {
    var items: map<int, Item>
    var order: seq<int>

    /** The order lists each key once, and every key is a valid id. */
    ghost predicate Valid()
      reads this
    {
      && Distinct(order)
      && (forall i :: 0 <= i < |order| ==> order[i] in items)
      && (forall k :: k in items ==> k in order)
      && PositiveKeys(items.Keys)
    }

    /** The table starts empty. */
    constructor ()
      ensures Valid()
      ensures items == map[] && order == []
    {
      items := map[];
      order := [];
    }

    /** `items_db.clear()`, done before and after every test. */
    method Clear()
      modifies this
      ensures Valid()
      ensures items == map[] && order == []
    {
      items := map[];
      order := [];
    }

    /** `list_items`: every stored value, once per key, in insertion order. */
    method ListItems() returns (r: seq<Item>)
      requires Valid()
      ensures |r| == |order| == |items|
      ensures forall i :: 0 <= i < |r| ==> r[i] == items[order[i]]
      ensures forall v :: v in r <==> v in items.Values
      ensures items == map[] ==> r == []
    {
      r := ValuesAt(order, items);
      DistinctSize(order);
      var inOrder := set k | k in order;
      forall k | k in inOrder
        ensures k in items.Keys
      {
        var i :| 0 <= i < |order| && order[i] == k;
      }
      forall k | k in items.Keys
        ensures k in inOrder
      {
        assert k in order;
      }
      assert inOrder <= items.Keys && items.Keys <= inOrder;
      assert inOrder == items.Keys;
      forall v | v in items.Values
        ensures v in r
      {
        var k :| k in items && items[k] == v;
        var i :| 0 <= i < |order| && order[i] == k;
        assert r[i] == v;
      }
    }

    /** `get_item`: the stored item, or NotFound when the id is not a key. */
    method GetItem(id: int) returns (r: Result<Item>)
      ensures r.NotFound? <==> id !in items
      ensures r.Ok? ==> r.value == items[id]
    {
      if id !in items {
        return NotFound;
      }
      r := Ok(items[id]);
    }

    /** `create_item`: store the item under the next id and return it as given
        (the response carries no id). */
    method CreateItem(item: Item) returns (r: Item)
      requires Valid()
      modifies this
      ensures Valid()
      ensures r == item
      ensures items == old(items)[NextId(old(order)) := item]
      ensures order == old(order) + [NextId(old(order))]
      ensures |items| == |old(items)| + 1
    {
      var newId := NextId(order);
      items := items[newId := item];
      order := order + [newId];
      r := item;
    }

    /** `update_item`: overwrite the value of an existing id, in place. */
    method UpdateItem(id: int, item: Item) returns (r: Result<Item>)
      requires Valid()
      modifies this
      ensures Valid()
      ensures r.NotFound? <==> id !in old(items)
      ensures r.NotFound? ==> items == old(items)
      ensures r.Ok? ==> r.value == item && items == old(items)[id := item]
      ensures items.Keys == old(items).Keys
      ensures order == old(order)
    {
      if id !in items {
        return NotFound;
      }
      items := items[id := item];
      r := Ok(item);
    }

    /** `delete_item`: remove an existing id and answer with a message. */
    method DeleteItem(id: int) returns (r: Result<string>)
      requires Valid()
      modifies this
      ensures Valid()
      ensures r.NotFound? <==> id !in old(items)
      ensures r.NotFound? ==> items == old(items) && order == old(order)
      ensures r.Ok? ==> r.value == "Item deleted successfully"
      ensures r.Ok? ==> items == old(items) - {id} && |items| == |old(items)| - 1
      ensures order == Without(old(order), id)
    {
      if id !in items {
        return NotFound;
      }
      items := items - {id};
      order := Without(order, id);
      forall i | 0 <= i < |order|
        ensures order[i] in items
      {
        assert order[i] in order;
      }
      r := Ok("Item deleted successfully");
    }
  }
}
