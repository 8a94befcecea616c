# Items store of the demo API

The service is a small FastAPI application whose only state is the module-level
dictionary `items_db`, mapping integer ids to `Item` records. Five handlers work
on it: `list_items`, `get_item`, `create_item`, `update_item` and `delete_item`.
This project models that table and those handlers in Dafny and proves what each
handler does to it.

- `items.dfy`, module `Items`: the `Item` record (name, optional description,
  price, optional tax, the optional fields defaulting to absent) and the
  `Result` of a handler, `Ok(value)` or `NotFound` (the 404 "Item not found").
- `store.dfy`, module `Store`: the id rule `max(keys, default=0) + 1` as the
  functions `MaxKey` and `NextId`, and the class `ItemsDb`, which holds the
  dictionary as `items: map<int, Item>` plus its insertion order `order`.
  Python dicts keep insertion order, so `list_items` returns the values in that
  order: a new key goes to the end, overwriting a key keeps its place, and
  `del` takes the key out. `Valid()` is the table's invariant: the order lists
  each key exactly once, and every key is at least 1.
- `scenarios.dfy`, module `Scenarios`: call sequences. Three hold on any valid
  table (create then get, update then get, delete then get and delete again).
  The others start from an empty table and replay the cases of the service's
  test suite, plus one sequence of calls that shows an id being reused.

Where the code and the design description disagree, the model follows the code:

- Ids are not kept in a counter. They are `max + 1` over the current keys, so
  deleting the largest id and creating again hands that id out again
  (`NextIdAfterDeletingMax`, `Scenarios.IdReusedAfterDelete`). The design
  description says ids are never reused.
- Nothing checks values. An empty name or a negative price is stored as given
  (`Scenarios.CreateUnchecked`). The design description asks for a
  validation error in both cases.
- `create_item` returns the item as submitted. `Item` has no id field, so the
  response carries no id either.
- `delete_item` returns the message "Item deleted successfully" with the
  default status 200, not 204 with an empty body.

## Model

| member | source | states |
|---|---|---|
| `Store.MaxKey` | app/main.py:80 | `max(keys, default=0)`: 0 for no keys, otherwise a key that no key exceeds |
| `Store.NextId` | app/main.py:80 | the new id exceeds every existing key, so it is not yet a key; it is 1 on an empty table and otherwise one more than an existing key |
| `Store.NextIdAfterDeletingMax` | app/main.py:79-81 | with ids at least 1, deleting the largest id m and creating again gives an id no greater than m; it is m exactly when m is 1 or m - 1 is still a key |
| `Store.Without` | app/main.py:101 | `del` takes exactly the given key out of the insertion order; the other keys stay, without repetitions |
| `Store.ValuesAt` | app/main.py:65 | the values under a sequence of keys, one per key, in the same order |
| `Store.ItemsDb.constructor` | app/main.py:39 | the table starts empty and satisfies the invariant |
| `Store.ItemsDb.Clear` | app/test_app.py:12-17 | `items_db.clear()` empties the table and restores the invariant |
| `Store.ItemsDb.ListItems` | app/main.py:62-65 | one value per key, `|result| == |items|`, the i-th being the value of the i-th key in insertion order; a value is listed iff it is stored; an empty table lists nothing |
| `Store.ItemsDb.GetItem` | app/main.py:68-73 | fails with NotFound iff the id is not a key, otherwise returns the stored item; the table is not changed |
| `Store.ItemsDb.CreateItem` | app/main.py:76-83 | stores the item under `NextId` of the old keys, appends that id to the order, leaves every other entry as it was, grows the table by one, returns the item as given, keeps the invariant |
| `Store.ItemsDb.UpdateItem` | app/main.py:86-93 | fails with NotFound iff the id is absent, then changes nothing; otherwise replaces only that entry's value and returns the new item; keys and order never change |
| `Store.ItemsDb.DeleteItem` | app/main.py:96-103 | fails with NotFound iff the id is absent, then changes nothing; otherwise removes exactly that key from the table and from the order, shrinks the table by one and returns the success message |
| `Scenarios.CreateThenGet` | app/main.py:76-83 | on any table, the id create assigns is fresh and above every old key, and getting it returns the created item |
| `Scenarios.UpdateThenGet` | app/main.py:86-93 | on any table, after a successful update a get returns the new item; after a failed one the get fails and the table is unchanged |
| `Scenarios.DeleteThenGetAndDelete` | app/main.py:96-103 | on any table, after a delete the id is gone, a get fails, and a second delete fails with NotFound |
| `Scenarios.ListEmpty` | app/test_app.py:44-48 | an empty table lists `[]` |
| `Scenarios.CreateAndGetLaptop` | app/test_app.py:77-94 | the first item created gets id 1, and getting id 1 returns it unchanged |
| `Scenarios.CreateWithoutOptionalFields` | app/test_app.py:64-75 | an item created without description and tax is stored with both absent and its name and price as given |
| `Scenarios.CreateUnchecked` | app/main.py:23-28 | an empty name and a negative price are stored as given |
| `Scenarios.GetMissing` | app/test_app.py:96-100 | getting id 999 on an empty table fails with NotFound |
| `Scenarios.UpdatePhone` | app/test_app.py:102-131 | updating id 1 returns the new item and the listing shows only it; updating id 999 fails with NotFound |
| `Scenarios.DeleteTemporary` | app/test_app.py:133-154 | deleting id 1 returns the success message, a later get of id 1 fails, deleting id 999 fails |
| `Scenarios.ListThree` | app/test_app.py:156-171 | three creates list exactly the three items, in creation order |
| `Scenarios.IdReusedAfterDelete` | app/main.py:80-81 | after creating ids 1 and 2 and deleting 2, the next create is stored under id 2 again and is listed after item 1 |

## Left out

- HTTP routing, status codes, JSON encoding and the documentation endpoints belong
  to FastAPI. Only the NotFound-or-success outcome of each handler is kept, and
  `NotFound` does not carry the detail text "Item not found".
- Request validation and type coercion are done by pydantic, which is not part of
  this model. The model takes an already well-typed `Item` and a well-typed
  integer id.
- `price` and `tax` are Python floats. They are modelled as `real`, because the
  code does no arithmetic on them, only stores and returns them.
- The `root` and `health_check` handlers return constant bodies, and the health
  body reads the `ENVIRONMENT` variable; both are left out.
- Logging and the `uvicorn` entry point are left out.
- The handlers are `async`, but none of them awaits anything. Each one runs to
  completion in one step, so the model treats them as sequential calls.
