/** The record shape the service stores, and the outcome of a handler. */
module Items {

  datatype Option<+T> = None | Some(value: T)

  /** A handler either succeeds with a value or fails because the id is not a key
      of the table (the service answers that with HTTP 404, "Item not found"). */
  datatype Result<+T> = Ok(value: T) | NotFound

  /** An item as the request body declares it. `description` and `tax` are optional
      and default to absent when the body leaves them out; `price` and `tax` are
      decimal numbers on which nothing is computed, so they are kept as reals.
      Nothing constrains the values: an empty name or a negative price is an item. */
  datatype Item = Item(
    name: string,
    description: Option<string> := None,
    price: real,
    tax: Option<real> := None)
}
