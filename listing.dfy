/**
 * The values extraction hands back to its callers: one record per listing
 * card, and either the array of records or an object carrying an `error`.
 */
module Listing {
  import opened Wrappers

  /** One element of the extracted array. */
  datatype Record =
    | Ad(id: string, title: string, price: string, location: string, description: string,
         details: seq<string>, url: string, imageUrl: string, date: string)
      /** `{id: 'error_<index>', error, message, partial: true}` for a card that threw. */
    | ItemError(id: string, error: string, message: string)

  /** What `extractData` resolves to: the array, or an object with an `error` field (and maybe a `message`). */
  datatype PageValue =
    | Listings(items: seq<Record>)
    | ErrorValue(error: string, message: Option<string>)

  /** `value && value.error`: an error object whose error text is non-empty (so truthy). */
  predicate HasError(v: PageValue) {
    v.ErrorValue? && v.error != ""
  }

  /** `Array.isArray(value) ? value : []`. */
  function ItemsOrEmpty(v: PageValue): seq<Record> {
    if v.Listings? then v.items else []
  }
}
