/** The stored record and the interface of the item store. The queries
    themselves run in Postgres and are not part of this model: creating and
    listing are outcomes supplied from outside. */
module Db {
  import opened Wrappers
  import opened Json

  /** One catalog entry, as the store returns it. */
  datatype Item = Item(
    id: int,
    name: string,
    itemType: string,
    description: Option<string>,
    coverImage: Option<string>,
    additionalImages: Option<seq<string>>,
    createdAt: string,
    updatedAt: string)

  /** The argument of `createItem`: an item without its id and timestamps.
      The handler forwards whatever JSON values it received, so the fields
      are JSON values rather than the strings the declared type promises. */
  datatype Draft = Draft(
    name: Json,
    itemType: Json,
    description: Json,
    coverImage: Json,
    additionalImages: Json)

  /** What `await createItem(draft)` does: resolve with the inserted row or
      reject. */
  datatype CreateOutcome = Created(item: Item) | CreateRejected

  /** What `await getAllItems()` does: resolve with the rows or reject. */
  datatype ListOutcome = Listed(items: seq<Item>) | ListRejected
}
