/** The records the sync script writes to `characters.json` and `weapons.json`,
    which the database refresh reads back. */
module Catalog {
  import opened Wrappers

  /** A response body, as raw bytes. */
  type Bytes = seq<bv8>

  /** What happens when a URL is requested: the response body, or nothing
      when the request (or, for weapons, the image conversion) fails. */
  type Fetch = string -> Option<Bytes>

  /** A store-assigned document identifier (a MongoDB ObjectId), compared by value. */
  datatype ObjectId = ObjectId(n: nat)

  /** One entry of `characters.json` (the object `loadCharacter` returns).
      `kind` and `element` are table lookups that may be undefined. */
  datatype Agent = Agent(
    id: int,
    code: string,
    rank: int,
    kind: Option<int>,
    element: Option<int>,
    en: string,
    ru: string,
    icon: string,
    gachaCard: string,
    gachaSplash: string)

  /** One entry of `weapons.json` (the object `loadWeapon` returns). */
  datatype Engine = Engine(
    id: int,
    rank: int,
    kind: Option<int>,
    en: string,
    ru: string,
    icon: string)

  /** An object of a JSON file array: the record and the `_id` property the
      refresh writes back into it (absent until the first refresh). */
  datatype FileEntry<T> = FileEntry(oid: Option<ObjectId>, entry: T)
}
