# gi-chars catalog sync, modelled in Dafny

The repository holds the data scripts of a game-catalog site. There are two of them.

- **`script.js`** reads character, weapon and profile-picture data from the game-data client. It keeps the characters and weapons that pass its filters and fetches their images. It republishes the images in a GitHub repository. It then writes `characters.json`, `weapons.json` and `avatars.json`. Each file entry points at the published copies.
- **`refresh_db_script.js`** reads `characters.json` and `weapons.json` back, in that order. It serializes every entry into a database document. It upserts the documents one by one by their `enkaId` into the `agents` and `engines` collections, and writes each collection's `_id` back into the JSON files.

The model covers the following:

- the fixed code tables;
- the name, path and URL derivation;
- the selection rules;
- the "skip a character with a missing image" rule, and the `filter(Boolean)` that drops such characters;
- the all-or-nothing write of the weapons file;
- the avatar merge that keeps existing entries;
- the serializers;
- the upsert loop, with its `_id` backfill into the file array.

Modules, one per file:

- `Wrappers`: the `Option` type.
- `Catalog`: the records of the JSON files (`Agent`, `Engine`, `FileEntry`), and the `Fetch` type of a URL request.
- `Codes`: `ELEMENT_MAP` and `WEAPON_MAP`.
- `Naming`: the string functions (`toString`, `slice(-3)`, `split('_').pop()`, `toLowerCase`), paths and URLs.
- `Lists`: the `continue`/`push` selection loop, `filter(Boolean)` and `Promise.all`.
- `Sync`: `loadCharacter`, `loadWeapon`, `processCharacters`, `processWeapons`.
- `Avatars`: `processAvatars` and its merge.
- `Serializers`: `serializeAgents`, `serializeEngines`.
- `Store`: a collection as a map from `enkaId` to a document, with an identifier oracle. It provides the upsert and the lookup, as a `class Collection` whose state the methods change in place.
- `Reconcile`: `refreshCollection`, as a method with a loop over the store and over the file `array`. Its specification is a fold, `Reconciled`, over the store state.
- `Refresh`: the two passes of the refresh run.

The network, the clock and the store's choice of echoing a written document are parameters of the model:

- a fetch is a function from URL to `Option<bytes>`;
- the clock is `now: nat -> int`, read once per avatar;
- the echo is a nondeterministic choice inside `FindOneAndUpdate`: nothing, the written document, or the document before the update.

Three behaviours of the code are easy to misread:

- **The write-back at `refresh_db_script.js:58-59` runs for every item.** The code compares `dataItem._id`, an `ObjectId` object that the serializer has just constructed, with the driver's `item._id` using `!==`. Two distinct objects are never `===`, so line 59 runs for every item. The final `_id` is the one the store holds either way.
- **Upsert merges fields.** The code uses `$set`, which overwrites only the payload's properties and keeps the others, rather than replacing the document. `Store.Upsert` merges, and `Store.UpsertFields` states this.
- **A Buffer that arrived is always truthy.** The code's buffers start as `''` and are replaced by the response's `Buffer`. Any `Buffer`, even an empty one, is truthy. So a character is skipped exactly when a fetch failed, and an empty body that arrived does not skip it.

## Model

| member | source | states |
|---|---|---|
| Codes.ElementCode | script.js:29-37 | defined for exactly the seven element names, with codes 11-17; undefined otherwise |
| Codes.WeaponCode | script.js:39-45 | defined for exactly the five weapon types, with codes 1-5; undefined otherwise |
| Codes.ElementCodesBijective | script.js:29-37 | the element table is a bijection between the seven names and the codes 11-17 |
| Codes.WeaponCodesBijective | script.js:39-45 | the weapon table is a bijection between the five types and the codes 1-5 |
| Naming.Suffix | script.js:94 | for k ≥ 1 (line 94 uses 3), `slice(-k)` yields the last k characters, or the whole string when it is shorter |
| Naming.Digits | script.js:94 | the decimal digits of a natural number: non-empty, all digits, no leading zero |
| Naming.DigitsRoundTrip | script.js:94 | reading the digits back gives the number |
| Naming.DecimalRoundTrip | script.js:94 | `id.toString()` can be parsed back to the id, including negative ids |
| Naming.DecimalInjective | script.js:137-139 | different ids have different decimal strings |
| Naming.SuffixValue | script.js:94 | the last k digits of n, read as a number, are n mod 10^k |
| Naming.LastIdNumbersValue | script.js:94 | `lastIdNumbers` of a non-negative id is the id mod 1000, in decimal |
| Naming.LastSegment | script.js:95 | `split('_').pop()` is a suffix without `_`, preceded by `_` unless it is the whole name |
| Naming.LastSegmentOf | script.js:95 | the segment after a last `_` is recovered exactly |
| Naming.LastSegmentWhole | script.js:95 | a name without `_` is its own last segment |
| Naming.LowerAscii | script.js:95 | lower-casing keeps the length |
| Naming.LowerAsciiFacts | script.js:95 | lower-casing turns each capital into its small letter, leaves no capital letter, keeps other characters and underscores, and is idempotent |
| Naming.IconName | script.js:95 | the icon name holds no `_` and is no longer than the original name |
| Naming.GachaCardUrlInjective | script.js:99 | the gacha-card URL determines both the icon name and the id ending |
| Naming.GachaSplashUrlInjective | script.js:100 | the gacha-splash URL determines both the icon name and the id ending |
| Naming.CardNotSplash | script.js:99-100 | a card URL is never a splash URL |
| Naming.CharacterPathsInjective | script.js:137-139 | in each character directory, distinct ids get distinct paths |
| Naming.WeaponPathInjective | script.js:209 | distinct weapon icon names get distinct paths |
| Naming.AvatarPathInjective | script.js:259 | distinct avatar icon paths get distinct paths |
| Naming.RawUrlInjective | script.js:154-156 | within one repository, distinct paths are published at distinct URLs |
| Naming.AvatarUrl | script.js:254-260 | `${gitHubUrl}/${path}` is the raw URL of the avatar's path |
| Lists.Filter | script.js:180-185 | every collected element satisfies the guard |
| Lists.FilterMembers | script.js:180-185 | an element is collected iff it is in the input and passes the guard; no more elements than the input |
| Lists.FilterAppend | script.js:180-185 | collection keeps input order: it distributes over concatenation |
| Lists.SomesMembers | script.js:188 | `filter(Boolean)` keeps exactly the present values |
| Lists.SomesAppend | script.js:188 | `filter(Boolean)` keeps order |
| Lists.AllPresent | script.js:245 | `Promise.all` yields values iff every load resolved, and then the values in order |
| Lists.AllPresentIsSomes | script.js:245 | when nothing rejected, `Promise.all` and `filter(Boolean)` agree |
| Sync.SelectedCharacters | script.js:180-185 | a character is processed iff its id is non-zero and its element id is non-empty (no id is excluded); order is kept |
| Sync.SelectedWeapons | script.js:237-242 | a weapon is processed iff its id is non-zero, it has more than three stars and its id is not filtered; order is kept |
| Sync.LoadCharacter | script.js:93-170 | nothing iff one of the three image fetches fails; otherwise the record with the table codes and the three published URLs named by id |
| Sync.LoadWeapon | script.js:198-227 | nothing iff the icon fetch fails; otherwise the record with the weapon code and the published icon URL |
| Sync.ProcessCharacters | script.js:172-194 | the loop writes the saved characters of the selected input, or nothing when the file is not updated |
| Sync.ProcessWeapons | script.js:230-251 | the loop writes the weapons' `Promise.all` result, or nothing when the file is not updated |
| Sync.SavedCharactersMembers | script.js:188 | a record is saved iff it is the load of a selected character whose images all arrived |
| Sync.MissingImageDropsCharacter | script.js:131-134 | a selected character with a missing image loads nothing; any record saved under its id comes from another selected character with that id whose images all arrived |
| Sync.SavedWeaponsAllOrNothing | script.js:245 | `weapons.json` is written iff every selected weapon's icon arrived; entry i is then the i-th selected weapon's record |
| Sync.CharacterDirectoriesDistinct | script.js:137-139 | icon, card and splash paths never coincide |
| Sync.PublishedCharacterUrlsDistinct | script.js:154-156 | a character's three URLs differ from each other, and characters with different ids share none |
| Sync.PublishedWeaponUrlsDistinct | script.js:217 | weapons with different icon names have different URLs |
| Avatars.FindAvatar | script.js:278 | `find` returns the first entry with the address, and nothing iff there is none |
| Avatars.MergeAvatars | script.js:277-280 | same length as the results, same address at each position; the first existing entry with that address, else the new result |
| Avatars.MergeDropsUnmatched | script.js:277-280 | an existing entry whose address no result has is dropped |
| Avatars.MergeIntoEmpty | script.js:277-280 | against an empty file the results are written unchanged |
| Avatars.FindOwnAvatar | script.js:278 | in a file without duplicate addresses, `find` on an entry's own address returns that entry |
| Avatars.MergeIntoOwn | script.js:277-280 | merging into a file that already holds each result's address, position by position, changes nothing |
| Avatars.MergeStable | script.js:277-280 | re-merging results with the same, distinct addresses changes nothing |
| Avatars.FetchedAvatarsMembers | script.js:258-272 | an entry is pushed exactly for every icon whose picture arrived, with its URL and that turn's timestamp |
| Avatars.FetchedSrcs | script.js:267 | the pushed addresses do not depend on the clock |
| Avatars.FetchedDistinct | script.js:259-260 | distinct icons give distinct addresses |
| Avatars.ResyncKeepsAvatars | script.js:253-282 | for icon paths without repeats, a second sync with the same icons and pictures writes back the first sync's file, timestamps included |
| Avatars.ProcessAvatars | script.js:253-282 | the loop writes the merge of the fetched entries with the existing file, or nothing when the file is not updated |
| Serializers.PropNameInjective | refresh_db_script.js:19-30 | the document property names are distinct |
| Serializers.SerializeAgent | refresh_db_script.js:18-31 | `_id` and `id` are carried over; the document has exactly the seven agent properties and reads back as the record; an undefined `specialty` or `attribute` stays undefined |
| Serializers.SerializeEngine | refresh_db_script.js:34-44 | `_id` and `id` are carried over; the document has exactly the four engine properties and reads back as the record; an undefined `specialty` stays undefined |
| Serializers.SerializeAgents | refresh_db_script.js:17-32 | same length and order; document i carries entry i's `_id` and id and reads back as entry i |
| Serializers.SerializeEngines | refresh_db_script.js:33-45 | same length and order; document i carries entry i's `_id` and id and reads back as entry i |
| Store.UpsertDocuments | refresh_db_script.js:54 | an existing document keeps its `_id`; a new one gets the oracle's next identifier; other keys are untouched |
| Store.UpsertFields | refresh_db_script.js:54 | `$set` overwrites the payload's properties and keeps the others |
| Store.FieldsAtUpsert | refresh_db_script.js:54 | the properties under every key after an upsert |
| Store.UpsertKeepsWf | refresh_db_script.js:54 | an upsert never gives two documents the same `_id` |
| Store.Find | refresh_db_script.js:56 | `findOne` finds the document iff one exists under the key |
| Store.Collection.constructor | refresh_db_script.js:50 | a collection handle starts in the given well-formed state |
| Store.Collection.FindOneAndUpdate | refresh_db_script.js:54 | the state becomes the upsert of the old state; the result is nothing, the written document or the document before the update, and any result carries the stored `_id` |
| Store.Collection.FindOne | refresh_db_script.js:56 | the lookup on the current state; nothing changes |
| Reconcile.PayloadContents | refresh_db_script.js:52-53 | the payload has no `_id`, has `enkaId`, and has every other property unchanged |
| Reconcile.Backfilled | refresh_db_script.js:58-60 | same length; records unchanged; every `_id` is the store's for its key; equal keys get equal `_id`s |
| Reconcile.ReconciledKeys | refresh_db_script.js:51-61 | afterwards the store holds exactly its old keys plus the batch's keys |
| Reconcile.ReconciledCount | refresh_db_script.js:54 | duplicate keys collapse: one document per distinct key |
| Reconcile.ReconciledKeepsIds | refresh_db_script.js:54 | a document that existed keeps its `_id` |
| Reconcile.ReconciledWf | refresh_db_script.js:51-61 | no two documents share an `_id` after a batch |
| Reconcile.ReconciledUntouched | refresh_db_script.js:51-61 | documents under keys outside the batch are untouched |
| Reconcile.ReconciledFields | refresh_db_script.js:54 | a key's properties are the old ones overwritten by its payloads, in order |
| Reconcile.MergedLastWins | refresh_db_script.js:54 | the last payload under a key decides each property it lists |
| Reconcile.LastWriteWins | refresh_db_script.js:51-61 | items with one key meet in one document, whose property values come from the last item listing them |
| Reconcile.ReconciledMints | refresh_db_script.js:54 | exactly one identifier is minted per distinct new key |
| Reconcile.NoMintWhenKnown | refresh_db_script.js:54 | a batch of known keys mints nothing |
| Reconcile.ReconcileIdempotent | refresh_db_script.js:48-63 | a second pass over the same batch leaves the store as it is |
| Reconcile.ReconciledIgnoresIds | refresh_db_script.js:52-54 | the store's result does not depend on the `_id`s the items carry |
| Reconcile.RefreshItem | refresh_db_script.js:52-60 | one upsert, with the fallback lookup; the key is stored, and only entry i's `_id` is written, with that document's `_id` |
| Reconcile.RefreshCollection | refresh_db_script.js:48-63 | the store ends as the fold of the batch; every entry's `_id` is the store's for its key; records and order are kept; `data` is returned |
| Refresh.RefreshAgents | refresh_db_script.js:69-72 | after the agents pass, every characters entry keeps its record and carries its document's `_id` |
| Refresh.RefreshEngines | refresh_db_script.js:75-78 | after the engines pass, every weapons entry keeps its record and carries its document's `_id` |
| Refresh.BatchKeysStored | refresh_db_script.js:55-57 | every key of a batch has a document afterwards |
| Refresh.RerunIsNoOp | refresh_db_script.js:48-63 | re-running on a batch that differs only in `_id`s changes neither store nor file |
| Refresh.AgentsRerunIsNoOp | refresh_db_script.js:69-72 | the characters file written by one run is a fixed point of the next run |
| Refresh.EnginesRerunIsNoOp | refresh_db_script.js:75-78 | the weapons file written by one run is a fixed point of the next run |

## Left out

- Network I/O is a parameter, not modelled. This covers the `axios` GETs and PUTs and the game-data client's `getAllCharacters`, `getAllWeapons` and profile-picture data. A fetch is a function from URL to an optional byte string.
- `sharp`'s webp-to-png conversion (script.js:206) is a foreign library call. Its failure is folded into the weapon fetch failing.
- Base64 encoding is a foreign library call and is not modelled.
- The GitHub upload (`uploadToGitHub`, script.js:48-79), including its "file exists locally" skip, is filesystem and HTTP. It reports its own errors and never throws, so the `isUploadToGitHub` flag does not change any written record. The catch around the uploads (script.js:146-149) is therefore not modelled.
- File reading and writing, JSON parsing and printing, dotenv, the environment checks and console logging are left out.
- The mongoose connection lifecycle (refresh_db_script.js:65, 81) is left out. A store error that aborts a batch is not modelled.
- The entry point `fetchAndProcessData` (script.js:285-289) has all three calls commented out, and update_cache.js only warms the client's cache. Neither is part of this model.
- Identifier minting is an oracle, `next` in the store state, and identifiers are compared by value. `new ObjectId(_id)` on a malformed `_id`, which throws, is not modelled.
- `Promise.all` concurrency is modelled as the ordered list of results. Interleavings are not modelled.
- `new Date()` is an opaque timestamp from the clock parameter.
- Sync.LoadCharacter: models `toLowerCase` on ASCII letters only, because Dafny strings carry no Unicode case tables.
- Codes.ElementCode: an inherited property of `Object.prototype`, such as `ELEMENT_MAP["constructor"]`, is modelled as undefined rather than as that property.
- Codes.WeaponCode: `Object.prototype` lookups are modelled as undefined, as for `ElementCode`.
- Sync.SelectedCharacters: ids are integers, so a `NaN` id, which the source would also skip, is not represented.
- Sync.SelectedWeapons: same as `SelectedCharacters`, a `NaN` id is not represented.
- Sync.LoadCharacter: the field reads `character.name.get(...)` and the client's accessors are assumed not to throw.
- Naming.DecimalString: ids are assumed to be integers below 2^53, where `toString` gives plain decimal digits; exponent notation from 1e21 and precision loss above 2^53 are not modelled.
- Naming.LastIdNumbersValue: states the numeric value for non-negative ids only. Negative ids have a `-` sign in their string and do not occur.
