# Shop resource: a Dafny model

This project models the core of a small Express/Mongoose REST service for
one resource, the Shop. It covers three parts:

- **The data-access model** (`shop_model.dfy`, module `ShopModel`). This is
  the Shop record and its schema rules. The setters are `trim` and
  `lowercase` on `email`, and `trim` on `name` and `picture`. The
  validators are `required`, the email pattern `^\S+@\S+\.\S+$`, the
  `address` length 6–128 and the `name` maximum of 128. It also holds the
  `unique` index on `email`, the static queries `get(id)` and `list(...)`,
  and the document method `transform()`.
- **The request schemas** (`shop_validation.dfy`, module `ShopValidation`).
  `listShops`, `createShop`, `replaceShop` and `updateShop` are predicates
  over the query, the body and the path parameters.
- **The handlers** (`shop_controller.dfy`, module `ShopController`). `get`,
  `create`, `replace`, `update`, `list` and `remove` are methods on a
  `ShopStore` class. The class holds the collection, and each method states
  the status it sends and the new state of the collection.

`strings.dfy` gives the JavaScript string operations the setters and the
email pattern use: `String.prototype.trim`, `toLowerCase` and the `\s`
class. `wrappers.dfy` defines `Option` and `Result`.

The collection is a sequence of documents in the store's natural order.
Ids are unique and emails are unique. `list` sorts that sequence by
`createdAt`, newest first. Equal timestamps keep the collection's order.
Writes are pure functions on the sequence (`docs + [s]`, `Overwrite`,
`RemoveId`). The handlers assign their results to the store's field.

The store, the request context and the libraries supply these values, so
they are parameters:

- `mongoose.Types.ObjectId.isValid` is `isObjectId: Id -> bool`.
- The cast of a path id to an ObjectId, which `findById` compares by, is
  `castId: Id -> Id`.
- Joi's `.email()` rule is `isEmail: string -> bool`.
- The id a new document receives is `newId`. It is required to be fresh.
- The clock reading for the timestamps is `now`.
- `req.locals.shop` is `target`. It is required to be a stored shop.

## Model

| member | source | states |
|---|---|---|
| `Strings.Trim` | src/api/models/shop.model.js:30 | the `trim` setter: the result neither starts nor ends with whitespace, and it is the infix of the input with only whitespace before and after it |
| `Strings.TrimCharacterized` | src/api/models/shop.model.js:30 | any trimmed infix with only whitespace around it is the result of `trim`, so the contract of `Trim` fixes its result |
| `Strings.TrimIdempotent` | src/api/models/shop.model.js:30 | trimming a trimmed value changes nothing |
| `Strings.ToLower` | src/api/models/shop.model.js:18 | the `lowercase` setter: same length, every capital letter becomes its own lower-case letter (code point + 32), every other character is kept |
| `Strings.ToLowerEqual` | src/api/models/shop.model.js:18 | two strings lower-case to the same value exactly when they are equal up to the case of their letters, position by position |
| `Strings.TrimLowerCommute` | src/api/models/shop.model.js:17-18 | the `trim` and `lowercase` setters of `email` commute, so their order does not matter |
| `ShopModel.NormalizeEmail` | src/api/models/shop.model.js:12-19 | a stored email is trimmed and lower-case |
| `ShopModel.NormalizeEmailIdempotent` | src/api/models/shop.model.js:17-18 | normalising a normalised email changes nothing |
| `ShopModel.NormalizeEmailEqual` | src/api/models/shop.model.js:16-18 | two emails are one for the unique index exactly when, once trimmed, they are equal up to letter case |
| `ShopModel.CaseVariantExample` | src/api/models/shop.model.js:16-18 | `" A@B.com"` and `"a@b.com"` normalise to the same email |
| `ShopModel.Cast` | src/api/controllers/shop.controller.js:24 | `new Shop(body)` applies the setters: the email is trimmed and lower-case, name and picture trimmed; each key is present exactly when the body has it; the address is kept; a missing `loc` is `[]` |
| `ShopModel.EmailShape` | src/api/models/shop.model.js:14 | the pattern `^\S+@\S+\.\S+$`; a matching email is already trimmed and at least 5 characters long |
| `ShopModel.Violations` | src/api/models/shop.model.js:12-31 | the validators succeed exactly when the email is present and matches `\S+@\S+\.\S+`, the address is present with length 6..128, and a present name is at most 128 long; an email error is always `required` or `match` |
| `ShopModel.ValidDraftConforms` | src/api/models/shop.model.js:10-44 | a document that the setters produced and that passes the validators meets every schema rule |
| `ShopModel.Find` | src/api/models/shop.model.js:77 | `findById`: a result is a stored shop with that id; there is no result exactly when no stored shop has the id |
| `ShopModel.FindStored` | src/api/models/shop.model.js:77 | with unique ids, `findById` returns the one shop holding the id |
| `ShopModel.Get` | src/api/models/shop.model.js:72-90 | fails exactly when the id is not a valid ObjectId or no shop has the id it casts to; the failure is "Shop does not exist" with status 404; a success is the stored shop with the cast id |
| `ShopModel.GetStored` | src/api/models/shop.model.js:76-81 | a valid id that casts to a stored shop's id yields exactly that shop |
| `ShopModel.FilterOptions` | src/api/models/shop.model.js:100 | `omitBy({name, email, address}, isNil)`: a filter key exists exactly for each non-nil query field, holding that field's value |
| `ShopModel.MatchesExactly` | src/api/models/shop.model.js:100-102 | a shop matches the filter iff it equals every present query field; a nil field imposes nothing |
| `ShopModel.Filter` | src/api/models/shop.model.js:102 | `find(options)` returns exactly the stored shops that match, each no more often than stored |
| `ShopModel.FilterNothing` | src/api/models/shop.model.js:100-102 | an empty filter returns the whole collection |
| `ShopModel.InsertByCreatedAt` | src/api/models/shop.model.js:103 | inserting into a newest-first sequence keeps it newest-first and adds exactly that shop |
| `ShopModel.SortByCreatedAt` | src/api/models/shop.model.js:103 | `sort({createdAt: -1})`: the result is newest-first and a permutation of the input |
| `ShopModel.OrderedIsSortedMatches` | src/api/models/shop.model.js:102-103 | before skip and limit, the result is a newest-first permutation of exactly the matching shops |
| `ShopModel.List` | src/api/models/shop.model.js:99-107 | the result holds at most `perPage` shops, namely `min(perPage, matches - skip)` of them, and position k is the ordered match at position `perPage*(page-1) + k` |
| `ShopModel.ListMatchesNewestFirst` | src/api/models/shop.model.js:102-105 | every listed shop is stored and matches the filter, and the page is newest-first |
| `ShopModel.ListDefaults` | src/api/models/shop.model.js:99 | a missing page and perPage act as page 1 and perPage 100: skip 0, limit 100 |
| `ShopModel.ListUnfiltered` | src/api/models/shop.model.js:99-103 | with no name, email or address, the ordered result is the whole collection sorted newest-first |
| `ShopModel.Document` | src/api/models/shop.model.js:10-44 | the document's defined paths, with the `id` virtual for `_id`: a key exists exactly for each defined path |
| `ShopModel.Projection` | src/api/models/shop.model.js:52 | the projection has exactly the six listed fields |
| `ShopModel.ProjectionRestrictsDocument` | src/api/models/shop.model.js:51-56 | the projection copies each listed field from the document and never carries `name` or `updatedAt` |
| `ShopModel.Transform` | src/api/models/shop.model.js:50-56 | the field-by-field loop builds exactly the projection |
| `ShopModel.TransformAsWritten` | src/api/models/shop.model.js:50-59 | `transform` as written runs the loop and returns the document itself |
| `ShopModel.AsWrittenExposesPrivateFields` | src/api/models/shop.model.js:57-58 | the document returned as written always carries `updatedAt`, and `name` when set, neither of which the projection has; so it differs from the projection for every shop |
| `ShopModel.OmitRole` | src/api/controllers/shop.controller.js:41-42 | unless the stored role is `'admin'`, the body's `role` key is dropped; for an admin the body is kept whole (`omit(body, '')`); no other key changes |
| `ShopModel.RoleOf` | src/api/controllers/shop.controller.js:41 | reading `shop.role`: the schema has no such path, so no stored shop has the role `'admin'` |
| `ShopModel.RoleAlwaysOmitted` | src/api/controllers/shop.controller.js:58-59 | the schema has no `role` path, so a stored shop's role is never `'admin'` and the role key is always dropped |
| `ShopModel.SaveNew` | src/api/controllers/shop.controller.js:24-25 | saving a new document fails with the validators' errors when any fails; otherwise it fails with a duplicate key exactly when another shop holds the email; a saved shop has the fresh id, both timestamps at `now`, and the draft's email, address, name, picture and `loc` |
| `ShopModel.CreateStoresBody` | src/api/controllers/shop.controller.js:24-25 | a created shop holds the body's email normalised, its address, its name and picture trimmed, and its `loc` or `[]` |
| `ShopModel.CreateRefusesCaseVariant` | src/api/models/shop.model.js:16-18 | a create whose email differs from a stored one only in surrounding whitespace and letter case fails with a duplicate key on `email` |
| `ShopModel.SaveExisting` | src/api/controllers/shop.controller.js:62 | saving an existing document: validators first, then the unique index against the other shops; a saved shop is the draft under the same id and `createdAt`, with `updatedAt` kept or set to `now` |
| `ShopModel.Merge` | src/api/controllers/shop.controller.js:60 | `Object.assign(shop, body)`: a path the body does not name keeps its stored value; merging into a normalised shop gives a normalised document |
| `ShopModel.UpdateResult` | src/api/controllers/shop.controller.js:58-62 | a saved update keeps the id and `createdAt` and passes every schema rule; a refusal is a validation error or a duplicate email |
| `ShopModel.UpdateMergesBody` | src/api/controllers/shop.controller.js:58-60 | an update sets each path the body names (through that path's setters) and keeps every other path, the id and `createdAt` |
| `ShopModel.ReplaceResult` | src/api/controllers/shop.controller.js:40-44 | a replace is refused, with a duplicate key, exactly when another shop holds the normalised email; no validator runs |
| `ShopModel.Overwritten` | src/api/controllers/shop.controller.js:42-44 | the replaced shop keeps the id and `createdAt`, takes `updatedAt = now`, the draft's email, address and `loc`, and the draft's name and picture when present or when missing paths are cleared |
| `ShopModel.ReplaceKeepsIdentity` | src/api/controllers/shop.controller.js:40-45 | a replace keeps the stored id (`_id` is omitted) and writes the body's email, address, present name and picture, and `loc` (default `[]`) |
| `ShopModel.Overwrite` | src/api/controllers/shop.controller.js:44 | writes a shop over the stored shop with the same id and leaves every other position as it was |
| `ShopModel.RemoveId` | src/api/controllers/shop.controller.js:88 | the result holds exactly the stored shops whose id differs |
| `ShopModel.RemoveIdExact` | src/api/controllers/shop.controller.js:86-88 | after a remove no shop has the id, and every shop with another id is kept |
| `ShopModel.InsertKeepsWellFormed` | src/api/models/shop.model.js:16 | inserting a shop with a fresh id and an unused email keeps ids and emails unique |
| `ShopModel.OverwriteKeepsWellFormed` | src/api/models/shop.model.js:16 | overwriting with an email no other shop holds keeps ids and emails unique |
| `ShopModel.OverwriteKeepsConformity` | src/api/models/shop.model.js:10-44 | overwriting with a conforming shop keeps every shop conforming |
| `ShopModel.OverwriteKeepsLengthRules` | src/api/models/shop.model.js:20-31 | overwriting conforming shops with a shop within the length rules leaves every shop within them |
| `ShopModel.RemoveIdKeepsWellFormed` | src/api/models/shop.model.js:16 | removing keeps ids and emails unique |
| `ShopModel.RemoveIdKeepsConformity` | src/api/models/shop.model.js:10-44 | removing keeps every shop conforming |
| `ShopModel.SaveNewKeepsInvariants` | src/api/controllers/shop.controller.js:24-25 | a successful create stores a conforming shop, and the collection stays unique in ids and emails and fully conforming |
| `ShopModel.UpdateKeepsInvariants` | src/api/controllers/shop.controller.js:58-62 | a successful update stores a conforming shop and keeps the collection unique and conforming |
| `ShopModel.ReplaceKeepsInvariants` | src/api/controllers/shop.controller.js:40-44 | a successful replace keeps ids and emails unique and values normalised; full conformity survives only if the written shop conforms |
| `ShopValidation.ListShops` | src/api/validations/shop.validation.js:7-13 | `listShops`: a passing query has a usable page and perPage, with perPage at most 100 |
| `ShopValidation.ListShopsAdmitsList` | src/api/validations/shop.validation.js:7-13 | a query that passes `listShops` has page ≥ 1 and 1 ≤ perPage ≤ 100, so `list` may run and returns at most 100 shops |
| `ShopValidation.IsShopId` | src/api/validations/shop.validation.js:33 | `/^[a-fA-F0-9]{24}$/`: an accepted id holds no whitespace |
| `ShopValidation.ShopIdIgnoresCase` | src/api/validations/shop.validation.js:33 | an accepted id stays accepted when lower-cased, so it may differ in case from the stored id |
| `ShopValidation.CreateShop` | src/api/validations/shop.validation.js:17-23 | `createShop`: a passing body has an email and an address, and after the setters its address and name pass the schema's length validators |
| `ShopValidation.ReplaceShop` | src/api/validations/shop.validation.js:26-35 | `replaceShop`, with its body rules written out again: a passing request has an email, an address and a valid `shopId` |
| `ShopValidation.UpdateShop` | src/api/validations/shop.validation.js:37-47 | `updateShop`: a passing request has a valid `shopId`, and a present address or trimmed name passes its length validator |
| `ShopValidation.ReplaceShopIsCreateShop` | src/api/validations/shop.validation.js:17-35 | `replaceShop` holds exactly when `createShop`'s body rules hold and `shopId` is 24 characters from `[0-9a-fA-F]` |
| `ShopValidation.UpdateShopWeakensReplaceShop` | src/api/validations/shop.validation.js:38-47 | every body `replaceShop` accepts passes `updateShop`; a body without email, address and name passes `updateShop` but never `replaceShop` |
| `ShopValidation.CreateShopMeetsLengthRules` | src/api/validations/shop.validation.js:17-23 | after `createShop`, the cast document meets the address and name length rules, so the schema can refuse it only for its email |
| `ShopValidation.UpdateShopMeetsLengthRules` | src/api/validations/shop.validation.js:38-43 | after `updateShop`, merging into a conforming shop can fail the schema only for its email |
| `ShopValidation.ReplaceShopMeetsLengthRules` | src/api/validations/shop.validation.js:26-35 | a replace that passed `replaceShop`, written over a conforming shop, stores a normalised shop within the length rules, which conforms exactly when its email has the schema's shape |
| `ShopController.ShopStore.constructor` | src/api/models/shop.model.js:113 | an empty collection is well formed and conforming |
| `ShopController.ShopStore.Get` | src/api/controllers/shop.controller.js:10-17 | responds 200 with the corrected projection (see Findings) of the shop `Shop.get` returns; passes on NotFound when the id is invalid or casts to no stored id |
| `ShopController.ShopStore.Create` | src/api/controllers/shop.controller.js:22-31 | on success appends exactly the saved shop and responds 201 with its corrected projection; otherwise nothing changes and the error is passed on |
| `ShopController.ShopStore.Replace` | src/api/controllers/shop.controller.js:37-51 | after `replaceShop` passed: on success overwrites the target's id with the replaced shop, reads it back and responds 200 with its corrected projection; every stored shop stays within the length rules, and the store conforms exactly when the written email has the schema's shape; on a duplicate email nothing changes |
| `ShopController.ShopStore.Update` | src/api/controllers/shop.controller.js:57-65 | on success overwrites the target with the merged shop and responds 200 with its corrected projection; otherwise nothing changes and the error is passed on |
| `ShopController.ShopStore.List` | src/api/controllers/shop.controller.js:71-79 | responds 200 with the model's list, each shop through the corrected projection, same length and order |
| `ShopController.ShopStore.Remove` | src/api/controllers/shop.controller.js:85-91 | deletes exactly the shops with the target's id, keeps all others, responds 204 with no body |

## Findings

| source | as written | input that shows it | evidently intended | confidence | as-written member | corrected member |
|---|---|---|---|---|---|---|
| src/api/models/shop.model.js:51-58 | `transform()` fills `transformed` with the six fields `id, email, picture, address, createdAt, loc`, then returns `this`. The response therefore carries the whole document. | Any shop: the response includes `updatedAt`, and also `name` whenever it is set. | Return `transformed`. The unfinished-filtering comment on line 57 and the field list on line 52 say so. | high; not executed | `ShopModel.TransformAsWritten`, `ShopModel.AsWrittenExposesPrivateFields` | `ShopModel.Transform` (with `ShopModel.ProjectionRestrictsDocument`); every handler projects through it |

## Left out

- `mongoose.Types.ObjectId.isValid` and Joi's `.email()` grammar are parameters. The model does not define them.
- ShopModel.Get: `findById` casts the id to an ObjectId before it compares, so a path id whose hexadecimal digits differ in case from the stored id still finds the shop. The cast is the parameter `castId`, which the model does not define.
- ShopController.ShopStore.Get: responds with the corrected projection; as written the handler sends the whole document (see Findings).
- ShopController.ShopStore.Create: responds with the corrected projection; as written the handler sends the whole document (see Findings).
- ShopController.ShopStore.Replace: responds with the corrected projection; as written the handler sends the whole document (see Findings).
- ShopController.ShopStore.Update: responds with the corrected projection; as written the handler sends the whole document (see Findings).
- ShopController.ShopStore.List: responds with the corrected projections; as written the handler sends the whole documents (see Findings).
- ShopModel.Document: the version key `__v` and the `_id` path under its own name are not modelled; `id` stands for both.
- Authorization (`authorize(ADMIN)`), routing and the error middleware are left out. The statuses of validation and duplicate-key errors are set by the error middleware, which is not part of this model. Only the 404 of `Shop.get` is stated.
- How `req.locals.shop` gets resolved is left out. The route file's param hook (src/api/routes/v1/shop.route.js:14-20) sets only `req.shopId`. `replace`, `update` and `remove` therefore take the resolved `target` as a precondition.
- `req.shopId` is taken to be the raw path parameter.
- Promises, `next(error)` propagation, storage failures and concurrent requests are left out. Each handler runs alone, and ends with one response or one passed-on error.
- `upsert` on replace is left out (the target is already stored). So are the 2d geospatial index and any arithmetic on coordinates. `loc` is a sequence of reals that nothing computes with.
- Only ASCII letters are lower-cased. Non-ASCII case mapping is left out.
- String lengths count Unicode scalar values. JavaScript counts UTF-16 code units, so the two differ for characters outside the Basic Multilingual Plane.
- Joi's number coercion is left out, and so are non-integer `page`/`perPage` values: both are integers here. Body keys other than the schema paths and `role` (an `_id` or timestamps sent in a body, for example) are not modelled either.
- The list filter compares query values as given. Whether the driver runs the schema's setters on query values depends on the Mongoose version, which this model does not fix.
- Mongoose validates the modified and the required paths. The model validates every path. The two differ only when a stored shop's `name` is already over 128 characters.
- ShopModel.SortByCreatedAt: the store does not fix the order of shops with equal `createdAt`. The model keeps the collection's order for them. No lemma depends on that choice.
- ShopModel.ReplaceKeepsIdentity: the replace passes the option `override`, which is not Mongoose's `overwrite`. So whether fields missing from the body are cleared is open, and it is the parameter `clears`. This lemma and ShopController.ShopStore.Replace state only the id and the written fields. `createdAt` is kept, and `updatedAt` becomes `now`.
- ShopModel.SaveExisting: `updatedAt` moves only when a path's value changes. Mongoose's modified-path tracking is not modelled beyond that comparison.
- The apidoc of the list route gives `perPage=1` as the default (src/api/routes/v1/shop.route.js:35). The code's default is 100 (src/api/models/shop.model.js:99), and the model follows the code.
