# eKapor marketplace server — a Dafny model

This project models the request handling of the eKapor second-hand clothing
marketplace server (`index.js`). It covers:

- the bearer-token middleware `verifyJWT`;
- token issuance (`POST /jwt`);
- every route handler over the three collections: categories, users and
  products.

The model is split into six modules:

- `Collections` holds the document-store primitives the handlers use, as
  operations on a sequence kept in natural order:
  - `find` with a filter, and `Array.prototype.filter`;
  - `findOne`, which returns the first match;
  - `deleteOne`;
  - `updateOne` with `upsert: true`.
- `Records` holds the documents, the `$set` bodies, the decoded token payload
  and the three ways a handler can end:
  - `Sent`, a 200 with a payload;
  - `Denied`, a 401 or 403 with `{message: "unauthorized access"}`;
  - `Threw`, an exception inside the handler, after which no response is
    sent.
- `Auth` holds `verifyJWT`, including the `split(' ')[1]` token extraction.
  `jwt.verify` and `jwt.sign` are oracle parameters.
- `Listings` holds the `$lookup` join that attaches `seller_details` to each
  product, and the filters the listing routes apply.
- `Updates` holds the role gate, the idempotent user registration and the
  upserts, all as functions of the collections, with lemmas about them.
- `Market` holds `class Store`, whose fields are the three collections. Each
  route handler is one method, and `Serve` runs `verifyJWT` ahead of a
  handler.

The properties proved are:

- **`verifyJWT` decides access.** A missing header, a header with no second
  word, an empty token and a token the verifier refuses are all rejected
  with 401. An accepted token carries exactly the verifier's payload. The
  scheme word is never inspected.
- **Registration is idempotent by email.** Registering a second time with
  the same email changes nothing, and registration never creates a second
  user for an email.
- **A refusal or a throw never changes the store.** The role routes refuse
  with 401 at `/sellers`, `/buyers` and `/my-products`, and with 403
  elsewhere. A caller with no user record makes the handler throw.
- **The listing filters select exactly the right products.**
  - The category and advertised listings never contain a booked product.
  - `/my-orders` lists exactly the caller's bookings, and throws when a
    booked product has no booking record.
  - The join gives an empty `seller_details`, never an error, when a
    product's seller has no user record.
- **Deletes and upserts are local.**
  - A delete removes at most one document, and no other document changes.
  - An upsert changes only the first matching document, or appends one.
- **Some findings about the design.**
  - `/product-booked` has no role check.
  - `/jwt` signs any identity it is given.
  - A caller can register themselves as admin and then pass the admin gate.

## Model

| member | source | states |
|---|---|---|
| `Collections.Filter` | index.js:103 | the result holds exactly the elements satisfying the predicate, in store order, each as often as in the input |
| `Collections.SelectionUnique` | index.js:103 | that characterisation of a filter determines its result uniquely |
| `Collections.FirstIndex` | index.js:69 | the reported position carries the key and no earlier position does; None exactly when no position carries it |
| `Collections.FindOne` | index.js:82 | `findOne` finds a document exactly when one has the key; what it finds has the key and is the first such document in natural order |
| `Collections.KeyCountZero` | index.js:69-70 | no document has the key exactly when `findOne` finds nothing |
| `Collections.DistinctKeyCount` | index.js:216 | with distinct keys a key occurs at most once |
| `Collections.DeleteOne` | index.js:187 | `deleteOne` removes exactly the first document with the key when there is one, and nothing otherwise; every document before it and after it stays in place |
| `Collections.DeleteOneMultiset` | index.js:187 | the deletion takes out one occurrence of that first document and nothing else: every other document keeps its multiplicity, order is kept, and no new document appears |
| `Collections.DeleteOneKeepsDistinct` | index.js:217 | deleting keeps distinct keys distinct |
| `Collections.Upsert` | index.js:172 | upsert appends the inserted document when nothing matches, else replaces only the first match by its update |
| `Records.ApplyUserPatch` | index.js:169-172 | each field the `$set` body carries overwrites the stored one, absent fields keep their value, and `_id` and `uid` never change |
| `Records.ApplyProductPatch` | index.js:248-251 | each field the `$set` body carries overwrites the stored one, absent fields keep their value, and `_id` never changes |
| `Auth.Split` | index.js:21 | `split(' ')` yields at least one piece, pieces hold no space, and joining them with spaces gives back the header |
| `Auth.SplitJoin` | index.js:21 | splitting undoes joining space-free words |
| `Auth.TokenIsSecondWord` | index.js:21 | the token is the second word whatever the first word is, and later words are ignored |
| `Auth.BearerToken` | index.js:21 | a token exists exactly when the header holds a space; it is then the longest space-free run right after the first space |
| `Auth.VerifyJWT` | index.js:16-29 | a missing or empty header, a header with no second word, and an empty token are rejected; otherwise the request is admitted exactly when the verifier accepts the token, with the verifier's payload |
| `Auth.AnyIdentityAdmitted` | index.js:37-41 | a token `/jwt` issues for any payload, sent as `Bearer <token>`, is admitted with that payload |
| `Auth.IssueToken` | index.js:37-41 | `/jwt` sends back `sign(payload)` for the posted payload, with no check; under any verifier that accepts the signer's tokens, the returned token sent as `Bearer <token>` is admitted with exactly that payload |
| `Listings.SellerDetails` | index.js:93-102 | `seller_details` is the selection of the users whose uid is the product's seller id: in order, each with its multiplicity, and empty exactly when there is none |
| `Listings.JoinSellers` | index.js:93-102 | the join keeps every product, in order, one entry each |
| `Listings.JoinMembers` | index.js:93-102 | an entry is in the join exactly when its product is stored and it carries that product's seller details |
| `Listings.CategoryListing` | index.js:91-105 | the selection of the joined list by "in the category and not booked": those entries, in store order, each as often as in the join |
| `Listings.OrdersListing` | index.js:107-128 | the selection of the joined list by "booked by the caller": those entries, in store order, each as often as in the join |
| `Listings.AdvertisedListing` | index.js:259-272 | the selection of the joined list by "advertised and not booked": those entries, in store order, each as often as in the join |
| `Listings.UsersWithRole` | index.js:135-137 | `find({role})` selects exactly the users with the role |
| `Listings.ProductsOfSeller` | index.js:291-293 | `find({product_sellerID})` selects exactly the caller's products |
| `Listings.CategoriesWithId` | index.js:44-49 | selects exactly the categories with the id, at most one when ids are distinct |
| `Updates.CheckRole` | index.js:130-143 | the gate crashes exactly when no user has the caller's uid, and passes exactly when the first such user has the role |
| `Updates.FirstRecordDecides` | index.js:133 | only the first record with the caller's uid decides the gate; later records do not |
| `Updates.RegisterUser` | index.js:66-77 | an unknown email appends the body as sent under the fresh id; a known email leaves the users as they are; so an unknown email gets exactly one user and other emails are untouched |
| `Updates.RegisterUserIdempotent` | index.js:66-77 | registering again with the same email, whatever the other fields, changes nothing |
| `Updates.RegisterUserKeepsEmailsUnique` | index.js:66-77 | when every email occurs at most once, it still does after registration |
| `Updates.SelfRegisteredAdminPasses` | index.js:66-77 | a body with a new email, a new uid and role admin makes the admin gate pass for that uid |
| `Updates.UpsertUser` | index.js:160-178 | the upsert by uid patches only the first record carrying the uid, or appends a new record with that uid when there is none; every other record stays where it was |
| `Updates.UpsertUserFinds` | index.js:167-172 | after the upsert, looking the uid up finds the patched record, or the inserted one; the collection grows only on insert |
| `Updates.UpsertProduct` | index.js:239-257 | the upsert by `_id` patches only the first product with that id, or appends a product with that id when there is none; every other product stays where it was |
| `Updates.UpsertProductFinds` | index.js:277-282 | after the upsert, looking the id up finds the patched product, or the inserted one; the collection grows only on insert |
| `Updates.UpsertProductKeepsIds` | index.js:251 | an upsert by `_id` keeps product ids distinct |
| `Updates.InsertProductKeepsIds` | index.js:231 | inserting under a fresh id keeps product ids distinct |
| `Updates.DeleteProductKeepsIds` | index.js:210-223 | deleting by `_id` keeps ids distinct and leaves no product with that id |
| `Updates.BookedProductLeavesListings` | index.js:274-284 | once booked, a product appears in neither the category nor the advertised listing |
| `Market.RequiredRole` | index.js:134-290 | only routes behind `verifyJWT` are role-checked, always for admin or seller; `/create-user`, `/my-orders` and `/product-booked` have no role check |
| `Market.DenialStatus` | index.js:141-297 | a role refusal is 401 or 403; on a role-checked route it is 401 exactly at `/sellers`, `/buyers` and `/my-products` |
| `Market.Authenticated` | index.js:37-286 | `verifyJWT` is registered on every route except `/jwt`, `/categories`, `/categories-name` and `/advertise-product`, so every route that writes is behind it |
| `Market.UserUpdateAck` | index.js:172-173 | the `updateOne` reply with `upsert`: matched 1 exactly when a user has the uid, modified 1 exactly when that user is changed by the patch, and the fresh id as upserted id exactly when nothing matched |
| `Market.ProductUpdateAck` | index.js:248-283 | the same reply for a product `updateOne` with `upsert`; the upserted id is the requested id exactly when no product has it |
| `Market.Granted` | index.js:66-299 | a handler that is reached never refuses; on a role-checked route it always sends; a throw or a GET leaves the store unchanged, and no handler touches the categories |
| `Market.GrantedOpen` | index.js:66-284 | `/create-user`, `/users`, `/products/:productCategory`, `/my-orders` and `/product-booked`: never refuse, a throw or GET changes nothing, categories untouched |
| `Market.GrantedAdmin` | index.js:130-208 | the admin handlers always send, GETs change nothing, and only the users and the id counter change; the counter moves only when `/verify-seller` inserts a user |
| `Market.GrantedSeller` | index.js:210-299 | the seller handlers always send, GETs change nothing, and only the products and the id counter change |
| `Market.Step` | index.js:130-299 | a refusal, throw or GET leaves the store unchanged; on a role-checked route the role check throws, refuses with the route's status, or passes to the handler, each exactly in its own case |
| `Market.Store.constructor` | index.js:33-35 | a store opens over the collections as the database holds them (distinct category and product ids), and the next id handed out is one past the largest product id |
| `Updates.IdBound` | index.js:33-35 | one past the largest product `_id`: every product id is below it, and it is the least such bound |
| `Market.Store.Categories` | index.js:43-57 | with no id, all categories; with one, exactly the categories with that id (the `CategoriesWithId` selection), at most one |
| `Market.Store.CategoryNames` | index.js:59-64 | sends `NameProjection` of the categories: each category projected to its `_id` and name, in order |
| `Listings.NameProjection` | index.js:59-64 | one entry per category, in order, carrying exactly that category's `_id` and name |
| `Market.Store.CreateUser` | index.js:66-77 | returns the stored user for the email, or inserts the body and returns the new id; the users become `RegisterUser` of the old users |
| `Market.Store.CurrentUser` | index.js:79-89 | returns the first user with the caller's uid, or `[]` when there is none |
| `Market.Store.ProductsInCategory` | index.js:91-105 | sends the category listing; no listed product is booked |
| `Market.Store.MyOrders` | index.js:107-128 | `[]` for an unknown caller; otherwise throws exactly when a booked product lacks its booking record, and else sends the caller's bookings |
| `Market.Store.Sellers` | index.js:130-143 | throws for an unknown caller, 401 for a non-admin, and otherwise sends the sellers |
| `Market.Store.Buyers` | index.js:145-158 | throws for an unknown caller, 401 for a non-admin, and otherwise sends the buyers |
| `Market.Store.VerifySeller` | index.js:160-178 | throws for an unknown caller and gives 403 for a non-admin, changing nothing; an admin upserts the user with that uid, and a fresh id is used up only when a user is inserted |
| `Market.Store.DeleteUser` | index.js:180-208 | throws for an unknown caller and gives 403 for a non-admin, changing nothing; an admin deletes the first user with that uid, whatever its role, and gets back the count |
| `Market.Store.DeleteProduct` | index.js:210-223 | throws for an unknown caller and gives 403 for a non-seller, changing nothing; a seller deletes the product with that id, whoever owns it |
| `Market.Store.AddProduct` | index.js:225-237 | throws for an unknown caller and gives 403 for a non-seller, changing nothing; a seller inserts the body under a fresh id, naming any seller |
| `Market.Store.AdvertiseProduct` | index.js:239-257 | throws for an unknown caller and gives 403 for a non-seller, changing nothing; a seller upserts the product, whoever owns it, and the id counter is raised past the id |
| `Market.Store.AdvertisedProducts` | index.js:259-272 | sends the advertised listing; every listed product is advertised and unbooked |
| `Market.Store.BookProduct` | index.js:274-284 | any authenticated caller upserts the product, with no role check; the id counter is raised past the id |
| `Market.Store.UpsertProductById` | index.js:246-252 | replaces the products by their upsert and returns the update acknowledgement |
| `Market.Store.MyProducts` | index.js:286-299 | throws for an unknown caller, 401 for a non-seller, and otherwise sends the caller's products |
| `Market.Store.ServePublic` | index.js:37-272 | the routes without `verifyJWT` send exactly what `Public` gives for the current store, and change nothing |
| `Market.Public` | index.js:37-272 | what the four public routes send: the token signed for the posted payload (admitted by any matching verifier), all categories or exactly those with the queried id, each category's id and name in order, and an advertised listing in which every product is advertised and unbooked |
| `Market.Store.DispatchUngated` | index.js:66-284 | an authenticated route with no role check gives exactly the outcome and new store that `GrantedOpen` prescribes for its handler |
| `Market.Store.DispatchAdmin` | index.js:130-208 | an admin route gives exactly the outcome and new store of `Step`: the role check's throw or refusal, else the handler's reply and update |
| `Market.Store.DispatchSeller` | index.js:210-299 | a seller route gives exactly the outcome and new store of `Step`: the role check's throw or refusal, else the handler's reply and update |
| `Market.Store.Serve` | index.js:16-299 | a rejected token gives 401 before any handler runs; an accepted token gives exactly the outcome and new store of `Step` for the decoded payload; a public route sends exactly what `Public` gives for the store and changes nothing; GET routes, refusals and throws leave the store unchanged; each gated route refuses exactly on a failed role check, and only ever with its own status |

## Left out

- The Express application, CORS, JSON body parsing, the liveness route `/`
  and `listen` are not modelled. They hold no logic of the core.
- Signature checking and the two-hour expiry of `jwt.verify` and `jwt.sign`
  are not modelled. Both are oracle parameters (`Verifier`, `Signer`), and
  `Auth.VerifyJWT` treats an empty token as refused.
- `ObjectId` is not modelled. Ids are natural numbers, and an id string that
  does not parse (which throws in `ObjectId(...)`) is not represented. An
  empty `category_id` query string is falsy, so it counts as absent.
- `Market.Store.CreateUser`, `Market.Store.VerifySeller` and
  `Market.Store.AddProduct` do not model MongoDB's ObjectId generation. A
  counter, `nextId`, hands out fresh ids. The inserted body is stored under
  that id, so an `_id` the client puts in the body is dropped. `insertOne`
  would keep that `_id`, and would fail if it were already taken. User `_id`
  uniqueness is not tracked.
- Cursors, `toArray` and the aggregation engine are modelled as sequence
  filters and a join over the stored order.
- `$set` is modelled only for some fields. For users these are email and
  role, which the handlers read, and verified, which `/verify-seller` bodies
  write. For products they are the fields the handlers read: seller,
  category, advertised, booked and booking. Other fields, and bodies that set `_id` or `uid`, are not
  modelled. A field a document lacks reads as `""`, `false` or None.
- JavaScript loose equality (`==`) and truthiness are modelled as string and
  boolean equality on typed fields.
- A token whose payload has no `uid` is not modelled. `Claims` always
  carries a uid.
- Concurrency is not modelled. Each `Serve` call runs alone, so the race
  between two bookings of one product is outside the model.
- Driver errors on insert, update and delete are not modelled. Neither are
  the unhandled rejections and hanging responses they cause.
- `Market.Store.DeleteUser` and `Market.Store.DeleteProduct` return the
  driver's acknowledgement only as its `deletedCount`.
- `Market.Store.CreateUser` returns the insert acknowledgement only as its
  `insertedId`.
- Updates return the acknowledgement as matched count, modified count and
  upserted id.
