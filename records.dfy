/**
 * The documents of the three collections (categories, users, products), the
 * `$set` bodies the update routes accept, the decoded token payload and the
 * outcomes a route handler can produce.
 *
 * Documents are loosely typed in the store; here every field the handlers
 * read is a typed field, and a field a document lacks is its empty default
 * ("" for text, false for a flag, None for the booking record).
 */
module Records {
  import opened Collections

  /** A store document identifier (`_id`). */
  type DocId = nat

  /** The decoded bearer-token payload; `uid` is the auth provider's subject id. */
  datatype Claims = Claims(uid: string)

  datatype Category = Category(id: DocId, name: string, image: string)

  /** A category projected to `{category_name: 1}` (the `_id` is always kept). */
  datatype CategoryName = CategoryName(id: DocId, name: string)

  datatype User = User(id: DocId, uid: string, email: string, role: string, verified: bool)

  /** `bookedData`: who booked the product. */
  datatype Booking = Booking(userId: string)

  datatype Product = Product(
    id: DocId,
    sellerId: string,        // product_sellerID, a user's uid
    category: string,        // product_category
    isAdvertised: bool,
    isBooked: bool,
    booking: Option<Booking> // bookedData
  )

  /** A product with the `seller_details` array the `$lookup` stage attaches. */
  datatype Joined = Joined(product: Product, sellerDetails: seq<User>)

  const Admin := "admin"
  const Seller := "seller"
  const Buyer := "buyer"

  /** The one message every refusal carries. */
  const UnauthorizedMessage := "unauthorized access"

  /** A `{$set: body}` on a user document: each present field overwrites. */
  datatype UserPatch = UserPatch(email: Option<string>, role: Option<string>, verified: Option<bool>)

  /** A `{$set: body}` on a product document: each present field overwrites. */
  datatype ProductPatch = ProductPatch(
    sellerId: Option<string>,
    category: Option<string>,
    isAdvertised: Option<bool>,
    isBooked: Option<bool>,
    booking: Option<Booking>
  )

  function Override<T>(current: T, given: Option<T>): T
  {
    match given
    case None => current
    case Some(v) => v
  }

  function ApplyUserPatch(u: User, patch: UserPatch): (r: User)
    ensures r.id == u.id && r.uid == u.uid
    ensures patch.email.Some? ==> r.email == patch.email.value
    ensures patch.email.None? ==> r.email == u.email
    ensures patch.role.Some? ==> r.role == patch.role.value
    ensures patch.role.None? ==> r.role == u.role
    ensures patch.verified.Some? ==> r.verified == patch.verified.value
    ensures patch.verified.None? ==> r.verified == u.verified
  {
    u.(email := Override(u.email, patch.email),
       role := Override(u.role, patch.role),
       verified := Override(u.verified, patch.verified))
  }

  function ApplyProductPatch(p: Product, patch: ProductPatch): (r: Product)
    ensures r.id == p.id
    ensures patch.sellerId.Some? ==> r.sellerId == patch.sellerId.value
    ensures patch.sellerId.None? ==> r.sellerId == p.sellerId
    ensures patch.category.Some? ==> r.category == patch.category.value
    ensures patch.category.None? ==> r.category == p.category
    ensures patch.isAdvertised.Some? ==> r.isAdvertised == patch.isAdvertised.value
    ensures patch.isAdvertised.None? ==> r.isAdvertised == p.isAdvertised
    ensures patch.isBooked.Some? ==> r.isBooked == patch.isBooked.value
    ensures patch.isBooked.None? ==> r.isBooked == p.isBooked
    ensures r.booking == if patch.booking.Some? then patch.booking else p.booking
  {
    p.(sellerId := Override(p.sellerId, patch.sellerId),
       category := Override(p.category, patch.category),
       isAdvertised := Override(p.isAdvertised, patch.isAdvertised),
       isBooked := Override(p.isBooked, patch.isBooked),
       booking := if patch.booking.Some? then patch.booking else p.booking)
  }

  // Keys the handlers look documents up by.
  function UidOf(u: User): string { u.uid }
  function EmailOf(u: User): string { u.email }
  function ProductIdOf(p: Product): DocId { p.id }
  function CategoryIdOf(c: Category): DocId { c.id }

  /** What a successful handler sends (status 200). */
  datatype Body =
    | TokenBody(token: string)
    | CategoryDocs(categories: seq<Category>)
    | CategoryNameDocs(names: seq<CategoryName>)
    | UserDoc(user: User)
    | UserDocs(users: seq<User>)
    | ProductDocs(products: seq<Product>)
    | JoinedDocs(items: seq<Joined>)
    | InsertAck(insertedId: DocId)
    | UpdateAck(matchedCount: nat, modifiedCount: nat, upsertedId: Option<DocId>)
    | DeleteAck(deletedCount: nat)

  datatype Outcome =
    | Sent(body: Body)                       // 200 with a payload
    | Denied(status: nat, message: string)   // 401 or 403, {message: ...}
    | Threw                                  // the handler threw; no response is sent
}
