/**
 * The server: a store holding the three collections, one method per route
 * handler, and `Serve`, which runs `verifyJWT` in front of the routes that
 * register it and then the handler.
 */
module Market {
  import opened Collections
  import opened Records
  import opened Auth
  import opened Listings
  import opened Updates

  /** Every route the server registers (the liveness route `/` aside). */
  datatype Route =
    | PostJwt(payload: Claims)                              // POST   /jwt
    | GetCategories(categoryId: Option<DocId>)              // GET    /categories[?category_id=]
    | GetCategoriesName                                     // GET    /categories-name
    | PostCreateUser(user: User)                            // POST   /create-user
    | GetUsers                                              // GET    /users
    | GetProducts(category: string)                         // GET    /products/:productCategory
    | GetMyOrders                                           // GET    /my-orders
    | GetSellers                                            // GET    /sellers
    | GetBuyers                                             // GET    /buyers
    | PatchVerifySeller(uid: string, userPatch: UserPatch)  // PATCH  /verify-seller/:id
    | DeleteSellers(uid: string)                            // DELETE /sellers/:id
    | DeleteBuyers(uid: string)                             // DELETE /buyers/:id
    | DeleteProductById(id: DocId)                          // DELETE /product/:id
    | PostAddProduct(product: Product)                      // POST   /add-product
    | PatchAdvertise(id: DocId, productPatch: ProductPatch) // PATCH  /peoduct-advertise/:id
    | GetAdvertiseProduct                                   // GET    /advertise-product
    | PatchProductBooked(id: DocId, productPatch: ProductPatch) // PATCH /product-booked/:id
    | GetMyProducts                                         // GET    /my-products

  /** The GET routes. */
  predicate IsRead(route: Route)
  {
    || route.GetCategories? || route.GetCategoriesName? || route.GetUsers? || route.GetProducts?
    || route.GetMyOrders? || route.GetSellers? || route.GetBuyers? || route.GetAdvertiseProduct?
    || route.GetMyProducts?
  }

  /**
   * The routes registered with `verifyJWT`: every route except `/jwt`,
   * `/categories`, `/categories-name` and `/advertise-product`.  The first
   * clause only lists those four; the second is the property: every route
   * that writes to a collection is among the authenticated ones.
   */
  predicate Authenticated(route: Route): (b: bool)
    ensures !b <==> route.PostJwt? || route.GetCategories? || route.GetCategoriesName? || route.GetAdvertiseProduct?
    ensures !IsRead(route) && !route.PostJwt? ==> b
  {
    !(route.PostJwt? || route.GetCategories? || route.GetCategoriesName? || route.GetAdvertiseProduct?)
  }

  /** The stored role a route demands of its caller, if any. */
  function RequiredRole(route: Route): (r: Option<string>)
    ensures r.Some? ==> Authenticated(route)
    ensures r.Some? ==> r.value == Admin || r.value == Seller
    ensures route.PatchProductBooked? || route.PostCreateUser? || route.GetMyOrders? ==> r.None?
  {
    match route
    case GetSellers | GetBuyers | PatchVerifySeller(_, _) | DeleteSellers(_) | DeleteBuyers(_) => Some(Admin)
    case DeleteProductById(_) | PostAddProduct(_) | PatchAdvertise(_, _) | GetMyProducts => Some(Seller)
    case _ => None
  }

  /** The status of a role refusal on each gated route, exactly as each handler writes it. */
  function DenialStatus(route: Route): (status: nat)
    ensures status == 401 || status == 403
    ensures RequiredRole(route).Some? ==>
      (status == 401 <==> route.GetSellers? || route.GetBuyers? || route.GetMyProducts?)
  {
    match route
    case GetSellers | GetBuyers | GetMyProducts => 401
    case PatchVerifySeller(_, _) | DeleteSellers(_) | DeleteBuyers(_)
       | DeleteProductById(_) | PostAddProduct(_) | PatchAdvertise(_, _) => 403
    case _ => 401
  }

  /**
   * The acknowledgement `updateOne` with `upsert: true` returns for a user:
   * one match when a user has the uid, a modification only when the patch
   * changes that user, and the new `_id` only when a user was inserted.
   */
  function UserUpdateAck(users: seq<User>, uid: string, patch: UserPatch, freshId: DocId): (b: Body)
    ensures b.UpdateAck?
    ensures b.matchedCount == if exists u :: u in users && u.uid == uid then 1 else 0
    ensures b.modifiedCount == 1 <==> b.matchedCount == 1 && ApplyUserPatch(FindOne(users, UidOf, uid).value, patch) != FindOne(users, UidOf, uid).value
    ensures b.modifiedCount <= b.matchedCount
    ensures b.upsertedId == if b.matchedCount == 0 then Some(freshId) else None
  {
    match FindOne(users, UidOf, uid)
    case None => UpdateAck(0, 0, Some(freshId))
    case Some(u) => UpdateAck(1, if ApplyUserPatch(u, patch) == u then 0 else 1, None)
  }

  /**
   * The acknowledgement `updateOne` with `upsert: true` returns for a
   * product: one match when a product has the id, a modification only when
   * the patch changes it, and the queried id only when a product was inserted.
   */
  function ProductUpdateAck(products: seq<Product>, id: DocId, patch: ProductPatch): (b: Body)
    ensures b.UpdateAck?
    ensures b.matchedCount == if exists p :: p in products && p.id == id then 1 else 0
    ensures b.modifiedCount == 1 <==> b.matchedCount == 1 && ApplyProductPatch(FindOne(products, ProductIdOf, id).value, patch) != FindOne(products, ProductIdOf, id).value
    ensures b.modifiedCount <= b.matchedCount
    ensures b.upsertedId == if b.matchedCount == 0 then Some(id) else None
  {
    match FindOne(products, ProductIdOf, id)
    case None => UpdateAck(0, 0, Some(id))
    case Some(p) => UpdateAck(1, if ApplyProductPatch(p, patch) == p then 0 else 1, None)
  }

  /** The contents of the store at one moment. */
  datatype State = State(categories: seq<Category>, users: seq<User>, products: seq<Product>, nextId: nat)

  /**
   * What the handler of an authenticated route does once its caller has
   * been let through (token admitted and, where there is one, role check
   * passed): the reply it sends and the store it leaves, with the decoded
   * payload as the caller's identity.
   */
  function Granted(route: Route, decoded: Claims, s: State): (res: (Outcome, State))
    requires Authenticated(route)
    ensures !res.0.Denied?
    ensures RequiredRole(route).Some? ==> res.0.Sent?
    ensures res.0.Threw? || IsRead(route) ==> res.1 == s
    ensures res.1.categories == s.categories
  {
    match RequiredRole(route)
    case None => GrantedOpen(route, decoded, s)
    case Some(role) => if role == Admin then GrantedAdmin(route, s) else GrantedSeller(route, decoded, s)
  }

  /** The authenticated routes without a role check. */
  function GrantedOpen(route: Route, decoded: Claims, s: State): (res: (Outcome, State))
    requires Authenticated(route) && RequiredRole(route).None?
    ensures !res.0.Denied?
    ensures res.0.Threw? || IsRead(route) ==> res.1 == s
    ensures res.1.categories == s.categories
  {
    match route
    case PostCreateUser(body) =>
      var found := FindOne(s.users, EmailOf, body.email);
      (if found.Some? then Sent(UserDoc(found.value)) else Sent(InsertAck(s.nextId)),
       s.(users := RegisterUser(s.users, body, s.nextId), nextId := if found.Some? then s.nextId else s.nextId + 1))
    case GetUsers =>
      (match FindOne(s.users, UidOf, decoded.uid)
       case Some(u) => Sent(UserDoc(u))
       case None => Sent(UserDocs([])), s)
    case GetProducts(category) =>
      (Sent(JoinedDocs(CategoryListing(s.products, s.users, category))), s)
    case GetMyOrders =>
      (if FindOne(s.users, UidOf, decoded.uid).None? then Sent(JoinedDocs([]))
       else if exists p :: p in s.products && BookingRecordMissing(p) then Threw
       else Sent(JoinedDocs(OrdersListing(s.products, s.users, decoded.uid))), s)
    case PatchProductBooked(id, patch) =>
      (Sent(ProductUpdateAck(s.products, id, patch)),
       s.(products := UpsertProduct(s.products, id, patch), nextId := if s.nextId <= id then id + 1 else s.nextId))
  }

  /** The admin routes once the admin check passed. */
  function GrantedAdmin(route: Route, s: State): (res: (Outcome, State))
    requires RequiredRole(route) == Some(Admin)
    ensures res.0.Sent?
    ensures IsRead(route) ==> res.1 == s
    ensures res.1.categories == s.categories && res.1.products == s.products
  {
    match route
    case GetSellers =>
      (Sent(UserDocs(UsersWithRole(s.users, Seller))), s)
    case GetBuyers =>
      (Sent(UserDocs(UsersWithRole(s.users, Buyer))), s)
    case PatchVerifySeller(uid, patch) =>
      (Sent(UserUpdateAck(s.users, uid, patch, s.nextId)),
       s.(users := UpsertUser(s.users, uid, patch, s.nextId),
          nextId := if FirstIndex(s.users, UidOf, uid).None? then s.nextId + 1 else s.nextId))
    case DeleteSellers(uid) =>
      var after := DeleteOne(s.users, UidOf, uid);
      (Sent(DeleteAck(|s.users| - |after|)), s.(users := after))
    case DeleteBuyers(uid) =>
      var after := DeleteOne(s.users, UidOf, uid);
      (Sent(DeleteAck(|s.users| - |after|)), s.(users := after))
  }

  /** The seller routes once the seller check passed. */
  function GrantedSeller(route: Route, decoded: Claims, s: State): (res: (Outcome, State))
    requires RequiredRole(route) == Some(Seller)
    ensures res.0.Sent?
    ensures IsRead(route) ==> res.1 == s
    ensures res.1.categories == s.categories && res.1.users == s.users
  {
    match route
    case DeleteProductById(id) =>
      var after := DeleteOne(s.products, ProductIdOf, id);
      (Sent(DeleteAck(|s.products| - |after|)), s.(products := after))
    case PostAddProduct(body) =>
      (Sent(InsertAck(s.nextId)), s.(products := s.products + [body.(id := s.nextId)], nextId := s.nextId + 1))
    case PatchAdvertise(id, patch) =>
      (Sent(ProductUpdateAck(s.products, id, patch)),
       s.(products := UpsertProduct(s.products, id, patch), nextId := if s.nextId <= id then id + 1 else s.nextId))
    case GetMyProducts =>
      (Sent(ProductDocs(ProductsOfSeller(s.products, decoded.uid))), s)
  }

  /**
   * An authenticated route once the token was admitted: the role check
   * first, where the route has one, then the handler with the decoded
   * payload.  A crash or a refusal leaves the store as it was, and so does
   * every GET route.
   */
  function Step(route: Route, decoded: Claims, s: State): (res: (Outcome, State))
    requires Authenticated(route)
    ensures res.0.Denied? || res.0.Threw? || IsRead(route) ==> res.1 == s
    ensures res.1.categories == s.categories
    ensures RequiredRole(route).None? ==> res == Granted(route, decoded, s)
    ensures RequiredRole(route).Some? ==>
      && (CheckRole(s.users, decoded.uid, RequiredRole(route).value) == Crash <==> res.0 == Threw)
      && (CheckRole(s.users, decoded.uid, RequiredRole(route).value) == Fail <==>
            res.0 == Denied(DenialStatus(route), UnauthorizedMessage))
      && (CheckRole(s.users, decoded.uid, RequiredRole(route).value) == Pass <==> res == Granted(route, decoded, s))
      && (res.0.Denied? ==> res.0 == Denied(DenialStatus(route), UnauthorizedMessage))
  {
    match RequiredRole(route)
    case None => Granted(route, decoded, s)
    case Some(role) =>
      match CheckRole(s.users, decoded.uid, role)
      case Crash => (Threw, s)
      case Fail => (Denied(DenialStatus(route), UnauthorizedMessage), s)
      case Pass => Granted(route, decoded, s)
  }

  /**
   * What the routes without `verifyJWT` send: the signed token, the
   * categories (all of them or those with the queried `_id`), their names,
   * and the advertised listing.  None of them writes to the store.
   */
  function Public(route: Route, sign: Signer, s: State): (o: Outcome)
    requires !Authenticated(route)
    ensures o.Sent?
    ensures route.PostJwt? ==>
      && o.body.TokenBody?
      && forall verify :: SignerMatches(verify, sign, route.payload) ==>
           VerifyJWT(Some("Bearer " + o.body.token), verify) == Admitted(route.payload)
    ensures route.GetCategories? && route.categoryId.None? ==> o.body == CategoryDocs(s.categories)
    ensures route.GetCategories? && route.categoryId.Some? ==>
      && o.body.CategoryDocs?
      && forall c :: c in o.body.categories <==> c in s.categories && c.id == route.categoryId.value
    ensures route.GetCategoriesName? ==>
      && o.body.CategoryNameDocs? && |o.body.names| == |s.categories|
      && forall i :: 0 <= i < |s.categories| ==>
           o.body.names[i].id == s.categories[i].id && o.body.names[i].name == s.categories[i].name
    ensures route.GetAdvertiseProduct? ==>
      && o.body.JoinedDocs?
      && forall j :: j in o.body.items ==> j.product.isAdvertised && !j.product.isBooked
  {
    match route
    case PostJwt(payload) => Sent(IssueToken(payload, sign))
    case GetCategories(None) => Sent(CategoryDocs(s.categories))
    case GetCategories(Some(id)) => Sent(CategoryDocs(CategoriesWithId(s.categories, id)))
    case GetCategoriesName => Sent(CategoryNameDocs(NameProjection(s.categories)))
    case GetAdvertiseProduct => Sent(JoinedDocs(AdvertisedListing(s.products, s.users)))
  }

  /** On a role-checked route, `Step` is the role check followed by that role's handlers. */
  lemma GatedStep(route: Route, decoded: Claims, s: State)
    requires RequiredRole(route).Some?
    ensures Step(route, decoded, s) == match CheckRole(s.users, decoded.uid, RequiredRole(route).value)
      case Crash => (Threw, s)
      case Fail => (Denied(DenialStatus(route), UnauthorizedMessage), s)
      case Pass =>
        if RequiredRole(route).value == Admin then GrantedAdmin(route, s) else GrantedSeller(route, decoded, s)
  {
  }

  class Store {
    var categories: seq<Category>
    var users: seq<User>
    var products: seq<Product>
    /** The next `_id` the store hands out to an inserted document. */
    var nextId: nat

    /** Category and product ids are distinct, and product ids are below `nextId`. */
    ghost predicate Valid()
      reads this
    {
      && KeysDistinct(categories, CategoryIdOf)
      && KeysDistinct(products, ProductIdOf)
      && IdsBelow(products, nextId)
    }

    /** The current contents of the store. */
    function Snapshot(): State
      reads this
    {
      State(categories, users, products, nextId)
    }

    /**
     * A store over the collections as the database already holds them; the
     * next `_id` handed out is one past the largest product id.
     */
    constructor (categories: seq<Category>, users: seq<User>, products: seq<Product>)
      requires KeysDistinct(categories, CategoryIdOf) && KeysDistinct(products, ProductIdOf)
      ensures Valid()
      ensures this.categories == categories && this.users == users && this.products == products
      ensures nextId == IdBound(products)
    {
      this.categories := categories;
      this.users := users;
      this.products := products;
      nextId := IdBound(products);
    }

    /** `GET /categories`: all categories, or those with the given `_id`. */
    method Categories(categoryId: Option<DocId>) returns (o: Outcome)
      requires Valid()
      ensures o.Sent? && o.body.CategoryDocs?
      ensures o.body.categories == match categoryId
        case None => categories
        case Some(id) => CategoriesWithId(categories, id)
      ensures categoryId.None? ==> o.body.categories == categories
      ensures categoryId.Some? ==> |o.body.categories| <= 1
      ensures categoryId.Some? ==>
        forall c :: c in o.body.categories <==> c in categories && c.id == categoryId.value
    {
      match categoryId
      case None =>
        o := Sent(CategoryDocs(categories));
      case Some(id) =>
        o := Sent(CategoryDocs(CategoriesWithId(categories, id)));
    }

    /** `GET /categories-name`: every category projected to its `_id` and name. */
    method CategoryNames() returns (o: Outcome)
      ensures o == Sent(CategoryNameDocs(NameProjection(categories)))
      ensures o.Sent? && o.body.CategoryNameDocs? && |o.body.names| == |categories|
      ensures forall i :: 0 <= i < |categories| ==>
        o.body.names[i].id == categories[i].id && o.body.names[i].name == categories[i].name
    {
      o := Sent(CategoryNameDocs(NameProjection(categories)));
    }

    /**
     * `POST /create-user`: returns the stored user with the body's email if
     * there is one, and otherwise inserts the body.  The caller's identity
     * plays no part.
     */
    method CreateUser(body: User) returns (o: Outcome)
      requires Valid()
      modifies this
      ensures Valid()
      ensures categories == old(categories) && products == old(products)
      ensures users == RegisterUser(old(users), body, old(nextId))
      ensures match FindOne(old(users), EmailOf, body.email)
        case Some(existing) => o == Sent(UserDoc(existing)) && nextId == old(nextId)
        case None => o == Sent(InsertAck(old(nextId))) && nextId == old(nextId) + 1
    {
      var already := FindOne(users, EmailOf, body.email);
      if already.None? {
        users := users + [body.(id := nextId)];
        o := Sent(InsertAck(nextId));
        nextId := nextId + 1;
      } else {
        o := Sent(UserDoc(already.value));
      }
    }

    /** `GET /users`: the caller's own record, or `[]` when there is none. */
    method CurrentUser(decoded: Claims) returns (o: Outcome)
      ensures o.Sent?
      ensures o.body.UserDoc? ==>
        exists i :: 0 <= i < |users| && users[i] == o.body.user && users[i].uid == decoded.uid
                    && forall j :: 0 <= j < i ==> users[j].uid != decoded.uid
      ensures !o.body.UserDoc? ==> o.body == UserDocs([]) && forall u :: u in users ==> u.uid != decoded.uid
    {
      match FindOne(users, UidOf, decoded.uid)
      case Some(u) =>
        o := Sent(UserDoc(u));
      case None =>
        o := Sent(UserDocs([]));
    }

    /** `GET /products/:productCategory`: the category's unbooked products, joined with their sellers. */
    method ProductsInCategory(category: string) returns (o: Outcome)
      ensures o == Sent(JoinedDocs(CategoryListing(products, users, category)))
      ensures forall j :: j in o.body.items ==> !j.product.isBooked && j.product.category == category
    {
      o := Sent(JoinedDocs(CategoryListing(products, users, category)));
    }

    /**
     * `GET /my-orders`: `[]` when the caller has no user record; otherwise
     * the products the caller booked, joined with their sellers, unless a
     * booked product lacks its booking record, in which case the filter
     * throws.
     */
    method MyOrders(decoded: Claims) returns (o: Outcome)
      ensures o.Sent? || o.Threw?
      ensures FindOne(users, UidOf, decoded.uid).None? ==> o == Sent(JoinedDocs([]))
      ensures FindOne(users, UidOf, decoded.uid).Some? ==>
        (o == Threw <==> exists p :: p in products && BookingRecordMissing(p))
      ensures o.Sent? ==> o.body.JoinedDocs?
      ensures o.Sent? ==> forall j :: j in o.body.items ==>
        j.product in products && j.product.isBooked && j.product.booking == Some(Booking(decoded.uid))
      ensures o.Sent? && FindOne(users, UidOf, decoded.uid).Some? ==>
        o.body.items == OrdersListing(products, users, decoded.uid)
    {
      var user := FindOne(users, UidOf, decoded.uid);
      if user.Some? {
        if exists p :: p in products && BookingRecordMissing(p) {
          o := Threw;
        } else {
          o := Sent(JoinedDocs(OrdersListing(products, users, decoded.uid)));
        }
      } else {
        o := Sent(JoinedDocs([]));
      }
    }

    /** `GET /sellers`: admins only (401 otherwise); every user whose role is seller. */
    method Sellers(decoded: Claims) returns (o: Outcome)
      ensures match CheckRole(users, decoded.uid, Admin)
        case Crash => o == Threw
        case Fail => o == Denied(401, UnauthorizedMessage)
        case Pass => o == Sent(UserDocs(UsersWithRole(users, Seller)))
    {
      match CheckRole(users, decoded.uid, Admin)
      case Crash =>
        o := Threw;
      case Fail =>
        o := Denied(401, UnauthorizedMessage);
      case Pass =>
        o := Sent(UserDocs(UsersWithRole(users, Seller)));
    }

    /** `GET /buyers`: admins only (401 otherwise); every user whose role is buyer. */
    method Buyers(decoded: Claims) returns (o: Outcome)
      ensures match CheckRole(users, decoded.uid, Admin)
        case Crash => o == Threw
        case Fail => o == Denied(401, UnauthorizedMessage)
        case Pass => o == Sent(UserDocs(UsersWithRole(users, Buyer)))
    {
      match CheckRole(users, decoded.uid, Admin)
      case Crash =>
        o := Threw;
      case Fail =>
        o := Denied(401, UnauthorizedMessage);
      case Pass =>
        o := Sent(UserDocs(UsersWithRole(users, Buyer)));
    }

    /** `PATCH /verify-seller/:id`: admins only (403 otherwise); upserts the user with that uid. */
    method VerifySeller(decoded: Claims, uid: string, patch: UserPatch) returns (o: Outcome)
      requires Valid()
      modifies this
      ensures Valid()
      ensures categories == old(categories) && products == old(products)
      ensures match CheckRole(old(users), decoded.uid, Admin)
        case Crash => o == Threw && users == old(users) && nextId == old(nextId)
        case Fail => o == Denied(403, UnauthorizedMessage) && users == old(users) && nextId == old(nextId)
        case Pass =>
          && users == UpsertUser(old(users), uid, patch, old(nextId))
          && o == Sent(UserUpdateAck(old(users), uid, patch, old(nextId)))
          && nextId == if FirstIndex(old(users), UidOf, uid).None? then old(nextId) + 1 else old(nextId)
    {
      match CheckRole(users, decoded.uid, Admin)
      case Crash =>
        o := Threw;
      case Fail =>
        o := Denied(403, UnauthorizedMessage);
      case Pass =>
        o := Sent(UserUpdateAck(users, uid, patch, nextId));
        var inserted := FirstIndex(users, UidOf, uid).None?;
        users := UpsertUser(users, uid, patch, nextId);
        if inserted {
          nextId := nextId + 1;
        }
    }

    /**
     * `DELETE /sellers/:id` and `DELETE /buyers/:id` (the two handlers are
     * the same): admins only (403 otherwise); deletes the first user with
     * that uid, whatever its role.
     */
    method DeleteUser(decoded: Claims, uid: string) returns (o: Outcome)
      requires Valid()
      modifies this
      ensures Valid()
      ensures categories == old(categories) && products == old(products) && nextId == old(nextId)
      ensures match CheckRole(old(users), decoded.uid, Admin)
        case Crash => o == Threw && users == old(users)
        case Fail => o == Denied(403, UnauthorizedMessage) && users == old(users)
        case Pass =>
          && users == DeleteOne(old(users), UidOf, uid)
          && o == Sent(DeleteAck(|old(users)| - |users|))
    {
      match CheckRole(users, decoded.uid, Admin)
      case Crash =>
        o := Threw;
      case Fail =>
        o := Denied(403, UnauthorizedMessage);
      case Pass =>
        var before := |users|;
        users := DeleteOne(users, UidOf, uid);
        o := Sent(DeleteAck(before - |users|));
    }

    /**
     * `DELETE /product/:id`: sellers only (403 otherwise); deletes the
     * product with that `_id`, whoever its seller is.
     */
    method DeleteProduct(decoded: Claims, id: DocId) returns (o: Outcome)
      requires Valid()
      modifies this
      ensures Valid()
      ensures categories == old(categories) && users == old(users) && nextId == old(nextId)
      ensures match CheckRole(old(users), decoded.uid, Seller)
        case Crash => o == Threw && products == old(products)
        case Fail => o == Denied(403, UnauthorizedMessage) && products == old(products)
        case Pass =>
          && products == DeleteOne(old(products), ProductIdOf, id)
          && (forall p :: p in products ==> p.id != id)
          && o == Sent(DeleteAck(|old(products)| - |products|))
    {
      match CheckRole(users, decoded.uid, Seller)
      case Crash =>
        o := Threw;
      case Fail =>
        o := Denied(403, UnauthorizedMessage);
      case Pass =>
        var after := DeleteOne(products, ProductIdOf, id);
        DeleteProductKeepsIds(products, id, nextId);
        o := Sent(DeleteAck(|products| - |after|));
        products := after;
    }

    /**
     * `POST /add-product`: sellers only (403 otherwise); inserts the body as
     * it is, under a fresh `_id`, whatever seller it names.
     */
    method AddProduct(decoded: Claims, body: Product) returns (o: Outcome)
      requires Valid()
      modifies this
      ensures Valid()
      ensures categories == old(categories) && users == old(users)
      ensures match CheckRole(old(users), decoded.uid, Seller)
        case Crash => o == Threw && products == old(products) && nextId == old(nextId)
        case Fail => o == Denied(403, UnauthorizedMessage) && products == old(products) && nextId == old(nextId)
        case Pass =>
          && products == old(products) + [body.(id := old(nextId))]
          && o == Sent(InsertAck(old(nextId)))
          && nextId == old(nextId) + 1
    {
      match CheckRole(users, decoded.uid, Seller)
      case Crash =>
        o := Threw;
      case Fail =>
        o := Denied(403, UnauthorizedMessage);
      case Pass =>
        InsertProductKeepsIds(products, body, nextId);
        products := products + [body.(id := nextId)];
        o := Sent(InsertAck(nextId));
        nextId := nextId + 1;
    }

    /**
     * `PATCH /peoduct-advertise/:id`: sellers only (403 otherwise); upserts
     * the product with that `_id`, whoever its seller is.
     */
    method AdvertiseProduct(decoded: Claims, id: DocId, patch: ProductPatch) returns (o: Outcome)
      requires Valid()
      modifies this
      ensures Valid()
      ensures categories == old(categories) && users == old(users)
      ensures match CheckRole(old(users), decoded.uid, Seller)
        case Crash => o == Threw && products == old(products) && nextId == old(nextId)
        case Fail => o == Denied(403, UnauthorizedMessage) && products == old(products) && nextId == old(nextId)
        case Pass =>
          && products == UpsertProduct(old(products), id, patch)
          && o == Sent(ProductUpdateAck(old(products), id, patch))
          && nextId == if old(nextId) <= id then id + 1 else old(nextId)
    {
      match CheckRole(users, decoded.uid, Seller)
      case Crash =>
        o := Threw;
      case Fail =>
        o := Denied(403, UnauthorizedMessage);
      case Pass =>
        o := UpsertProductById(id, patch);
    }

    /** `GET /advertise-product` (no token needed): advertised, unbooked products with their sellers. */
    method AdvertisedProducts() returns (o: Outcome)
      ensures o == Sent(JoinedDocs(AdvertisedListing(products, users)))
      ensures forall j :: j in o.body.items ==> j.product.isAdvertised && !j.product.isBooked
    {
      o := Sent(JoinedDocs(AdvertisedListing(products, users)));
    }

    /**
     * `PATCH /product-booked/:id`: any authenticated caller upserts any
     * product; there is no role, ownership or double-booking check.
     */
    method BookProduct(id: DocId, patch: ProductPatch) returns (o: Outcome)
      requires Valid()
      modifies this
      ensures Valid()
      ensures categories == old(categories) && users == old(users)
      ensures products == UpsertProduct(old(products), id, patch)
      ensures o == Sent(ProductUpdateAck(old(products), id, patch))
      ensures nextId == if old(nextId) <= id then id + 1 else old(nextId)
    {
      o := UpsertProductById(id, patch);
    }

    /** The `updateOne({_id}, {$set}, {upsert: true})` call shared by the two product patches. */
    method UpsertProductById(id: DocId, patch: ProductPatch) returns (o: Outcome)
      requires Valid()
      modifies this
      ensures Valid()
      ensures categories == old(categories) && users == old(users)
      ensures products == UpsertProduct(old(products), id, patch)
      ensures o == Sent(ProductUpdateAck(old(products), id, patch))
      ensures nextId == if old(nextId) <= id then id + 1 else old(nextId)
    {
      UpsertProductKeepsIds(products, id, patch, nextId);
      o := Sent(ProductUpdateAck(products, id, patch));
      products := UpsertProduct(products, id, patch);
      if nextId <= id {
        nextId := id + 1;
      }
    }

    /** `GET /my-products`: sellers only (401 otherwise); the products naming the caller as seller. */
    method MyProducts(decoded: Claims) returns (o: Outcome)
      ensures match CheckRole(users, decoded.uid, Seller)
        case Crash => o == Threw
        case Fail => o == Denied(401, UnauthorizedMessage)
        case Pass => o == Sent(ProductDocs(ProductsOfSeller(products, decoded.uid)))
    {
      match CheckRole(users, decoded.uid, Seller)
      case Crash =>
        o := Threw;
      case Fail =>
        o := Denied(401, UnauthorizedMessage);
      case Pass =>
        o := Sent(ProductDocs(ProductsOfSeller(products, decoded.uid)));
    }

    /** A route that needs no token; none of them changes the store or refuses. */
    method ServePublic(route: Route, sign: Signer) returns (o: Outcome)
      requires Valid() && !Authenticated(route)
      ensures o == Public(route, sign, Snapshot())
      ensures o.Sent?
      ensures route.PostJwt? ==> o == Sent(IssueToken(route.payload, sign))
    {
      match route {
        case PostJwt(payload) =>
          o := Sent(IssueToken(payload, sign));
        case GetCategories(categoryId) =>
          o := Categories(categoryId);
        case GetCategoriesName =>
          o := CategoryNames();
        case GetAdvertiseProduct =>
          o := AdvertisedProducts();
      }
    }

    /** A route behind `verifyJWT` with no role check: the handler runs with the decoded payload. */
    method DispatchUngated(route: Route, decoded: Claims) returns (o: Outcome)
      requires Valid() && Authenticated(route) && RequiredRole(route).None?
      modifies this
      ensures Valid()
      ensures (o, Snapshot()) == GrantedOpen(route, decoded, old(Snapshot()))
    {
      match route {
        case PostCreateUser(user) => o := CreateUser(user);
        case GetUsers =>
          o := CurrentUser(decoded);
          FirstIndexUnique(users, UidOf, decoded.uid);
        case GetProducts(category) => o := ProductsInCategory(category);
        case GetMyOrders => o := MyOrders(decoded);
        case PatchProductBooked(id, patch) => o := BookProduct(id, patch);
      }
    }

    /** A route reserved to admins, once the token was accepted: the admin check, then the handler. */
    method DispatchAdmin(route: Route, decoded: Claims) returns (o: Outcome)
      requires Valid() && RequiredRole(route) == Some(Admin)
      modifies this
      ensures Valid()
      ensures (o, Snapshot()) == Step(route, decoded, old(Snapshot()))
    {
      ghost var s := Snapshot();
      GatedStep(route, decoded, s);
      match route {
        case GetSellers =>
          assert DenialStatus(route) == 401;
          assert GrantedAdmin(route, s) == (Sent(UserDocs(UsersWithRole(s.users, Seller))), s);
          o := Sellers(decoded);
        case GetBuyers =>
          assert DenialStatus(route) == 401;
          assert GrantedAdmin(route, s) == (Sent(UserDocs(UsersWithRole(s.users, Buyer))), s);
          o := Buyers(decoded);
        case PatchVerifySeller(uid, patch) =>
          assert DenialStatus(route) == 403;
          assert GrantedAdmin(route, s) ==
            (Sent(UserUpdateAck(s.users, uid, patch, s.nextId)),
             s.(users := UpsertUser(s.users, uid, patch, s.nextId),
                nextId := if FirstIndex(s.users, UidOf, uid).None? then s.nextId + 1 else s.nextId));
          o := VerifySeller(decoded, uid, patch);
        case DeleteSellers(uid) =>
          assert DenialStatus(route) == 403;
          assert GrantedAdmin(route, s) == (Sent(DeleteAck(|s.users| - |DeleteOne(s.users, UidOf, uid)|)),
            s.(users := DeleteOne(s.users, UidOf, uid)));
          o := DeleteUser(decoded, uid);
        case DeleteBuyers(uid) =>
          assert DenialStatus(route) == 403;
          assert GrantedAdmin(route, s) == (Sent(DeleteAck(|s.users| - |DeleteOne(s.users, UidOf, uid)|)),
            s.(users := DeleteOne(s.users, UidOf, uid)));
          o := DeleteUser(decoded, uid);
      }
    }

    /** A route reserved to sellers, once the token was accepted: the seller check, then the handler. */
    method DispatchSeller(route: Route, decoded: Claims) returns (o: Outcome)
      requires Valid() && RequiredRole(route) == Some(Seller)
      modifies this
      ensures Valid()
      ensures (o, Snapshot()) == Step(route, decoded, old(Snapshot()))
    {
      ghost var s := Snapshot();
      GatedStep(route, decoded, s);
      match route {
        case DeleteProductById(id) =>
          assert DenialStatus(route) == 403;
          assert GrantedSeller(route, decoded, s) ==
            (Sent(DeleteAck(|s.products| - |DeleteOne(s.products, ProductIdOf, id)|)),
             s.(products := DeleteOne(s.products, ProductIdOf, id)));
          o := DeleteProduct(decoded, id);
        case PostAddProduct(product) =>
          assert DenialStatus(route) == 403;
          assert GrantedSeller(route, decoded, s) ==
            (Sent(InsertAck(s.nextId)), s.(products := s.products + [product.(id := s.nextId)], nextId := s.nextId + 1));
          o := AddProduct(decoded, product);
        case PatchAdvertise(id, patch) =>
          assert DenialStatus(route) == 403;
          assert GrantedSeller(route, decoded, s) ==
            (Sent(ProductUpdateAck(s.products, id, patch)),
             s.(products := UpsertProduct(s.products, id, patch), nextId := if s.nextId <= id then id + 1 else s.nextId));
          o := AdvertiseProduct(decoded, id, patch);
        case GetMyProducts =>
          assert DenialStatus(route) == 401;
          assert GrantedSeller(route, decoded, s) == (Sent(ProductDocs(ProductsOfSeller(s.products, decoded.uid))), s);
          o := MyProducts(decoded);
      }
    }

    /**
     * One request: `verifyJWT` first on the routes that register it, then the
     * handler.  A refused token never reaches the handler; a refusal or a
     * throw never changes the store.
     */
    method Serve(route: Route, authorization: Option<string>, verify: Verifier, sign: Signer) returns (o: Outcome)
      requires Valid()
      modifies this
      ensures Valid()
      ensures IsRead(route) ==> Snapshot() == old(Snapshot())
      ensures Authenticated(route) && VerifyJWT(authorization, verify).Admitted? ==>
        (o, Snapshot()) == Step(route, VerifyJWT(authorization, verify).decoded, old(Snapshot()))
      ensures o.Denied? || o.Threw? ==>
        categories == old(categories) && users == old(users) && products == old(products) && nextId == old(nextId)
      ensures o.Denied? ==> o.message == UnauthorizedMessage && (o.status == 401 || o.status == 403)
      ensures !Authenticated(route) ==> o.Sent?
      ensures !Authenticated(route) ==> o == Public(route, sign, old(Snapshot())) && Snapshot() == old(Snapshot())
      ensures Authenticated(route) && VerifyJWT(authorization, verify).Rejected? ==>
        o == Denied(401, UnauthorizedMessage)
      ensures Authenticated(route) && VerifyJWT(authorization, verify).Admitted? ==>
        var uid := VerifyJWT(authorization, verify).decoded.uid;
        match RequiredRole(route)
        case None => !o.Denied?
        case Some(role) =>
          && (CheckRole(old(users), uid, role) == Crash <==> o == Threw)
          && (CheckRole(old(users), uid, role) == Fail <==> o == Denied(DenialStatus(route), UnauthorizedMessage))
          && (o.Denied? ==> o == Denied(DenialStatus(route), UnauthorizedMessage))
    {
      if !Authenticated(route) {
        o := ServePublic(route, sign);
      } else {
        match VerifyJWT(authorization, verify) {
          case Rejected =>
            o := Denied(401, UnauthorizedMessage);
          case Admitted(decoded) =>
            match RequiredRole(route) {
              case None => o := DispatchUngated(route, decoded);
              case Some(role) =>
                if role == Admin {
                  o := DispatchAdmin(route, decoded);
                } else {
                  o := DispatchSeller(route, decoded);
                }
            }
        }
      }
    }
  }
}
