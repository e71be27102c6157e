/**
 * The write side as functions of the collections: the role gate every
 * privileged route runs first, the idempotent user registration, and the
 * `$set` upserts on users and products.  The `Store` methods perform these
 * and the lemmas here say what they mean.
 */
module Updates {
  import opened Collections
  import opened Records
  import opened Listings

  /**
   * How a role check ends: Pass (the caller's stored role is the required
   * one), Fail (the route answers 401 or 403), or Crash (the caller has no
   * user record, so `checkUser.role` is read on `null` and throws).
   */
  datatype Gate = Pass | Fail | Crash

  /** `findOne({uid: decoded.uid})` followed by `checkUser.role === role`. */
  function CheckRole(users: seq<User>, uid: string, role: string): (g: Gate)
    ensures g == Crash <==> forall i :: 0 <= i < |users| ==> users[i].uid != uid
    ensures g == Pass <==> exists i :: 0 <= i < |users| && users[i].uid == uid && users[i].role == role
                                   && forall j :: 0 <= j < i ==> users[j].uid != uid
  {
    match FindOne(users, UidOf, uid)
    case None => Crash
    case Some(u) =>
      FirstIndexUnique(users, UidOf, uid);
      if u.role == role then Pass else Fail
  }

  /** Only the first record carrying the caller's uid decides, whatever later ones say. */
  lemma FirstRecordDecides(users: seq<User>, extra: seq<User>, uid: string, role: string)
    requires exists u :: u in users && u.uid == uid
    ensures CheckRole(users + extra, uid, role) == CheckRole(users, uid, role)
  {
    var i :| 0 <= i < |users| && users[i].uid == uid;
    var f := FirstIndex(users, UidOf, uid);
    assert f.Some?;
    FirstIndexIs(users + extra, UidOf, uid, f.value);
  }

  /**
   * `/create-user`: `findOne({email})`; when a user with that email exists
   * the collection is left as it is, otherwise the body is inserted with a
   * fresh `_id`.
   */
  function RegisterUser(users: seq<User>, body: User, freshId: DocId): (r: seq<User>)
    ensures KeyCount(r, EmailOf, body.email) == if KeyCount(users, EmailOf, body.email) == 0 then 1 else KeyCount(users, EmailOf, body.email)
    ensures forall e :: e != body.email ==> KeyCount(r, EmailOf, e) == KeyCount(users, EmailOf, e)
    ensures users <= r && |r| <= |users| + 1
    ensures KeyCount(users, EmailOf, body.email) == 0 ==> r == users + [body.(id := freshId)]
    ensures KeyCount(users, EmailOf, body.email) != 0 ==> r == users
  {
    KeyCountZero(users, EmailOf, body.email);
    if FindOne(users, EmailOf, body.email).Some? then users
    else
      var r := users + [body.(id := freshId)];
      forall e ensures KeyCount(r, EmailOf, e) == KeyCount(users, EmailOf, e) + (if e == body.email then 1 else 0) {
        KeyCountAppend(users, [body.(id := freshId)], EmailOf, e);
        assert [body.(id := freshId)][1..] == [];
      }
      r
  }

  /**
   * Creating a user is idempotent by email: a second registration with the
   * same email, whatever its other fields, changes nothing.
   */
  lemma RegisterUserIdempotent(users: seq<User>, first: User, second: User, id1: DocId, id2: DocId)
    requires first.email == second.email
    ensures RegisterUser(RegisterUser(users, first, id1), second, id2) == RegisterUser(users, first, id1)
  {
    var once := RegisterUser(users, first, id1);
    KeyCountZero(once, EmailOf, second.email);
  }

  /** Registration never introduces a second user with the same email. */
  lemma RegisterUserKeepsEmailsUnique(users: seq<User>, body: User, freshId: DocId)
    requires forall e :: KeyCount(users, EmailOf, e) <= 1
    ensures forall e :: KeyCount(RegisterUser(users, body, freshId), EmailOf, e) <= 1
  {
  }

  /**
   * Nothing stops a caller from granting themselves a role: registering a
   * body that carries a new email, a uid no stored user has and the role
   * admin makes the admin gate pass for that uid afterwards.
   */
  lemma SelfRegisteredAdminPasses(users: seq<User>, body: User, freshId: DocId)
    requires body.role == Admin
    requires forall u :: u in users ==> u.uid != body.uid && u.email != body.email
    ensures CheckRole(RegisterUser(users, body, freshId), body.uid, Admin) == Pass
  {
    var r := users + [body.(id := freshId)];
    assert FindOne(users, EmailOf, body.email).None? by {
      forall j | 0 <= j < |users| ensures users[j].email != body.email {
        assert users[j] in users;
      }
    }
    assert RegisterUser(users, body, freshId) == r;
    forall j | 0 <= j < |users| ensures r[j].uid != body.uid {
      assert r[j] == users[j] && users[j] in users;
    }
    FirstIndexIs(r, UidOf, body.uid, |users|);
  }

  /** The user document an upsert inserts: the query's `uid` plus the `$set` fields. */
  function UpsertedUser(freshId: DocId, uid: string, patch: UserPatch): User
  {
    ApplyUserPatch(User(freshId, uid, "", "", false), patch)
  }

  /**
   * `/verify-seller/:id`: `updateOne({uid}, {$set: patch}, {upsert: true})`
   * patches the first record carrying the uid, or appends a new one when
   * there is none; no other record changes.
   */
  function UpsertUser(users: seq<User>, uid: string, patch: UserPatch, freshId: DocId): (r: seq<User>)
    ensures match FirstIndex(users, UidOf, uid)
      case None => r == users + [UpsertedUser(freshId, uid, patch)]
      case Some(i) => r == users[i := ApplyUserPatch(users[i], patch)]
  {
    Upsert(users, UidOf, uid, (u: User) => ApplyUserPatch(u, patch), UpsertedUser(freshId, uid, patch))
  }

  /** After the upsert, looking the uid up finds the patched record, or the inserted one. */
  lemma UpsertUserFinds(users: seq<User>, uid: string, patch: UserPatch, freshId: DocId)
    ensures FindOne(UpsertUser(users, uid, patch, freshId), UidOf, uid) ==
      Some(match FindOne(users, UidOf, uid)
           case None => UpsertedUser(freshId, uid, patch)
           case Some(u) => ApplyUserPatch(u, patch))
    ensures |UpsertUser(users, uid, patch, freshId)| == if FindOne(users, UidOf, uid).None? then |users| + 1 else |users|
  {
    var r := UpsertUser(users, uid, patch, freshId);
    match FirstIndex(users, UidOf, uid)
    case None =>
      FirstIndexIs(r, UidOf, uid, |users|);
    case Some(i) =>
      FirstIndexIs(r, UidOf, uid, i);
  }

  /** The product document an upsert by `_id` inserts. */
  function UpsertedProduct(id: DocId, patch: ProductPatch): Product
  {
    ApplyProductPatch(Product(id, "", "", false, false, None), patch)
  }

  /**
   * `/peoduct-advertise/:id` and `/product-booked/:id`:
   * `updateOne({_id: id}, {$set: patch}, {upsert: true})` patches the
   * first product with that id, or appends one with that id when there is
   * none; no other product changes.
   */
  function UpsertProduct(products: seq<Product>, id: DocId, patch: ProductPatch): (r: seq<Product>)
    ensures match FirstIndex(products, ProductIdOf, id)
      case None => r == products + [UpsertedProduct(id, patch)]
      case Some(i) => r == products[i := ApplyProductPatch(products[i], patch)]
  {
    Upsert(products, ProductIdOf, id, (p: Product) => ApplyProductPatch(p, patch), UpsertedProduct(id, patch))
  }

  /** After the upsert, looking the id up finds the patched product, or the inserted one. */
  lemma UpsertProductFinds(products: seq<Product>, id: DocId, patch: ProductPatch)
    ensures FindOne(UpsertProduct(products, id, patch), ProductIdOf, id) ==
      Some(match FindOne(products, ProductIdOf, id)
           case None => UpsertedProduct(id, patch)
           case Some(p) => ApplyProductPatch(p, patch))
    ensures |UpsertProduct(products, id, patch)| == if FindOne(products, ProductIdOf, id).None? then |products| + 1 else |products|
  {
    var r := UpsertProduct(products, id, patch);
    match FirstIndex(products, ProductIdOf, id)
    case None =>
      FirstIndexIs(r, ProductIdOf, id, |products|);
    case Some(i) =>
      FirstIndexIs(r, ProductIdOf, id, i);
  }

  /** Every product id is below `bound` (the next id the store hands out). */
  ghost predicate IdsBelow(products: seq<Product>, bound: nat)
  {
    forall i :: 0 <= i < |products| ==> products[i].id < bound
  }

  /** One past the largest product `_id`: the least bound every id stays below. */
  function IdBound(products: seq<Product>): (n: nat)
    ensures IdsBelow(products, n)
    ensures forall m: nat :: IdsBelow(products, m) ==> n <= m
  {
    if products == [] then 0
    else
      var rest := IdBound(products[1..]);
      assert forall m: nat :: IdsBelow(products, m) ==> IdsBelow(products[1..], m) by {
        forall m: nat | IdsBelow(products, m) ensures IdsBelow(products[1..], m) {
          forall i | 0 <= i < |products[1..]| ensures products[1..][i].id < m {
            assert products[1..][i] == products[i + 1];
          }
        }
      }
      if products[0].id + 1 < rest then rest else products[0].id + 1
  }

  /** An upsert by `_id` keeps product ids distinct and below the raised bound. */
  lemma UpsertProductKeepsIds(products: seq<Product>, id: DocId, patch: ProductPatch, bound: nat)
    requires KeysDistinct(products, ProductIdOf) && IdsBelow(products, bound)
    ensures KeysDistinct(UpsertProduct(products, id, patch), ProductIdOf)
    ensures IdsBelow(UpsertProduct(products, id, patch), if id < bound then bound else id + 1)
  {
    var r := UpsertProduct(products, id, patch);
    match FirstIndex(products, ProductIdOf, id)
    case None =>
    case Some(i) =>
      assert forall j :: 0 <= j < |r| ==> r[j].id == products[j].id;
  }

  /** Inserting a product under a fresh id keeps ids distinct. */
  lemma InsertProductKeepsIds(products: seq<Product>, body: Product, bound: nat)
    requires KeysDistinct(products, ProductIdOf) && IdsBelow(products, bound)
    ensures KeysDistinct(products + [body.(id := bound)], ProductIdOf)
    ensures IdsBelow(products + [body.(id := bound)], bound + 1)
  {
  }

  /** Deleting by `_id` keeps ids distinct and removes the product for good. */
  lemma DeleteProductKeepsIds(products: seq<Product>, id: DocId, bound: nat)
    requires KeysDistinct(products, ProductIdOf) && IdsBelow(products, bound)
    ensures KeysDistinct(DeleteOne(products, ProductIdOf, id), ProductIdOf)
    ensures IdsBelow(DeleteOne(products, ProductIdOf, id), bound)
    ensures forall p :: p in DeleteOne(products, ProductIdOf, id) ==> p.id != id
  {
    var r := DeleteOne(products, ProductIdOf, id);
    DeleteOneKeepsDistinct(products, ProductIdOf, id);
    DistinctKeyCount(products, ProductIdOf, id);
    KeyCountZero(r, ProductIdOf, id);
    forall a | 0 <= a < |r| ensures r[a].id < bound {
      assert r[a] in products;
    }
  }

  /**
   * Booking hides a product from both public listings: once
   * `/product-booked/:id` has set `isBooked: true`, no product with that id
   * is listed by `/products/:productCategory` or `/advertise-product`.
   */
  lemma BookedProductLeavesListings(products: seq<Product>, users: seq<User>, id: DocId,
                                    patch: ProductPatch, category: string)
    requires KeysDistinct(products, ProductIdOf)
    requires patch.isBooked == Some(true)
    ensures forall j :: j in CategoryListing(UpsertProduct(products, id, patch), users, category) ==> j.product.id != id
    ensures forall j :: j in AdvertisedListing(UpsertProduct(products, id, patch), users) ==> j.product.id != id
  {
    var r := UpsertProduct(products, id, patch);
    forall p | p in r && p.id == id ensures p.isBooked {
      var k :| 0 <= k < |r| && r[k] == p;
    }
  }
}
