/**
 * The read side: the `$lookup` join from products to their sellers and the
 * filters the handlers apply, in application code, to the joined list or to
 * a collection.
 */
module Listings {
  import opened Collections
  import opened Records

  /**
   * `seller_details` of one product: every user whose `uid` is the
   * product's `product_sellerID`, in store order.  A seller with no user
   * record gives an empty array, never an error.
   */
  function SellerDetails(users: seq<User>, sellerId: string): (r: seq<User>)
    ensures forall u :: u in r <==> u in users && u.uid == sellerId
    ensures r == [] <==> forall u :: u in users ==> u.uid != sellerId
    ensures IsSelection(r, users, (u: User) => u.uid == sellerId)
  {
    var r := Filter(users, (u: User) => u.uid == sellerId);
    assert r != [] ==> r[0] in r;
    r
  }

  /** The `$lookup` stage: every product, in store order, with its seller details. */
  function JoinSellers(products: seq<Product>, users: seq<User>): (r: seq<Joined>)
    ensures |r| == |products|
    ensures forall i :: 0 <= i < |r| ==> r[i].product == products[i]
  {
    seq(|products|, i requires 0 <= i < |products| => Joined(products[i], SellerDetails(users, products[i].sellerId)))
  }

  /** The joined list holds exactly the stored products, each with its own sellers. */
  lemma JoinMembers(products: seq<Product>, users: seq<User>)
    ensures forall j :: j in JoinSellers(products, users) <==>
      j.product in products && j.sellerDetails == SellerDetails(users, j.product.sellerId)
  {
    var js := JoinSellers(products, users);
    forall j: Joined | j.product in products && j.sellerDetails == SellerDetails(users, j.product.sellerId)
      ensures j in js
    {
      var i :| 0 <= i < |products| && products[i] == j.product;
      assert js[i] == j;
    }
  }

  /** `pd.product_category == categoryID && !pd.isBooked`. */
  predicate InCategoryListing(p: Product, category: string)
  {
    p.category == category && !p.isBooked
  }

  /** `pd.isAdvertised == true && !pd.isBooked`. */
  predicate InAdvertisedListing(p: Product)
  {
    p.isAdvertised && !p.isBooked
  }

  /** `pd.isBooked && pd.bookedData.userID == uid`, when `bookedData` is present. */
  predicate BookedBy(p: Product, uid: string)
  {
    p.isBooked && p.booking.Some? && p.booking.value.userId == uid
  }

  /**
   * A booked product without `bookedData`: reading `bookedData.userID` on it
   * throws, so the `/my-orders` filter throws as soon as it reaches one.
   */
  predicate BookingRecordMissing(p: Product)
  {
    p.isBooked && p.booking.None?
  }

  /** `/products/:productCategory`: unbooked products of the category, with sellers. */
  function CategoryListing(products: seq<Product>, users: seq<User>, category: string): (r: seq<Joined>)
    ensures forall j :: j in r <==>
      j.product in products && InCategoryListing(j.product, category)
      && j.sellerDetails == SellerDetails(users, j.product.sellerId)
    ensures IsSelection(r, JoinSellers(products, users), (j: Joined) => InCategoryListing(j.product, category))
  {
    JoinMembers(products, users);
    Filter(JoinSellers(products, users), (j: Joined) => InCategoryListing(j.product, category))
  }

  /** `/advertise-product`: advertised, unbooked products, with sellers. */
  function AdvertisedListing(products: seq<Product>, users: seq<User>): (r: seq<Joined>)
    ensures forall j :: j in r <==>
      j.product in products && InAdvertisedListing(j.product)
      && j.sellerDetails == SellerDetails(users, j.product.sellerId)
    ensures IsSelection(r, JoinSellers(products, users), (j: Joined) => InAdvertisedListing(j.product))
  {
    JoinMembers(products, users);
    Filter(JoinSellers(products, users), (j: Joined) => InAdvertisedListing(j.product))
  }

  /** `/my-orders` once no product lacks its booking record: the caller's bookings, with sellers. */
  function OrdersListing(products: seq<Product>, users: seq<User>, uid: string): (r: seq<Joined>)
    ensures forall j :: j in r <==>
      j.product in products && BookedBy(j.product, uid)
      && j.sellerDetails == SellerDetails(users, j.product.sellerId)
    ensures IsSelection(r, JoinSellers(products, users), (j: Joined) => BookedBy(j.product, uid))
  {
    JoinMembers(products, users);
    Filter(JoinSellers(products, users), (j: Joined) => BookedBy(j.product, uid))
  }

  /** `find({role})`, used by `/sellers` and `/buyers`. */
  function UsersWithRole(users: seq<User>, role: string): (r: seq<User>)
    ensures forall u :: u in r <==> u in users && u.role == role
    ensures IsSelection(r, users, (u: User) => u.role == role)
  {
    Filter(users, (u: User) => u.role == role)
  }

  /** `find({product_sellerID: uid})`, used by `/my-products` (no join). */
  function ProductsOfSeller(products: seq<Product>, uid: string): (r: seq<Product>)
    ensures forall p :: p in r <==> p in products && p.sellerId == uid
    ensures IsSelection(r, products, (p: Product) => p.sellerId == uid)
  {
    Filter(products, (p: Product) => p.sellerId == uid)
  }

  /** `find({_id: id})` on the categories. */
  /** `/categories-name`: each category projected to its `_id` and name, in order. */
  function NameProjection(categories: seq<Category>): (r: seq<CategoryName>)
    ensures |r| == |categories|
    ensures forall i :: 0 <= i < |r| ==> r[i].id == categories[i].id && r[i].name == categories[i].name
  {
    if categories == [] then []
    else [CategoryName(categories[0].id, categories[0].name)] + NameProjection(categories[1..])
  }

  function CategoriesWithId(categories: seq<Category>, id: DocId): (r: seq<Category>)
    ensures forall c :: c in r <==> c in categories && c.id == id
    ensures KeysDistinct(categories, CategoryIdOf) ==> |r| <= 1
  {
    var r := Filter(categories, (c: Category) => c.id == id);
    AtMostOneSelected(r, categories, (c: Category) => c.id == id, CategoryIdOf);
    r
  }

  /**
   * When the keys are distinct and `p` can only hold of the element with one
   * particular key, a selection by `p` has at most one element.
   */
  lemma {:induction false} AtMostOneSelected<T(!new), K>(r: seq<T>, s: seq<T>, p: T -> bool, key: T -> K)
    requires IsSelection(r, s, p)
    requires forall x, y :: p(x) && p(y) ==> key(x) == key(y)
    ensures KeysDistinct(s, key) ==> |r| <= 1
    decreases |s|
  {
    if s != [] && KeysDistinct(s, key) {
      SelectionTail(r, s, p);
      var t := s[1..];
      assert KeysDistinct(t, key) by {
        forall i, j | 0 <= i < j < |t| ensures key(t[i]) != key(t[j]) {
          assert t[i] == s[i + 1] && t[j] == s[j + 1];
        }
      }
      if p(s[0]) {
        AtMostOneSelected(r[1..], t, p, key);
      } else {
        AtMostOneSelected(r, t, p, key);
      }
    }
  }
}
