/** The documents of the four collections (orders, users, addresses,
    products), the response projections the services return, and the
    database that holds the collections as maps from id to document. */
module Domain {
  import opened Common

  type Month = m: int | 1 <= m <= 12 witness 1

  /** A calendar date; the time of day is not modelled. */
  datatype Date = Date(year: int, month: Month, day: int)

  datatype OrderStatus = PROCESS | DELIVER | COMPLETED
  datatype PaymentStatus = PENDING | SUCCESS | FAILED

  /** The product object a client sends inside an order item: its `_id` and
      whatever other fields came with it. */
  datatype ProductPayload = ProductPayload(id: string, fields: map<string, string>)

  datatype OrderItem = OrderItem(product: ProductPayload, qty: real)

  /** An order document. `amount` is in integer cents. */
  datatype Order = Order(
    id: string,
    date: Date,
    amount: int,
    status: OrderStatus,
    paymentStatus: PaymentStatus,
    address: string,
    user: string,
    orderItems: seq<OrderItem>)

  datatype Role = USER | ADMIN
  datatype AccountType = PASSWORD | GOOGLE

  /** The wire string of a role, as it travels in a token. */
  function RoleName(r: Role): string {
    match r
    case USER => "USER"
    case ADMIN => "ADMIN"
  }

  /** A user document. `password` holds the bcrypt hash; Google accounts
      have none. `cart` and `wishlist` hold product ids, `addresses` address
      ids. */
  datatype User = User(
    id: string,
    username: string,
    email: string,
    password: Option<string>,
    cart: seq<string>,
    wishlist: seq<string>,
    addresses: seq<string>,
    role: Role,
    accountType: AccountType)

  datatype Address = Address(
    id: string,
    fullName: string,
    mobileNumber: string,
    houseNo: string,
    street: string,
    city: string,
    postalCode: string)

  /** A product document; prices are in integer cents. */
  datatype Product = Product(
    id: string,
    name: string,
    description: string,
    brand: string,
    category: string,
    gender: string,
    weight: string,
    quantity: int,
    image: string,
    rating: Option<real>,
    price: int,
    newPrice: int,
    trending: Option<bool>)

  /** The user response: no password, and cart and wishlist populated. */
  datatype UserView = UserView(
    id: string,
    username: string,
    email: string,
    cart: seq<Product>,
    wishlist: seq<Product>)

  function ToUserView(u: User, products: map<string, Product>): UserView {
    UserView(u.id, u.username, u.email, Populate(u.cart, products), Populate(u.wishlist, products))
  }

  /** The most addresses a user may save. */
  const MaxAddresses := 3


  /** The unique index on `username`. */
  ghost predicate UsernamesUnique(users: map<string, User>) {
    forall a, b :: a in users && b in users && users[a].username == users[b].username ==> a == b
  }

  /** No product sits twice in a cart or a wishlist. */
  ghost predicate ListsDistinct(users: map<string, User>) {
    forall id :: id in users ==> Distinct(users[id].cart) && Distinct(users[id].wishlist)
  }

  /** No user has more than `MaxAddresses` addresses. */
  ghost predicate AddressesCapped(users: map<string, User>) {
    forall id :: id in users ==> |users[id].addresses| <= MaxAddresses
  }

  /** The invariants of the users collection; every document is stored
      under its own `_id`. */
  ghost predicate UsersValid(users: map<string, User>) {
    && (forall id :: id in users ==> users[id].id == id)
    && UsernamesUnique(users)
    && ListsDistinct(users)
    && AddressesCapped(users)
  }

  /** The products collection and its natural order list the same ids, each
      once. */
  ghost predicate CatalogValid(products: map<string, Product>, productOrder: seq<string>) {
    && (forall id :: id in products ==> products[id].id == id)
    && Distinct(productOrder)
    && (forall k :: 0 <= k < |productOrder| ==> productOrder[k] in products)
    && (forall id :: id in products ==> id in productOrder)
  }

  /** Replacing one user by a document with the same id and username whose
      lists are duplicate-free and whose address list is within the cap
      keeps the users collection valid. */
  lemma ReplaceUserKeepsValid(users: map<string, User>, u: User)
    requires UsersValid(users)
    requires u.id in users && users[u.id].username == u.username
    requires Distinct(u.cart) && Distinct(u.wishlist) && |u.addresses| <= MaxAddresses
    ensures UsersValid(users[u.id := u])
  {
    var after := users[u.id := u];
    forall a, b | a in after && b in after && after[a].username == after[b].username
      ensures a == b
    {
      assert users[a].username == after[a].username && users[b].username == after[b].username;
    }
  }

  predicate UsernameTaken(users: map<string, User>, username: string) {
    exists id :: id in users && users[id].username == username
  }

  /** Inserting a new user whose username is free and whose lists are
      empty keeps the users collection valid. */
  lemma InsertUserKeepsValid(users: map<string, User>, u: User)
    requires UsersValid(users)
    requires u.id !in users && !UsernameTaken(users, u.username)
    requires u.cart == [] && u.wishlist == [] && u.addresses == []
    ensures UsersValid(users[u.id := u])
  {
    var after := users[u.id := u];
    forall a, b | a in after && b in after && after[a].username == after[b].username
      ensures a == b
    {
    }
  }

  /** Every order is filed under its own `_id`. */
  ghost predicate OrdersKeyed(orders: map<string, Order>) {
    forall id :: id in orders ==> orders[id].id == id
  }

  /** Every address is filed under its own `_id`. */
  ghost predicate AddressesKeyed(addresses: map<string, Address>) {
    forall id :: id in addresses ==> addresses[id].id == id
  }

  /** Every address id a user lists names a stored address, and no address
      is listed by two users: addresses are created for one user and
      deleted only after being pulled from that user's list. */
  ghost predicate AddressLinksValid(users: map<string, User>, addresses: map<string, Address>) {
    && (forall id, x :: id in users && x in users[id].addresses ==> x in addresses)
    && (forall a, b, x :: a in users && b in users && x in users[a].addresses && x in users[b].addresses ==> a == b)
  }

  /** Replacing a user by a document with the same address list keeps the
      links valid. */
  lemma ReplaceUserKeepsLinks(users: map<string, User>, addresses: map<string, Address>, u: User)
    requires AddressLinksValid(users, addresses)
    requires u.id in users && u.addresses == users[u.id].addresses
    ensures AddressLinksValid(users[u.id := u], addresses)
  {
  }

  /** Under valid links, populating a user's addresses loses none of them:
      the populated count is the stored count. */
  lemma PopulatedAddressCount(users: map<string, User>, addresses: map<string, Address>, id: string)
    requires AddressLinksValid(users, addresses)
    requires id in users
    ensures |Populate(users[id].addresses, addresses)| == |users[id].addresses|
  {
    var ids := users[id].addresses;
    assert forall x :: x in ids ==> x in addresses;
  }

  /** The MongoDB database of the storefront. `productOrder` is the natural
      order of the products collection, the order in which a `find` without
      a sort returns them. */
  class Database {
    var orders: map<string, Order>
    var users: map<string, User>
    var addresses: map<string, Address>
    var products: map<string, Product>
    var productOrder: seq<string>

    ghost predicate Valid()
      reads this
    {
      && OrdersKeyed(orders)
      && UsersValid(users)
      && AddressesKeyed(addresses)
      && AddressLinksValid(users, addresses)
      && CatalogValid(products, productOrder)
    }

    constructor ()
      ensures Valid()
      ensures orders == map[] && users == map[] && addresses == map[] && products == map[]
    {
      orders, users, addresses, products := map[], map[], map[], map[];
      productOrder := [];
    }
  }
}
