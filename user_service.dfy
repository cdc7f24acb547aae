/** Accounts, carts, wishlists and the address book of the storefront.
    `bcrypt.hash`/`bcrypt.compare`, `jwt.sign` and Google's token check are
    parameters; each store call's success or failure is a `Call`. */
module UserService {
  import opened Common
  import opened Domain
  import Authentication

  /** The token response of sign-up and sign-in. */
  datatype TokenResponse = TokenResponse(user: UserView, token: string)

  /** The body of a password sign-up or sign-in. */
  datatype Credentials = Credentials(username: string, email: string, password: string)

  /** What Google's `verifyIdToken` hands back: a rejection (it throws), or
      a ticket whose payload may lack an email. */
  datatype GoogleTicket = Rejected | Ticket(email: Option<string>, name: string)

  /** The token side of the auth environment: the JWT secret and `jwt.sign`. */
  datatype Signer = Signer(secret: Option<string>, sign: (Claims, string) -> string)

  type Claims = Authentication.Claims

  /** `generateJwtToken` followed by `TokenResponseDTO.toResponse`. */
  function IssueToken(signer: Signer, u: User, products: map<string, Product>): (r: Result<TokenResponse>)
    ensures r.Failure? <==> !Defined(signer.secret)
    ensures r.Failure? ==> r.error == InternalError
    ensures r.Success? ==> r.value.user == ToUserView(u, products)
    ensures r.Success? ==> r.value.token == signer.sign(Authentication.Claims(u.id, u.email, RoleName(u.role)), signer.secret.value)
  {
    match Authentication.GenerateJwtToken(signer.secret, signer.sign, u)
    case Failure(e) => Failure(e)
    case Success(token) => Success(TokenResponse(ToUserView(u, products), token))
  }

  /** The document `createNewUser` saves: the bcrypt hash of the password,
      role USER, account type PASSWORD, empty lists. */
  function NewPasswordUser(id: string, data: Credentials, hash: string -> string): User {
    User(id, data.username, data.email, Some(hash(data.password)), [], [], [], USER, PASSWORD)
  }

  /** The document `createNewGoogleUser` saves: no password, role USER,
      account type GOOGLE. */
  function NewGoogleUser(id: string, email: string, name: string): User {
    User(id, name, email, None, [], [], [], USER, GOOGLE)
  }

  /** `createNewUser`. The save fails with Conflict when the username or the
      new id is taken (the unique index), as it does for any duplicate-key
      error; any other store error is an InternalError. The token is issued
      after the save, so a missing JWT secret fails the call with the user
      stored. */
  method CreateNewUser(db: Database, userData: Credentials, newId: string, hash: string -> string,
                       saveCall: Call, signer: Signer)
    returns (r: Result<TokenResponse>)
    requires db.Valid()
    modifies db
    ensures db.Valid()
    ensures db.orders == old(db.orders) && db.addresses == old(db.addresses)
    ensures db.products == old(db.products) && db.productOrder == old(db.productOrder)
    ensures var saveError := SaveError(newId in old(db.users) || UsernameTaken(old(db.users), userData.username), saveCall);
      var u := NewPasswordUser(newId, userData, hash);
      && (saveError.Some? ==> r == Failure(saveError.value) && db.users == old(db.users))
      && (saveError.None? ==> db.users == old(db.users)[newId := u] && r == IssueToken(signer, u, db.products))
  {
    var hashedPassword := hash(userData.password);
    var newUser := User(newId, userData.username, userData.email, Some(hashedPassword), [], [], [], USER, PASSWORD);
    var saveError := SaveError(newId in db.users || UsernameTaken(db.users, userData.username), saveCall);
    if saveError.Some? {
      return Failure(saveError.value);
    }
    InsertUserKeepsValid(db.users, newUser);
    db.users := db.users[newId := newUser];
    r := IssueToken(signer, newUser, db.products);
  }

  predicate GoogleAccountExists(users: map<string, User>, email: string) {
    exists id :: id in users && users[id].email == email && users[id].accountType == GOOGLE
  }

  /** `createNewGoogleUser`. A rejected token is thrown through unclassified;
      a payload without an email is Unauthorized; an existing GOOGLE account
      with that email is Unauthorized; a failed lookup is an InternalError
      (the existing-account check comes first but sees no document). */
  method CreateNewGoogleUser(db: Database, ticket: GoogleTicket, newId: string,
                             findCall: Call, saveCall: Call, signer: Signer)
    returns (r: Result<TokenResponse>)
    requires db.Valid()
    modifies db
    ensures db.Valid()
    ensures db.orders == old(db.orders) && db.addresses == old(db.addresses)
    ensures db.products == old(db.products) && db.productOrder == old(db.productOrder)
    ensures ticket.Rejected? ==> r == Failure(Uncaught) && db.users == old(db.users)
    ensures ticket.Ticket? && !Defined(ticket.email) ==> r == Failure(Unauthorized) && db.users == old(db.users)
    ensures ticket.Ticket? && Defined(ticket.email) && findCall.Succeeds? && GoogleAccountExists(old(db.users), ticket.email.value) ==>
      r == Failure(Unauthorized) && db.users == old(db.users)
    ensures ticket.Ticket? && Defined(ticket.email) && findCall.Fails? ==>
      r == Failure(InternalError) && db.users == old(db.users)
    ensures ticket.Ticket? && Defined(ticket.email) && findCall.Succeeds? && !GoogleAccountExists(old(db.users), ticket.email.value) ==>
      var saveError := SaveError(newId in old(db.users) || UsernameTaken(old(db.users), ticket.name), saveCall);
      var u := NewGoogleUser(newId, ticket.email.value, ticket.name);
      && (saveError.Some? ==> r == Failure(saveError.value) && db.users == old(db.users))
      && (saveError.None? ==> db.users == old(db.users)[newId := u] && r == IssueToken(signer, u, db.products))
  {
    if ticket.Rejected? {
      return Failure(Uncaught);
    }
    if !Defined(ticket.email) {
      return Failure(Unauthorized);
    }
    var newUserEmail := ticket.email.value;
    if findCall.Succeeds? && GoogleAccountExists(db.users, newUserEmail) {
      return Failure(Unauthorized);
    }
    if findCall.Fails? {
      return Failure(InternalError);
    }
    var newUser := User(newId, ticket.name, newUserEmail, None, [], [], [], USER, GOOGLE);
    var saveError := SaveError(newId in db.users || UsernameTaken(db.users, ticket.name), saveCall);
    if saveError.Some? {
      return Failure(saveError.value);
    }
    InsertUserKeepsValid(db.users, newUser);
    db.users := db.users[newId := newUser];
    r := IssueToken(signer, newUser, db.products);
  }

  /** The user with a given username; unique by the unique index. */
  function FindByUsername(users: map<string, User>, username: string): (r: Option<string>)
    requires UsernamesUnique(users)
    ensures r.Some? <==> UsernameTaken(users, username)
    ensures r.Some? ==> r.value in users && users[r.value].username == username
  {
    if UsernameTaken(users, username) then
      var id :| id in users && users[id].username == username;
      Some(id)
    else None
  }

  /** `signInUser`. An unknown username and a failed lookup are both
      NotFound; an account without a password hash (a Google account) makes
      `bcrypt.compare` throw; a wrong password is Unauthorized. */
  function SignInUser(users: map<string, User>, products: map<string, Product>, userData: Credentials,
                      findCall: Call, compare: (string, string) -> bool, signer: Signer): (r: Result<TokenResponse>)
    requires UsernamesUnique(users)
    ensures findCall.Fails? || !UsernameTaken(users, userData.username) ==> r == Failure(NotFound)
    ensures r.Success? ==>
      exists id :: id in users && users[id].username == userData.username && users[id].password.Some?
        && compare(userData.password, users[id].password.value)
        && r == IssueToken(signer, users[id], products)
    ensures findCall.Succeeds? && UsernameTaken(users, userData.username) ==>
      var u := users[FindByUsername(users, userData.username).value];
      && (u.password.None? ==> r == Failure(Uncaught))
      && (u.password.Some? && compare(userData.password, u.password.value) ==> r == IssueToken(signer, u, products))
      && (u.password.Some? && !compare(userData.password, u.password.value) ==> r == Failure(Unauthorized))
    ensures r.Failure? && r.error == Unauthorized ==>
      exists id :: id in users && users[id].username == userData.username && users[id].password.Some?
        && !compare(userData.password, users[id].password.value)
  {
    var found := FindByUsername(users, userData.username);
    if findCall.Fails? || found.None? then Failure(NotFound)
    else
      var existingUser := users[found.value];
      if existingUser.password.None? then Failure(Uncaught)
      else if !compare(userData.password, existingUser.password.value) then Failure(Unauthorized)
      else IssueToken(signer, existingUser, products)
  }

  /** For the account holding the username: the right password gives its
      token, a wrong one Unauthorized, and no password hash an uncaught
      error. */
  lemma SignInChecksPassword(users: map<string, User>, products: map<string, Product>, userData: Credentials,
                             compare: (string, string) -> bool, signer: Signer, id: string)
    requires UsernamesUnique(users)
    requires id in users && users[id].username == userData.username
    ensures var u := users[id];
      SignInUser(users, products, userData, Succeeds, compare, signer) ==
        if u.password.None? then Failure(Uncaught)
        else if compare(userData.password, u.password.value) then IssueToken(signer, u, products)
        else Failure(Unauthorized)
  {
    assert FindByUsername(users, userData.username) == Some(id);
  }

  /** After a successful sign-up, signing in with the same username and
      password yields a token for the new user, provided `compare` accepts a
      password against its own hash. */
  lemma SignInAfterSignUp(users: map<string, User>, products: map<string, Product>, newId: string,
                          userData: Credentials, hash: string -> string,
                          compare: (string, string) -> bool, signer: Signer)
    requires UsersValid(users)
    requires newId !in users && !UsernameTaken(users, userData.username)
    requires compare(userData.password, hash(userData.password))
    ensures var u := NewPasswordUser(newId, userData, hash);
      UsersValid(users[newId := u]) &&
      SignInUser(users[newId := u], products, userData, Succeeds, compare, signer) == IssueToken(signer, u, products)
  {
    var u := NewPasswordUser(newId, userData, hash);
    InsertUserKeepsValid(users, u);
    var after := users[newId := u];
    assert after[newId].username == userData.username;
    var found := FindByUsername(after, userData.username);
    assert found == Some(newId);
  }

  // ----- Cart and wishlist -----

  /** The two product lists of a user, which the four list services treat
      alike. */
  datatype ListKind = Cart | Wishlist

  function ListOf(u: User, kind: ListKind): seq<string> {
    match kind
    case Cart => u.cart
    case Wishlist => u.wishlist
  }

  /** The user with one of its lists replaced; the other list, the
      addresses and every other field are kept. */
  function WithList(u: User, kind: ListKind, items: seq<string>): (r: User)
    ensures ListOf(r, kind) == items
    ensures r.id == u.id && r.username == u.username && r.email == u.email && r.password == u.password
    ensures r.addresses == u.addresses && r.role == u.role && r.accountType == u.accountType
    ensures kind == Cart ==> r.wishlist == u.wishlist
    ensures kind == Wishlist ==> r.cart == u.cart
  {
    match kind
    case Cart => u.(cart := items)
    case Wishlist => u.(wishlist := items)
  }

  /** Adding an absent product and then removing it gives back the user. */
  lemma AddThenRemoveRestores(u: User, kind: ListKind, productId: string)
    requires productId !in ListOf(u, kind)
    ensures var added := WithList(u, kind, ListOf(u, kind) + [productId]);
      WithList(added, kind, Pull(ListOf(added, kind), productId)) == u
  {
    PullUndoesPush(ListOf(u, kind), productId);
  }

  /** `addCartItem` (kind Cart) and `addWishlistItem` (kind Wishlist). A
      missing user or product is NotFound; a product already on the list is
      a Conflict; a failed update is NotFound; otherwise the product id is
      appended and the populated user returned. */
  method AddListItem(db: Database, kind: ListKind, userId: string, productId: string,
                     userCall: Call, productCall: Call, updateCall: Call)
    returns (r: Result<UserView>)
    requires db.Valid()
    modifies db
    ensures db.Valid()
    ensures db.orders == old(db.orders) && db.addresses == old(db.addresses)
    ensures db.products == old(db.products) && db.productOrder == old(db.productOrder)
    ensures !Resolves(userCall, userId, old(db.users)) || !Resolves(productCall, productId, old(db.products)) ==>
      r == Failure(NotFound) && db.users == old(db.users)
    ensures Resolves(userCall, userId, old(db.users)) && Resolves(productCall, productId, old(db.products)) ==>
      var u := old(db.users)[userId];
      && (productId in ListOf(u, kind) ==> r == Failure(Conflict) && db.users == old(db.users))
      && (productId !in ListOf(u, kind) && updateCall.Fails? ==> r == Failure(NotFound) && db.users == old(db.users))
      && (productId !in ListOf(u, kind) && updateCall.Succeeds? ==>
            var updated := WithList(u, kind, ListOf(u, kind) + [productId]);
            db.users == old(db.users)[userId := updated] && r == Success(ToUserView(updated, db.products)))
  {
    if !(userCall.Succeeds? && userId in db.users) {
      return Failure(NotFound);
    }
    var existingUser := db.users[userId];
    if !(productCall.Succeeds? && productId in db.products) {
      return Failure(NotFound);
    }
    var existingProduct := db.products[productId];
    if existingProduct.id in ListOf(existingUser, kind) {
      return Failure(Conflict);
    }
    if updateCall.Fails? {
      return Failure(NotFound);
    }
    var list := ListOf(existingUser, kind);
    PushKeepsDistinct(list, productId);
    var updatedUser := WithList(existingUser, kind, list + [productId]);
    ReplaceUserKeepsValid(db.users, updatedUser);
    ReplaceUserKeepsLinks(db.users, db.addresses, updatedUser);
    db.users := db.users[userId := updatedUser];
    r := Success(ToUserView(updatedUser, db.products));
  }

  /** `removeCartItem` (kind Cart) and `removeWishlistItem` (kind Wishlist).
      The product must still exist in the catalog; a product not on the list
      is a Conflict; otherwise every occurrence is pulled. */
  method RemoveListItem(db: Database, kind: ListKind, userId: string, productId: string,
                        userCall: Call, productCall: Call, updateCall: Call)
    returns (r: Result<UserView>)
    requires db.Valid()
    modifies db
    ensures db.Valid()
    ensures db.orders == old(db.orders) && db.addresses == old(db.addresses)
    ensures db.products == old(db.products) && db.productOrder == old(db.productOrder)
    ensures !Resolves(userCall, userId, old(db.users)) || !Resolves(productCall, productId, old(db.products)) ==>
      r == Failure(NotFound) && db.users == old(db.users)
    ensures Resolves(userCall, userId, old(db.users)) && Resolves(productCall, productId, old(db.products)) ==>
      var u := old(db.users)[userId];
      && (productId !in ListOf(u, kind) ==> r == Failure(Conflict) && db.users == old(db.users))
      && (productId in ListOf(u, kind) && updateCall.Fails? ==> r == Failure(NotFound) && db.users == old(db.users))
      && (productId in ListOf(u, kind) && updateCall.Succeeds? ==>
            var updated := WithList(u, kind, Pull(ListOf(u, kind), productId));
            db.users == old(db.users)[userId := updated] && r == Success(ToUserView(updated, db.products)))
  {
    if !(userCall.Succeeds? && userId in db.users) {
      return Failure(NotFound);
    }
    var existingUser := db.users[userId];
    if !(productCall.Succeeds? && productId in db.products) {
      return Failure(NotFound);
    }
    var existingProduct := db.products[productId];
    if existingProduct.id !in ListOf(existingUser, kind) {
      return Failure(Conflict);
    }
    if updateCall.Fails? {
      return Failure(NotFound);
    }
    var list := ListOf(existingUser, kind);
    PullKeepsDistinct(list, productId);
    var updatedUser := WithList(existingUser, kind, Pull(list, productId));
    ReplaceUserKeepsValid(db.users, updatedUser);
    ReplaceUserKeepsLinks(db.users, db.addresses, updatedUser);
    db.users := db.users[userId := updatedUser];
    r := Success(ToUserView(updatedUser, db.products));
  }

  // ----- Address book -----

  /** The address fields of a request body. */
  datatype AddressData = AddressData(
    fullName: string, mobileNumber: string, houseNo: string,
    street: string, city: string, postalCode: string)

  function NewAddress(id: string, d: AddressData): Address {
    Address(id, d.fullName, d.mobileNumber, d.houseNo, d.street, d.city, d.postalCode)
  }

  /** `createNewUserAddress`. The first lookup is not wrapped, so its error
      escapes unclassified. A user whose populated address list has
      `MaxAddresses` entries or more gets BadRequest and nothing is saved. The address is saved before it is
      linked to the user, so a failed link leaves it stored but unlinked. */
  method CreateNewUserAddress(db: Database, addressData: AddressData, userId: string, newId: string,
                              lookupCall: Call, saveCall: Call, pushCall: Call)
    returns (r: Result<seq<Address>>)
    requires db.Valid()
    modifies db
    ensures db.Valid()
    ensures db.orders == old(db.orders) && db.products == old(db.products) && db.productOrder == old(db.productOrder)
    ensures lookupCall.Fails? ==> r == Failure(Uncaught) && db.users == old(db.users) && db.addresses == old(db.addresses)
    ensures lookupCall.Succeeds? && userId !in old(db.users) ==>
      r == Failure(NotFound) && db.users == old(db.users) && db.addresses == old(db.addresses)
    ensures lookupCall.Succeeds? && userId in old(db.users)
              && |Populate(old(db.users)[userId].addresses, old(db.addresses))| >= MaxAddresses ==>
      r == Failure(BadRequest) && db.users == old(db.users) && db.addresses == old(db.addresses)
    ensures lookupCall.Succeeds? && userId in old(db.users)
              && |Populate(old(db.users)[userId].addresses, old(db.addresses))| < MaxAddresses ==>
      var saveError := SaveError(newId in old(db.addresses), saveCall);
      var u := old(db.users)[userId];
      && (saveError.Some? ==> r == Failure(saveError.value) && db.users == old(db.users) && db.addresses == old(db.addresses))
      && (saveError.None? ==> db.addresses == old(db.addresses)[newId := NewAddress(newId, addressData)])
      && (saveError.None? && pushCall.Fails? ==> r == Failure(NotFound) && db.users == old(db.users))
      && (saveError.None? && pushCall.Succeeds? ==>
            var updated := u.(addresses := u.addresses + [newId]);
            db.users == old(db.users)[userId := updated]
            && r == Success(Populate(updated.addresses, db.addresses)))
  {
    if lookupCall.Fails? {
      return Failure(Uncaught);
    }
    if userId !in db.users {
      return Failure(NotFound);
    }
    var user := db.users[userId];
    if |Populate(user.addresses, db.addresses)| >= MaxAddresses {
      return Failure(BadRequest);
    }
    PopulatedAddressCount(db.users, db.addresses, userId);
    var newAddress := Address(newId, addressData.fullName, addressData.mobileNumber, addressData.houseNo,
                              addressData.street, addressData.city, addressData.postalCode);
    var saveError := SaveError(newId in db.addresses, saveCall);
    if saveError.Some? {
      return Failure(saveError.value);
    }
    db.addresses := db.addresses[newId := newAddress];
    if pushCall.Fails? {
      return Failure(NotFound);
    }
    var updatedUser := user.(addresses := user.addresses + [newId]);
    ReplaceUserKeepsValid(db.users, updatedUser);
    LinkNewAddress(db.users, db.addresses, userId, newId);
    db.users := db.users[userId := updatedUser];
    r := Success(Populate(updatedUser.addresses, db.addresses));
  }

  /** The body of an address update: the fields it sets. */
  datatype AddressPatch = AddressPatch(
    fullName: Option<string>, mobileNumber: Option<string>, houseNo: Option<string>,
    street: Option<string>, city: Option<string>, postalCode: Option<string>)

  function Patched(old_: string, v: Option<string>): string {
    if v.Some? then v.value else old_
  }

  /** The address after `findByIdAndUpdate` with a patch: the given fields
      are replaced, the others and the id are kept. */
  function ApplyAddressPatch(a: Address, p: AddressPatch): (r: Address)
    ensures r.id == a.id
    ensures r.fullName == (if p.fullName.Some? then p.fullName.value else a.fullName)
    ensures r.mobileNumber == (if p.mobileNumber.Some? then p.mobileNumber.value else a.mobileNumber)
    ensures r.houseNo == (if p.houseNo.Some? then p.houseNo.value else a.houseNo)
    ensures r.street == (if p.street.Some? then p.street.value else a.street)
    ensures r.city == (if p.city.Some? then p.city.value else a.city)
    ensures r.postalCode == (if p.postalCode.Some? then p.postalCode.value else a.postalCode)
  {
    Address(a.id, Patched(a.fullName, p.fullName), Patched(a.mobileNumber, p.mobileNumber),
            Patched(a.houseNo, p.houseNo), Patched(a.street, p.street), Patched(a.city, p.city),
            Patched(a.postalCode, p.postalCode))
  }

  /** Applying the same patch twice is applying it once, and an empty patch
      changes nothing. */
  lemma AddressPatchIdempotent(a: Address, p: AddressPatch)
    ensures ApplyAddressPatch(ApplyAddressPatch(a, p), p) == ApplyAddressPatch(a, p)
    ensures ApplyAddressPatch(a, AddressPatch(None, None, None, None, None, None)) == a
  {
  }

  /** The ownership test of the address services: the user exists and lists
      the address. */
  predicate Owns(users: map<string, User>, userId: string, addressId: string) {
    userId in users && addressId in users[userId].addresses
  }

  /** `updateUserAddress`. The ownership lookup and the final reload are not
      wrapped, so their errors escape unclassified; a user who does not own
      the address gets Unauthorized; the update's error is checked before its
      missing document. */
  method UpdateUserAddress(db: Database, userId: string, addressId: string, patch: AddressPatch,
                           ownerCall: Call, updateCall: Call, reloadCall: Call)
    returns (r: Result<seq<Address>>)
    requires db.Valid()
    modifies db
    ensures db.Valid()
    ensures db.orders == old(db.orders) && db.users == old(db.users)
    ensures db.products == old(db.products) && db.productOrder == old(db.productOrder)
    ensures ownerCall.Fails? ==> r == Failure(Uncaught) && db.addresses == old(db.addresses)
    ensures ownerCall.Succeeds? && !Owns(old(db.users), userId, addressId) ==>
      r == Failure(Unauthorized) && db.addresses == old(db.addresses)
    ensures ownerCall.Succeeds? && Owns(old(db.users), userId, addressId) ==>
      && (updateCall.Fails? ==> r == Failure(InternalError) && db.addresses == old(db.addresses))
      && (updateCall.Succeeds? && addressId !in old(db.addresses) ==>
            r == Failure(NotFound) && db.addresses == old(db.addresses))
      && (updateCall.Succeeds? && addressId in old(db.addresses) ==>
            && db.addresses == old(db.addresses)[addressId := ApplyAddressPatch(old(db.addresses)[addressId], patch)]
            && (reloadCall.Fails? ==> r == Failure(Uncaught))
            && (reloadCall.Succeeds? ==> r == Success(Populate(db.users[userId].addresses, db.addresses))))
  {
    if ownerCall.Fails? {
      return Failure(Uncaught);
    }
    if !Owns(db.users, userId, addressId) {
      return Failure(Unauthorized);
    }
    if updateCall.Fails? {
      return Failure(InternalError);
    }
    if addressId !in db.addresses {
      return Failure(NotFound);
    }
    var updatedAddress := ApplyAddressPatch(db.addresses[addressId], patch);
    db.addresses := db.addresses[addressId := updatedAddress];
    if reloadCall.Fails? {
      return Failure(Uncaught);
    }
    var updatedUser := db.users[userId];
    r := Success(Populate(updatedUser.addresses, db.addresses));
  }

  /** `deleteUserAddress`. The id is pulled from the user's list first and
      the document deleted after; a failed delete is an InternalError with
      the pull already done. */
  method DeleteUserAddress(db: Database, userId: string, addressId: string,
                           ownerCall: Call, pullCall: Call, deleteCall: Call)
    returns (r: Result<seq<Address>>)
    requires db.Valid()
    modifies db
    ensures db.Valid()
    ensures db.orders == old(db.orders) && db.products == old(db.products) && db.productOrder == old(db.productOrder)
    ensures ownerCall.Fails? ==> r == Failure(Uncaught) && db.users == old(db.users) && db.addresses == old(db.addresses)
    ensures ownerCall.Succeeds? && !Owns(old(db.users), userId, addressId) ==>
      r == Failure(Unauthorized) && db.users == old(db.users) && db.addresses == old(db.addresses)
    ensures ownerCall.Succeeds? && Owns(old(db.users), userId, addressId) ==>
      var u := old(db.users)[userId];
      var remaining := Pull(u.addresses, addressId);
      && (pullCall.Fails? ==> r == Failure(InternalError) && db.users == old(db.users) && db.addresses == old(db.addresses))
      && (pullCall.Succeeds? ==> db.users == old(db.users)[userId := u.(addresses := remaining)])
      && (pullCall.Succeeds? && deleteCall.Fails? ==> r == Failure(InternalError) && db.addresses == old(db.addresses))
      && (pullCall.Succeeds? && deleteCall.Succeeds? ==>
            db.addresses == old(db.addresses) - {addressId} && r == Success(Populate(remaining, db.addresses)))
  {
    if ownerCall.Fails? {
      return Failure(Uncaught);
    }
    if !Owns(db.users, userId, addressId) {
      return Failure(Unauthorized);
    }
    if pullCall.Fails? {
      return Failure(InternalError);
    }
    var user := db.users[userId];
    var updatedUser := user.(addresses := Pull(user.addresses, addressId));
    ReplaceUserKeepsValid(db.users, updatedUser);
    UnlinkAddress(db.users, db.addresses, userId, addressId);
    db.users := db.users[userId := updatedUser];
    var listed := Populate(updatedUser.addresses, db.addresses);
    if deleteCall.Fails? {
      return Failure(InternalError);
    }
    db.addresses := db.addresses - {addressId};
    PopulateIgnoresAbsent(updatedUser.addresses, old(db.addresses), addressId);
    r := Success(listed);
  }

  /** Linking a stored address that no user lists to one user keeps the
      links valid. */
  lemma LinkNewAddress(users: map<string, User>, addresses: map<string, Address>, userId: string, newId: string)
    requires AddressLinksValid(users, addresses)
    requires userId in users && newId in addresses
    requires forall id :: id in users ==> newId !in users[id].addresses
    ensures var u := users[userId];
      AddressLinksValid(users[userId := u.(addresses := u.addresses + [newId])], addresses)
  {
    var u := users[userId];
    var after := users[userId := u.(addresses := u.addresses + [newId])];
    forall id, x | id in after && x in after[id].addresses
      ensures x in addresses
    {
      if id == userId && x != newId {
        assert x in u.addresses;
      }
    }
    forall a, b, x | a in after && b in after && x in after[a].addresses && x in after[b].addresses
      ensures a == b
    {
      if x != newId {
        assert a == userId ==> x in users[a].addresses;
        assert b == userId ==> x in users[b].addresses;
      }
    }
  }

  /** Pulling an address from its owner's list and then deleting it keeps
      the links valid at both steps: no other user lists it. */
  lemma UnlinkAddress(users: map<string, User>, addresses: map<string, Address>, userId: string, addressId: string)
    requires AddressLinksValid(users, addresses)
    requires Owns(users, userId, addressId)
    ensures var u := users[userId];
      var after := users[userId := u.(addresses := Pull(u.addresses, addressId))];
      && AddressLinksValid(after, addresses)
      && AddressLinksValid(after, addresses - {addressId})
  {
    var u := users[userId];
    PullMembers(u.addresses, addressId);
    var after := users[userId := u.(addresses := Pull(u.addresses, addressId))];
    forall id, x | id in after && x in after[id].addresses
      ensures x in addresses - {addressId}
    {
      if id != userId {
        assert x in users[id].addresses;
      }
    }
    forall a, b, x | a in after && b in after && x in after[a].addresses && x in after[b].addresses
      ensures a == b
    {
      assert x in users[a].addresses && x in users[b].addresses;
    }
  }

  /** Removing a document that the list does not reference does not change
      the populated list. */
  lemma {:induction false} PopulateIgnoresAbsent<V>(ids: seq<string>, table: map<string, V>, gone: string)
    requires gone !in ids
    ensures Populate(ids, table - {gone}) == Populate(ids, table)
  {
    if ids != [] {
      PopulateIgnoresAbsent(ids[1..], table, gone);
    }
  }
}
