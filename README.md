# ClearLens storefront back end — a Dafny model of its services

ClearLens is an Express/Mongoose storefront. This project models its service layer:
- user accounts: password and Google sign-up, and sign-in;
- carts and wishlists;
- the address book, capped at three addresses per user;
- the product catalog;
- the order lifecycle and the payment-processor hash;
- the sales dashboard;
- the two authentication middlewares;
- the Joi validators of the order endpoints;
- the log-redaction utility.

The store is a `Database` class with five fields, and its `Valid()` invariant is kept by every service method:
- one map per collection, from id to document;
- the natural order of the products collection.

That invariant states:
- every document is filed under its own id;
- usernames are unique (the unique index);
- carts and wishlists hold no duplicates;
- no user has more than three addresses;
- every address a user lists is stored, and no address is listed by two users;
- the catalog and its natural order list the same products.

Each database call is a `Call` parameter, `Succeeds` or `Fails(fault)`.
- A lookup wrapped in `await-to-js` yields a document only when the call succeeds and the key exists (`Common.Resolves`). This is why a lookup error reports NotFound: the missing-document check comes first in the source.
- `Common.SaveError` classifies every `save()`: a duplicate key is a Conflict, any other error an InternalError.
- A call made without `await-to-js`, whose error escapes unclassified, fails with `Uncaught`.

Third-party code becomes function parameters:
- md5;
- `bcrypt.hash` and `bcrypt.compare`;
- `jwt.sign` and `jwt.verify`;
- the S3 upload, as its URL or its error;
- Google's token check.

Environment variables are `Option<string>` parameters. An empty string counts as missing, as JavaScript's truthiness has it. Amounts are integer cents.

Files:
- `common.dfy`: errors, results, store calls, `$pull`, `$push` and `populate`.
- `domain.dfy`: the documents, the collection invariants and the `Database`.
- `payment_hash.dfy`: the payment hash and the amount's decimal rendering.
- `order_service.dfy`: creating an order and recording its payment.
- `dashboard.dfy`: the chart window, the aggregation pipeline, the totals and the counts.
- `authentication.dfy`: `authenticateUser`, `authorizeAdmin` and `generateJwtToken`.
- `user_service.dfy`: accounts, lists and addresses.
- `product_service.dfy`: the catalog.
- `order_validator.dfy`: the two Joi schemas.
- `redact_logs.dfy`: `redactLogData` as a `Redactor` class whose `seen` field is the module-level `WeakSet`.

## Model

| member | source | states |
|---|---|---|
| Common.SaveError | src/services/user/user.service.ts:43-54 | A save fails exactly when the key is taken or the call fails. It is a Conflict exactly for a taken key or a duplicate-key fault, and an InternalError for any other fault. |
| Common.Pull | src/services/user/user.service.ts:353-358 | `$pull` leaves no occurrence of the id. The result is no longer than the list, and a list without the id is unchanged. |
| Common.PullMembers | src/services/user/user.service.ts:353-358 | After `$pull`, an element is in the list exactly when it was there before and is not the pulled id. |
| Common.PullUndoesPush | src/services/user/user.service.ts:353-358 | Pulling an id that was just pushed onto a list without it gives back the list. |
| Common.PullKeepsDistinct | src/services/user/user.service.ts:553-557 | `$pull` keeps a duplicate-free list duplicate-free. |
| Common.PushKeepsDistinct | src/services/user/user.service.ts:244-255 | A `$push` guarded by the "already in list" check keeps the list duplicate-free. |
| Common.Populate | src/services/user/user.service.ts:492 | `populate` is never longer than the id list. When every id exists it is exactly the documents, in list order. |
| Domain.ReplaceUserKeepsValid | src/databases/schema/user.schema.ts:7-11 | Replacing a user by one with the same id and username, duplicate-free lists and at most three addresses keeps usernames unique and every collection invariant. |
| Domain.ReplaceUserKeepsLinks | src/databases/schema/user.schema.ts:33-38 | Replacing a user by a document with the same address list keeps every listed address stored and each listed by one user. |
| Domain.PopulatedAddressCount | src/services/user/user.service.ts:454-462 | When every listed address is stored, `populate('addresses')` loses none, so the populated count the cap is tested on is the stored count. |
| Domain.InsertUserKeepsValid | src/databases/schema/user.schema.ts:7-11 | Inserting a user with a fresh id, a free username and empty lists keeps the users collection valid. |
| PaymentHash.NatToDecimal | src/shared/helpers/payment-hash.helper.ts:13 | The rendering of a whole number is a non-empty digit string whose decimal value is the number. |
| PaymentHash.FormatAmount | src/shared/helpers/payment-hash.helper.ts:13 | The amount has no grouping comma and ends in a point and exactly two digits. |
| PaymentHash.ParseFormatAmount | src/shared/helpers/payment-hash.helper.ts:13 | Reading back the formatted amount gives the amount in cents, negative amounts included. |
| PaymentHash.FormatAmountInjective | src/shared/helpers/payment-hash.helper.ts:13 | Different amounts are never formatted alike. |
| PaymentHash.FormatWholeAmount | src/shared/helpers/payment-hash.helper.ts:13 | `n` whole units are written as the digits of `n` followed by ".00". |
| PaymentHash.FormatMillion | src/shared/helpers/payment-hash.helper.ts:13 | One million is "1000000.00": no grouping separators survive. |
| PaymentHash.Upper | src/shared/helpers/payment-hash.helper.ts:12 | `toUpperCase` on an md5 hex digest: the result has the same length, is upper-case hex, and each digit keeps its value. |
| PaymentHash.UpperKeepsUpperHex | src/shared/helpers/payment-hash.helper.ts:12 | An upper-case hex string is unchanged by upper-casing. |
| PaymentHash.HashIsUpperHex | src/shared/helpers/payment-hash.helper.ts:4-16 | With the merchant credentials set and md5 yielding lower-case hex, the hash succeeds and is an upper-case hex string as long as the digest. |
| PaymentHash.HashPaymentDetails | src/shared/helpers/payment-hash.helper.ts:4-16 | InternalError exactly when the merchant id or secret is missing or empty. Otherwise the result is the upper-cased md5 of merchant id, order id, amount, "LKR" and the upper-cased md5 of the secret, in that order. |
| PaymentHash.HashInputBindsOrderAndAmount | src/shared/helpers/payment-hash.helper.ts:15 | For one merchant and order ids of equal length, equal hash inputs mean the same order and the same amount. |
| PaymentHash.HashDependsOnAmount | src/shared/helpers/payment-hash.helper.ts:13-15 | For one merchant and order, different amounts give different hash inputs. |
| OrderService.SnapshotItems | src/services/order/order.service.ts:50-53 | The order keeps one line per requested item, in request order, holding its product and quantity. |
| OrderService.NewOrderShape | src/services/order/order.service.ts:43-54 | A new order has status PROCESS and payment PENDING, and keeps the requested amount, address id, buyer and date. Its items match the request's items one by one. |
| OrderService.WithPaymentStatus | src/services/order/order.service.ts:78-84 | Only the payment status of the one order changes. Every other order and field is kept. |
| OrderService.PaymentStatusIdempotent | src/services/order/order.service.ts:78-84 | Writing the same payment status twice is writing it once. |
| OrderService.InitializeNewOrder | src/services/order/order.service.ts:18-72 | A missing user or address, or a failed lookup, is NotFound and stores nothing. A save error is classified and stores nothing. Otherwise the new order is stored and the result carries the order and its payment hash. A hash failure is reported with the order already stored. |
| OrderService.CompleteOrderPayment | src/services/order/order.service.ts:75-118 | A missing order, or a failed update, is NotFound. Otherwise the status is written, and on SUCCESS the owner's cart is emptied and the owner returned. A missing owner is NotFound, with the status already written. |
| Dashboard.FromIndex | src/services/dashboard/dashboard.service.ts:47 | The month built from a month index has that index, across year boundaries. |
| Dashboard.FromIndexOfMonthIndex | src/services/dashboard/dashboard.service.ts:47 | Month index and month are inverse. |
| Dashboard.MonthsBefore | src/services/dashboard/dashboard.service.ts:46-52 | The month `j` months back stays in the same year when the month number exceeds `j`, and wraps into December of the year before otherwise. |
| Dashboard.WindowShape | src/services/dashboard/dashboard.service.ts:44-53 | The chart's months are six consecutive months, oldest first and ending with the current month. Each is labelled with its short name, and the wrap into the previous year is written out. |
| Dashboard.WindowEntry | src/services/dashboard/dashboard.service.ts:44-53 | Window entry `k` is the month `5 - k` months before the current one, with its short name; before a year boundary it is in the same year, and after it in the previous year with 12 added to the month number. |
| Dashboard.TrailingMonths | src/services/dashboard/dashboard.service.ts:44-53 | The loop with `i` from 5 down to 0 builds exactly that window. |
| Dashboard.MatchStage | src/services/dashboard/dashboard.service.ts:14-19 | `$match` keeps exactly the paid orders dated on or after the first month of the window, in order. |
| Dashboard.MatchStageExact | src/services/dashboard/dashboard.service.ts:14-19 | An order survives `$match` exactly when it is in the collection, paid, and dated on or after the window start. |
| Dashboard.GroupKeys | src/services/dashboard/dashboard.service.ts:20-28 | `$group` yields each year and month of the matched orders once. |
| Dashboard.GroupKeysExact | src/services/dashboard/dashboard.service.ts:20-28 | A month has a group exactly when some matched order is dated in it. |
| Dashboard.FindInGroups | src/services/dashboard/dashboard.service.ts:55-58 | Looking a month up among the groups finds its sum when the month has a group, and nothing otherwise. |
| Dashboard.NoKeyNoSales | src/services/dashboard/dashboard.service.ts:20-28 | A month with no group has no sales. |
| Dashboard.MatchedMonthSum | src/services/dashboard/dashboard.service.ts:12-36 | Within the window, the aggregated sum of a month is that month's paid sales in the whole collection. |
| Dashboard.AggregationSales | src/services/dashboard/dashboard.service.ts:12-36 | For a month in the window, the value the chart reads from the aggregation (the group's sum, or 0 when there is no group) is that month's paid sales. |
| Dashboard.ChartEntry | src/services/dashboard/dashboard.service.ts:55-63 | Chart entry `k` has the label of the `k`-th window month and that month's paid sales. |
| Dashboard.ChartIsMonthlySales | src/services/dashboard/dashboard.service.ts:55-63 | The chart has six entries. Entry `k` has the label of the `k`-th window month and that month's paid sales, and 0 when the month has no group. |
| Dashboard.ChartTotalIsSumMonths | src/services/dashboard/dashboard.service.ts:55-63 | A chart whose first `n` entries hold the paid sales of `n` consecutive months adds up, over those entries, to the sum of those months' sales. |
| Dashboard.ChartSumsToWindowSales | src/services/dashboard/dashboard.service.ts:55-63 | The six chart values add up to the paid sales of the six months. |
| Dashboard.NoPaidOrderNoSales | src/services/dashboard/dashboard.service.ts:65-70 | Without a paid order the paid total is 0. |
| Dashboard.SalesCountIsSuccessTotal | src/services/dashboard/dashboard.service.ts:93 | `totalSales[0]?.total \|\| 0` is the sum over all paid orders, including when none exists and the aggregation is empty. |
| Dashboard.PaymentRaisesTotal | src/services/dashboard/dashboard.service.ts:65-70 | Marking an unpaid order SUCCESS raises the sales total by exactly its amount. |
| Dashboard.CountCompleted | src/services/dashboard/dashboard.service.ts:76-78 | The completed count is at most the number of orders, and equals it exactly when every order is COMPLETED. |
| Dashboard.CountCompletedIgnoresPayment | src/services/dashboard/dashboard.service.ts:76-78 | Changing an order's payment status leaves the completed count unchanged. |
| Dashboard.CountCustomers | src/services/dashboard/dashboard.service.ts:84-86 | The customer count is at most the number of users, and equals it exactly when every user has role USER. |
| Dashboard.MonthlyChart | src/services/dashboard/dashboard.service.ts:12-63 | The chart has six entries, one per window month, each labelled and holding that month's paid sales, and the entries add up to the paid sales of the window. |
| Dashboard.GetDashboardData | src/services/dashboard/dashboard.service.ts:7-100 | Succeeds exactly when all four store calls do, and any failure is an InternalError. The sales count is the paid total, with the completed and customer counts. The chart has six entries, each a month's label and paid sales, and they add up to the window's paid sales. |
| Authentication.Split | src/shared/middlewares/authentication.middleware.ts:27 | `split` yields at least one segment and none contains the separator. There are at least two when the separator occurs. |
| Authentication.JoinSplit | src/shared/middlewares/authentication.middleware.ts:27 | Joining the segments gives back the header. |
| Authentication.BearerToken | src/shared/middlewares/authentication.middleware.ts:21-27 | A token is extracted exactly when the header is present and starts with "Bearer ", and it contains no space. |
| Authentication.BearerTokenOf | src/shared/middlewares/authentication.middleware.ts:27 | The token of "Bearer t", or of "Bearer t …", is `t`. |
| Authentication.Authenticate | src/shared/middlewares/authentication.middleware.ts:17-36 | A missing secret is InternalError before the header is read. A missing or malformed header is Unauthorized, and so is a token that does not verify. Otherwise the result is the id, email and role the token carries. |
| Authentication.AuthenticateUser | src/shared/middlewares/authentication.middleware.ts:12-37 | On success `req.user` is the decoded identity and the chain goes on. On failure `req.user` is untouched and the error is the one above. |
| Authentication.AuthorizeAdmin | src/shared/middlewares/authentication.middleware.ts:39-48 | Passes exactly when a user is attached whose role is "ADMIN", and fails Unauthorized otherwise. |
| Authentication.GenerateJwtToken | src/shared/helpers/auth.helper.ts:5-15 | InternalError exactly when the secret is missing. Otherwise the result is the user's id, email and role, signed with the secret. |
| Authentication.IssuedTokenAuthenticates | src/shared/helpers/auth.helper.ts:9-14 | A token issued for a user, presented as "Bearer <token>", authenticates as that user (given `verify` inverts `sign`). The admin gate then passes exactly for ADMIN users. |
| UserService.IssueToken | src/services/user/user.service.ts:56-57 | Fails with InternalError exactly when the JWT secret is missing. Otherwise the response carries the user's view and the token signed over its id, email and role. |
| UserService.CreateNewUser | src/services/user/user.service.ts:29-58 | A taken username or id, or a duplicate-key fault, is a Conflict, and any other save error an InternalError. Neither stores anything. Otherwise the user is stored with a hashed password, role USER, type PASSWORD and empty lists, and a token is issued; a missing secret fails after the save. |
| UserService.CreateNewGoogleUser | src/services/user/user.service.ts:61-114 | A rejected Google token escapes unclassified. A payload without an email is Unauthorized, and so is an existing GOOGLE account with that email. A failed lookup is InternalError. Otherwise the save is classified as for sign-up and a GOOGLE user without a password is stored. |
| UserService.FindByUsername | src/services/user/user.service.ts:121-129 | Finds a user exactly when the username is taken, and the user found has that username. |
| UserService.SignInUser | src/services/user/user.service.ts:117-146 | An unknown username or a failed lookup is NotFound. An account without a password throws unclassified. For the account holding the username, a password that matches its hash yields that user's token and one that does not is Unauthorized; conversely, success and Unauthorized each imply that case. |
| UserService.SignInChecksPassword | src/services/user/user.service.ts:117-146 | For any account holding the username and a successful lookup: no password hash throws unclassified, the right password gives that account's token, a wrong one gives Unauthorized. |
| UserService.SignInAfterSignUp | src/services/user/user.service.ts:131-145 | After a successful sign-up, signing in with the same username and password yields the new user's token. |
| UserService.WithList | src/services/user/user.service.ts:250-255 | Updating the cart leaves the wishlist, the addresses and every other field unchanged, and the other way round. |
| UserService.AddThenRemoveRestores | src/services/user/user.service.ts:353-358 | Adding an absent product and then removing it gives back the user. |
| UserService.AddListItem | src/services/user/user.service.ts:223-324 | `addCartItem` and `addWishlistItem`. A missing user or product, or a failed lookup, is NotFound. A product already in the list is a Conflict. A failed update is NotFound. Otherwise the product is appended to that list only and the populated user returned. Nothing else changes. |
| UserService.RemoveListItem | src/services/user/user.service.ts:327-428 | `removeCartItem` and `removeWishlistItem`. A missing user or product is NotFound, so a deleted product cannot be removed. A product not in the list is a Conflict. Otherwise every occurrence is pulled from that list only and the populated user returned. |
| UserService.CreateNewUserAddress | src/services/user/user.service.ts:449-504 | An unwrapped lookup error escapes unclassified. A missing user is NotFound. Three or more addresses in the populated list is BadRequest with nothing saved. A save error is classified. Otherwise the address is stored, and once linked the populated list is returned; a failed link is NotFound with the address stored. |
| UserService.ApplyAddressPatch | src/services/user/user.service.ts:518-522 | The patched address keeps its id. Each field is the patch's value when given and the old value otherwise. |
| UserService.AddressPatchIdempotent | src/services/user/user.service.ts:518-522 | Applying a patch twice is applying it once, and an empty patch changes nothing. |
| UserService.UpdateUserAddress | src/services/user/user.service.ts:507-539 | An unwrapped ownership error escapes. A user who does not list the address is Unauthorized. An update error is InternalError and a missing address NotFound. Otherwise the address is patched and the user's populated list returned. The user's list never changes. |
| UserService.LinkNewAddress | src/services/user/user.service.ts:466-493 | Pushing a stored address that no user lists onto one user's list keeps every listed address stored and each listed by one user. |
| UserService.UnlinkAddress | src/services/user/user.service.ts:553-568 | Pulling an address from its owner's list keeps the links valid, and so does deleting the address after the pull. |
| UserService.DeleteUserAddress | src/services/user/user.service.ts:542-571 | Ownership is as for update. A failed pull is InternalError with nothing changed. Otherwise the id is pulled from the user, then the address deleted; a failed delete is InternalError after the pull. The result is the remaining addresses. |
| UserService.PopulateIgnoresAbsent | src/services/user/user.service.ts:564-570 | Deleting a document the list no longer references leaves the populated list unchanged, so the list read before the delete is the one after. |
| ProductService.ProductViewDropsOnlyTrending | src/shared/models/DTO/productResponseDTO.ts:17-33 | Two products have the same response exactly when they differ at most in `trending`: the response drops that field and keeps every other. |
| ProductService.RetrieveProductById | src/services/product/product.service.ts:36-52 | Found exactly when the lookup succeeds and the id exists, and then the result is the product's response. Every failure, a store error included, is NotFound. |
| ProductService.RetrieveAfterCreate | src/services/product/product.service.ts:71-94 | A product stored by `createNewProduct` reads back with the request's fields and the uploaded image's URL. |
| ProductService.FirstProducts | src/services/product/product.service.ts:57 | `limit(n)` gives the first `n` products of the natural order, or all of them when fewer exist. |
| ProductService.RetrieveTrendingProducts | src/services/product/product.service.ts:55-68 | A store error is InternalError. Otherwise the result is the responses of the first four products of the natural order, whatever their `trending` flag. There are fewer when the catalog is smaller, and none when it is empty. |
| ProductService.TrendingIgnoresFlag | src/services/product/product.service.ts:55-68 | The trending response does not depend on the `trending` flag: flipping it on any product gives the very same response. |
| ProductService.CreateNewProduct | src/services/product/product.service.ts:71-94 | An upload error ends the call with nothing stored. A save error is classified and stores nothing. Otherwise the product is stored with the uploaded URL as its image and appended to the natural order. |
| ProductService.ApplyProductPatch | src/services/product/product.service.ts:101-108 | The patched product keeps its id. The image is the new URL when one was uploaded. Every other field is the patch's value when given and the old value otherwise. |
| ProductService.ProductPatchIdempotent | src/services/product/product.service.ts:106-108 | Applying the same patch twice is applying it once. |
| ProductService.UpdateProduct | src/services/product/product.service.ts:97-117 | An upload error ends the call with nothing changed. An update error is InternalError, checked before the missing product, which is NotFound. Otherwise only that product is patched, and the natural order is kept. |
| ProductService.DeleteProduct | src/services/product/product.service.ts:120-130 | A store error is InternalError, checked before the missing product, which is NotFound. Otherwise the product leaves the collection and the natural order. |
| ProductService.DeletedProductNotShown | src/services/product/product.service.ts:120-130 | After a delete, a cart or wishlist that still lists the product never shows it when populated. |
| OrderValidator.ParseStatus | src/shared/validators/order.joi.validator.ts:25-27 | A status name is accepted exactly when it is PENDING, SUCCESS or FAILED, and it names that status. |
| OrderValidator.CreateOrderAccepts | src/shared/validators/order.joi.validator.ts:3-21 | A create-order body is accepted exactly when the amount is at least 1, the address id has 24 characters and there is at least one item. Every item must have a 24-character product id and a quantity of at least 1. |
| OrderValidator.CompletePaymentAccepts | src/shared/validators/order.joi.validator.ts:23-28 | A complete-payment body is accepted, for every status including PENDING, exactly when the id has 24 characters. |
| OrderValidator.DecodeCompletePayment | src/shared/validators/order.joi.validator.ts:23-28 | An accepted body yields its id and the status its name stands for. |
| OrderValidator.DecodeEncodeCompletePayment | src/shared/validators/order.joi.validator.ts:23-28 | Encoding an id and a status and decoding the body gives them back. |
| OrderValidator.UnknownKeys | src/shared/validators/order.joi.validator.ts:3-21 | A key outside the schema makes a create-order body invalid, while extra keys inside `address` are let through. |
| RedactLogs.Redact | src/services/logger/utils/redact-logs.utils.ts:7-32 | Primitives and falsy values come back unchanged. An object or array already seen is "[CIRCULAR]", and a model object "[MONGOOSE MODEL]". Arrays keep their length, and objects keep their keys in order. The seen set only grows and now holds the value. |
| RedactLogs.RedactItems | src/services/logger/utils/redact-logs.utils.ts:19-21 | The mapped array has one entry per item, and the seen set only grows. |
| RedactLogs.RedactItemsAt | src/services/logger/utils/redact-logs.utils.ts:20 | Item `k` of the copy is item `k` redacted with the objects seen in the items before it. |
| RedactLogs.RedactFields | src/services/logger/utils/redact-logs.utils.ts:23-31 | The copy has the object's keys in order, and every sensitive key's value is the redacted marker. |
| RedactLogs.RedactFieldsAt | src/services/logger/utils/redact-logs.utils.ts:25-29 | A non-sensitive key holds its value redacted with the objects seen in the keys before it. |
| RedactLogs.SecondVisitIsCircular | src/services/logger/utils/redact-logs.utils.ts:5-12 | The seen set is never cleared, so an object redacted once is "[CIRCULAR]" on every later visit, in the same call or a later one. |
| RedactLogs.Redactor.RedactLogData | src/services/logger/utils/redact-logs.utils.ts:7-32 | The recursive method with its key loop returns the redacted copy and leaves the seen set as the specification function says. |

## Left out

- Third-party code is a parameter or an uninterpreted function: md5, bcrypt, `jwt.sign`/`jwt.verify`, the S3 upload and Google's token check. The JWT's one-day expiry is a clock matter and is not modelled.
- Clocks: `new Date()` is the `now` parameter, one value for the whole dashboard call. The dashboard does not model:
  - the time of day of the window's first day (the source keeps the current time on the 1st);
  - `setMonth` overflow on the 29th–31st;
  - the difference between UTC in `$year`/`$month` and local time in the month list.
- The dashboard's `$sort` stage is left out. The chart looks groups up by year and month, so their order does not affect it.
- Floating point: amounts are integer cents.
  - PaymentHash.FormatAmount: does not model `toLocaleString` rounding to three fraction digits or amounts with more than two.
  - OrderValidator: models quantities and amounts as reals, without Joi's conversion of numeric strings or its unsafe-number rule.
- Concurrency and atomicity: each service runs alone against the store. The multi-step services (address create and delete, order payment) are modelled step by step, with partial effects when a later step fails, but no interleaving.
- Mongoose schema effects are not modelled:
  - required-field validation and `runValidators`;
  - strict-mode dropping of fields the schema does not list.

  Two consequences are visible in the source. Google users are saved without the password that the user schema requires (src/databases/schema/user.schema.ts:13-16). The schema has no `accountType` field, so what the GOOGLE lookup in `createNewGoogleUser` matches depends on the Mongoose version, which the source does not fix. With `strictQuery` on (the Mongoose 6 default) the unknown filter path is stripped, and the lookup matches any account with that email. Otherwise it matches no stored user. The model follows the service code as written: the schema is assumed to accept both the missing password and `accountType`, and the lookup filters on both email and account type.
- Dead checks: the `userError ?? productError` test after the not-found checks can never fire, because the model keeps the order the source checks in.
- The `MongooseErrors.MongoServerError` operand of every save check is a constant from an enum file that is not part of this model. The model assumes it is truthy, so every save error is classified. A falsy member, such as a numeric enum value 0, would make the services ignore save errors.
- The read-only listing and lookup services are not part of this model: `retrieveUsers` and `retrieveProducts` (paging), `retrieveUserById`, `retrieveUserAddresses` and `signinWithGoogle`. The order functions the controller imports but that the order service does not define are not part of this model either.
- The controllers, the router, the Joi middleware glue and the Express error handler are not part of this model. `Uncaught` stands for whatever that handler makes of an unclassified error.
- ProductService.UpdateProduct: does not model the write of the uploaded URL back into the caller's request object.
- RedactLogs: an object is a list of fields, and the model does not exclude repeated keys, which a JavaScript object cannot have. On such a list the model keeps every field, where the source's `redactedData[key]` would keep only the last.
- RedactLogs: object identity is a reference number, and `for...in` order is the field order given. The following are not modelled:
  - the `WeakSet`'s garbage collection;
  - inherited enumerable keys;
  - class instances other than Mongoose models.

  The sensitive-key list and the redaction marker come from enum files that are not part of this model, so they are the `Config` parameter.
- PaymentHash.HashInputBindsOrderAndAmount: is stated for order ids of equal length (MongoDB ids all have 24 characters). Two ids of different lengths could in principle shift the concatenation.
- PaymentHash.Upper: upper-cases ASCII letters only. It matches JavaScript's `toUpperCase` on md5's hex output, not on other text (`toUpperCase` also maps letters such as 'é', and turns 'ß' into two characters).
- String lengths, such as the Joi `.length(24)` of order ids (OrderValidator.IsIdString), count Unicode scalar values, not JavaScript's UTF-16 code units. The two differ only outside the Basic Multilingual Plane.
- UserService.CreateNewGoogleUser: takes the Google payload's `name` as always present.
- ProductService.RetrieveTrendingProducts: requires the natural order to list only existing products, which the `Database` invariant guarantees.
