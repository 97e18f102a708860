# A verified model of the e-commerce backend's core

This project models the core of the heetpro/e-commerce backend in Dafny and proves properties of it. The backend is an Express and Mongoose service: accounts, products, orders and the guards in front of them. The MongoDB collections become in-memory maps and sequences. Each request handler becomes a function of the stored state, or a method on a class that holds those collections.

- **Order placement** (`createOrder`) is `Catalog.Catalog.PlaceOrder`. Its first loop looks up each line, checks stock, snapshots the item and sums the total. That loop is `Catalog.Catalog.CheckItems`, proved against the recursive specification `OrderController.Quote`. Then comes the insert. Its second loop decrements stock: `Catalog.Catalog.DecrementStock`, proved against `OrderController.ApplyDecrements`. The other order handlers are modelled too: `getOrderById` as written and its evidently intended owner-or-admin rule, the unconditional status overwrite of `updateOrderStatus`, the own-orders list and the paginated listing of all orders.
- **The product catalogue**:
  - the admin check of `createProduct`;
  - not-found handling in `getProductById`;
  - the validate-then-merge of `updateProduct`;
  - the filter of `getAllProducts`. It is built field by field from the optional query values, and the filters combine by conjunction.
  - The filtered products are sorted newest first, then skipped and taken. `Paging` holds the `page`/`limit`/`skip`/`pages` arithmetic; `getAllOrders` shares it.
- **Access decisions**:
  - `authenticate`: strip the first `"Bearer "`, verify the token, look up the user.
  - `authorize(...roles)`.
  - Both appear as decision functions, and as methods on an `Exchange` object that records `req.user`, the response status and the calls to `next`.
  - The three router files are static tables. They are matched first-match in registration order, as Express does.
- **Accounts**: `register` and `login` (as written and as evidently intended) as methods on an `Accounts` class. It holds the user collection with its unique email index. The public user projection is modelled, and so is the pre-save hook that hashes the password only when it was modified.
- **Input validation**:
  - every `validate*` chain of the validation middleware, as a list of field checks;
  - `handleValidationErrors`;
  - the `validateFileUpload` loop, as a method;
  - the Mongoose schema constraints and defaults of users, products, reviews and orders.

Several things are parameters:
- token signing and verification (`sign`, `verify`);
- password hashing and comparison (`hash`, `compare`);
- the express-validator built-ins whose rules are not visible (`isEmail`, `isMongoId`, `isURL`).

No property of these is assumed. Where a lemma needs one, such as `verify(sign(i)) == Some(i)`, it is a `requires` of that lemma. Prices, totals and ratings are `real`, so they are exact. Stock and quantities are `int`.

Modules, in dependency order:
- `Wrappers`: `Option` and `Result`.
- `Text`: JavaScript's `\s`, `trim`, ASCII lower-casing, substring search, first-occurrence `replace`, decimal numerals.
- `Types`: the entities and their enumerations.
- `Paging`.
- `OrderSchema`, `ProductSchema`, `UserSchema`.
- `AuthMiddleware`, `AuthController`.
- `OrderController`, `ProductController`.
- `Catalog`, `Validation`, `Routes`.

## Model

| member | source | states |
|---|---|---|
| Types.ParseRole | src/types/index.ts:6 | a role string is accepted exactly when it is "user" or "admin", and the parsed role prints back as the same string |
| Types.ParseStatus | src/types/index.ts:41 | an order status string is accepted exactly when it is one of the five lifecycle names, and round-trips |
| Types.ParsePaymentMethod | src/types/index.ts:43 | a payment method string is accepted exactly when it is one of the four method names, and round-trips |
| Types.ParsePaymentStatus | src/types/index.ts:44 | a payment status string is accepted exactly when it is pending, paid or failed, and round-trips |
| Types.EnumerationRoundTrips | src/types/index.ts:6-44 | parsing the printed name of every role, status, payment method and payment status gives back that value |
| Types.Snapshot | src/types/index.ts:51-56 | an order item copies the product's id, name and price at the time of the snapshot, with the requested quantity |
| Types.PublicView | src/controllers/authController.ts:30-35 | the user projection sent to clients carries exactly the id, name, email and role; there is no password field |
| Types.WithoutPassword | src/middleware/auth.ts:23 | the user attached to the request is the stored user without its password: id, name, email, role, addresses, ip and both dates kept |
| Text.TrimStart | src/middleware/validation.ts:40 | the result is no longer than the input, starts with a non-whitespace character or is empty, and everything removed is whitespace |
| Text.TrimEnd | src/middleware/validation.ts:40 | the result is no longer than the input, ends with a non-whitespace character or is empty, and everything removed is whitespace |
| Text.TrimIsMaximalSlice | src/middleware/validation.ts:40 | `trim` keeps a slice of the input surrounded only by whitespace, and the slice neither starts nor ends with whitespace |
| Text.TrimIdempotent | src/models/Product.ts:32 | trimming a trimmed string changes nothing |
| Text.LowerChar | src/models/User.ts:43 | ASCII capitals map to their lower-case letters, every other character is kept, and no ASCII capital is left |
| Text.Lower | src/models/User.ts:43 | lower-casing keeps the length and lower-cases character by character |
| Text.LowerIdempotent | src/models/User.ts:43 | lower-casing a lower-cased string changes nothing |
| Text.IndexOfFrom | src/middleware/auth.ts:12 | the index found is the first occurrence at or after the start position; none is found only when there is no occurrence there |
| Text.ContainsIff | src/controllers/productController.ts:31-44 | a string contains a needle exactly when the needle occurs in it at some position |
| Text.ReplaceFirst | src/middleware/auth.ts:12 | `replace` with a string pattern splices the replacement in for the first occurrence only, and leaves the string alone when there is none |
| Paging.Params | src/controllers/productController.ts:24-26 | an absent or zero page becomes 1 and an absent or zero limit becomes 10; other values are used as given, negatives included; skip is (page-1) times limit |
| Paging.PageCount | src/controllers/productController.ts:70 | `pages` is the ceiling of total over limit: for a positive limit, (pages-1)·limit < total <= pages·limit, and pages is 0 exactly when total is 0 |
| Paging.Window | src/controllers/productController.ts:56-57 | skip-then-limit returns the elements from position `skip` on, at most the limit's magnitude of them; a negative skip is refused |
| Paging.InsertNewestFirst | src/controllers/productController.ts:55 | inserting into a newest-first list keeps it newest first and adds exactly that element |
| Paging.SortNewestFirst | src/controllers/productController.ts:55 | the sort by `createdAt` descending is ordered newest first and is a permutation of its input |
| Paging.SortKeepsMembers | src/controllers/productController.ts:55 | sorting neither adds nor drops an element |
| Paging.Filter | src/controllers/productController.ts:54 | the selection keeps every element the query accepts, only such elements, and adds none |
| Paging.FilterCounts | src/controllers/productController.ts:54 | the selection holds every copy of a document the query accepts and no copy of one it refuses |
| Paging.SelectedWindow | src/controllers/productController.ts:53-57 | every element of a page was selected and the page is newest first |
| Paging.ListPage | src/controllers/productController.ts:24-70 | a page carries page and limit as computed, total counts all selected elements, pages is the ceiling quotient, and the items are at most limit selected elements, newest first, after skip |
| OrderSchema.NewOrder | src/models/Order.ts:54-76 | a created order has status pending, payment status pending, an empty tracking URL, and all dates set to the creation time |
| OrderSchema.LineTotalNonNegative | src/models/Order.ts:49-53 | lines with non-negative prices and quantities sum to a non-negative total |
| OrderSchema.TotalledLinesMakeValidOrder | src/models/Order.ts:13-53 | a non-empty list of valid items, totalled line by line, with a complete address, makes an order the schema accepts |
| OrderSchema.ValidOrder | src/models/Order.ts:39-62 | defines what the order validators accept: a non-empty item list of valid items, a non-negative total and a complete shipping address |
| ProductSchema.NewProduct | src/models/Product.ts:28-77 | `create` trims name, category and brand and takes every supplied path as sent, ratings, reviews and both dates included; the defaults (stock 0, ratings 0/0, no reviews, dates now) fill only the paths left out; a missing price makes no document |
| ProductSchema.ApplyPatch | src/controllers/productController.ts:98-102 | supplied fields overwrite (the trimmed ones trimmed), ratings, reviews and `createdAt` included; every other field is kept, and `updatedAt` is set |
| ProductSchema.PatchPreservesValidity | src/controllers/productController.ts:98-102 | a patch that passes the update validators, those of supplied ratings and reviews included, keeps a valid product valid |
| ProductSchema.ValidProduct | src/models/Product.ts:28-77 | defines what the product validators accept: a required name of at most 100 characters and description of at most 2000, a required category and brand, non-negative price and stock, non-empty image strings, ratings within their bounds and valid reviews |
| ProductSchema.PatchValid | src/controllers/productController.ts:98-102 | defines what `runValidators` checks on an update: the rules of each supplied path only, after the trim setters |
| ProductSchema.PatchIdempotent | src/controllers/productController.ts:98-102 | applying the same patch twice equals applying it once at the later time |
| ProductSchema.EmptyPatchTouchesOnlyUpdatedAt | src/controllers/productController.ts:100 | an empty body changes nothing but `updatedAt` |
| UserSchema.MatchedEmailFitsPattern | src/models/User.ts:44-47 | the executable email check implies the shape "non-empty local part, @, non-empty domain, dot, non-empty suffix", with no whitespace or further @ |
| UserSchema.PatternEmailMatches | src/models/User.ts:44-47 | every string of that shape passes the executable email check |
| UserSchema.MatchesEmailIsPattern | src/models/User.ts:44-47 | the executable email check and the pattern agree on every string |
| UserSchema.NewUser | src/models/User.ts:32-66 | a created user has the trimmed name, the lower-cased email, the given password and ip, role user, no addresses, and both dates stamped |
| UserSchema.NewUserValidIff | src/models/User.ts:33-54 | the schema accepts a created user exactly when the trimmed name has 1 to 50 characters, the lower-cased email fits the pattern and the password has at least 6 characters |
| UserSchema.ValidUser | src/models/User.ts:32-66 | defines what the user validators accept: a name of at most 50 characters, an email fitting the pattern, a password of at least 6 characters and valid addresses |
| UserSchema.UserDocument.constructor | src/models/User.ts:69-75 | a new document has its password marked modified |
| UserSchema.UserDocument.SetPassword | src/models/User.ts:69-75 | assigning a password marks it modified and changes nothing else |
| UserSchema.UserDocument.PreSave | src/models/User.ts:69-75 | the hook hashes the password exactly when it was modified, and otherwise leaves the record alone |
| UserSchema.UserDocument.Save | src/models/User.ts:69-75 | saving hashes a modified password once and clears the modified mark; an unmodified password is stored unchanged |
| UserSchema.SaveTwice | src/models/User.ts:69-75 | saving twice hashes the password exactly once |
| AuthMiddleware.BearerHeaderYieldsToken | src/middleware/auth.ts:12 | a header "Bearer t" yields the token t |
| AuthMiddleware.HeaderWithoutBearerIsToken | src/middleware/auth.ts:12 | a header with no "Bearer " in it is itself the token |
| AuthMiddleware.InnerBearerIsRemoved | src/middleware/auth.ts:12 | the first "Bearer " is removed wherever it occurs, not only at the start |
| AuthMiddleware.AuthenticateDecision | src/middleware/auth.ts:10-43 | every rejection of `authenticate` is a 401 |
| AuthMiddleware.AuthenticateOutcomes | src/middleware/auth.ts:14-34 | a missing or empty token is refused with the no-token message; the request goes on exactly when the token verifies to an id that names a stored user, and then carries that user without its password |
| AuthMiddleware.IssuedTokenAuthenticates | src/middleware/auth.ts:12-34 | a signed token for a stored user, sent as "Bearer …", authenticates as that user |
| AuthMiddleware.AuthorizeDecision | src/middleware/auth.ts:45-66 | no user gives 401, checked before the role; with a user, the answer is 403 exactly when its role is not among those allowed |
| AuthMiddleware.Exchange.constructor | src/middleware/auth.ts:10 | a fresh exchange has no user, no response and no call to `next` |
| AuthMiddleware.Exchange.Authenticate | src/middleware/auth.ts:10-43 | on success `req.user` is set and `next` is called once, with no response status or message; otherwise the response is 401 with the decision's message and `next` is not called |
| AuthMiddleware.Exchange.Authorize | src/middleware/auth.ts:45-66 | `req.user` is not changed; `next` is called once when allowed, with no response status or message; otherwise the response carries the denial's status and message |
| AuthController.IndexedEmailsUnique | src/models/User.ts:42 | under the unique email index no two stored users share an email |
| AuthController.LoginOutcome | src/controllers/authController.ts:40-79 | the login as evidently intended: a missing email or password gives 400, before any lookup; an unknown email gives "Invalid credentials"; a failing password comparison gives "Password is incorrect"; otherwise the session carries the user's public view and a token signed for that user's id |
| AuthController.LoginOutcomeAsWritten | src/controllers/authController.ts:40-79 | as written: a missing email or password gives 400 and an unknown email "Invalid credentials", as intended; for every known email the password comparison throws, so no login succeeds |
| AuthController.RegisteredUserCanLogIn | src/controllers/authController.ts:12-79 | after registration, logging in with the same email and a password that compares equal gives the new user's session |
| AuthController.RegisteredUserLoginThrowsAsWritten | src/controllers/authController.ts:50-57 | the freshly registered user who logs in under the intended rule gets the thrown comparison error as written |
| AuthController.LoginAsWrittenAgreesBeforeCompare | src/controllers/authController.ts:40-55 | the as-written and the intended login give the same answer whenever the request fails before the comparison |
| AuthController.ProfileOf | src/controllers/authController.ts:81-89 | the profile exists exactly when the id is stored, and is that whole stored user without its password: id, name, email, role, addresses, ip and both dates |
| AuthController.Accounts.constructor | src/controllers/authController.ts:12 | an empty user collection satisfies the index invariant |
| AuthController.Accounts.Register | src/controllers/authController.ts:12-38 | an email already stored gives "User already exists" and nothing is added; otherwise exactly one user is added, with the given name, email, ip and the hashed password, and the session carries its public view and a token for its id; a user the schema refuses adds nothing |
| AuthController.Accounts.Login | src/controllers/authController.ts:40-79 | logging in as written answers what `LoginOutcomeAsWritten` decides on the stored users |
| AuthController.Accounts.LoginIntended | src/controllers/authController.ts:40-79 | the intended login answers what `LoginOutcome` decides on the stored users |
| AuthController.Accounts.GetProfile | src/controllers/authController.ts:81-89 | the profile read answers what `ProfileOf` decides on the stored users: the whole stored user without its password |
| OrderController.QuoteSucceedsIff | src/controllers/orderController.ts:15-29 | the pricing pass succeeds exactly when every line names a stored product whose stock covers the requested quantity |
| OrderController.Quote | src/controllers/orderController.ts:12-41 | defines the first pass of `createOrder` on a prefix of the lines: a missing product stops it with 404, a short stock with 400 naming the product, and each passing line appends its snapshot and adds price times quantity |
| OrderController.FinishOrder | src/controllers/orderController.ts:44-52 | defines the insert after the pass: a failed pass keeps its error; a missing shipping address, an unknown payment method or an order the schema refuses is a validation error; otherwise the new order is built with the schema's defaults |
| OrderController.PlaceOrderOutcome | src/controllers/orderController.ts:8-67 | defines the answer of `createOrder` on the stored products: the pass over the lines, then the insert |
| OrderController.QuoteSnapshots | src/controllers/orderController.ts:12-41 | on success there is one snapshot per line, in request order, and the total equals both the sum of price times quantity over the request and the sum over the snapshots |
| OrderController.QuoteSuccess | src/controllers/orderController.ts:12-41 | both directions of when the pass succeeds, and what it yields when it does |
| OrderController.QuoteFirstFailure | src/controllers/orderController.ts:16-29 | on failure, the first failing line in request order decides the error: "Product not found" when its product is missing, otherwise insufficient stock naming the product |
| OrderController.QuoteStep | src/controllers/orderController.ts:15-41 | one loop iteration: a failing line stops the pass with its error; a passing line appends its snapshot and adds its cost to the total |
| OrderController.QuoteFailureSticks | src/controllers/orderController.ts:17-29 | once a prefix of the lines fails, the whole pass fails with the same error |
| OrderController.PlacedOrderContents | src/controllers/orderController.ts:8-67 | a placed order belongs to the requester, is pending with payment pending and an empty tracking URL, keeps the given address and payment method, holds one snapshot per line, has as total the sum of price times quantity, and is valid for the schema |
| OrderController.PlaceOrderSucceedsIff | src/controllers/orderController.ts:8-67 | placement succeeds exactly when the request is non-empty, every line passes the stock check, every snapshot is a valid item, the address is complete and the payment method is one of the four |
| OrderController.QuotedItemsValidIff | src/models/Order.ts:13-30 | the snapshots of passing lines are valid items exactly when each quantity is at least 1, each name non-empty and each price non-negative |
| OrderController.LineErrorsComeFirst | src/controllers/orderController.ts:15-44 | when some line fails its check, the answer is that line's 404 or 400, never a schema rejection of the insert |
| OrderController.DecrementEffect | src/controllers/orderController.ts:54-59 | after the second loop each product's stock has fallen by the total quantity requested for it; products not named are unchanged and no product is added or removed |
| OrderController.ApplyDecrements | src/controllers/orderController.ts:54-59 | defines the second loop: `$inc: { stock: -quantity }` for each line, in request order, leaving an id with no product alone |
| OrderController.RequestedDistinct | src/controllers/orderController.ts:54-59 | with distinct product ids, the quantity requested for a product is its own line's quantity, or 0 when no line names it |
| OrderController.DistinctLinesKeepStock | src/controllers/orderController.ts:24-59 | with distinct product ids, a passed request leaves every stock non-negative |
| OrderController.DuplicateLinesOversell | src/controllers/orderController.ts:24-59 | two lines of quantity 1 for a product with stock 1 both pass the check, and the stock ends at -1 |
| OrderController.ReservingBoundsRequests | src/controllers/orderController.ts:24 | the corrected pass, which checks each line against the stock what the earlier lines left, succeeds only when the total asked of each product is at most its stock |
| OrderController.QuoteReserving | src/controllers/orderController.ts:15-41 | defines the corrected pass: like `Quote`, but each line is checked against the stock the earlier lines of the same request left |
| OrderController.ReservingNeverOversells | src/controllers/orderController.ts:24-59 | the corrected pass never lets a stock fall below zero |
| OrderController.ReservingAgreesOnDistinct | src/controllers/orderController.ts:15-41 | on requests with distinct product ids the corrected pass answers as the original one does |
| OrderController.OrderAccess | src/controllers/orderController.ts:88-101 | the rule as evidently intended: a missing order gives 404, checked first; a requester who is neither the owner nor an admin gets 403; the owner or an admin gets the order; nothing throws |
| OrderController.OrderAccessAsWritten | src/controllers/orderController.ts:82-109 | as written: a missing order gives 404, checked first; an order whose owner no stored user matches throws for every requester; otherwise only an admin gets the order and every other requester, the owner included, gets 403 |
| OrderController.OwnerRefusedAsWritten | src/controllers/orderController.ts:84-101 | a customer asking for their own order gets 403 as written and the order under the intended rule |
| OrderController.DeletedOwnerThrowsAsWritten | src/controllers/orderController.ts:84-96 | an admin asking for an order whose owner was deleted makes the code as written throw, where the intended rule grants the order |
| OrderController.AsWrittenAccessWithinIntended | src/controllers/orderController.ts:82-109 | whatever the code as written grants, the intended rule grants the same way; the two agree on a missing order and on an admin asking for an order whose owner exists |
| OrderController.ApplyStatusUpdate | src/controllers/orderController.ts:112-137 | the update sets the given status, the tracking URL or "" when none is given, and `updatedAt`, and keeps every other field |
| OrderController.StatusOverwriteIgnoresHistory | src/controllers/orderController.ts:115-123 | the updated order does not depend on the previous status or tracking URL |
| OrderController.AllOrdersPage | src/controllers/orderController.ts:141-168 | the page and limit used are echoed, total counts all orders, pages is the ceiling quotient, and the page holds at most limit orders, newest first, after skip |
| OrderController.OwnOrders | src/controllers/orderController.ts:70-80 | the list holds exactly the requester's orders, each as many times as it is stored and no other order, newest first |
| ProductController.CreateProductOutcome | src/controllers/productController.ts:6-21 | a non-admin requester is refused with 401 and nothing is built; an admin's product is created exactly when the schema accepts the built document, under the new id, with stock non-negative and valid ratings; the ratings are the sent ones, or 0/0 when none are sent, and there are no reviews unless the body sends some |
| ProductController.ProductLookup | src/controllers/productController.ts:79-94 | a missing id gives 404; otherwise the stored product is returned |
| ProductController.UpdateProductOutcome | src/controllers/productController.ts:97-118 | a patch the update validators refuse is rejected; otherwise a missing id gives 404; otherwise the result is the stored product with the patch applied |
| ProductController.BuildQuery | src/controllers/productController.ts:29-50 | each filter is set exactly when its query value is given and non-empty; the price range is set when either bound is given |
| ProductController.FilterSemantics | src/controllers/productController.ts:29-50 | a product is selected exactly when it satisfies each given filter: category and brand by case-insensitive containment, search in the name or the description, and the inclusive price bounds |
| ProductController.PriceBoundsInclusive | src/controllers/productController.ts:46-50 | a product priced exactly at both bounds is selected |
| ProductController.NoFiltersSelectAll | src/controllers/productController.ts:29 | with no filters every product is selected |
| ProductController.CategoryCaseInsensitive | src/controllers/productController.ts:31-33 | lower-casing the category query does not change the selection |
| ProductController.ListProducts | src/controllers/productController.ts:23-75 | the page holds at most limit selected products, newest first, after skip; total counts every selected product, not just the page; pages is the ceiling quotient |
| Catalog.InIdOrder | src/controllers/productController.ts:53-54 | the stored products listed in id order, which is insertion order |
| Catalog.Catalog.constructor | src/models/Product.ts:28 | an empty store with no products and no orders |
| Catalog.Catalog.CheckItems | src/controllers/orderController.ts:12-41 | the first loop of `createOrder` computes exactly the pricing pass on the current stock |
| Catalog.Catalog.DecrementStock | src/controllers/orderController.ts:54-59 | the second loop leaves the products as `ApplyDecrements` says and touches nothing else |
| Catalog.Catalog.PlaceOrder | src/controllers/orderController.ts:8-67 | the answer is the order outcome on the stored products; on success it is appended to the orders and stock is decremented; on any failure neither orders nor stock change |
| Catalog.Catalog.PlaceOrderReserving | src/controllers/orderController.ts:24-59 | the corrected placement: the same effects, and stock that was non-negative stays non-negative |
| Catalog.Catalog.GetOrderById | src/controllers/orderController.ts:82-109 | the answer is the as-written decision on the stored order and the stored users |
| Catalog.Catalog.GetOrderByIdIntended | src/controllers/orderController.ts:88-101 | the answer is the intended owner-or-admin decision on the stored order |
| Catalog.Catalog.UpdateOrderStatus | src/controllers/orderController.ts:112-137 | an unknown id answers not found and changes nothing; otherwise the stored order is replaced by the updated one and nothing else changes |
| Catalog.Catalog.GetOrders | src/controllers/orderController.ts:70-80 | the answer is `OwnOrders` on the stored orders: each of the requester's orders as many times as it is stored, newest first |
| Catalog.Catalog.GetAllOrders | src/controllers/orderController.ts:141-168 | the answer is the page of all orders |
| Catalog.Catalog.CreateProduct | src/controllers/productController.ts:6-21 | the answer is the create outcome under the next id; on success exactly that product is added; on failure nothing changes |
| Catalog.Catalog.GetProductById | src/controllers/productController.ts:79-94 | the answer is the lookup in the stored products |
| Catalog.Catalog.UpdateProduct | src/controllers/productController.ts:97-118 | the answer is the update outcome; on success only that product is replaced; on failure nothing changes |
| Catalog.Catalog.GetAllProducts | src/controllers/productController.ts:23-75 | the answer is the product page over the stored products in insertion order |
| Validation.Errors | src/middleware/validation.ts:26 | the collected errors are empty exactly when every check passes |
| Validation.ErrorsListFailures | src/middleware/validation.ts:26-31 | every failing check is reported with its field and message, and every reported error comes from a failing check |
| Validation.ErrorsAppend | src/middleware/validation.ts:26 | the errors of two chains in sequence are the errors of the first followed by those of the second |
| Validation.HandleValidationErrors | src/middleware/validation.ts:25-35 | with errors the answer is 400 "Validation failed" listing all of them; without errors `next` is called |
| Validation.RunChain | src/middleware/validation.ts:25-35 | a chain calls `next` exactly when every one of its checks passes, and otherwise reports all collected errors |
| Validation.ValidNameIff | src/middleware/validation.ts:39-44 | a name passes exactly when, after trimming, it has 2 to 50 characters, all ASCII letters or whitespace; a passing name starts and ends with a letter |
| Validation.FirstLine | src/middleware/validation.ts:52 | the first line is the prefix before the first line terminator |
| Validation.LookaheadOnFirstLine | src/middleware/validation.ts:52 | a lookahead `(?=.*[c])` finds a class character exactly when one occurs before the first line terminator |
| Validation.ValidPasswordIff | src/middleware/validation.ts:49-53 | a password passes exactly when it has at least 6 characters and its first line holds a lower-case letter, an upper-case letter and a digit |
| Validation.SingleLinePasswordIff | src/middleware/validation.ts:49-53 | a password without line breaks passes exactly when it has at least 6 characters and holds a lower-case letter, an upper-case letter and a digit |
| Validation.SecondLineDoesNotCount | src/middleware/validation.ts:52 | a capital after a line break is not seen by the lookahead, so "abcdef\nA1" is refused |
| Validation.ZipUnpadded | src/middleware/validation.ts:179-182 | a ZIP code without surrounding whitespace passes exactly when it is 5 to 10 ASCII digits |
| Validation.ZipLowerBound | src/middleware/validation.ts:181 | five digits pass and four do not |
| Validation.ZipUpperBound | src/middleware/validation.ts:181 | ten digits pass and eleven do not |
| Validation.ZipLetterRefused | src/middleware/validation.ts:181 | a letter among the digits is refused |
| Validation.RegistrationChainIff | src/middleware/validation.ts:38-55 | registration passes exactly when the name, the email and the password rules all hold |
| Validation.LoginChainIff | src/middleware/validation.ts:57-66 | login passes exactly when the email is an email and the password is non-empty |
| Validation.ProfileUpdateChainIff | src/middleware/validation.ts:282-296 | a profile update passes exactly when each supplied field obeys its rule |
| Validation.PasswordChangeChainIff | src/middleware/validation.ts:299-316 | a password change passes exactly when the current password is given and non-empty, the new one obeys the password rules, and the confirmation equals the new password |
| Validation.ProductChainImpliesSchema | src/middleware/validation.ts:69-101 | a product body that passes the chain, once sanitised, makes a product the schema accepts exactly when the ratings and reviews it carries are valid, since the chain does not check those |
| Validation.OptionalTrimmedLength | src/middleware/validation.ts:103-113 | an optional trimmed-length rule passes exactly when the value is absent or its trimmed length is in range |
| Validation.OptionalAtLeast | src/middleware/validation.ts:114-117 | an optional lower bound passes exactly when the value is absent or at least the bound |
| Validation.OptionalIntAtLeast | src/middleware/validation.ts:128-131 | an optional integer lower bound passes exactly when the value is absent or at least the bound |
| Validation.OptionalImages | src/middleware/validation.ts:132-140 | optional images pass exactly when absent, or a non-empty list of non-blank strings |
| Validation.UpdateChainImpliesSchema | src/middleware/validation.ts:103-142 | a product update that passes the chain, once sanitised, passes the schema's update validators of every field the chain names, and passes them all exactly when its ratings and reviews are valid |
| Validation.ReviewChainImpliesSchema | src/middleware/validation.ts:145-154 | a review that passes the chain has an integral rating and, with its comment trimmed, is a review the schema accepts |
| Validation.AddressChainIff | src/middleware/validation.ts:205-227 | an address passes exactly when street, city, state, ZIP code and country each obey their rule |
| Validation.AcceptedAddressIsComplete | src/middleware/validation.ts:205-227 | an accepted address, trimmed, has all five fields the schema requires |
| Validation.EachProductId | src/middleware/validation.ts:161-163 | the wildcard product-id rule makes one check per item, in item order, each reported under its own indexed path `items[k].product` |
| Validation.EachQuantity | src/middleware/validation.ts:164-166 | the wildcard quantity rule makes one check per item, in item order, each reported under its own indexed path `items[k].quantity` |
| Validation.EachProductIdOk | src/middleware/validation.ts:161-163 | the product-id checks pass exactly when every item's product id is an id |
| Validation.EachQuantityOk | src/middleware/validation.ts:164-166 | the quantity checks pass exactly when every item's quantity is an integer of at least 1 |
| Validation.ItemsPresentCheck | src/middleware/validation.ts:158-160 | the items rule passes exactly when the items are a non-empty array |
| Validation.PaymentMethodCheck | src/middleware/validation.ts:187-189 | the payment-method rule passes exactly when the value is one of the four method names |
| Validation.OrderChainIff | src/middleware/validation.ts:157-191 | an order body passes exactly when items is a non-empty array of valid ids and integer quantities of at least 1, the address passes and the payment method is one of the four |
| Validation.OrderStatusChainIff | src/middleware/validation.ts:193-202 | a status update passes exactly when the status is one of the five names and any tracking URL is a URL |
| Validation.MongoIdChainIff | src/middleware/validation.ts:230-235 | an id parameter passes when it is an id, and otherwise the answer reports "Invalid ID format" on `id` |
| Validation.PaginationChainIff | src/middleware/validation.ts:238-248 | paging passes exactly when any page is an integer of at least 1 and any limit an integer from 1 to 100 |
| Validation.BlankCategoryRefused | src/middleware/validation.ts:251-255 | a category query of blanks trims to nothing and is refused |
| Validation.EmptyQueryPasses | src/middleware/validation.ts:250-279 | a query with no parameters passes |
| Validation.Flatten | src/middleware/validation.ts:335 | flattening the per-field file groups keeps exactly the files of the groups |
| Validation.FlattenAppend | src/middleware/validation.ts:335 | flattening keeps the order of the groups: the files of earlier groups come before those of later ones |
| Validation.FlattenSingle | src/middleware/validation.ts:335 | a single group flattens to itself, in its own order |
| Validation.FirstProblem | src/middleware/validation.ts:338-354 | defines the loop's verdict on a list of files: next when no file has a problem, otherwise the problem of the first file that has one |
| Validation.UploadVerdict | src/middleware/validation.ts:319-355 | defines the whole middleware: 400 "No file uploaded" when neither `file` nor `files` is present, otherwise the verdict on the collected files |
| Validation.RegistrationChecks | src/middleware/validation.ts:38-55 | defines `validateRegistration`: the name, email and password rules in declaration order |
| Validation.LoginChecks | src/middleware/validation.ts:57-66 | defines `validateLogin`: an email and a non-empty password |
| Validation.ProfileUpdateChecks | src/middleware/validation.ts:282-296 | defines `validateProfileUpdate`: the name and email rules, each only when the field is sent |
| Validation.PasswordChangeChecks | src/middleware/validation.ts:299-316 | defines `validatePasswordChange`: the current password, the new password's rules and the confirmation |
| Validation.ProductChecks | src/middleware/validation.ts:69-101 | defines `validateProduct`: the eight rules on name, description, price, category, brand, stock and images |
| Validation.ProductUpdateChecks | src/middleware/validation.ts:103-142 | defines `validateProductUpdate`: the product rules, each only for a field that is sent |
| Validation.ReviewChecks | src/middleware/validation.ts:145-154 | defines `validateReview`: an integer rating from 1 to 5 and a trimmed comment of 5 to 500 characters |
| Validation.AddressChecks | src/middleware/validation.ts:205-227 | defines `validateAddress`, and the address part of `validateOrder` under the `shippingAddress.` prefix: the five address rules |
| Validation.OrderChecks | src/middleware/validation.ts:157-191 | defines `validateOrder`: the items array, the wildcard item rules, the shipping address and the payment method |
| Validation.OrderStatusChecks | src/middleware/validation.ts:193-202 | defines `validateOrderStatus`: one of the five statuses, and a URL only when a tracking URL is sent |
| Validation.MongoIdChecks | src/middleware/validation.ts:230-235 | defines `validateMongoId`: the id parameter must be an id |
| Validation.PaginationChecks | src/middleware/validation.ts:238-248 | defines `validatePagination`: an optional page of at least 1 and an optional limit from 1 to 100 |
| Validation.ProductQueryChecks | src/middleware/validation.ts:250-279 | defines `validateProductQuery`: the optional category, brand, search, price-bound and sort rules |
| Validation.FileProblem | src/middleware/validation.ts:339-351 | a file is fine exactly when its type is one of the four allowed and its size is at most 5 MiB; a bad type is reported before the size |
| Validation.ValidateFileUpload | src/middleware/validation.ts:319-355 | the upload check's loop answers what `UploadVerdict` decides |
| Validation.FirstProblemIff | src/middleware/validation.ts:338-352 | the loop calls `next` exactly when every file is fine, and otherwise reports the problem of the first bad file |
| Validation.UploadVerdictIff | src/middleware/validation.ts:319-355 | no file at all gives "No file uploaded"; otherwise `next` is called exactly when every collected file is fine, and a refusal names the first bad file's problem |
| Validation.SingleFileTakesPrecedence | src/middleware/validation.ts:332-336 | with a single `file`, `files` is ignored |
| Validation.UploadBoundaries | src/middleware/validation.ts:327-351 | a GIF is refused for its type even when also too large; exactly 5 MiB passes; one byte more is refused for its size |
| Validation.EmptyFileListPasses | src/middleware/validation.ts:320-354 | an empty `files` list is present, so nothing is checked and `next` is called |
| Routes.Dispatch | src/routes/orders.ts:8-12 | the route chosen is the first registered one whose verb and path match, and none is chosen only when no route matches |
| Routes.RunGuards | src/routes/orders.ts:8-12 | defines the middleware chain of a route: the guards run left to right, and the first that stops the request answers |
| Routes.AuthRoutes | src/routes/auth.ts:8-10 | defines the auth router in registration order: register and login unguarded, profile behind `authenticate` |
| Routes.OrderRoutes | src/routes/orders.ts:8-12 | defines the order router in registration order, with `/all` before `/:id` |
| Routes.ProductRoutes | src/routes/products.ts:9-14 | defines the product router in registration order, with the writes behind `authenticate` then `authorize('admin')` |
| Routes.NoGuardsPass | src/routes/products.ts:9-10 | an unguarded route reaches its handler as the request came |
| Routes.AuthenticatePasses | src/routes/auth.ts:10 | behind `authenticate` alone the handler is reached exactly when authentication succeeds, and then with that user; otherwise the answer is 401 |
| Routes.AdminOnlyPasses | src/routes/orders.ts:10 | behind `authenticate` then `authorize('admin')`, the handler is reached exactly when authentication succeeds and the user is an admin; failed authentication gives 401, another role 403 |
| Routes.OrderRoutesAuthenticate | src/routes/orders.ts:8-12 | every order route starts with `authenticate` |
| Routes.OrderHandlersSeeAuthenticatedUser | src/routes/orders.ts:8-12 | every order handler is reached only with the authenticated user, and a failed authentication gives 401 |
| Routes.OrderRoleGuards | src/routes/orders.ts:8-12 | exactly listing all orders and updating a status need the admin role; every other order route needs only authentication |
| Routes.OrderByIdAnyRole | src/routes/orders.ts:11 | `GET /:id` for any id other than "all" reaches `getOrderById` behind authentication alone, for any role |
| Routes.AllOrdersShadowsId | src/routes/orders.ts:10-11 | `GET /all`, in any letter case, is dispatched to `getAllOrders`, never to `getOrderById` |
| Routes.ProductReadsUnguarded | src/routes/products.ts:9-10 | the product GET routes carry no guard, so every request reaches them |
| Routes.ProductWritesAdminOnly | src/routes/products.ts:11-13 | exactly create, update and delete sit behind `authenticate` then `authorize('admin')` |
| Routes.ReviewsNeedAuthenticationOnly | src/routes/products.ts:14 | posting a review needs authentication only, for any role |
| Routes.CreateProductRefusalUnreachable | src/controllers/productController.ts:7-12 | behind the route's admin guard, the handler's own non-admin refusal can never be reached |
| Routes.AuthRouteGuards | src/routes/auth.ts:8-10 | register and login are unguarded, profile needs `authenticate`, and no auth route needs a role |
| Routes.HandlersDistinct | src/routes/orders.ts:8-12 | no handler is registered twice across the three routers |

## Left out

- Process start-up, the database connection, environment configuration and the framework middleware (helmet, cors, rate limiting, logging). These are I/O and library setup.
- JSON parsing and the shape of request bodies. Body fields arrive already typed: strings, optional values and the `Num` variants for numeric fields.
- The textual forms `isInt`/`isFloat` accept, and `parseInt`/`parseFloat` on query strings. Numbers arrive already parsed. `Num` distinguishes absent, not a number and a number.
- Floating-point rounding of prices, totals and ratings. They are exact `real` values.
- The express-validator built-ins `isEmail`, `normalizeEmail`, `isMongoId` and `isURL`. Their rules are not visible, so they are function parameters. `normalizeEmail`'s rewriting of the address is not modelled.
- Token signing and verification, and password hashing and comparison. These are function parameters. Token expiry and the distinction between a thrown error and a verification failure are not modelled; both give 401 with their own message.
- User-supplied filter strings in `getAllProducts` are compiled as regular expressions. They are modelled as literal substrings matched with ASCII case folding. Regular-expression syntax and Unicode case folding are not modelled.
- `populate` joins, except for their effect on the owner test of `getOrderById` (see Findings). Responses carry ids where the source carries the joined documents.
- The password field is `select: false` (src/models/User.ts:53). `authenticate` drops it once more with `select('-password')` (src/middleware/auth.ts:23). `getProfile`'s `findById` (src/controllers/authController.ts:82) has no projection and hides the password through `select: false` alone; `ProfileOf` returns the user without it. The `findOne` of `login` does not ask for it back either, so `comparePassword` gets an undefined hash and the comparison throws: no stored user can log in as written (see Findings). `LoginOutcome` models the evidently intended login, which compares against the stored hash.
- Text.Lower: folds ASCII capitals only. Mongoose's `lowercase` setter (src/models/User.ts:43) uses JavaScript's full Unicode `toLowerCase`, so "É@x.com" and "é@x.com" are one account in the source and two in the model.
- Text.LowerChar: maps ASCII capitals only, for the same reason.
- UserSchema.NewUser: the stored email is folded by Text.Lower, ASCII only.
- UserSchema.NewUserValidIff: inherits the ASCII-only folding. It also counts the name and password lengths in code points, where Mongoose's `maxlength` and `minlength` (src/models/User.ts:36, 52) count UTF-16 units: "😀😀😀" is three characters here and six units there, so the source accepts it as a password and the model does not.
- AuthController.LoginOutcome: the lookup key is folded by Text.Lower, ASCII only, where the source's query setter folds the full Unicode way.
- AuthController.LoginOutcomeAsWritten: the same ASCII-only lookup key.
- AuthController.Accounts.Register: email uniqueness is decided on the ASCII-folded key, so two emails that differ only in a non-ASCII capital are two accounts here and one in the source.
- AuthController.Accounts.Login: the same ASCII-only lookup key as `LoginOutcomeAsWritten`.
- AuthController.Accounts.LoginIntended: the same ASCII-only lookup key as `LoginOutcome`.
- Validation.ProductChainImpliesSchema: holds for lengths counted in code points. The product and review caps of the schema (src/models/Product.ts:20, 33, 38) count UTF-16 units, and the counting of the chains' `isLength` is not visible, so text outside the Basic Multilingual Plane is not compared.
- Paging.ListPage: documents with equal `createdAt` are ordered here in the order they were stored, because `SortNewestFirst` is a stable insertion sort. `.sort({ createdAt: -1 })` (src/controllers/productController.ts:55, src/controllers/orderController.ts:150) leaves the order of such ties to MongoDB, which does not fix it, so consecutive skip/limit pages of the source may repeat or miss a tied document. `ProductController.ListProducts` and `OrderController.AllOrdersPage` inherit this: their `items` conjunct fixes one tie order that the source does not promise. Ties can happen because dates default to the current millisecond and `createProduct` stores a supplied `createdAt`. The own-orders list (src/controllers/orderController.ts:74) is not affected: the contract of `OrderController.OwnOrders` states only the newest-first order and the counts, which hold for every order of ties.
- Catalog.Catalog.PlaceOrder: quantities and stock are integers (`LineRequest.quantity`, `Product.stock`). No router mounts the order chain `validateOrder` (src/middleware/validation.ts:157; the order route at src/routes/orders.ts:8 has only `authenticate` in front of `createOrder`), so the source takes a fractional quantity such as 1.5, checks it against the stock and lowers the stock by 1.5 with `$inc`. `OrderController.Quote` and `OrderController.ApplyDecrements` do not model fractional quantities either.
- ProductSchema.NewProduct: a supplied `ratings` object is taken whole. A partial one, such as only an average, is not filled up with the nested defaults. Supplied reviews are taken whole too, without the review sub-schema's `createdAt` default. A supplied `_id` is not modelled; ids come from the store.
- ProductSchema.ApplyPatch: a supplied `ratings` object replaces the stored one whole, and a supplied `reviews` list replaces the stored list.
- `countDocuments` is modelled as the length of the selection.
- The `asyncHandler` and `errorHandler` middleware are not part of this model. A schema rejection, or an error a handler throws, is modelled as an error value without a status.
- Races between concurrent requests. Every request runs alone, start to finish.
- `addReview` and `deleteProduct` are imported by the product router but not defined in the product controller. They appear only as route-table handlers. Review uniqueness and rating recomputation are not modelled.
- `login` and `updateOrderStatus` are not exported by their controllers although the routers import them. They are modelled as the routers use them.
- `updateOrderStatus` writes the body's status without the schema's enum check (`findByIdAndUpdate` without `runValidators`). The model takes the status as an already valid `OrderStatus`.
- Routing details beyond first-match on verb and path: HEAD requests, trailing slashes, and URL decoding of parameters are left out. Literal segments match with ASCII case folding.
- Body values of the wrong JSON type, such as a non-string image or a missing register field, are outside the typed model.
- Routes.Dispatch: proved for the three routers' tables, not for Express's full path-to-regexp syntax.
- `register` answers an email already taken with 401 "User already exists" (src/controllers/authController.ts:15-21), and the model keeps that status.
- The product image validator is declared on the array's element type (src/models/Product.ts:61-69), so it refuses an empty string and accepts an empty list; the model keeps both.

## Findings

| source | as written | input that shows it | evidently intended | confidence | as-written member | corrected member |
|---|---|---|---|---|---|---|
| src/controllers/orderController.ts:24, 54-59 | each line's quantity is checked against the stock as it was before the order, so several lines for the same product are never checked together, and the decrement loop then subtracts them all | a product with stock 1 and the items `[{product, quantity: 1}, {product, quantity: 1}]`: both checks pass and stock ends at -1 | the stock check counts what the earlier lines of the same order already took, so the stock never goes below zero | not executed | OrderController.DuplicateLinesOversell | OrderController.ReservingNeverOversells |
| src/controllers/orderController.ts:84-101 | `populate('user', 'name email')` replaces `order.user` by the owner's document, or by null when that user is gone; the owner test then compares the document's printed form with the requester's id, which never matches, or throws on null | a customer asking for their own order gets 403 "Access denied"; anyone, an admin too, asking for an order whose user was deleted gets a thrown TypeError | the owner or an admin gets the order, compared by the owner's id | not executed | OrderController.OwnerRefusedAsWritten | OrderController.OrderAccess |
| src/controllers/authController.ts:50-57 | the password path is `select: false` (src/models/User.ts:53) and `findOne({ email })` does not ask for it back, so `comparePassword` hands `bcrypt.compare` an undefined hash, which it rejects | a registered user logging in with the right email and password: the comparison throws and no session is answered | the lookup loads the stored hash, and a matching password logs in | not executed | AuthController.RegisteredUserLoginThrowsAsWritten | AuthController.LoginOutcome |
