# E-commerce cart, catalogue and auth rules in Dafny

This project models the core logic of a small e-commerce back end and its React client:

- **Cart controller.** `getCart`, `addToCart`, `updateCartItem`, `removeFromCart` and `clearCart` run over the `cart_items` table, guarded by each product's `is_active` flag and `stock_quantity`.
- **Product controller:**
  - `generateSlug`;
  - the filter, sort and pagination logic of `getAllProducts`;
  - the dynamic UPDATE of `updateProduct`;
  - the soft delete of `deleteProduct`.
- **Category controller:**
  - creation with a unique slug;
  - the dynamic UPDATE with its slug-conflict check;
  - the soft delete guarded by the active-product count;
  - the listing of active categories.
- **Client cart state.** `cartReducer`, `getItemQuantity` and `isInCart`.
- **Client session state.** `authReducer`.
- **Auth controller decision chains.** `register`, `login`, `changePassword` and `forgotPassword`, plus the SET list of `updateProfile`.

Modules:

| module | what it holds |
|---|---|
| `Wrappers`, `Json`, `Text` | `Option` and `Result`, the JSON values a request body carries with JavaScript truthiness, and character classes with lower-casing |
| `Slugs` | `generateSlug` as its chain of replace steps |
| `SqlUpdate` | the UPDATE builder shared by `updateProduct` and `updateCategory`: drop undefined keys, camelCase to snake_case, `$1..$n`, id at `$n+1` |
| `CartStore` | the `cart_items` table as a sequence of rows in insertion order (read as a map from (user, product) to quantity), the checks of each handler, the cart view, and a `Cart` class whose methods are the mutating handlers |
| `ProductCatalog` | pagination, the sort whitelist, the WHERE builder with numbered placeholders, `updateProduct`, and a `ProductTable` class for the soft delete |
| `Categories` | a `CategoryTable` class with create, update and delete, the product-count guard, and the sorted listing |
| `CartReducer`, `AuthReducer` | the two client reducers as pure functions over their state records |
| `AuthRules` | the auth decision chains as functions, and `updateProfile` as a method |

Prices are integer cents.

## Model

| member | source | states |
|---|---|---|
| Text.LowerChar | server/controllers/productController.js:7 | lower-casing never yields an ASCII capital, keeps digits and white space in their class, maps ASCII letters to ASCII lower case, and leaves every character other than A-Z and Ç Ğ Ö Ş Ü unchanged |
| Text.ToLower | server/controllers/productController.js:7 | the length is kept; no ASCII capital is left; a character becomes an ASCII lower-case letter exactly when it was an ASCII letter; digits and white space stay digits and white space |
| Text.ToLowerIdempotent | server/controllers/productController.js:7 | lower-casing twice is the same as lower-casing once |
| Slugs.Transliterate | server/controllers/productController.js:8-11 | only ç ğ ı ö ş ü are replaced; every other character is unchanged |
| Slugs.TransliterateAll | server/controllers/productController.js:8-11 | the length is kept; none of ç ğ ı ö ş ü is left, and every other character stays where it was |
| Slugs.TransliterateTargets | server/controllers/productController.js:8-11 | wherever it stands, the j-th of ç ğ ı ö ş ü becomes the j-th of c g i o s u |
| Slugs.TurkishLettersFold | server/controllers/productController.js:8-11 | the six letters "çğıöşü" transliterate to "cgiosu" |
| Slugs.KeepAllowed | server/controllers/productController.js:12 | the result holds only [a-z0-9\s-]; it is no longer than the input; an input already in that class is returned unchanged |
| Slugs.KeepAllowedSplits | server/controllers/productController.js:12 | the replace works per character: the result for a concatenation is the concatenation of the results |
| Slugs.KeepAllowedChar | server/controllers/productController.js:12 | one character is kept exactly when it is in [a-z0-9\s-]; with KeepAllowedSplits, the result is the allowed characters, in order |
| Slugs.CollapseSpaces | server/controllers/productController.js:13 | on [a-z0-9\s-] input, the result holds only slug characters [a-z0-9-] |
| Slugs.CollapseSpacesKeepsText | server/controllers/productController.js:13 | text without white space is kept as it is, whatever follows it |
| Slugs.CollapseSpacesRun | server/controllers/productController.js:13 | a whole run of white space, up to the next other character, becomes exactly one '-' |
| Slugs.CollapseSpacesFixed | server/controllers/productController.js:13 | text without white space is unchanged by the replace |
| Slugs.CollapseHyphens | server/controllers/productController.js:14 | the result never has "--"; its first character is the input's; slug characters stay slug characters |
| Slugs.CollapseHyphensKeepsText | server/controllers/productController.js:14 | text without '-' is kept as it is, whatever follows it |
| Slugs.CollapseHyphensRun | server/controllers/productController.js:14 | a whole run of '-', up to the next other character, becomes exactly one '-' |
| Slugs.CollapseHyphensFixed | server/controllers/productController.js:14 | text without "--" is unchanged by the replace |
| Slugs.Trim | server/controllers/productController.js:15 | trim only shortens; text without white space is unchanged, so `trim('-')` removes no hyphen |
| Slugs.GenerateSlug | server/controllers/productController.js:5-16 | every slug holds only [a-z0-9-] and never two hyphens in a row |
| Slugs.SlugFixedPoint | server/controllers/productController.js:5-16 | slugging a string that is already slug-shaped returns it unchanged |
| Slugs.GenerateSlugIdempotent | server/controllers/productController.js:5-16 | generateSlug(generateSlug(x)) == generateSlug(x) for every x |
| Slugs.FoldLetterAscii | server/controllers/productController.js:7-11 | a letter or digit of an ASCII/Turkish word becomes an ASCII lower-case letter or a digit |
| Slugs.FoldedWord | server/controllers/productController.js:7-11 | on such a word, the lower-case and transliterate steps are a letter-by-letter fold into [a-z0-9] |
| Slugs.WordSlug | server/controllers/productController.js:5-16 | a single word loses nothing: its slug is the word folded letter by letter |
| Slugs.FoldAroundSpace | server/controllers/productController.js:7-11 | the lower-case and transliterate steps fold the words on both sides and leave the white space between them |
| Slugs.CollapseBetween | server/controllers/productController.js:13 | white space between two pieces that have none becomes one '-' |
| Slugs.FoldedPiecesJoin | server/controllers/productController.js:12-15 | after the first two steps, two folded words around white space come out of the last three steps as the words joined by one '-' |
| Slugs.TwoWordSlug | server/controllers/productController.js:5-16 | two words with any run of white space between them become the two folded words joined by one '-', e.g. "Kırmızı Kalem" gives "kirmizi-kalem" |
| Slugs.LeadingSpaceKeepsHyphen | server/controllers/productController.js:13-15 | a leading space becomes a leading '-' that trim does not remove |
| SqlUpdate.Defined | server/controllers/productController.js:248-252 | every kept field is a defined field of the body, and every defined field is kept |
| SqlUpdate.DropUndefined | server/controllers/categoryController.js:135-139 | the in-place deletion loop leaves exactly the fields Defined keeps |
| SqlUpdate.SnakeCase | server/controllers/productController.js:272 | the column has no ASCII capital and is at least as long as the key |
| SqlUpdate.SnakeCaseRoundTrip | server/controllers/categoryController.js:165 | on alphanumeric keys the column converts back to the key, e.g. sortOrder to sort_order and back |
| SqlUpdate.SnakeCaseInjective | server/controllers/categoryController.js:165 | two different alphanumeric keys never map to the same column |
| SqlUpdate.BuildUpdate | server/controllers/categoryController.js:160-171 | field i is set as its snake_case column at $(i+1) with its own value; the id is at $(n+1) |
| SqlUpdate.PlaceholdersMatch | server/controllers/productController.js:271-283 | every placeholder of the SET list points at its own field's value, and the WHERE placeholder at the id |
| SqlUpdate.IndexOf | server/controllers/productController.js:262 | the first position of a key, or the length when the key is absent |
| SqlUpdate.Set | server/controllers/productController.js:263 | assigning a key makes reading it give the value; an existing key keeps its place, a new key goes last; other fields and distinct keys are kept |
| CartStore.Status | server/controllers/cartController.js:70-110 | 404 exactly for a missing product or cart line; every other failure is 400 |
| CartStore.AppendView | server/controllers/cartController.js:118-121 | an INSERT adds its key to the table's map, and the table stays well formed exactly when the key was new and the quantity positive |
| CartStore.SetQuantity | server/controllers/cartController.js:112-115 | the UPDATE of one line keeps the number of rows |
| CartStore.Without | server/controllers/cartController.js:217-220 | the DELETE of one line never adds rows |
| CartStore.WithoutUser | server/controllers/cartController.js:245-247 | the DELETE of a user's cart never adds rows |
| CartStore.SetQuantityView | server/controllers/cartController.js:112-115 | the UPDATE changes the matching line's quantity and no other line |
| CartStore.SetQuantityWellFormed | server/controllers/cartController.js:112-115 | the UPDATE to a positive quantity keeps one row per key and no zero quantity |
| CartStore.SetQuantityAbsent | server/controllers/cartController.js:184-194 | an UPDATE that matches no line leaves the table unchanged |
| CartStore.WithoutView | server/controllers/cartController.js:217-220 | the DELETE by key removes exactly that key from the map |
| CartStore.WithoutWellFormed | server/controllers/cartController.js:217-220 | the DELETE keeps the table well formed |
| CartStore.WithoutAbsent | server/controllers/cartController.js:217-227 | a DELETE that matches no line leaves the table unchanged |
| CartStore.WithoutUserView | server/controllers/cartController.js:245-247 | clearing removes exactly user u's lines and keeps every other user's lines |
| CartStore.WithoutUserWellFormed | server/controllers/cartController.js:245-247 | clearing keeps the table well formed |
| CartStore.ClearIdempotent | server/controllers/cartController.js:245-247 | clearing twice leaves the same table as clearing once |
| CartStore.ViewPositive | server/routes/cart.js:29-31 | in a well-formed table every stored quantity is at least 1 |
| CartStore.AddDecision | server/controllers/cartController.js:65-110 | the checks run in order: missing, then inactive, then requested > stock, then merged > stock; the error reports stock − held; on success the new quantity is held + requested and within stock |
| CartStore.UpdateDecision | server/controllers/cartController.js:156-194 | product missing, inactive and over-stock are checked before the line's existence; success means exactly that all checks pass; the quantity is absolute |
| CartStore.Lines | server/controllers/cartController.js:9-26 | every line of the view belongs to an existing product and shows its current price, stock and active flag, and quantity × price as its total |
| CartStore.LinesMatchView | server/controllers/cartController.js:9-26 | every line shows the quantity stored for (user, product) |
| CartStore.ViewInLines | server/controllers/cartController.js:22-24 | every stored line of the user whose product exists, active or not, appears in the view |
| CartStore.ItemCountIsDistinctProducts | server/controllers/cartController.js:33-35 | itemCount is the number of distinct products in the cart, not the number of units |
| CartStore.NewLineFirst | server/controllers/cartController.js:24 | a newly inserted line heads the newest-first view |
| CartStore.RepriceSubtotal | server/controllers/cartController.js:29 | the subtotal uses current prices: repricing p moves it by exactly held(p) × the price difference |
| CartStore.RepriceLine | server/controllers/cartController.js:9-29 | repricing moves one row's contribution to the subtotal only when the row is the user's line of that product, by its quantity times the price difference |
| CartStore.SubtotalAppend | server/controllers/cartController.js:29 | the reduce adds up over a concatenation |
| CartStore.ClearedCartIsEmpty | server/controllers/cartController.js:245-247 | after clearCart the user's cart view has no items, count 0 and subtotal 0 |
| CartStore.Cart.AddToCart | server/controllers/cartController.js:51-121 | the result and new table follow AddDecision: on failure the table is unchanged; on success the line holds the merged or new quantity, with an UPDATE in place or an INSERT at the end, and the table stays well formed |
| CartStore.Cart.UpdateCartItem | server/controllers/cartController.js:141-194 | the result and new table follow UpdateDecision: an absolute quantity on an existing line only; a missing line gives CartItemNotFound and the table is unchanged |
| CartStore.Cart.RemoveFromCart | server/controllers/cartController.js:213-228 | succeeds exactly when the line existed; the new rows are the old ones without the (u, p) line, the others in their order; the map loses exactly (u, p); a miss leaves the table unchanged |
| CartStore.Cart.ClearCart | server/controllers/cartController.js:245-250 | the table loses exactly u's rows and keeps every other user's lines |
| CartStore.AddsAccumulate | server/controllers/cartController.js:101-121 | over a run of adds, the stored quantity is the start quantity plus the sum of the accepted amounts |
| CartStore.AddsWithinStock | server/controllers/cartController.js:101-110 | once any add of the run is accepted, the stored quantity is within stock |
| CartStore.AddsKeepOthers | server/controllers/cartController.js:112-121 | a run of adds for (u, p) changes no other line |
| CartStore.UnitAddsStopAtStock | server/controllers/cartController.js:86-110 | of n one-unit adds, exactly min(n, stock − held) are accepted |
| ProductCatalog.Offset | server/controllers/productController.js:35 | the offset is non-negative from page 1, and offset + limit == page × limit |
| ProductCatalog.CeilDiv | server/controllers/productController.js:102 | the smallest page count whose pages hold all products |
| ProductCatalog.Paginate | server/controllers/productController.js:102-113 | totalPages is the ceiling of total/limit; hasPrevPage ⇔ page > 1 |
| ProductCatalog.NextPageHasProducts | server/controllers/productController.js:112 | hasNextPage ⇔ the next page's offset is below the product count |
| ProductCatalog.EveryProductOnSomePage | server/controllers/productController.js:35 | product i is on page i/limit + 1, a page between 1 and totalPages whose offset window contains i |
| ProductCatalog.OrderColumn | server/controllers/productController.js:85 | the column is one of p.name, p.price or p.created_at; a whitelisted sortBy selects its own column, anything else p.created_at |
| ProductCatalog.OrderDirection | server/controllers/productController.js:86 | ASC exactly when the lower-cased sortOrder is "asc", otherwise DESC |
| ProductCatalog.AscendingIgnoresCase | server/controllers/productController.js:86 | "ASC" and "Asc" sort ascending; "ascending" sorts descending |
| ProductCatalog.ParamsCount | server/controllers/productController.js:37-68 | one parameter per placeholder-taking condition |
| ProductCatalog.ParamsBound | server/controllers/productController.js:37-68 | with placeholders $1.. in order, every condition is bound to its own filter's value |
| ProductCatalog.ClauseBound | server/controllers/productController.js:88-98 | LIMIT and OFFSET pushed after the filters do not disturb any condition's binding |
| ProductCatalog.NumberedStart | server/controllers/productController.js:37-39 | the clause starts as the active-only condition with no parameter and paramCount 1 |
| ProductCatalog.PushFilter | server/controllers/productController.js:42-58 | a present filter appends its condition at $paramCount, pushes its value and bumps paramCount; an absent one changes nothing |
| ProductCatalog.PushFeatured | server/controllers/productController.js:60-62 | featured adds a condition and no parameter |
| ProductCatalog.FilterKindsPresent | server/controllers/productController.js:42-68 | each condition is in the clause exactly when its filter is given (non-empty, or "true" for featured) |
| ProductCatalog.BuildWhere | server/controllers/productController.js:37-68 | the clause starts with is_active, its placeholders run $1..$(paramCount−1), the params are the filter values in order, and the conditions are those of the given filters, in source order |
| ProductCatalog.BuildListingQuery | server/controllers/productController.js:22-98 | the full listing query: conditions ⇔ filters, each bound to its own value, LIMIT at $paramCount and OFFSET at $paramCount+1 carrying limit (default 20) and (page − 1) × limit, plus the whitelisted column and direction |
| ProductCatalog.PatchFields | server/controllers/productController.js:247-264 | "No fields to update" exactly when every key is undefined; otherwise the patch holds only defined values and the body's fields, except that slug may be replaced or added |
| ProductCatalog.PatchKeepsKeysDistinct | server/controllers/productController.js:261-264 | the patch never lists a key twice |
| ProductCatalog.PatchSetsSlug | server/controllers/productController.js:261-264 | a non-empty string name sets slug to generateSlug(name), over any slug in the body |
| ProductCatalog.SetKeepsAll | server/controllers/productController.js:263 | assigning slug keeps every other field and keeps all values defined |
| ProductCatalog.DefinedKeepsKeysDistinct | server/controllers/productController.js:248-252 | dropping undefined keys keeps keys distinct |
| ProductCatalog.NonStringNameFails | server/controllers/productController.js:262-263 | the patch fails with a server error exactly when the name is truthy but not a string |
| ProductCatalog.ProductTable.UpdateProduct | server/controllers/productController.js:242-292 | NoFields ⇔ every key undefined; Ok ⇔ a valid patch and an active product; 404 otherwise; on Ok the statement binds the patch's fields in key order with the id last |
| ProductCatalog.ProductTable.DeleteProduct | server/controllers/productController.js:313-327 | succeeds exactly for an active product, and then clears only its active flag; otherwise 404 and the table is unchanged |
| ProductCatalog.SoftDeleteEffects | server/controllers/productController.js:317-320 | after a soft delete: a second delete misses, addToCart says unavailable, and carts keep their lines of the product, now flagged inactive |
| Categories.ActiveAt | server/controllers/categoryController.js:224 | the row an UPDATE "WHERE id AND is_active" matches is the active row at position id − 1 |
| Categories.CountPositive | server/controllers/categoryController.js:211-216 | the active-product count is positive exactly when some active product has this category |
| Categories.DeactivateLowersCount | server/controllers/categoryController.js:211-216 | deactivating one of the category's active products lowers the count by one |
| Categories.InactiveNotCounted | server/controllers/categoryController.js:14 | adding or changing an inactive product leaves every count unchanged |
| Categories.OwnSlugNoConflict | server/controllers/categoryController.js:149-157 | resubmitting a category's own slug is not a conflict |
| Categories.ConflictForMissingCategory | server/controllers/categoryController.js:149-185 | a slug held by another row is refused with 409 even when the id matches no category, because the slug check runs before the 404 |
| Categories.NameLeqTotal | server/controllers/categoryController.js:17 | any two names are comparable |
| Categories.NameLeqTransitive | server/controllers/categoryController.js:17 | name order is transitive |
| Categories.BeforeTotal | server/controllers/categoryController.js:17 | any two categories are ordered by (sort_order, name) |
| Categories.BeforeTransitive | server/controllers/categoryController.js:17 | the (sort_order, name) order is transitive |
| Categories.ActiveRows | server/controllers/categoryController.js:15 | a category is kept exactly when it is in the table and active |
| Categories.Insert | server/controllers/categoryController.js:17 | insertion adds exactly one element: the multiset gains the new category |
| Categories.InsertSorted | server/controllers/categoryController.js:17 | inserting into a sorted list keeps it sorted |
| Categories.SortCategories | server/controllers/categoryController.js:17 | sorting is a permutation |
| Categories.SortSorted | server/controllers/categoryController.js:17 | the sorted list is ordered by (sort_order, name) |
| Categories.ListedExactlyActive | server/controllers/categoryController.js:9-18 | a category appears in the listing exactly when it is in the table and active |
| Categories.ListingShape | server/controllers/categoryController.js:9-18 | a category is listed exactly when it is active; the listing has one entry per active category, each with its count of active products, ordered by sort order, then name |
| Categories.CategoryTable.CreateCategory | server/controllers/categoryController.js:75-108 | validation failure ⇔ the route rules fail; 409 ⇔ the slug is in use; otherwise a new active row with the next id and sort order defaulted to 0 is appended; errors change nothing |
| Categories.CategoryTable.UpdateCategory | server/controllers/categoryController.js:129-185 | NoFields ⇔ every key undefined, then 409 ⇔ a truthy slug held by another id, then 404 ⇔ no active row; on Ok the statement binds the defined fields in key order with the id last |
| Categories.CategoryTable.DeleteCategory | server/controllers/categoryController.js:206-233 | refused ⇔ an active product remains; 404 ⇔ no active row; on Ok only that row's active flag is cleared, so a second delete is 404 |
| CartReducer.Reduce | client/src/contexts/CartContext.js:15-61 | a state whose count and subtotal agree with its items keeps agreeing after any action whose payload agrees |
| CartReducer.SetLoadingOnlyLoading | client/src/contexts/CartContext.js:17-21 | SET_LOADING sets isLoading and changes nothing else |
| CartReducer.LoadCartCopies | client/src/contexts/CartContext.js:22-29 | LOAD_CART copies items, itemCount and subtotal and ends loading |
| CartReducer.ItemActionsKeepLoading | client/src/contexts/CartContext.js:30-50 | ADD_ITEM, UPDATE_ITEM and REMOVE_ITEM take the payload's three fields and keep isLoading |
| CartReducer.ClearCartIdempotent | client/src/contexts/CartContext.js:51-57 | CLEAR_CART empties the cart, keeps isLoading, and a second one changes nothing |
| CartReducer.UnknownIsIdentity | client/src/contexts/CartContext.js:58-59 | an unknown action returns the state unchanged |
| CartReducer.InitialConsistent | client/src/contexts/CartContext.js:8-13 | the initial empty cart is consistent |
| CartReducer.ServerAnswerConsistent | server/controllers/cartController.js:28-36 | every getCart answer is a consistent payload |
| CartReducer.DispatchesKeepConsistent | client/src/contexts/CartContext.js:15-61 | any run of dispatches with consistent payloads keeps the state consistent |
| CartReducer.FirstLineOf | client/src/contexts/CartContext.js:161 | the position of the first line of the product, and no earlier line has it |
| CartReducer.GetItemQuantity | client/src/contexts/CartContext.js:160-163 | 0 when the product is not in the cart; otherwise the quantity of its first line |
| CartReducer.LoadedCartAnswers | client/src/contexts/CartContext.js:160-168 | after loading the server's cart, isInCart(p) ⇔ the table holds (u, p) and the product exists, and getItemQuantity(p) is the stored quantity |
| AuthReducer.Reduce | client/src/contexts/AuthContext.js:13-67 | a signed-in state always has a user; isAuthenticated is set by LOGIN_SUCCESS and LOAD_USER_SUCCESS, kept by LOGIN_START, UPDATE_USER and unknown actions, and cleared by every other action |
| AuthReducer.LoginStartOnlyLoading | client/src/contexts/AuthContext.js:15-19 | LOGIN_START sets isLoading and changes nothing else |
| AuthReducer.LoginSuccessSignsIn | client/src/contexts/AuthContext.js:20-27 | LOGIN_SUCCESS yields the payload's user and token, signed in, not loading |
| AuthReducer.SignOutForgetsEverything | client/src/contexts/AuthContext.js:28-58 | LOGIN_FAIL, LOGOUT and LOAD_USER_FAIL yield the same signed-out state whatever the state before |
| AuthReducer.LoadUserKeepsToken | client/src/contexts/AuthContext.js:44-50 | LOAD_USER_SUCCESS signs in with the loaded user and keeps the existing token, even none |
| AuthReducer.UpdateUserOnlyUser | client/src/contexts/AuthContext.js:59-63 | UPDATE_USER replaces only the user |
| AuthReducer.UnknownIsIdentity | client/src/contexts/AuthContext.js:64-65 | an unknown action returns the state unchanged |
| AuthReducer.AlwaysCoherent | client/src/contexts/AuthContext.js:13-67 | over any run of dispatches, a signed-in state has a user |
| AuthReducer.SignedInIffLastSessionAction | client/src/contexts/AuthContext.js:13-67 | after any run, the session is signed in exactly when the last sign-in or sign-out action was a sign-in (or there was none and it started signed in) |
| AuthReducer.AcceptedLoginSignsIn | client/src/contexts/AuthContext.js:20-27 | dispatching a login the server accepted signs in the account of the given email, with its token |
| AuthRules.Status | server/controllers/authController.js:20-134 | 401 exactly for bad credentials and deactivated accounts, 409 exactly for a taken email or username, 400 otherwise (validation failures, "No fields to update" at line 240 and the wrong current password at line 311) |
| AuthRules.Register | server/controllers/authController.js:16-55 | validation first, then 409 ⇔ the email or username is taken, otherwise a new active row with the next id, the new hash and the given fields |
| AuthRules.RegisterKeepsUnique | server/controllers/authController.js:31-41 | the duplicate check keeps emails and usernames unique and ids in order |
| AuthRules.FindByEmail | server/controllers/authController.js:104-116 | a row is found exactly when some row has the email, and it has that email |
| AuthRules.Login | server/controllers/authController.js:89-137 | unknown email ⇒ Invalid credentials; a deactivated account is refused before the password check; a wrong password gives Invalid credentials; success returns the active row of that email |
| AuthRules.DeactivatedBeforePassword | server/controllers/authController.js:119-127 | for a deactivated account the answer does not depend on the password |
| AuthRules.WrongPasswordLooksUnknown | server/controllers/authController.js:109-134 | a wrong password gets exactly the answer of an unknown email, with status 401 |
| AuthRules.LoginFindsTheAccount | server/controllers/authController.js:104-116 | with unique emails, a successful login returns the account of that email |
| AuthRules.ChangePassword | server/controllers/authController.js:285-325 | a wrong current password gives 400 and no change; on success only the hash changes |
| AuthRules.ForgotPassword | server/controllers/authController.js:343-361 | every valid request gets the same notice |
| AuthRules.ForgotPasswordRevealsNothing | server/controllers/authController.js:357-361 | the answer for a registered email equals the answer for an unknown one |
| AuthRules.ProvidedInOrder | server/controllers/authController.js:221-237 | the profile columns to set are exactly those with a defined value, each with its own value, in the order first_name, last_name, phone |
| AuthRules.UpdateProfile | server/controllers/authController.js:204-253 | validation first; "No fields to update" ⇔ all three are undefined; otherwise column i is set from $(i+1) and the user id is at $(k+1) |

## Left out

- Database I/O and SQL text. Tables are sequences or maps, and handlers are atomic. ILIKE, the JOIN machinery, COUNT, CURRENT_TIMESTAMP and the `RETURNING` columns are not modelled; only creation order is kept from timestamps.
- Concurrency: the read-then-write race in addToCart has no sequential model.
- Floating point. Prices and subtotals are integer cents, so `parseFloat`, `toFixed(2)` and the floating product quantity × price are not modelled. The listing's price filters keep their text.
- bcrypt and JWT are opaque:
  - a password check is a boolean argument;
  - a new hash or a token is a string argument;
  - `generateToken`, `getMe` and `resetPassword` are not modelled.
- Route validators are booleans for the auth routes; the auth route file is not part of this model. The category route rules are modelled as `ValidInput`. The cart rule "quantity ≥ 1" is a precondition.
- Identifiers are naturals; only their equality matters. Product ids are UUIDs in the source. Category and user ids are modelled as positions: row i has id i + 1.
- `parseInt` of page and limit is taken to give naturals; NaN is not modelled.
- Request bodies are sequences of fields in key order. `Object.keys` lists integer-like keys first; no body key of these handlers is one, so insertion order is used. JSON numbers are integers; arrays and objects share one case.
- CartStore.Cart.AddToCart: a quantity sent as a numeric string is not modelled. The route checks `isInt({ min: 1 })` without converting, so `{"quantity": "2"}` reaches the handler as a string. With 3 held, `existingItem.quantity + quantity` is then the string "32", not 5. The line is set to 32 when stock allows it; otherwise the add is refused even when 5 would fit. The model takes the quantity as a number, so the merge is always the numeric sum.
- AuthReducer.Reduce: every user payload is a user record, never null. An UPDATE_USER with a null payload would leave the source signed in with `user: null`; the model cannot express it. So AuthReducer.Coherent holds for every state the model can reach, but not for that one.
- Text.LowerChar: lower-casing is modelled for ASCII and the capitals Ç Ğ Ö Ş Ü only; every other character is treated as having no lower-case form. The same restriction applies wherever lower-casing is used: Text.ToLower, Slugs.GenerateSlug, SqlUpdate.SnakeCase and ProductCatalog.OrderDirection.
- Slugs.GenerateSlug: the capital İ (U+0130) is not lowered. JavaScript lowers "İstanbul" to "i" + U+0307 + "stanbul", whose slug is "istanbul". The model keeps İ, the third replace drops it, and the slug is "stanbul".
- ProductCatalog.Paginate: requires limit ≥ 1. A limit of 0 makes the source divide by zero, giving Infinity or NaN pages.
- ProductCatalog.ProductTable.UpdateProduct: the SET list is returned as a statement and is not applied to the product row.
- Categories.CategoryTable.UpdateCategory: the SET list is returned as a statement and is not applied to the row. A slug that is truthy but not a string is treated as matching no row.
- Categories.ListCategories: names compare by code point, not by the database collation. Description, parent and image are not kept.
- Categories.CategoryTable.CreateCategory: `sortOrder || 0` is modelled on an optional integer. A sort order that is some other falsy JSON value is not modelled.
- Not modelled: getProduct, createProduct, getProductsByCategory, searchProducts, getFeaturedProducts and getCategory. The provider functions of both contexts are not modelled either (network calls, localStorage, toasts).
