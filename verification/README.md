# Shop core: carts, orders, form validation, route guard, remember-me

A Dafny model of the core of a small web shop with a Laravel back end and a Next.js front end.

- **Cart endpoints** (`add`, `view`, `removeFromCart`, `updateQuantity`): each is specified by a ghost function from the tables before a request to the tables after it and the HTTP answer. Imperative methods on a `Database` object perform the same reads and writes step by step, and each is proved to agree with its specification and to keep the database invariant. Stock is reserved when an item is added to the cart, not when the order is placed.
- **Order endpoints** (`checkout`, `index`): checkout validates the request, requires a cart, sums price × quantity from the server's prices, and writes a pending, unpaid order. It then writes one order item per request line and deletes the cart's rows for the ordered products. Any failure answers 500 and rolls back. The two loops of the controller are methods with loop invariants.
- **Ledger**: any sequence of cart and checkout requests keeps the invariant. In particular stock never goes negative, and the catalogue and its prices never change.
- **Form validation**: an ordered rule table per field name. A field's verdict is its first failing rule, a form's verdict gathers its ruled fields, and `addValidationRule` appends to the table, which is a field of a `Validator` object. The regular expressions are written as character-class predicates.
- **Route guard**: the `middleware` redirect decision over the path and the `token` cookie.
- **Remember-me service**: three keys of `localStorage`, modelled as a `LocalStorage` object holding a string map.

Files: `wrappers.dfy` (Option), `schema.dfy` (tables, invariant, `Database`), `cart_controller.dfy`, `order_controller.dfy`, `ledger.dfy`, `input_validation.dfy`, `middleware.dfy`, `remember_me.dfy`.

### Behaviour worth knowing

- **The merge check in `add` counts earlier reservations twice.** `add` subtracts the requested quantity from stock when it puts it in the cart. When the cart already holds the product, the second check (CartController.php:44-45) compares the *remaining* stock with the row's *whole* new quantity, so the units reserved by the first request are counted twice. Adding `a` and then `b` units of a product therefore needs `stock >= 2a + b`, although only `a + b` units end up reserved. `CartController.AddTwiceMerges` states the law as it holds, and `CartController.AddAgainCountsReservedUnitsTwice` gives a case where 3 units are in stock and adding 2, then 1, is refused.
- **Validation failures answer 500.** A failed `validate` call throws an exception that the generic `catch (\Exception)` turns into a 500 answer, not a 422.
- **An empty `items` list fails checkout validation.** Laravel's `required` rule refuses an empty array.
- **`updateQuantity` has no ownership check and no lower bound.** It accepts any quantity, including 0 and negative ones, and any decrease gives stock back. So "cart quantities are positive" is not an invariant; "stock is non-negative" is.
- **`removeFromCart` gives no stock back.** The units a removed row held are afterwards neither in stock nor in any cart.

## Model

| member | source | states |
|---|---|---|
| Schema.ParsePaymentMethod | back-end/example-app/app/Http/Controllers/OrderController.php:29 | an accepted payment-method string is the column value of the method it yields |
| Schema.ParsePaymentMethodRoundTrip | back-end/example-app/database/migrations/2024_11_11_073744_create_orders_table.php:18 | each of `cod`, `bank_transfer`, `e_wallet` is accepted under its own column value and under no other string |
| Schema.CartOf | back-end/example-app/app/Http/Controllers/CartController.php:93 | the cart found for a user belongs to that user |
| Schema.ItemsOfCart | back-end/example-app/app/Http/Controllers/CartController.php:99-101 | exactly the `cart_items` rows of the given cart, unchanged |
| CartController.AddSpec | back-end/example-app/app/Http/Controllers/CartController.php:18-74 | `add` as a function of the tables: 500 for a missing product or a quantity below 1, 400 when stock is below the quantity or below the merged row's whole new quantity (after the cart was created), otherwise the row write, the stock decrement and the cart's rows with the updated product |
| CartController.PutLine | back-end/example-app/app/Http/Controllers/CartController.php:43-60 | the cart-row write of `add`: the found row keeps its id and its quantity grows, or a new row takes the next id |
| CartController.OwnsItem | back-end/example-app/app/Http/Controllers/CartController.php:147-149 | the `whereHas('cart')` filter: the row exists and its cart belongs to the user |
| CartController.RemoveSpec | back-end/example-app/app/Http/Controllers/CartController.php:147-165 | `removeFromCart` as a function of the tables: deletes an owned row and answers with its product, otherwise 404 |
| CartController.UpdateSpec | back-end/example-app/app/Http/Controllers/CartController.php:179-204 | `updateQuantity` as a function of the tables: 500 for a missing row, 400 for an increase the stock does not cover, otherwise the new quantity and stock minus the difference |
| CartController.FirstOrCreateCart | back-end/example-app/app/Http/Controllers/CartController.php:37 | the cart returned exists and belongs to the user |
| CartController.ItemOf | back-end/example-app/app/Http/Controllers/CartController.php:39-41 | the row found is cart `c`'s row for the product |
| CartController.AddOutcome | back-end/example-app/app/Http/Controllers/CartController.php:37-74 | once the first checks pass, `add` refuses with 400 and keeps the created cart when the merge check fails, and otherwise writes the row and takes the stock; the invariant holds either way |
| CartController.AddWritesRow | back-end/example-app/app/Http/Controllers/CartController.php:43-60 | a successful merge grows the found row under its own id and hands out no id; otherwise exactly one row is inserted under the next id |
| CartController.Add | back-end/example-app/app/Http/Controllers/CartController.php:15-83 | the step-by-step endpoint leaves the tables and answers exactly as `AddSpec` says, and keeps the invariant |
| CartController.FindOrCreateCart | back-end/example-app/app/Http/Controllers/CartController.php:37 | the user's existing cart, or a new cart row under the next id when there is none, exactly as `FirstOrCreateCart` |
| CartController.FindLine | back-end/example-app/app/Http/Controllers/CartController.php:39-41 | some row iff the cart holds one for the product, and then that row |
| CartController.WriteLine | back-end/example-app/app/Http/Controllers/CartController.php:43-60 | the found row's quantity grows by the requested quantity, or a new row is inserted under the next id |
| CartController.View | back-end/example-app/app/Http/Controllers/CartController.php:93-105 | an empty list without a cart, otherwise exactly that cart's rows with their stored values |
| CartController.RemoveFromCart | back-end/example-app/app/Http/Controllers/CartController.php:138-174 | agrees with `RemoveSpec` and keeps the invariant |
| CartController.UpdateQuantity | back-end/example-app/app/Http/Controllers/CartController.php:176-211 | agrees with `UpdateSpec` and keeps the invariant |
| CartController.ItemOfUnique | back-end/example-app/app/Http/Controllers/CartController.php:39-60 | a cart holds at most one row per product, so every lookup finds the same row |
| CartController.CartOfUnique | back-end/example-app/app/Http/Controllers/CartController.php:37 | a user has at most one cart, so every lookup finds the same cart |
| CartController.AddPreservesWellFormed | back-end/example-app/app/Http/Controllers/CartController.php:37-63 | `add` keeps non-negative stock, one cart per user, one row per (cart, product), resolving references and fresh ids |
| CartController.AddAccepted | back-end/example-app/app/Http/Controllers/CartController.php:18-50 | `add` succeeds iff the product exists, quantity ≥ 1, stock ≥ quantity, and stock ≥ the row's old quantity + quantity |
| CartController.AddRejectedChangesNothing | back-end/example-app/app/Http/Controllers/CartController.php:18-50 | every refusal leaves all tables unchanged; validation failures answer 500 and stock failures 400 |
| CartController.AddReserves | back-end/example-app/app/Http/Controllers/CartController.php:37-74 | on success stock drops by exactly the quantity and stays ≥ 0, and the user's row grows by exactly the quantity (or is created with it); other rows and products are unchanged; the answer carries the cart's rows and the updated product; a merge keeps the found row under its own id with its quantity grown, and otherwise one row is inserted under the next id; the only cart written is the user's missing one, under the next cart id, and orders, order items and their counters are unchanged |
| CartController.AddTwiceMerges | back-end/example-app/app/Http/Controllers/CartController.php:39-63 | adding `a` then `b` units to a cart without the product leaves one row of `a + b` and takes `a + b` from stock, provided stock ≥ 2a + b |
| CartController.AddAgainCountsReservedUnitsTwice | back-end/example-app/app/Http/Controllers/CartController.php:44-49 | with 3 in stock, adding 2 then 1 is refused with 400 on the second request |
| CartController.RemovePreservesWellFormed | back-end/example-app/app/Http/Controllers/CartController.php:147-159 | removal keeps the invariant |
| CartController.RemoveLeaksReservedStock | back-end/example-app/app/Http/Controllers/CartController.php:147-165 | success iff the row is in one of the user's carts, else 404 with no change; success deletes exactly that row, answers with its product, leaves every product's stock unchanged, and changes no cart, order, order item or id counter |
| CartController.UpdatePreservesWellFormed | back-end/example-app/app/Http/Controllers/CartController.php:179-198 | `updateQuantity` keeps the invariant, in particular stock ≥ 0 |
| CartController.UpdateConserves | back-end/example-app/app/Http/Controllers/CartController.php:179-204 | refused only for a missing row (500) or an uncovered increase (400), changing nothing; otherwise the row takes the new quantity, stock + the row's quantity is conserved, and carts, orders, order items, the other rows and products and every id counter are unchanged |
| CartController.UpdateRoundTrip | back-end/example-app/app/Http/Controllers/CartController.php:183-198 | setting a row to q' and back to q is accepted and restores every table |
| OrderController.RequestValid | back-end/example-app/app/Http/Controllers/OrderController.php:25-30 | the `validate` rules: a non-empty list of lines, each naming an existing product with a quantity of at least 1, and one of the three payment methods |
| OrderController.LinesTotal | back-end/example-app/app/Http/Controllers/OrderController.php:49-58 | the sum of the server's price × quantity over the request lines, duplicates included |
| OrderController.NewOrder | back-end/example-app/app/Http/Controllers/OrderController.php:41-61 | the order row: the user, the total, the address and phone or `''`, pending status, the payment method and an unpaid payment status |
| OrderController.CheckoutSpec | back-end/example-app/app/Http/Controllers/OrderController.php:18-97 | `checkout` as a function of the tables: 500 with every table unchanged when validation fails or there is no cart, otherwise the order, its items and the cleared cart rows, answered with 201 |
| OrderController.OrEmpty | back-end/example-app/app/Http/Controllers/OrderController.php:46-47 | PHP's `?? ''`: the value when present, the empty string otherwise |
| OrderController.Lines | back-end/example-app/app/Http/Controllers/OrderController.php:64-72 | one order item per request line, in order, with the line's product and quantity and the product's current price |
| OrderController.Numbered | back-end/example-app/app/Http/Controllers/OrderController.php:67-72 | the rows get consecutive ids from the next auto-increment id, one per line |
| OrderController.ProductIds | back-end/example-app/app/Http/Controllers/OrderController.php:64-77 | the set of products named by the request lines |
| OrderController.ClearLines | back-end/example-app/app/Http/Controllers/OrderController.php:75-77 | exactly the rows of cart `c` for the given products are removed; the others are kept unchanged |
| OrderController.Checkout | back-end/example-app/app/Http/Controllers/OrderController.php:18-97 | the step-by-step endpoint leaves the tables and answers exactly as `CheckoutSpec` says, and keeps the invariant |
| OrderController.SumLines | back-end/example-app/app/Http/Controllers/OrderController.php:49-58 | the first loop computes the sum of price × quantity over the lines |
| OrderController.WriteOrderItems | back-end/example-app/app/Http/Controllers/OrderController.php:64-78 | the second loop appends the numbered order items and deletes the cart rows of every ordered product |
| OrderController.WriteOrderItem | back-end/example-app/app/Http/Controllers/OrderController.php:65-77 | one pass writes the line's order item under the next id with the current price and deletes the cart's rows for that product |
| OrderController.Index | back-end/example-app/app/Http/Controllers/OrderController.php:100-104 | exactly the user's orders, each with exactly its order items |
| OrderController.CheckoutPreservesWellFormed | back-end/example-app/app/Http/Controllers/OrderController.php:32-80 | checkout keeps the invariant |
| OrderController.CheckoutRejected | back-end/example-app/app/Http/Controllers/OrderController.php:25-38 | checkout fails iff validation fails or the user has no cart; a failure answers 500 and rolls every table back |
| OrderController.CheckoutWritesOrder | back-end/example-app/app/Http/Controllers/OrderController.php:41-61 | on success the answer is 201 with a new pending, unpaid order carrying the user, address, phone, payment method and the server-priced total; no product or cart changes |
| OrderController.CheckoutWritesOrderItems | back-end/example-app/app/Http/Controllers/OrderController.php:64-72 | one new order item per request line, duplicates included, with fresh consecutive ids, the line's quantity and the current price; earlier items untouched |
| OrderController.CheckoutClearsCart | back-end/example-app/app/Http/Controllers/OrderController.php:75-77 | the user's rows for every ordered product are deleted, whatever quantity was ordered, and no other row |
| OrderController.LinesTotalIsOrderTotal | back-end/example-app/app/Http/Controllers/OrderController.php:49-72 | the order's total equals the sum of price × quantity over the order items written with it |
| OrderController.ExampleIsValid | back-end/example-app/app/Http/Controllers/OrderController.php:25-38 | a concrete store and request pass validation and find the cart |
| OrderController.CheckoutExampleTotal | back-end/example-app/app/Http/Controllers/OrderController.php:49-61 | 2 × 100000 + 1 × 200000 gives a pending order of 400000 answered with 201 |
| OrderController.CheckoutExampleItems | back-end/example-app/app/Http/Controllers/OrderController.php:64-72 | the same checkout writes exactly the two expected order items |
| OrderController.CheckoutExampleCart | back-end/example-app/app/Http/Controllers/OrderController.php:75-77 | the same checkout removes the two ordered rows, keeps the third, and changes no product |
| Ledger.Step | back-end/example-app/app/Http/Controllers/CartController.php:15-211 | any single request to `add`, `removeFromCart`, `updateQuantity` or checkout (OrderController.php:18-97), accepted or refused, keeps the invariant |
| Ledger.Run | back-end/example-app/app/Http/Controllers/CartController.php:15-211 | after any sequence of cart and checkout (OrderController.php:18-97) requests the invariant holds and no stock is negative |
| Ledger.StepKeepsCatalogue | back-end/example-app/app/Http/Controllers/CartController.php:15-211 | no cart or checkout (OrderController.php:18-97) request adds or drops a product or changes a price; removals and checkouts change no product at all |
| Ledger.RunKeepsCatalogue | back-end/example-app/app/Http/Controllers/CartController.php:15-211 | over any sequence of cart and checkout (OrderController.php:18-97) requests the catalogue and every price stay fixed, and a sequence without adds or updates leaves every product as it was |
| InputValidation.IsSpace | Front-End/src/app/utils/inputValidation.js:3-4 | the characters JavaScript's `\s` and `trim` treat as white space |
| InputValidation.MatchesName | Front-End/src/app/utils/inputValidation.js:3 | the name pattern: one or more characters, each a–z, A–Z, U+00C0–U+1EF9 or white space |
| InputValidation.MatchesEmail | Front-End/src/app/utils/inputValidation.js:4 | the e-mail pattern as a split into local part, domain name and top-level part, none empty and none holding `@` or white space |
| InputValidation.HasSpecial | Front-End/src/app/utils/inputValidation.js:8 | some character is one of the listed special characters |
| InputValidation.HasUpper | Front-End/src/app/utils/inputValidation.js:5 | some character is an ASCII upper-case letter A–Z |
| InputValidation.HasLower | Front-End/src/app/utils/inputValidation.js:6 | some character is an ASCII lower-case letter a–z |
| InputValidation.HasDigit | Front-End/src/app/utils/inputValidation.js:7 | some character is an ASCII digit 0–9 |
| InputValidation.MatchesPattern | Front-End/src/app/utils/inputValidation.js:2-9 | `pattern.test(value)` for each entry of the pattern table: the whole-string name and e-mail patterns, and the four "contains one of" classes |
| InputValidation.Passes | Front-End/src/app/utils/inputValidation.js:11-15 | a rule's test: non-empty after `trim`, at least `n` UTF-16 code units, a pattern match, or the caller's own predicate |
| InputValidation.NameChecks | Front-End/src/app/utils/inputValidation.js:18-31 | the name rules are, in order, non-empty, at least 2 code units and the name pattern |
| InputValidation.EmailChecks | Front-End/src/app/utils/inputValidation.js:32-41 | the e-mail rules are, in order, non-empty and the e-mail pattern, with their messages |
| InputValidation.PasswordChecks | Front-End/src/app/utils/inputValidation.js:42-67 | the password rules are, in order, non-empty, at least 8 code units, and the upper-case, lower-case, digit and special-character patterns |
| InputValidation.TrimStart | Front-End/src/app/utils/inputValidation.js:12 | removes exactly the leading white space |
| InputValidation.TrimEnd | Front-End/src/app/utils/inputValidation.js:12 | removes exactly the trailing white space |
| InputValidation.Trim | Front-End/src/app/utils/inputValidation.js:12 | the trimmed string is empty iff every character is white space, and otherwise starts and ends with a non-space |
| InputValidation.Utf16Length | Front-End/src/app/utils/inputValidation.js:13 | between one and two code units per character, and exactly one each iff no character lies outside the Basic Multilingual Plane |
| InputValidation.EmailShape | Front-End/src/app/utils/inputValidation.js:4 | the e-mail pattern accepts exactly the strings with no white space, a single `@` that is not the first character, and a `.` strictly inside the part after it |
| InputValidation.FirstFailure | Front-End/src/app/utils/inputValidation.js:80 | the index of the first rule the value fails, all earlier rules passing; none iff all pass |
| InputValidation.CheckField | Front-End/src/app/utils/inputValidation.js:80-83 | valid iff no error iff every rule passes; otherwise the error is the message of the first failing rule |
| InputValidation.AppendedRuleKeepsEarlierFailure | Front-End/src/app/utils/inputValidation.js:111-114 | appending a rule keeps an existing failure and its message; a value that passed now fails iff it fails the new rule |
| InputValidation.ValidatePasswordConfirmation | Front-End/src/app/utils/inputValidation.js:107-110 | valid iff the strings are equal, and the error is null iff they are equal |
| InputValidation.ConfirmationSymmetric | Front-End/src/app/utils/inputValidation.js:107-110 | the confirmation verdict does not depend on which of the two strings is the password, and a string always confirms itself |
| InputValidation.NameVerdict | Front-End/src/app/utils/inputValidation.js:3-31 | a name is valid iff it has a non-space character, at least 2 code units, and only a–z, A–Z, U+00C0–U+1EF9 and white space |
| InputValidation.EmailVerdict | Front-End/src/app/utils/inputValidation.js:4-41 | an e-mail is valid iff it matches the pattern; a failing blank one gets the "empty" message and any other failure the "invalid" message |
| InputValidation.PasswordVerdict | Front-End/src/app/utils/inputValidation.js:5-67 | a password is valid iff it has ≥ 8 code units, an upper-case letter, a lower-case letter, a digit and a listed special character |
| InputValidation.ConfirmationVerdict | Front-End/src/app/utils/inputValidation.js:68-73 | a confirmation is valid iff it has a non-space character, else it gets its "empty" message |
| InputValidation.Validator.constructor | Front-End/src/app/utils/inputValidation.js:17-74 | the table starts as the four declared rule lists |
| InputValidation.Validator.ValidateField | Front-End/src/app/utils/inputValidation.js:76-84 | a field without rules is `{true, null}`; otherwise the first-failing-rule verdict of its list; valid iff no error |
| InputValidation.Validator.ValidateForm | Front-End/src/app/utils/inputValidation.js:86-105 | the errors name exactly the submitted fields that fail, each with its field's error; valid iff there are none |
| InputValidation.Validator.AddValidationRule | Front-End/src/app/utils/inputValidation.js:111-114 | the rule goes at the end of the field's list (created when missing); other fields' verdicts are unchanged, and the field's verdict changes only for values that passed before and fail the new test |
| InputValidation.UnruledFieldIgnored | Front-End/src/app/utils/inputValidation.js:87-88 | adding a field without rules, such as `rememberMe`, leaves the form's result unchanged |
| Middleware.IsPublicPath | Front-End/src/middleware.js:5 | exactly `/login` and `/register` are public |
| Middleware.IsGuardedPath | Front-End/src/middleware.js:14-20 | the path starts, as a raw string, with one of the five private prefixes |
| Middleware.TokenOf | Front-End/src/middleware.js:6 | the cookie's value, with a missing cookie read as `''` |
| Middleware.Guard | Front-End/src/middleware.js:3-26 | redirect to `/` iff a public path has a token; redirect to `/unauthorized` iff a non-public guarded path has none; otherwise continue |
| Middleware.SignedInReachesPrivatePages | Front-End/src/middleware.js:9-25 | a non-empty token is never sent to `/unauthorized` and continues on every non-public path |
| Middleware.AnonymousReachesOpenPages | Front-End/src/middleware.js:9-25 | without a token there is never a redirect home, and public or unguarded paths continue |
| Middleware.RedirectTargetProceeds | Front-End/src/middleware.js:9-22 | the target of a redirect is let through with the same cookie, so the guard cannot loop |
| Middleware.RawPrefixExample | Front-End/src/middleware.js:14-21 | `/cartoon` is guarded like `/cart`, and an empty cookie counts as no token |
| RememberMe.LocalStorage.GetItem | Front-End/src/app/services/rememberMeService.js:25 | the stored value of a key, or null when the key is absent |
| RememberMe.LocalStorage.SetItem | Front-End/src/app/services/rememberMeService.js:11-13 | sets one key and no other |
| RememberMe.LocalStorage.RemoveItem | Front-End/src/app/services/rememberMeService.js:18-20 | removes one key and no other |
| RememberMe.HasStoredCredentials | Front-End/src/app/services/rememberMeService.js:36-38 | true iff the flag key holds exactly the string `true` |
| RememberMe.GetStoredCredentials | Front-End/src/app/services/rememberMeService.js:24-33 | null unless the flag is set; otherwise the stored e-mail and password (each null if absent) with `rememberMe` true |
| RememberMe.SaveCredentials | Front-End/src/app/services/rememberMeService.js:10-14 | sets exactly the three keys; afterwards the stored credentials read back as the saved e-mail and password |
| RememberMe.ClearCredentials | Front-End/src/app/services/rememberMeService.js:17-21 | removes exactly the three keys; afterwards nothing is stored or remembered |
| RememberMe.UpdateCredentialsIfRemembered | Front-End/src/app/services/rememberMeService.js:41-45 | a save when the flag is set, and no change at all otherwise |
| RememberMe.SaveThenClear | Front-End/src/app/login/page.js:53 | the login page's "remember me" checkbox ticked (save) and then unticked (clear) leaves every other key as it was and nothing remembered |

## Left out

- Authentication: routes sit behind token authentication, and the 401 branches for a missing user (CartController.php:24-26, 89-91, 142-144) are not modelled. The requesting user's id is an input.
- Response messages of the back end (Vietnamese texts, exception messages), logging, and the product data eagerly loaded with cart and order rows. An answer carries its status code and the rows it returns.
- Money and the `decimal(10, 2)` column range: prices and totals are unbounded integers, so rounding and overflow of the database column are not modelled.
- Concurrency: requests run one at a time. Races between two `add` requests on the same stock are not modelled, and neither are transaction isolation and row locks.
- `addToCart` (CartController.php:116-136): it has no route.
- Request fields of the wrong type (a string quantity, a non-list `items`): the request fields are typed integers and lists. The integer check of validation is the type itself.
- OrderController.Checkout: the "product not found" throw inside the first loop (OrderController.php:53-56) cannot fire once validation has passed, so it has no branch.
- CartController.UpdateQuantity: stock and cart-row quantities are unbounded integers. The program stores them in bounded integer columns, and `updateQuantity` accepts any integer, so a large negative quantity raises stock without limit here. In the program, a stock value out of the column's range makes the product save (CartController.php:198) throw after the cart row was already saved (CartController.php:194), outside any transaction, and the answer is 500. Neither the range nor that half-applied pair of saves is modelled.
- OrderController.CheckoutSpec: the 201 answer carries the order's columns but not its auto-increment id (OrderController.php:61 and 82-85). The id is `nextOrder` before the request, as `OrderController.CheckoutWritesOrder` states.
- CartController.UpdateQuantity: the `Product::findOrFail` lookup (CartController.php:180) cannot fail while every cart row's product exists, which the invariant guarantees, so it has no branch.
- Form field names that collide with `Object.prototype` members (`constructor`, `toString`), and non-string form values: field names are plain keys of a map, and values are strings.
- JavaScript strings holding lone surrogates: strings are sequences of Unicode scalar values. Only `length` is measured in UTF-16 code units.
- A custom test added by `addValidationRule` is a total function of the value; a test that throws is not modelled.
- The `matcher` configuration of the route guard (middleware.js:28-38): the guard is modelled for every path, and which paths Next.js runs it on is framework behaviour.
- RememberMe.SaveCredentials: credentials are strings; JavaScript's conversion of a missing e-mail or password to the string `undefined` is not modelled.
- The React pages and components, the fetch-based client services, and floating-point totals shown in the browser are user interface, not this core.
