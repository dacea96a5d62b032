# MetaZone storefront core in Dafny

MetaZone is an online store: an Express and Sequelize backend over MySQL, and
a React and Redux frontend. This project models the storefront's checkout and
incentive logic and proves properties of the model. It covers:

- order settlement (`createOrder`) and the order read guard (`getOrderById`);
- discount codes: the schema, `createDiscount` and the `validateDiscount` guard chain;
- the cart endpoints: `getCart` (as written and corrected), `addToCart`, `updateCartItem` and `removeFromCart`;
- signup with referral crediting, and login;
- the User model's defaults and hooks;
- the request validators;
- the product listing's paging, the search merge, and the not-found guards;
- on the frontend: the checkout page's discount and total preview, the `useCart` hook, the auth and cart Redux slices, and the chatbot.

## Layout

The database is one class, `Db.Database`. Every table is a field:

- `map`s for products, discount codes (keyed by their unique `code`), users, carts and orders;
- `seq`s, in table order, for cart items, order items and referrals.

The schema's constraints and the invariants the controllers keep form one predicate, `Db.ValidTables`.

Each controller that writes is a method on the database. Its `ensures` ties the response and the new tables to a specification function of the old tables:

- `OrderController.CreateOrderSpec`;
- `AuthController.SignupSpec`;
- the merge, update and delete functions of `CartController`.

The lemmas beside each method prove the promised properties about that specification function.

The model mirrors the source in these ways:

- `createOrder` runs its seven steps in the source's order. There is no transaction, so the code use and the credit debit stay saved when the later order insert fails.
- A Sequelize validation error, or a JavaScript `TypeError`, reaches the handler's `catch` block. It is modelled as the `ServerError` result (status 500).
- Both Redux slices are a pure `Reduce` plus a store class. The class's `Dispatch` assigns the state's fields the way each reducer case does.
- The checkout page and the chatbot are classes. Their fields are the component's `useState` values.

Money is exact (`real`). The one place the source computes with JavaScript numbers in a way that matters is `useCart`'s `totalPrice`. There the model uses a `Number` type that is either a real or `NaN`.

Abstract parameters:

- The bcrypt hash and compare are function parameters.
- So are the email check in the User schema and the random suffix of generated referral codes.
- So is the SQL `LIKE` match used by the product search.
- The current time (`now`) and `Date.now()` ids are parameters too.

Where the source's behaviour rests on arguments the code leaves undefined, the model follows the code:

- `validateDiscount` without a `code` field gives a `where` clause with an undefined value. Sequelize refuses that, so the model's answer is a server error, not "Invalid code".
- `addToCart` compares only the requested quantity with the stock. The quantity already in the cart is not counted.
- A merge that would leave a cart line below 1 fails the CartItem schema (`min: 1`) with status 500, and writes nothing.

## Model

| member | source | states |
|---|---|---|
| OrderController.StockCheck | backend/src/controllers/orderController.js:21-27 | the check passes exactly when every line's product exists with at least the line's quantity in stock |
| OrderController.StockCheckSubtotal | backend/src/controllers/orderController.js:21-27 | a passed check yields the subtotal, the sum of price × quantity over the lines at the prices read with the cart |
| OrderController.StockCheckFirstFailure | backend/src/controllers/orderController.js:22-25 | a failed check names the first line that is out of stock (its product's name), and every earlier line passed |
| OrderController.StockCheckPrefixFailure | backend/src/controllers/orderController.js:22-25 | a failure among the first k lines is the failure of the whole loop: later lines are never looked at |
| OrderController.StockCheckStep | backend/src/controllers/orderController.js:23-26 | one more loop iteration either fails on that line or adds its price × quantity to the running subtotal |
| OrderController.DiscountStep | backend/src/controllers/orderController.js:29-49 | step 3: no discount without a code; a supplied code passes the guard chain or yields its error; SettleGuards and SettleAmounts state the outcomes |
| OrderController.CreditsStep | backend/src/controllers/orderController.js:51-68 | step 4: credit only when requested and the balance is positive; SettleAmounts and CreditRedemptionBounded state the amount and its bounds |
| OrderController.CheckLines | backend/src/controllers/orderController.js:21-27 | the loop with its early return computes exactly the stock check and its subtotal |
| OrderController.Settle | backend/src/controllers/orderController.js:16-75 | a settlement that succeeds has a non-empty cart whose lines all exist and passed the stock check with that subtotal |
| OrderController.SettleGuards | backend/src/controllers/orderController.js:16-49 | empty cart, stock, then invalid / expired / limit-reached code are rejected in this order, each exactly when its condition is the first to fail |
| OrderController.SettleSucceeds | backend/src/controllers/orderController.js:29-75 | when the stock check and discount step pass, the settlement carries their subtotal, discount and consumed code, the credit step's amount and the floored total |
| OrderController.SettleAmounts | backend/src/controllers/orderController.js:29-75 | discount = subtotal × percentage / 100 only when a code is supplied (0 otherwise); credits = min(balance, subtotal − discount) only when requested and the balance is positive (0 otherwise); total = max(0, subtotal − discount − credits) |
| OrderController.SettleSavesSafely | backend/src/controllers/orderController.js:44-66 | the credit used never exceeds a non-negative balance, and only a code that passed the guard chain is consumed |
| OrderController.SettleTotalIsExact | backend/src/controllers/orderController.js:57-75 | with non-negative prices and a schema-valid code the discount is within [0, subtotal], the credit within [0, balance], and the floor at zero is never needed |
| OrderController.ApplyStock | backend/src/controllers/orderController.js:90-93 | the product table after the loop holds the same products |
| OrderController.StockFallsByQuantity | backend/src/controllers/orderController.js:90-93 | each product's stock falls by exactly the quantity the lines take of it, all its other fields unchanged, products not in the cart untouched |
| OrderController.QuantityOfDistinct | backend/src/controllers/orderController.js:82-93 | with one line per product a product is lowered by its own line's quantity, and by 0 when it is not in the cart |
| OrderController.StockStaysNonNegative | backend/src/controllers/orderController.js:22-25 | after a passed stock check over distinct products no stock goes negative, and products not in the cart keep their row |
| OrderController.OrderItemsFor | backend/src/controllers/orderController.js:83-88 | one order item per cart line, with the line's product and quantity and the unit price read at settlement |
| OrderController.CapturedItemsAddUp | backend/src/controllers/orderController.js:83-88 | the captured items' price × quantity add up to the settlement's subtotal |
| OrderController.OrderItemsForSnoc | backend/src/controllers/orderController.js:82-88 | one more loop iteration adds exactly that line's order item at the end |
| OrderController.InsertItems | backend/src/controllers/orderController.js:82-94 | the loop leaves the products lowered as ApplyStock says and appends exactly OrderItemsFor |
| OrderController.AppendedItemsValid | backend/src/controllers/orderController.js:83-88 | items appended for an existing order keep every item's order reference valid |
| OrderController.CreateOrderSpec | backend/src/controllers/orderController.js:6-104 | createOrder's result and tables; CreateOrderOutcomes states the three outcomes and CreateOrderKeepsValid the invariant it keeps |
| OrderController.Saved | backend/src/controllers/orderController.js:43-66 | the tables after the code use and the credit debit, which stay even when step 5 fails; SavedKeepsValid states the invariant they keep |
| OrderController.ConsumeCode | backend/src/controllers/orderController.js:43-45 | the consumed code's usedCount rises by 1, the table is otherwise unchanged; ConsumeCodeKeepsConsistent states the constraints it keeps |
| OrderController.Debit | backend/src/controllers/orderController.js:64-66 | the buyer's balance falls by the credit used; DebitKeepsUsersValid states the constraints it keeps |
| OrderController.NewOrder | backend/src/controllers/orderController.js:72-79 | the order row: buyer, settled total, address, payment method, status pending |
| OrderController.Place | backend/src/controllers/orderController.js:72-97 | steps 5 to 7 as one table update; PlaceEffects states its effect table by table and PlaceKeepsValid the invariant it keeps |
| OrderController.CreateOrderOutcomes | backend/src/controllers/orderController.js:6-104 | a rejected settlement writes nothing; a settled request without address or payment method keeps the code use and the debit and fails; otherwise the order is placed with the next id |
| OrderController.PlaceEffects | backend/src/controllers/orderController.js:73-97 | placing an order adds exactly its row under the next id and one item per line, lowers each product's stock by exactly the quantity the lines take of it, empties the buyer's cart and leaves every other cart, the users and the codes as they were |
| OrderController.ConsumeCodeKeepsConsistent | backend/src/controllers/orderController.js:44-45 | consuming a code that passed the guards keeps the code table's schema constraints and counter range |
| OrderController.DebitKeepsUsersValid | backend/src/controllers/orderController.js:65-66 | a debit the balance covers keeps the users, their unique columns and the non-negative balance |
| OrderController.SavedKeepsValid | backend/src/controllers/orderController.js:44-66 | the writes of steps 3 and 4 keep every table constraint |
| OrderController.PlaceKeepsValid | backend/src/controllers/orderController.js:73-97 | the writes of steps 5 to 7 keep every table constraint |
| OrderController.CreateOrderKeepsValid | backend/src/controllers/orderController.js:6-104 | createOrder keeps every schema constraint and invariant of the store on every path |
| OrderController.RedeemCode | backend/src/controllers/orderController.js:30-49 | the code step's result is the guard chain's, and usedCount rises by 1 only on success |
| OrderController.RedeemCredits | backend/src/controllers/orderController.js:52-68 | the credit used is the credit rule's amount and the balance falls by exactly that |
| OrderController.PreparedOutcome | backend/src/controllers/orderController.js:73-97 | steps 5 to 7 run on what steps 1 to 4 left complete createOrder as specified |
| OrderController.Prepare | backend/src/controllers/orderController.js:8-68 | steps 1 to 4 on the store leave the result and tables the specification prescribes |
| OrderController.PlaceOrder | backend/src/controllers/orderController.js:73-97 | the order gets the next id; the store becomes Place: order row, items, stock, cart cleared |
| OrderController.Finish | backend/src/controllers/orderController.js:73-99 | without address or payment method the insert fails and nothing more is written; otherwise the order is placed |
| OrderController.CreateOrder | backend/src/controllers/orderController.js:6-104 | the response and the new store are exactly CreateOrderSpec of the old store, and the store stays valid |
| OrderController.ItemsOf | backend/src/controllers/orderController.js:129-131 | the rows of exactly one order |
| OrderController.GetOrderById | backend/src/controllers/orderController.js:127-139 | a missing order is not found; one that is neither the caller's nor read by an admin is not authorized; otherwise the order and exactly its items |
| DiscountCodes.Create | backend/src/models/DiscountCode.js:10-38 | created exactly when code, percentage in 1..100 and expiry are given; stores them with active true, usedCount 0 and the limit given or 100 |
| DiscountCodes.FindActive | backend/src/controllers/discountController.js:28 | finds a code exactly when it is in the table and active |
| DiscountCodes.Check | backend/src/controllers/discountController.js:28-42 | invalid iff unknown or inactive; expired iff active and now > expiry; limit reached iff active, not expired and usageLimit ≤ usedCount; success returns the stored code |
| DiscountCodes.Consume | backend/src/controllers/orderController.js:44 | usedCount rises by exactly 1 and nothing else changes |
| DiscountCodes.ConsumeKeepsCounterInRange | backend/src/controllers/orderController.js:37-45 | a code that passed the guards can be consumed and its count reaches the limit at most |
| DiscountCodes.FreshCodeChecks | backend/src/models/DiscountCode.js:27-38 | a freshly created code passes the guards up to and at its expiry exactly when its limit is positive |
| DiscountController.ValidateDiscount | backend/src/controllers/discountController.js:25-47 | no code field is a server error; otherwise invalid, expired and limit-reached exactly as the guard chain orders them; success returns the stored code unchanged |
| DiscountController.ValidationAgreesWithSettlement | backend/src/controllers/discountController.js:28-42 | a non-empty code validates exactly when createOrder's discount step accepts it, and the step's discount is then the code's percentage of the subtotal |
| DiscountController.CreateDiscount | backend/src/controllers/discountController.js:6-20 | stores exactly the record Create builds when it is valid and its code is new; otherwise a server error and no change |
| DiscountController.CreatedCodeValidates | backend/src/controllers/discountController.js:6-47 | a created code validates until its expiry exactly when its limit is positive, and other codes validate as before |
| Pricing.Subtotal | backend/src/controllers/orderController.js:21-27 | the subtotal of lines with no negative price or quantity is not negative |
| Pricing.LineTotal | backend/src/controllers/orderController.js:26 | one line's price × quantity; CapturedItemsAddUp and PriceLines state how the subtotal sums them |
| Pricing.SubtotalAppend | backend/src/controllers/cartController.js:28-36 | the subtotal of two runs of lines is the sum of their subtotals |
| Pricing.SubtotalFirst | backend/src/controllers/cartController.js:28-36 | the subtotal splits off its first line |
| Pricing.DiscountAmount | backend/src/controllers/orderController.js:41 | subtotal × percentage / 100 lies in [0, subtotal] for a percentage in 0..100 and is the whole subtotal at 100 |
| Pricing.CreditsApplied | backend/src/controllers/orderController.js:57-62 | the credit used is the balance or what is left to pay, whichever is smaller |
| Pricing.OrderTotal | backend/src/controllers/orderController.js:70-75 | the total is subtotal − discount − credits floored at 0 |
| Pricing.CreditRedemptionBounded | backend/src/controllers/orderController.js:52-70 | with a positive balance the credit used is within [0, balance], the balance stays non-negative, and the total is 0 exactly when the balance covers what is left |
| Pricing.CreditExamples | backend/src/controllers/orderController.js:57-65 | balance 30 against 100 uses 30 and leaves 70 to pay; balance 150 uses 100, leaves 0 to pay and 50 on the balance |
| Pricing.DiscountExample | backend/src/controllers/orderController.js:26-41 | 10.00 × 2 and 5.00 × 1 with a 20% code: subtotal 25, discount 5, total 20 |
| CartController.FreshCartIsEmpty | backend/src/controllers/cartController.js:23-25 | a cart created now has no lines |
| CartController.NoRowsNoLines | backend/src/controllers/cartController.js:8-21 | a cart no row names has no lines |
| CartController.EnsureCart | backend/src/controllers/cartController.js:59-62 | returns the user's cart, creating one (with the next id) only when there is none |
| CartController.ItemLines | backend/src/controllers/cartController.js:30 | each priced item becomes its product's price and its quantity |
| CartController.PriceLines | backend/src/controllers/cartController.js:28-36 | each returned line has total = price × quantity and the subtotal is their sum; a line with no product fails |
| CartController.PricedSubtotalStep | backend/src/controllers/cartController.js:29-31 | one more map callback adds that line's total to the subtotal |
| CartController.ViewCart | backend/src/controllers/cartController.js:27-45 | a cart's view: one priced item per line in order, each total price × quantity, the subtotal their sum, or ServerError when a product row is gone |
| CartController.GetCartAsWritten | backend/src/controllers/cartController.js:6-50 | as written: a user without a cart gets the new cart row and a 500, since the created cart has no loaded items; otherwise the cart's lines priced and totalled |
| CartController.GetCart | backend/src/controllers/cartController.js:6-50 | corrected: a user without a cart gets the new cart, empty with subtotal 0; otherwise the cart's lines priced and totalled, or ServerError when a product row is gone |
| CartController.LineFor | backend/src/controllers/cartController.js:74-79 | finds a line exactly when the cart has one for the product |
| CartController.Quantity | backend/src/controllers/cartController.js:74-90 | a product's quantity in a cart, 0 without a line; MergeAddsQuantity states that adding raises it by exactly the amount |
| CartController.SetQuantity | backend/src/controllers/cartController.js:120-121 | only the row with that id changes, to exactly the new quantity |
| CartController.DeleteLine | backend/src/controllers/cartController.js:118 | exactly the rows with another id remain |
| CartController.SetQuantityValid | backend/src/controllers/cartController.js:117-122 | setting a quantity of at least 1 keeps the row constraints |
| CartController.DeleteLineValid | backend/src/controllers/cartController.js:147 | deleting a row keeps the row constraints |
| CartController.AppendLineValid | backend/src/controllers/cartController.js:85-89 | a new row for a product the cart has no line for keeps one line per product |
| CartController.MergeValid | backend/src/controllers/cartController.js:81-90 | the merge keeps the row constraints, so a cart never holds two lines for one product |
| CartController.MergeExistingValid | backend/src/controllers/cartController.js:81-83 | adding to an existing line keeps the constraints and hands out no new id |
| CartController.Merge | backend/src/controllers/cartController.js:73-90 | raise the product's line or append a new one; MergeAddsQuantity, MergeKeepsOtherLines and MergeValid state its effect and the invariant it keeps |
| CartController.LineForSetQuantity | backend/src/controllers/cartController.js:120-121 | after a quantity change the changed line is found with its new quantity and other lines as before |
| CartController.LineForAppend | backend/src/controllers/cartController.js:85-89 | after an insert a lookup finds the earlier line, if any, else the new row |
| CartController.SameKeySameRow | backend/src/controllers/cartController.js:74-79 | with one row per (cart, product), two rows with the same pair are one row |
| CartController.MergeAddsQuantity | backend/src/controllers/cartController.js:81-90 | the product's quantity in the cart rises by exactly the requested amount |
| CartController.MergeKeepsOtherLines | backend/src/controllers/cartController.js:81-90 | every other (cart, product) line is left as it was |
| CartController.AddLine | backend/src/controllers/cartController.js:64-92 | unknown product → not found, request above stock → not enough stock, both with no change; otherwise the merge |
| CartController.MergeInto | backend/src/controllers/cartController.js:81-90 | the store's rows become the merge's rows |
| CartController.WriteRows | backend/src/controllers/cartController.js:81-90 | the rows and the next id are written, and the store stays valid |
| CartController.AddToCart | backend/src/controllers/cartController.js:55-97 | the cart is ensured first; then the product guards and the merge as in AddLine |
| CartController.ItemById | backend/src/controllers/cartController.js:105 | finds the row with that id exactly when there is one |
| CartController.Access | backend/src/controllers/cartController.js:105-115 | not found iff no row has the id; not authorized iff the row's cart is another user's; success is that row in the caller's cart |
| CartController.UpdateCartItem | backend/src/controllers/cartController.js:102-129 | guard failures change nothing; a quantity below 1 deletes the line, otherwise it becomes exactly the quantity |
| CartController.RemoveFromCart | backend/src/controllers/cartController.js:134-153 | guard failures change nothing; otherwise exactly the target row is deleted |
| CartController.LinesOfDeleteOther | backend/src/controllers/cartController.js:147 | deleting a row of another cart leaves this cart's lines as they were |
| CartController.RemoveOnlyTarget | backend/src/controllers/cartController.js:147 | removal takes exactly the target line out of its cart and leaves every other cart as it was |
| CartController.UpdateOnlyTarget | backend/src/controllers/cartController.js:117-122 | an update changes only the target line: set to the quantity or removed below 1 |
| CartController.LineForDelete | backend/src/controllers/cartController.js:118 | after deleting a row its (cart, product) pair has no line and other pairs are found as before |
| CartController.LineForDeleteAbsent | backend/src/controllers/cartController.js:118 | deleting an id no row has changes no lookup |
| CartController.IdsUnique | backend/src/models/CartItem.js:10-17 | two rows with one id are the same row |
| CartController.SameKeysValid | backend/src/models/CartItem.js:10-17 | rows with the same ids, carts and products and quantities of at least 1 keep the row constraints |
| CartController.DeleteLineAscending | backend/src/controllers/cartController.js:118 | deleting keeps the rows in id order |
| Db.CartOf | backend/src/controllers/cartController.js:59 | finds a cart exactly when the user owns one, and it is theirs |
| Db.LinesOf | backend/src/controllers/cartController.js:10-13 | exactly the rows of that cart |
| Db.WithoutCart | backend/src/controllers/orderController.js:97 | exactly the rows of other carts remain |
| Db.ClearedCartIsEmpty | backend/src/controllers/orderController.js:97 | a cleared cart has no lines and every other cart keeps its lines |
| Db.WithoutCartValid | backend/src/controllers/orderController.js:97 | clearing a cart keeps the row constraints |
| Db.LinesOfDistinctProducts | backend/src/controllers/cartController.js:74-90 | the lines of one cart name distinct products |
| Db.Priced | backend/src/controllers/orderController.js:26 | each line is priced at its product's price read with the cart |
| Db.UserByEmail | backend/src/controllers/authController.js:47 | finds a user exactly when one has that email |
| Db.UserByReferralCode | backend/src/controllers/authController.js:55 | finds a user exactly when one has that referral code |
| UserModel.GeneratedReferralCode | backend/src/models/User.js:56 | a generated code starts with REF- followed by the suffix |
| UserModel.BeforeCreate | backend/src/models/User.js:49-58 | a non-empty password is hashed, an empty one kept; a referral code is generated only when none (or an empty one) is given |
| UserModel.Create | backend/src/models/User.js:11-58 | a user is created exactly when name, password and a valid email are given; the role defaults to user, the credits to 0.00, and a generated code has the REF- prefix |
| UserModel.BeforeUpdate | backend/src/models/User.js:59-64 | the password is re-hashed exactly when it changed, and nothing else is touched |
| UserModel.UnrelatedUpdateKeepsHash | backend/src/models/User.js:59-64 | saving a credit change leaves the stored hash as it was |
| UserModel.ValidPassword | backend/src/models/User.js:68-70 | bcrypt's comparison of the candidate with the stored hash; SignupThenLogin states that the signup password passes it |
| AuthController.Referrer | backend/src/controllers/authController.js:53-56 | a referrer is found exactly when a non-empty code matches a user's referral code |
| AuthController.SignupDraft | backend/src/controllers/authController.js:59-65 | referred_by is the referrer's code with a match and null otherwise; role, credits and code are left to the defaults |
| AuthController.Registered | backend/src/controllers/authController.js:59-86 | the tables after a successful signup; SignupStoresUser, SignupCreatesCart and SignupCreditsReferral state their contents |
| AuthController.SignupSpec | backend/src/controllers/authController.js:42-93 | signup's result and tables; SignupOutcome, SignupKeepsValid and SignupThenLogin state its outcomes, its invariant and the login that follows |
| AuthController.Signup | backend/src/controllers/authController.js:42-93 | the response and new store are exactly SignupSpec of the old store, and the store stays valid |
| AuthController.Register | backend/src/controllers/authController.js:59-86 | user, cart and, with a referrer, both credits and the Referral row are written as Registered says |
| AuthController.InsertUserValid | backend/src/models/User.js:15-22 | a user with a new email and code keeps the unique columns and the credit floor |
| AuthController.CreditUserValid | backend/src/controllers/authController.js:73-78 | raising one user's credits keeps the unique columns and the credit floor |
| AuthController.RegisteredUsersValid | backend/src/controllers/authController.js:59-78 | the users table after registration has one new key and keeps its constraints |
| AuthController.CartAddedValid | backend/src/controllers/authController.js:68 | a cart for a user without one keeps one cart per user and the row constraints |
| AuthController.ReferralAddedValid | backend/src/controllers/authController.js:81-85 | one completed referral of a new user keeps at most one inbound referral per user |
| AuthController.RegisteredValid | backend/src/controllers/authController.js:59-86 | registering a user with a new email and code keeps every table constraint |
| AuthController.SignupKeepsValid | backend/src/controllers/authController.js:42-93 | signup keeps every table constraint on every path |
| AuthController.SignupOutcome | backend/src/controllers/authController.js:47-65 | a failure writes nothing; an existing email is always rejected; success needs a new, valid email, a name and a password |
| AuthController.SignupStoresUser | backend/src/controllers/authController.js:59-65 | the new user holds the request's name, email and phone, the hashed password, role user and a fresh REF- code; no other user changes but a matched referrer |
| AuthController.SignupCreditsReferral | backend/src/controllers/authController.js:53-86 | with a match the referrer gains 50, the new user holds exactly 50 and one completed Referral is appended; with no or an unmatched code no credit changes and no Referral is written |
| AuthController.SignupCreatesCart | backend/src/controllers/authController.js:68 | every successful signup gives the new user exactly one cart, and it is empty |
| AuthController.Login | backend/src/controllers/authController.js:98-119 | missing email or password iff missing credentials; success iff a user with that email matches the password; otherwise invalid credentials |
| AuthController.SignupThenLogin | backend/src/controllers/authController.js:42-119 | a user who signed up logs in with the same email and password |
| AuthController.Message | backend/src/controllers/authController.js:49-117 | every error's message is non-empty; the missing- and invalid-credentials texts each belong to exactly their error |
| AuthController.MessagesDistinct | backend/src/controllers/authController.js:49-117 | two errors get the same message exactly when they are the same error |
| AuthController.ViewOf | backend/src/controllers/authController.js:28-35 | the user object of the response: id, name, email, role, referral code and credits |
| Validators.IsEmailMatchesPattern | backend/src/utils/validators.js:5-8 | isEmail accepts exactly the strings of the regular expression |
| Validators.EmailToPattern | backend/src/utils/validators.js:5-8 | an accepted address splits into local part, @, name, dot and suffix, none empty and free of spaces and @ |
| Validators.PatternToEmail | backend/src/utils/validators.js:5-8 | every string of that shape is accepted |
| Validators.EmailPartSplit | backend/src/utils/validators.js:6 | two runs joined by a dot form a domain |
| Validators.OneAtSign | backend/src/utils/validators.js:5-8 | an accepted address has exactly one @ with a non-empty part on each side |
| Validators.IsEmail | backend/src/utils/validators.js:5-8 | isEmail's regular expression; IsEmailMatchesPattern, EmailToPattern and PatternToEmail state that it accepts exactly the strings of that shape |
| Validators.ValidQuantityIsCount | backend/src/utils/validators.js:19-21 | a valid quantity is exactly a whole number of at least 1 |
| Validators.Utf16Length | backend/src/utils/validators.js:12 | a string's JavaScript length is between its number of characters and twice that, one code unit per character below U+10000 and two above |
| Validators.Utf16LengthBmp | backend/src/utils/validators.js:12 | a string with no character above U+FFFF has a JavaScript length equal to its number of characters |
| Validators.IsStrongPassword | backend/src/utils/validators.js:10-13 | a password is strong when it is present and its JavaScript length is at least 6; ValidatorBoundaries and AstralPasswordIsStrong give the boundary cases |
| Validators.AstralPasswordIsStrong | backend/src/utils/validators.js:12 | three emoji, three characters but six UTF-16 code units, make a strong password |
| Validators.IsValidPrice | backend/src/utils/validators.js:15-17 | a price is valid when it is a number and not negative; ValidatorBoundaries gives 0, −0.01 and NaN |
| Validators.IsValidQuantity | backend/src/utils/validators.js:19-21 | a quantity is valid when it is an integer above 0; ValidQuantityIsCount states it is exactly a whole number of at least 1 |
| Validators.SanitizeString | backend/src/utils/validators.js:23-26 | a non-string gives the empty string, a string is trimmed; Trim and SanitizeIdempotent state what is removed and that a second pass changes nothing |
| Validators.ValidatorBoundaries | backend/src/utils/validators.js:10-17 | 6 characters is the shortest strong password, 0 the least valid price; a missing password and NaN are refused; every valid quantity is a valid price |
| Validators.TrimStart | backend/src/utils/validators.js:25 | removes exactly the leading whitespace |
| Validators.TrimEnd | backend/src/utils/validators.js:25 | removes exactly the trailing whitespace |
| Validators.Trim | backend/src/utils/validators.js:25 | the result is a slice of the input with only whitespace cut off either end, and does not start or end with whitespace |
| Validators.TrimStartFixed | backend/src/utils/validators.js:25 | a string that does not start with whitespace is its own TrimStart |
| Validators.TrimEndFixed | backend/src/utils/validators.js:25 | a string that does not end with whitespace is its own TrimEnd |
| Validators.SanitizeIdempotent | backend/src/utils/validators.js:23-26 | sanitizing twice is the same as sanitizing once |
| ProductController.TotalPages | backend/src/controllers/productController.js:41 | totalPages is the ceiling of count / limit, absent for limit 0 |
| ProductController.TotalPagesCover | backend/src/controllers/productController.js:41 | with a positive limit it is the least number of pages that hold every row |
| ProductController.Window | backend/src/controllers/productController.js:30-36 | LIMIT offset, limit yields min(limit, rows − offset) rows starting at the offset; negative values are refused |
| ProductController.GetProducts | backend/src/controllers/productController.js:7-49 | the listing from the defaults page 1 and limit 10, the optional category and text filters and the window; what it returns is stated by ListingContents, UnknownCategoryIgnored and PagingCoversAll |
| ProductController.FindCategory | backend/src/controllers/productController.js:17 | finds the first category with that name exactly when there is one |
| ProductController.Matching | backend/src/controllers/productController.js:12-28 | exactly the rows the where clause selects, in table order |
| ProductController.ListingContents | backend/src/controllers/productController.js:7-49 | the listing is refused exactly when the offset (page − 1) × limit or the limit is negative; otherwise count is the number of matching rows, data is the matching rows from the offset on, at most limit of them, totalPages is ceil(count / limit) and currentPage the page |
| ProductController.UnknownCategoryIgnored | backend/src/controllers/productController.js:15-21 | a category name no category has filters nothing |
| ProductController.PagesPrefix | backend/src/controllers/productController.js:10 | the first n pages are the first n × limit rows |
| ProductController.PagingCoversAll | backend/src/controllers/productController.js:10-41 | pages 1 to totalPages visit every matching row once, in order, and none of them is empty |
| ProductController.PageNonEmpty | backend/src/controllers/productController.js:10-41 | every page up to totalPages holds a row |
| ProductController.AppendRow | backend/src/controllers/productController.js:199 | a push adds exactly its id and keeps earlier rows and unique ids |
| ProductController.MergeUnique | backend/src/controllers/productController.js:196-201 | the text matches first, then each category match whose id is absent; no duplicate ids when the first list has none; every id from either list present |
| ProductController.SearchProducts | backend/src/controllers/productController.js:133-208 | a missing or empty query is refused; otherwise the merged list, holding exactly the found products of a table with unique ids |
| ProductController.MatchingCategoryIds | backend/src/controllers/productController.js:182-185 | the ids of exactly the categories whose name matches |
| ProductController.ByText | backend/src/controllers/productController.js:171-179 | exactly the products whose name or description matches |
| ProductController.ByCategory | backend/src/controllers/productController.js:187-193 | exactly the products of a matching category; none without one |
| ProductController.InCategories | backend/src/controllers/productController.js:190 | exactly the rows whose category is among the ids |
| ProductController.MatchingUnique | backend/src/controllers/productController.js:171-193 | a selection from a table with unique ids has unique ids |
| ProductController.ByTextUnique | backend/src/controllers/productController.js:171-179 | the text matches of a table with unique ids have unique ids |
| ProductController.SearchMembers | backend/src/controllers/productController.js:196-203 | the merged list holds only found products, and every found product of a table with unique ids |
| ProductController.GetProductById | backend/src/controllers/productController.js:54-69 | not found exactly when there is no such row; otherwise that row |
| ProductController.Patched | backend/src/controllers/productController.js:104 | each field given replaces the stored one; others are kept |
| ProductController.PatchLaws | backend/src/controllers/productController.js:104 | an empty body changes nothing; the same body twice is the same as once |
| ProductController.UpdateProduct | backend/src/controllers/productController.js:97-110 | a missing id is not found and changes nothing; otherwise only that product is patched |
| ProductController.DeleteProduct | backend/src/controllers/productController.js:115-128 | a missing id is not found and changes nothing; otherwise exactly that product is removed |
| JsValues.Add | frontend/src/hooks/useCart.js:13 | a sum is NaN exactly when an operand is, else the real sum |
| JsValues.Mul | frontend/src/hooks/useCart.js:13 | a product is NaN exactly when an operand is, else the real product |
| UseCart.TotalItemsBound | frontend/src/hooks/useCart.js:10 | with quantities of at least 1 the count is at least the number of lines and 0 exactly for no lines |
| UseCart.TotalItems | frontend/src/hooks/useCart.js:10 | the sum of the quantities; TotalItemsBound states its bounds |
| UseCart.TotalPriceAsWritten | frontend/src/hooks/useCart.js:13 | the price sum as written, with `item.price` undefined; TotalPriceAsWrittenIsNaN states it is NaN for any non-empty cart |
| UseCart.TotalPrice | frontend/src/hooks/useCart.js:13 | the price sum read from each item's product; TotalPriceIsShownSubtotal states it is the slice's subtotal |
| UseCart.UseCart | frontend/src/hooks/useCart.js:6-23 | the hook's fields from the cart slice, or the defaults without one; UseCartFlags states its flags and totals |
| UseCart.TotalPriceAsWrittenIsNaN | frontend/src/hooks/useCart.js:13 | as written, totalPrice of every non-empty cart is NaN (0 for an empty one) |
| UseCart.TotalPriceExample | frontend/src/hooks/useCart.js:13 | one line at 10.00 × 2: NaN as written, 20 with the price read from the product |
| UseCart.UseCartFlags | frontend/src/hooks/useCart.js:7-21 | isEmpty iff no items, then both totals 0; a missing slice reads as no items, not loading, no error |
| UseCart.TotalPriceIsShownSubtotal | frontend/src/hooks/useCart.js:13 | the corrected totalPrice equals the subtotal the slice shows whenever that subtotal sums its items |
| Requests.RejectValue | frontend/src/redux/slices/cartSlice.js:9 | no response gives no payload; the server's non-empty message is the payload; otherwise the fallback text |
| CartSlice.FetchOutcome | frontend/src/redux/slices/cartSlice.js:59-70 | a fetch ends not loading; success shows exactly the fetched items and subtotal and keeps the error; failure keeps the items and records the payload |
| CartSlice.Reduce | frontend/src/redux/slices/cartSlice.js:51-71 | the slice's reducer cases; ClearCartEmpties, FetchOutcome, MutationOutcome and ReduceKeepsTotals state what they do |
| CartSlice.FetchActions | frontend/src/redux/slices/cartSlice.js:4-11 | fetchCart's pending action, then fulfilled with the cart or rejected with the server's message or the fallback; FetchOutcome states the state it leaves |
| CartSlice.MutationActions | frontend/src/redux/slices/cartSlice.js:13-41 | a mutation's actions, with fetchCart started only on success; MutationOutcome states the state they leave |
| CartSlice.MutationOutcome | frontend/src/redux/slices/cartSlice.js:13-41 | a failed add, update or remove leaves the state as it was; a successful one ends as a fetch from the same state |
| CartSlice.ClearCartEmpties | frontend/src/redux/slices/cartSlice.js:52-55 | clearCart empties items and zeroes the subtotal, keeping loading and error |
| CartSlice.ReduceKeepsTotals | frontend/src/redux/slices/cartSlice.js:52-70 | every action keeps the shown subtotal equal to the sum over the shown items when the fetched carts are getCart's |
| CartSlice.CartStore.constructor | frontend/src/redux/slices/cartSlice.js:45-50 | no items, subtotal 0, not loading, no error |
| CartSlice.CartStore.Dispatch | frontend/src/redux/slices/cartSlice.js:51-71 | the state becomes Reduce of the old state and the action |
| CartSlice.CartStore.DispatchAll | frontend/src/redux/slices/cartSlice.js:51-71 | dispatching a sequence is the actions reduced in order |
| AuthSlice.LoginCases | frontend/src/redux/slices/authSlice.js:57-69 | pending sets loading and clears the error; fulfilled ends loading, signs in the payload; rejected ends loading, records the payload, keeps user and flag |
| AuthSlice.Reduce | frontend/src/redux/slices/authSlice.js:49-103 | the slice's reducer cases; LoginCases, SignupLikeLogin, SessionCases and ReduceAllConsistent state what they do |
| AuthSlice.LoginActions | frontend/src/redux/slices/authSlice.js:5-12 | login's pending action, then fulfilled with the user or rejected with the message or the fallback; LoginFlow states the state they leave |
| AuthSlice.LoginReply | backend/src/controllers/authController.js:98-119 | the backend's answer to the thunk: the user view or the error's message; LoginFlow states the outcome against it |
| AuthSlice.SignupLikeLogin | frontend/src/redux/slices/authSlice.js:71-83 | signup's three transitions are login's |
| AuthSlice.SessionCases | frontend/src/redux/slices/authSlice.js:50-102 | logout.fulfilled clears user and flag; checkAuth.fulfilled sets the flag iff a user came; checkAuth.rejected clears both; clearError touches only the error |
| AuthSlice.ReduceAllConsistent | frontend/src/redux/slices/authSlice.js:57-102 | every action sequence keeps the flag true exactly when a user is held, when successful logins carry a user |
| AuthSlice.InitialConsistent | frontend/src/redux/slices/authSlice.js:43-48 | the initial state holds no user, is not signed in, is loading and has no error |
| AuthSlice.LoginWithoutUser | frontend/src/redux/slices/authSlice.js:61-65 | a fulfilled login without a user would leave flag and user out of step |
| AuthSlice.LoginFlow | frontend/src/redux/slices/authSlice.js:5-12 | against the backend's login: good credentials sign in the user with that email and leave no error; otherwise user and flag are kept and the server's message is shown |
| AuthSlice.AuthStore.constructor | frontend/src/redux/slices/authSlice.js:43-48 | the initial state |
| AuthSlice.AuthStore.Dispatch | frontend/src/redux/slices/authSlice.js:49-103 | the state becomes Reduce of the old state and the action |
| AuthSlice.AuthStore.DispatchAll | frontend/src/redux/slices/authSlice.js:49-103 | dispatching a sequence is the actions reduced in order |
| CheckoutPage.ValidationOf | frontend/src/pages/CheckoutPage.jsx:24-25 | the page's view of the validate call is accepted exactly when validateDiscount succeeds, with the code's percentage |
| CheckoutPage.Applied | frontend/src/pages/CheckoutPage.jsx:21-33 | applying changes only the discount shown, nothing else in the form |
| CheckoutPage.AppliedCases | frontend/src/pages/CheckoutPage.jsx:22-31 | the discount shown after applying is the validated code's share of the subtotal, 0 when refused, unchanged for an empty code |
| CheckoutPage.Deducted | frontend/src/pages/CheckoutPage.jsx:37-38 | credit is subtracted exactly when opted in and the balance is present and non-zero |
| CheckoutPage.CreditLine | frontend/src/pages/CheckoutPage.jsx:191-196 | the credit line shows exactly when opted in with a positive balance, and shows min(balance, subtotal − discount) |
| CheckoutPage.Body | frontend/src/pages/CheckoutPage.jsx:52-57 | the code is sent exactly when the discount shown is positive; the other fields as entered |
| CheckoutPage.InitialAgrees | frontend/src/pages/CheckoutPage.jsx:14-19 | the initial form sends no code and shows no discount, as the server would charge |
| CheckoutPage.AppliedAgrees | frontend/src/pages/CheckoutPage.jsx:21-33 | after applying a code the discount shown is the one the server's discount step computes for the code sent |
| CheckoutPage.EditAsWritten | frontend/src/pages/CheckoutPage.jsx:122 | the code field's onChange as written, keeping the old amount; EditAsWrittenDisagrees states the disagreement it causes |
| CheckoutPage.EditAsWrittenDisagrees | frontend/src/pages/CheckoutPage.jsx:122 | as written, clearing the field after SAVE10 was applied on 100 keeps 10 shown while no code is sent |
| CheckoutPage.Edit | frontend/src/pages/CheckoutPage.jsx:122 | editing the code also withdraws the discount shown |
| CheckoutPage.AfterEvents | frontend/src/pages/CheckoutPage.jsx:21-33 | the form after the user's typing and applying; EventsKeepAgreement states that the shown discount matches the server's |
| CheckoutPage.EventsKeepAgreement | frontend/src/pages/CheckoutPage.jsx:21-33 | with the corrected edit, any sequence of typing and applying keeps the shown discount equal to the server's for the code sent |
| CheckoutPage.PreviewMatchesSettlement | frontend/src/pages/CheckoutPage.jsx:35-41 | with discount ≤ subtotal and a non-negative balance the preview total is the server's total with the server's credit, and the credit line is the server's credit |
| CheckoutPage.Checkout.constructor | frontend/src/pages/CheckoutPage.jsx:14-19 | empty address, Credit Card, empty code, no credits, discount 0, not processing |
| CheckoutPage.Checkout.SetDiscountCode | frontend/src/pages/CheckoutPage.jsx:122 | the code becomes the text typed and the discount shown is withdrawn |
| CheckoutPage.Checkout.ApplyDiscount | frontend/src/pages/CheckoutPage.jsx:21-33 | the form becomes Applied of the old form |
| CheckoutPage.Checkout.CalculateTotal | frontend/src/pages/CheckoutPage.jsx:35-41 | the step-by-step total is never negative and equals max(0, subtotal − discount − credit subtracted) |
| CheckoutPage.Checkout.PlaceOrder | frontend/src/pages/CheckoutPage.jsx:43-67 | an empty address sends nothing and changes nothing; otherwise the body is sent, the cart is re-fetched only after success, and processing ends |
| Chatbot.LowerChar | frontend/src/components/Chatbot.jsx:37 | the result is never an upper-case letter, and a character that is not one is kept |
| Chatbot.ToLower | frontend/src/components/Chatbot.jsx:37 | same length, and each character lower-cased |
| Chatbot.ToLowerLaws | frontend/src/components/Chatbot.jsx:37 | the result has no upper-case letter and lower-casing it again changes nothing |
| Chatbot.MatchAtSlice | frontend/src/components/Chatbot.jsx:39-56 | a character-by-character match is the slice at that position equal to the word |
| Chatbot.ContainsFromOccurs | frontend/src/components/Chatbot.jsx:39-56 | the search from a position finds the word exactly when it occurs at or after it |
| Chatbot.ContainsOccurs | frontend/src/components/Chatbot.jsx:39-56 | includes holds exactly when the word occurs somewhere |
| Chatbot.ContainsInside | frontend/src/components/Chatbot.jsx:39-56 | a word inside a word inside a text is in the text |
| Chatbot.Contains | frontend/src/components/Chatbot.jsx:39-56 | `includes`; ContainsOccurs states it holds exactly when the word occurs |
| Chatbot.WordFrom | frontend/src/components/Chatbot.jsx:39 | a whole-word occurrence, the corrected greeting test; WordFromContains states every such occurrence is an occurrence |
| Chatbot.WordFromContains | frontend/src/components/Chatbot.jsx:39 | a whole-word occurrence is an occurrence |
| Chatbot.Respond | frontend/src/components/Chatbot.jsx:39-58 | the first matching rule's reply wins; no match gives the fallback |
| Chatbot.BotResponseAsWritten | frontend/src/components/Chatbot.jsx:36-59 | getBotResponse as written; ShippingIsGreetedAsWritten states that any shipping question is greeted |
| Chatbot.BotResponse | frontend/src/components/Chatbot.jsx:36-59 | getBotResponse with whole-word greetings; ShippingAnswered, CorrectionOnlyDropsGreetings and CaseInsensitive state how it answers |
| Chatbot.ShippingIsGreetedAsWritten | frontend/src/components/Chatbot.jsx:39-49 | as written, any query containing "shipping" is greeted, since "shipping" contains "hi" |
| Chatbot.ShippingMissesEarlierRules | frontend/src/components/Chatbot.jsx:42-47 | "shipping" holds none of the words of the order and return rules, nor "hello" |
| Chatbot.ShippingGreetedExample | frontend/src/components/Chatbot.jsx:39-49 | as written, the query "shipping" gets the greeting |
| Chatbot.ShippingAnswered | frontend/src/components/Chatbot.jsx:48-49 | with "hi" as a whole word, a query with "shipping" and no earlier keyword gets the shipping reply |
| Chatbot.ShippingAnsweredExample | frontend/src/components/Chatbot.jsx:48-49 | corrected, "shipping" gets the shipping reply |
| Chatbot.HiGreetedExample | frontend/src/components/Chatbot.jsx:39-41 | corrected, "hi" is still greeted |
| Chatbot.CorrectionOnlyDropsGreetings | frontend/src/components/Chatbot.jsx:39-58 | the two matchers disagree only on greetings triggered by "hi" inside a longer word, which the correction answers by the later rules |
| Chatbot.CaseInsensitive | frontend/src/components/Chatbot.jsx:37 | queries that differ only in letter case get the same reply |
| Chatbot.BlankIsAllSpace | frontend/src/components/Chatbot.jsx:22 | an input is blank exactly when every character is whitespace |
| Chatbot.ChatWindow.constructor | frontend/src/components/Chatbot.jsx:6-9 | the list holds exactly the bot's welcome, and the input is empty |
| Chatbot.ChatWindow.SetInput | frontend/src/components/Chatbot.jsx:9 | the input becomes the text typed; the list is unchanged |
| Chatbot.ChatWindow.HandleSend | frontend/src/components/Chatbot.jsx:20-28 | blank input changes nothing; otherwise the user's message is appended at the end, the input cleared and the question kept |
| Chatbot.ChatWindow.Reply | frontend/src/components/Chatbot.jsx:30-33 | the bot's reply to the question is appended with id now + 1 |

## Left out

- HTTP and persistence: Express routing, `req`/`res` plumbing and status codes are not modelled. Results are typed errors instead. The JWT cookie, `protect` middleware and `sendTokenResponse`'s token are also out. The signed-in user is a parameter, and the model requires it to exist.
- Concurrency: createOrder has no transaction, and two requests can race on stock, `usedCount` or credits. The model runs one request at a time and the steps in order.
- Stale reads: the stock is checked on the rows read with the cart and then lowered with `product.stock -= quantity` on a fresh read. With one request at a time the two reads agree.
- Arithmetic: `DECIMAL(10,2)` rounding on save and JavaScript floating point are not modelled. Amounts are exact reals.
- `parseFloat`: credits arrive as a DECIMAL string, so in the checkout preview "0.00" is truthy. The model treats the credit as a number. This makes no difference: subtracting 0 changes nothing.
- String inputs: quantities and prices that arrive as strings (`parseInt`, JavaScript coercion) are not modelled. Quantities are integers.
- Sorting and SQL: the `sort` and `order` parameters of getProducts and the database's row order are not modelled. Rows come in table order, and `LIKE` is a parameter.
- Non-numeric paging: a non-numeric `page` or `limit` is not modelled. MySQL's refusal of a negative offset or limit is the only error path.
- Unused query: the first `Product.findAll` of searchProducts (productController.js:140-156) is not modelled. Its result is never used.
- createProduct and the Product and Category models: Product.js and Category.js are not part of this model. Product rows carry only the fields the core reads.
- The delete path: the foreign-key effects of deleteProduct on cart and order rows are not modelled.
- `usageLimit: null` is not modelled. An explicitly null usage limit compares as 0 in JavaScript. The model takes the limit as given or defaults it to 100.
- Other controllers and models: logout, getMe, getMyOrders, categoryController and referralController are not modelled, nor are the Order, Cart, Referral and index models. CartItem's `min: 1` and Order's default `pending` are folded into the table invariants and the order row.
- Thunks: the signup, logout and checkAuth thunks are not modelled as action sequences. Their reducer cases are modelled, and the login thunk stands for the others, which have the same shape.
- Checkout page UI: the empty-cart render guard, toasts and `navigate` are not modelled. The plain setters for address, payment method and the credits box are not either; they are one `setState` each.
- Chatbot UI: `isOpen`, scrolling and the one-second timer are not modelled. The bot's reply is a separate `Reply` call.
- Chatbot.LowerChar: it lower-cases ASCII letters only. The full Unicode case mapping of `toLowerCase` is not modelled.
- Db.UserByEmail: emails are compared exactly. MySQL's default collation compares them case-insensitively, so the source refuses a signup as "Bob@x.com" next to "bob@x.com" (authController.js:47) and logs the second spelling in (:108), where the model registers it and refuses the login. SQL collations are not modelled.
- Db.UserByReferralCode: referral codes are compared exactly, where the lookup at authController.js:55 ignores letter case under MySQL's default collation.
- DiscountCodes.FindActive: codes are compared exactly, where the lookups at discountController.js:28 and orderController.js:32 ignore letter case under MySQL's default collation.
- ProductController.FindCategory: category names are compared exactly, where the lookup at productController.js:17 ignores letter case under MySQL's default collation.
- Db.UniqueUserColumns: uniqueness of email and referral code is exact, where MySQL's unique index is case-insensitive under the default collation.
- CheckoutPage.PreviewMatchesSettlement: it assumes the validated code and the order are settled at the same `now`, and the credits shown are the balance the server reads.

## Findings

| source | as written | input that shows it | evidently intended | confidence | as-written member | corrected member |
|---|---|---|---|---|---|---|
| frontend/src/hooks/useCart.js:13 | `totalPrice` sums `item.price * item.quantity`, but getCart's items carry the price under `Product`, so `item.price` is undefined | a cart with one line at 10.00 × 2 gives `totalPrice` NaN | the sum of `Product.price × quantity`, i.e. 20, the subtotal getCart sends | high; not executed | UseCart.TotalPriceAsWrittenIsNaN | UseCart.TotalPriceIsShownSubtotal |
| frontend/src/components/Chatbot.jsx:39 | the greeting rule tests `includes('hi')` first, and "hi" occurs inside "shipping", "this", "which" and more | the query "shipping" gets "Hello! Looking for something specific?" | "hi" as a whole word, so "shipping" gets the shipping reply | high; not executed | Chatbot.ShippingGreetedExample | Chatbot.ShippingAnsweredExample |
| frontend/src/pages/CheckoutPage.jsx:122 | editing the code field after a code was applied keeps the old `discountAmount`, while the order body sends the edited code | apply SAVE10 (10%) on a subtotal of 100, then clear the field: the preview shows 90, no code is sent, and the server charges 100 | an edited code shows no discount until it is applied again | medium; not executed | CheckoutPage.EditAsWrittenDisagrees | CheckoutPage.EventsKeepAgreement |
| backend/src/controllers/cartController.js:24 | for a user without a cart, `Cart.create` returns a row loaded without `CartItems`, so `cart.CartItems.map` throws, the cart row stays and the answer is 500 | the first `GET /api/cart` of a user who has no cart, such as the users backend/seeder.js creates (lines 14 and 32) | the new, empty cart with subtotal 0 | high; not executed | CartController.GetCartAsWritten | CartController.GetCart |

The class models use the corrected versions:

- `CheckoutPage.Checkout.SetDiscountCode` uses `CheckoutPage.Edit`.
- `Chatbot.ChatWindow.Reply` uses `Chatbot.BotResponse`.
- `UseCart.UseCart` uses `UseCart.TotalPrice`.
- `CartController.GetCart` is the corrected handler; `CartController.GetCartAsWritten` answers as the source does.
