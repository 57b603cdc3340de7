# Honey shop: the authentication handlers and the shop's business rules

This project models the logic at the core of an online honey shop and proves
properties of it in Dafny.

The back end is a small Go authentication package. An in-memory account table
maps each user name to a password hash, a session token and a CSRF token.

- `Register` checks the HTTP method, the field lengths and uniqueness, then
  stores a hash.
- `Login` checks the password and issues two fresh tokens.
- `Authorize` is the double-submit check: the `session_token` cookie and the
  `X-CSRF-Token` header must both match the stored tokens.
- `Protected` runs `Authorize` behind a POST check.
- `Logout` authorizes and then clears both tokens.

The front end is a Next.js shop. The model covers these parts of it:

- the pagination bar's page list and its Previous/Next buttons;
- the admin order store: status and payment updates, statistics and the
  newest-first listing;
- the cart service's weight parser, delivery charge and totals loop;
- the Lexical rich-text serialiser that turns editor JSON into HTML;
- the query-string builder and the `page`/`limit` clamping of the query schema;
- the review store and the blog-comment store;
- the add-product wizard's step completion and navigation;
- checkout: delivery fee, order validation and the order store;
- the cart page: quantities, save for later, promo code and totals.

## How the model is built

Each source file has one Dafny file and module. `common.dfy` (module `Common`)
holds the JavaScript and Go built-ins the code relies on:

- `String.prototype.trim` and its set of white-space characters;
- `toLowerCase` as far as ASCII comparisons can see it;
- `Number()` and `parseInt`, over a `JsNumber` value with NaN and the
  infinities;
- Go's `len` in UTF-8 bytes;
- `findIndex`, `filter` and a descending sort.

**State.** Code that updates state in place becomes a class whose methods carry
`modifies` clauses:

- the account table;
- the order, review, comment and checkout stores;
- the wizard;
- the cart page.

Each method is proved against a pure function of the old state. The lemmas
about that function state what the source promises.

**Loops.** Loops in the source stay loops with invariants:

- `getPageNumbers`;
- the `getCart` totals loop;
- the `buildQueryString` entry loop.

**Calls the model cannot see** become parameters:

- password hashing and checking, and token generation;
- `getCartAction` and the database query of `getCart`;
- the clock.

**The "Move to cart" button.** It is disabled whenever `inStock` is falsy. The
only saved item starts with `inStock: false`. A line saved from the cart has no
`inStock` field at all. So no saved line can ever be moved back: the cart's
class invariant carries this, and `CartContent.NoneInStockKept` proves it.

## Model

| member | source | states |
|---|---|---|
| Session.Authorize | auth/session.go:10-27 | Authorization succeeds exactly when three things hold: the user is registered; the session cookie is present, non-empty and equal to the stored session token; the CSRF header is non-empty and equal to the stored CSRF token. The table is a value, so nothing is changed. |
| Session.UnknownUserUnauthorized | auth/session.go:11-15 | A user name missing from the table is always refused. |
| Session.EmptyTokenNeverAuthorizes | auth/session.go:17-25 | An account whose session token or CSRF token is empty can never be authorized, whatever the request carries (so a logged-out account stays locked). |
| Session.FlipOneCheck | auth/session.go:10-27 | Starting from an authorized request, each of these alone makes `Authorize` fail: changing the cookie, changing the header, or removing the user. |
| Auth.StatusCode | auth/auth.go:23-112 | Every verdict maps to an HTTP status in 200..599, and only success maps to 200. |
| Auth.RegisterStep | auth/auth.go:21-57 | Register fails in this order, each time leaving the table unchanged: 405 for a non-POST request; 406 when the user name is shorter than 4 bytes or the password shorter than 8; 409 exactly when the user name is already taken; 500 only when hashing failed. It succeeds exactly when none of these apply. It then adds only that account, holding the hash and two empty tokens. |
| Auth.LoginStep | auth/auth.go:59-100 | Login answers 405 for a non-POST request. Otherwise it succeeds exactly when the user exists and the password checks against the stored hash, and answers 401 when it does not. On success it changes only that account: the hash is kept and both new tokens are stored. On failure the table is unchanged. |
| Auth.ProtectedVerdict | auth/auth.go:102-116 | 200 exactly for a POST request that passes `Authorize`; 405 for any other method; 401 for a POST that fails `Authorize`. |
| Auth.LogoutStep | auth/auth.go:118-146 | Logout succeeds exactly when `Authorize` passes, and then empties both tokens of that account only. Otherwise it answers 401 and changes nothing. No method check is made. |
| Auth.HandlersKeepSessionsPaired | auth/auth.go:52-54 | Register, Logout and Login (given non-empty tokens) keep every account holding either both tokens or neither. |
| Auth.LoginFailuresIndistinguishable | auth/auth.go:69-74 | An unknown user and a wrong password give the same verdict (401) and the same unchanged table. |
| Auth.AccountLifecycle | auth/auth.go:21-146 | Register, then Login: the issued tokens pass `Authorize` and `Protected`. Logout then succeeds, after which the same tokens are refused and the hash is kept. |
| Auth.ReloginInvalidatesPreviousSession | auth/auth.go:76-96 | A second successful Login that issues a different session token makes the first session's tokens fail `Authorize`. |
| Auth.AccountTable.constructor | auth/auth.go:15 | The table starts empty. |
| Auth.AccountTable.Register | auth/auth.go:21-57 | The verdict and the new table are those of `RegisterStep` on the old table. |
| Auth.AccountTable.Login | auth/auth.go:59-100 | The verdict and the new table are those of `LoginStep` on the old table. |
| Auth.AccountTable.Protected | auth/auth.go:102-116 | Changes nothing; the verdict is `ProtectedVerdict`. |
| Auth.AccountTable.Logout | auth/auth.go:118-146 | The verdict and the new table are those of `LogoutStep` on the old table. |
| Pagination.Range | components/shared/paggination.tsx:34-36 | The run from lo to hi has hi - lo + 1 entries (none when hi < lo), and entry k is page lo + k. |
| Pagination.CountPagesAppend | components/shared/paggination.tsx:22-42 | The number of page buttons in a concatenation is the sum of the counts of its parts. |
| Pagination.CountRange | components/shared/paggination.tsx:34-36 | Every entry of the middle run is a page button. |
| Pagination.Layout | components/shared/paggination.tsx:22-42 | The list is page 1, then an optional left ellipsis, the middle run from startPage to endPage, an optional right ellipsis and the last page. Its length and the position of each part are given exactly. |
| Pagination.MiddleAt | components/shared/paggination.tsx:34-36 | The entry at position i of the middle run is page startPage + (i - 1 - l), where l counts the left ellipsis. |
| Pagination.PageNumbersIncreasing | components/shared/paggination.tsx:24-40 | For any current page, the list starts with page 1 and ends with the last page. Its page numbers rise strictly and lie within 1..totalPages. |
| Pagination.PageNumbersEllipses | components/shared/paggination.tsx:32-38 | A left ellipsis follows page 1 when startPage > 2, and a right ellipsis precedes the last page when endPage < totalPages - 1. No two ellipses are adjacent. |
| Pagination.PageNumbersCount | components/shared/paggination.tsx:23-36 | At most seven numbered buttons are listed: at most five between the first and the last page. |
| Pagination.CurrentPageListed | components/shared/paggination.tsx:23-36 | A current page within 1..totalPages is listed. |
| Pagination.EllipsisPlacement | components/shared/paggination.tsx:32-38 | For a current page in range, each ellipsis appears exactly when its condition holds (both directions). |
| Pagination.NeighboursConsecutive | components/shared/paggination.tsx:34-36 | For a current page in range, two adjacent numbered entries are consecutive pages. |
| Pagination.EllipsisMarksGap | components/shared/paggination.tsx:32-38 | For a current page in range, an ellipsis stands between two pages and at least one page between them is left out. |
| Pagination.GetPageNumbers | components/shared/paggination.tsx:21-43 | The push loop builds exactly `PageNumbers`, the list the lemmas above describe. |
| Pagination.View | components/shared/paggination.tsx:18-86 | Nothing is shown exactly when totalPages <= 1. Otherwise at least two entries are listed. Previous is disabled exactly when the current page is the first one listed, and Next exactly when it is the last one listed. |
| Pagination.Render | components/shared/paggination.tsx:18-86 | The rendered view is `View`. Nothing is rendered exactly when totalPages <= 1. Otherwise the page list is rendered, Previous is disabled exactly on page 1 and Next exactly on the last page. |
| Pagination.NearPageListed | components/shared/paggination.tsx:24-40 | Every page in range within two of the current page is listed. |
| Pagination.TargetListed | components/shared/paggination.tsx:24-40 | A neighbouring page in range is listed in the current bar, and the bar for that page lists it too. |
| Pagination.PreviousTargetListed | components/shared/paggination.tsx:50-58 | On a page in range, an enabled Previous button asks for a page in range. That page is listed in the current bar, and the bar it leads to lists it as its current page. |
| Pagination.NextTargetListed | components/shared/paggination.tsx:82-90 | The same holds for an enabled Next button. |
| OrderActions.WithStatus | actions/order-actions.ts:165-170 | The order gets the new status. Its payment becomes "paid" exactly when the status is "delivered" and the method is "cod", and is unchanged otherwise. No other field changes. |
| OrderActions.SetOrderStatus | actions/order-actions.ts:157-179 | An unknown id gives an error. Otherwise only the first order with that id is replaced by `WithStatus` of it, and the length is kept. |
| OrderActions.SetPaymentStatus | actions/order-actions.ts:181-198 | An unknown id gives an error. Otherwise only the first order with that id gets the new payment status, and the length is kept. |
| OrderActions.OrdersWithStatusCount | actions/order-actions.ts:204-208 | The status filter keeps each order with the status exactly as often as the list holds it, and no other order. So each per-status count is the number of orders with that status. |
| OrderActions.OrdersWithPaymentCount | actions/order-actions.ts:210-216 | The payment filter keeps each order with the payment status exactly as often as the list holds it, and no other order. |
| OrderActions.GetOrderStats | actions/order-actions.ts:200-228 | totalOrders is the number of orders. The five reported status counts add up to all orders except the "processing" ones, which no count covers. |
| OrderActions.StatusCountsPartition | actions/order-actions.ts:204-208 | The six status filters partition the orders. |
| OrderActions.RevenuePartition | actions/order-actions.ts:210-216 | Paid, pending and failed revenue add up to the sum of all order totals. |
| OrderActions.RevenueAfterPaymentChange | actions/order-actions.ts:189 | Changing one order's payment status moves exactly its total between the revenue buckets. |
| OrderActions.MarkPaidMovesRevenue | actions/order-actions.ts:181-216 | Marking a pending order paid adds its total to totalRevenue and removes it from pendingRevenue. |
| OrderActions.StatusUpdateKeepsRevenue | actions/order-actions.ts:157-216 | A status update keeps the order count. It keeps both revenues unless it delivers a "cod" order. |
| OrderActions.StatusOnlyRevenue | actions/order-actions.ts:165 | Changing only an order's status changes no revenue. |
| OrderActions.OrderStore.constructor | actions/order-actions.ts:29-142 | The store starts with the given mock orders. |
| OrderActions.OrderStore.GetAllOrders | actions/order-actions.ts:144-149 | Sorts the store in place, newest first: the result is sorted by creation time descending and is a permutation of the old orders. The sorted store is returned. |
| OrderActions.OrderStore.GetOrder | actions/order-actions.ts:151-155 | None exactly when no order has the id; otherwise the first order with that id. |
| OrderActions.OrderStore.UpdateOrderStatus | actions/order-actions.ts:157-179 | An unknown id gives "Order not found" and changes nothing. Otherwise the store becomes `SetOrderStatus` of the old one, and the updated order is returned. |
| OrderActions.OrderStore.UpdatePaymentStatus | actions/order-actions.ts:181-198 | An unknown id gives "Order not found" and changes nothing. Otherwise the store becomes `SetPaymentStatus` of the old one, and the updated order is returned. |
| CartService.KeepNumeric | services/cart-service.ts:44 | Removing every character except digits and dots never lengthens the text. |
| CartService.ParseFloatPrefix | services/cart-service.ts:44 | `parseFloat` of a digits-and-dots text is NaN or a non-negative number. |
| CartService.FractionValue | services/cart-service.ts:44 | The digits after the dot add a non-negative fraction. |
| CartService.ParseWeight | services/cart-service.ts:39-50 | A parsed weight is never negative. A text whose trimmed, lowered form has no "g" weighs 0, which covers an empty text and an unknown unit. |
| CartService.WeightOfNormalized | services/cart-service.ts:44-49 | On the normalised text: a never-negative weight, and 0 without a "g". |
| CartService.KgMentionsG | services/cart-service.ts:46-47 | A text containing "kg" contains "g", so the "kg" test must come first. |
| CartService.KeepNumericAppend | services/cart-service.ts:44 | The digit filter distributes over concatenation. |
| CartService.NumberOfLabel | services/cart-service.ts:44 | A numeral followed by a lower-case unit reads as that number. |
| CartService.WholeNumberParses | services/cart-service.ts:44 | `parseFloat` of a run of digits is its decimal value. |
| CartService.ParseWeightOfKgLabel | services/cart-service.ts:39-50 | "<n>kg" weighs n kg. |
| CartService.KgLabelValue | services/cart-service.ts:46 | The normalised "<n>kg" weighs n kg. |
| CartService.KgReading | services/cart-service.ts:46 | A text containing "kg" weighs the number its digits and dots spell. |
| CartService.ParseWeightOfGramLabel | services/cart-service.ts:39-50 | "<n>g" weighs n/1000 kg. |
| CartService.GramLabelValue | services/cart-service.ts:47 | The normalised "<n>g" weighs n/1000 kg. |
| CartService.GramTag | services/cart-service.ts:46-47 | A numeral followed by "g" contains "g" but not "kg". |
| CartService.GramReading | services/cart-service.ts:47 | A text with "g" but no "kg" weighs its number divided by 1000. |
| CartService.NoKgBeforeLastChar | services/cart-service.ts:46 | Digits followed by a one-letter unit never contain "kg". |
| CartService.LettersDropped | services/cart-service.ts:44 | Lower-case letters are all removed by the digit filter. |
| CartService.DigitsKept | services/cart-service.ts:44 | Digits all survive the digit filter. |
| CartService.LabelNormalized | services/cart-service.ts:43 | A non-empty label of digits and lower-case letters is already trimmed and lower-case. |
| CartService.Ceil | services/cart-service.ts:56 | `Math.ceil`: the least integer at or above x. |
| CartService.DeliveryCharge | services/cart-service.ts:52-60 | The charge is never below the base charge. It equals the base charge for a NaN weight or a weight of at most 1 kg. |
| CartService.ChargePerStartedKg | services/cart-service.ts:56-59 | For a weight in (n-1, n] with n >= 1, the charge is base + 20 * (n - 1). |
| CartService.DeliveryChargeMonotone | services/cart-service.ts:52-60 | A heavier cart is never charged less. |
| CartService.LineWeight | services/cart-service.ts:133 | A line's weight is NaN exactly when its weight label reads as NaN. |
| CartService.TotalWeight | services/cart-service.ts:125-134 | When the summed weight is a number, every line's label had a number in it. |
| CartService.TotalWeightNaN | services/cart-service.ts:133-134 | The summed weight is NaN exactly when some line's weight is unreadable. |
| CartService.BaseChargeIsLastOwnCharge | services/cart-service.ts:126-140 | The base charge is 130 when no line defines a non-zero charge. Otherwise it is the charge of the last line that does. |
| CartService.ChargelessLineKeepsBase | services/cart-service.ts:137-140 | A line without its own charge leaves the base charge as it was. |
| CartService.RoundTo2 | services/cart-service.ts:155 | `toFixed(2)` gives a whole number of hundredths, the one nearest the value. A tie goes away from zero. |
| CartService.ReportedWeight | services/cart-service.ts:155 | The reported weight is NaN exactly when the summed weight is. |
| CartService.GetCartTotals | services/cart-service.ts:62-159 | Refuses exactly an empty user id. Otherwise: the subtotal sums the lines' subtotals; the delivery charge is computed from the total weight and the base charge, and is at least that base; total = subtotal + delivery charge; the weight reported is the rounded total. |
| CartService.AddUpLines | services/cart-service.ts:123-141 | The loop leaves four results: the subtotal sum, the total weight, and the last own charge as base (130 when none). The product-delivery flag is set exactly when some line has its own charge. |
| LexicalHtml.FormatClasses | components/rich-editor/plugin/lexical-json-to-html.tsx:2-19 | Each of "font-bold", "italic", "line-through" and "underline" is present exactly when bit 1, 2, 4 or 8 of the format is set. There are at most four classes and none repeats. |
| LexicalHtml.FormatIgnoresHighBits | components/rich-editor/plugin/lexical-json-to-html.tsx:15 | Bits above 8 do not change the classes. |
| LexicalHtml.LowBitUnchanged | components/rich-editor/plugin/lexical-json-to-html.tsx:15 | Adding a multiple of a higher power of two keeps a low bit. |
| LexicalHtml.AllBitsAllClasses | components/rich-editor/plugin/lexical-json-to-html.tsx:2-16 | Format -1 (all bits set) gives all four classes in key order. |
| LexicalHtml.ProcessText | components/rich-editor/plugin/lexical-json-to-html.tsx:12-20 | Empty text gives "". Text without format classes is returned as it is. Otherwise the text is wrapped in a span with the classes joined by spaces. |
| LexicalHtml.ElementShape | components/rich-editor/plugin/lexical-json-to-html.tsx:59-97 | An element opens with its tag and a class attribute and closes with the same tag. |
| LexicalHtml.Alignment | components/rich-editor/plugin/lexical-json-to-html.tsx:23-24 | The class is "text-center" or the parent's alignment. It departs from the parent's only for a node whose own format is "center", and such a node always gets "text-center". |
| LexicalHtml.MappedArgument | components/rich-editor/plugin/lexical-json-to-html.tsx:54-127 | `map(processNode)` as written hands a non-empty alignment (the index's numeral) to every child after the first. The intended call hands none. |
| LexicalHtml.LinkHref | components/rich-editor/plugin/lexical-json-to-html.tsx:106-108 | The href always starts with "http". A url starting with "http" is kept; any other gets "https://" in front. |
| LexicalHtml.TextNodeRenders | components/rich-editor/plugin/lexical-json-to-html.tsx:99-100 | A text node renders as `processText`: empty text gives "" and unformatted text gives itself. |
| LexicalHtml.ListElement | components/rich-editor/plugin/lexical-json-to-html.tsx:39-60 | A "number" list renders as an `ol` element and any other list as a `ul`. |
| LexicalHtml.EmptyParagraphPlaceholder | components/rich-editor/plugin/lexical-json-to-html.tsx:79-82 | A paragraph whose children render to nothing becomes the &nbsp; placeholder paragraph. |
| LexicalHtml.ImageOnlyParagraph | components/rich-editor/plugin/lexical-json-to-html.tsx:84-87 | A paragraph whose only child is an image renders as that image. |
| LexicalHtml.HeadingDefaultsToH1 | components/rich-editor/plugin/lexical-json-to-html.tsx:92-97 | A heading without a tag renders as `h1`. |
| LexicalHtml.ChildrenAppend | components/rich-editor/plugin/lexical-json-to-html.tsx:75-77 | Rendering children with an explicit alignment distributes over concatenation. |
| LexicalHtml.WellFormedAppend | components/rich-editor/plugin/lexical-json-to-html.tsx:49-127 | Concatenating well-formed node lists gives a well-formed list. |
| LexicalHtml.MappedChildrenAppend | components/rich-editor/plugin/lexical-json-to-html.tsx:127 | Rendering through `map` distributes over concatenation, the second part continuing at the first part's length. |
| LexicalHtml.IntendedIgnoresPosition | components/rich-editor/plugin/lexical-json-to-html.tsx:127 | With the intended call, position plays no part: children render as with no alignment. |
| LexicalHtml.FormatAppend | components/rich-editor/plugin/lexical-json-to-html.tsx:127 | The (corrected) output for two lists of root children is the output for the first followed by the output for the second. |
| LexicalHtml.BlankParagraphRenders | components/rich-editor/plugin/lexical-json-to-html.tsx:73-82 | A childless paragraph renders as the placeholder with its parent's alignment. |
| LexicalHtml.ProcessNode | components/rich-editor/plugin/lexical-json-to-html.tsx:22-125 | Every node other than a text node or a node of unknown kind renders as markup that opens with a tag. |
| LexicalHtml.FormatLexicalToHtmlAsWritten | components/rich-editor/plugin/lexical-json-to-html.tsx:127 | As written: root child i renders with the alignment `map` hands it, nothing for the first child and the numeral i for every later one, and the results are joined in order. |
| LexicalHtml.FormatLexicalToHtml | components/rich-editor/plugin/lexical-json-to-html.tsx:127 | As intended: every root child renders on its own with no alignment, and the results are joined in order. |
| LexicalHtml.IndexLeaksIntoClass | components/rich-editor/plugin/lexical-json-to-html.tsx:127 | Two blank root paragraphs render, as written, with the second carrying class "1". The corrected serialiser gives two identical placeholders, so the two outputs differ. |
| LexicalHtml.PlaceholderText | components/rich-editor/plugin/lexical-json-to-html.tsx:81 | The placeholder is `<p class="mb-2 ALIGN">&nbsp;</p>`. |
| LexicalHtml.TwoBlankParagraphs | components/rich-editor/plugin/lexical-json-to-html.tsx:127 | Under either reading, the second blank paragraph gets the alignment `map` hands it; as written that is "1". |
| QueryString.Kept | lib/query/buildQueryString.ts:9-14 | A value is kept exactly when it is present and non-blank once trimmed, and it is kept trimmed. |
| QueryString.ArrayPairsTrimmed | lib/query/buildQueryString.ts:8-11 | Every pair appended for an array is non-blank, already trimmed, and under the entry's key. |
| QueryString.QueryPairs | lib/query/buildQueryString.ts:6-16 | No contract of its own: the pairs appended for the first n entries, in order. `ValuesTrimmed`, `QueryPairsPrefix` and `QueryRoundTrip` state its promises. |
| QueryString.ValuesTrimmed | lib/query/buildQueryString.ts:6-16 | Every pair the loop appends has a non-blank, trimmed value and the key of one of the entries. |
| QueryString.ArrayKeepsOrder | lib/query/buildQueryString.ts:7-11 | An array of present, non-blank values gives one pair per element, under the same key, in array order. |
| QueryString.SkippedElement | lib/query/buildQueryString.ts:9-10 | A missing or blank array element adds nothing. |
| QueryString.ArrayPairsPrefix | lib/query/buildQueryString.ts:8-11 | Elements added after position n do not change the pairs of the first n elements. |
| QueryString.AbsentEntrySkipped | lib/query/buildQueryString.ts:13-14 | A null or undefined entry adds nothing. |
| QueryString.QueryPairsPrefix | lib/query/buildQueryString.ts:6-16 | Entries added after position n do not change the pairs of the first n entries. |
| QueryString.HexDigit | lib/query/buildQueryString.ts:18 | An upper-case hexadecimal digit with the given value. |
| QueryString.EncodeByte | lib/query/buildQueryString.ts:18 | A byte's encoding never contains "&" or "=". |
| QueryString.EncodeBytes | lib/query/buildQueryString.ts:18 | Encoded bytes never contain "&" or "=". |
| QueryString.Utf8Encode | lib/query/buildQueryString.ts:18 | The UTF-8 encoding consists of bytes. |
| QueryString.EncodeComponent | lib/query/buildQueryString.ts:18 | An encoded name or value contains no "&" and no "=". |
| QueryString.Serialize | lib/query/buildQueryString.ts:18 | The query string is empty exactly when no pair was appended. |
| QueryString.BuildQueryString | lib/query/buildQueryString.ts:1-19 | The result is the serialised list of pairs the loop collects. |
| QueryString.CollectPairs | lib/query/buildQueryString.ts:6-16 | The loop over the entries appends exactly `AllPairs` of the record. |
| QueryString.AppendEntry | lib/query/buildQueryString.ts:7-15 | One entry appends its array's kept elements, its single kept value, or nothing. |
| QueryString.AppendEach | lib/query/buildQueryString.ts:8-11 | `forEach` appends the kept elements of the array in order. |
| QueryString.SinglePairs | lib/query/buildQueryString.ts:13-14 | A single value gives its trimmed self, or nothing when blank. |
| QueryString.FirstIndex | lib/query/buildQueryString.ts:18 | The first position of a character is within the text. |
| QueryString.DecodeEncodedByte | lib/query/buildQueryString.ts:18 | Decoding an encoded byte gives the byte back. |
| QueryString.DecodeEncodeBytes | lib/query/buildQueryString.ts:18 | Percent-decoding undoes the encoding, byte for byte. |
| QueryString.SplitSerialized | lib/query/buildQueryString.ts:18 | Splitting the query string at "&" gives the pairs' texts. |
| QueryString.ParsePairText | lib/query/buildQueryString.ts:18 | The first "=" of a pair's text separates the encoded name from the encoded value. |
| QueryString.FirstIndexAfter | lib/query/buildQueryString.ts:18 | A character absent from a prefix is found right after it. |
| QueryString.ParsePairTexts | lib/query/buildQueryString.ts:18 | Parsing the pieces gives back every pair's bytes. |
| QueryString.QueryRoundTrip | lib/query/buildQueryString.ts:18 | Parsing the query string gives back every pair, in order, as UTF-8 bytes: serialisation loses nothing. |
| QuerySchema.Page | lib/query/createQuerySchema.ts:14-20 | The page is the default or a number of at least 1. A NaN reading falls back to the default. |
| QuerySchema.Limit | lib/query/createQuerySchema.ts:23-29 | The limit is the default or a number within 1..100. A NaN reading falls back to the default. |
| QuerySchema.DefaultsBounded | lib/query/createQuerySchema.ts:10-29 | With the defaults 1 and 20, the page is always >= 1 and the limit always within 1..100. An absent value gives the default. |
| QuerySchema.PageOfNumeral | lib/query/createQuerySchema.ts:16-19 | A numeral k gives page k, and "0" gives page 1. |
| QuerySchema.LimitOfNumeral | lib/query/createQuerySchema.ts:25-28 | A numeral k gives limit k clamped into 1..100. |
| QuerySchema.InRangeUnchanged | lib/query/createQuerySchema.ts:16-28 | A value already in range passes through unchanged. |
| QuerySchema.OutOfRangeClamped | lib/query/createQuerySchema.ts:14-29 | Any number read below 1, negative infinity included, gives a page and a limit of exactly 1. Any number read above 100, positive infinity included, gives a limit of exactly 100. |
| ReviewActions.ValidateReview | actions/review-actions.ts:10-26 | "All fields are required" exactly when some field is missing, or the product id or rating parses to NaN or 0. "Rating must be between 1 and 5" exactly when all fields are present but the rating is outside 1..5. An accepted form carries the parsed numbers and the texts as given. |
| ReviewActions.NumeralFormValidates | actions/review-actions.ts:12-26 | A form of positive numerals and non-empty texts is accepted exactly when the rating is at most 5. |
| ReviewActions.ZeroRatingIsMissing | actions/review-actions.ts:20-22 | A rating of "0" is reported as a missing field. |
| ReviewActions.MaxId | actions/review-actions.ts:8 | The largest id of a non-empty list: no id is larger and some review has it. |
| ReviewActions.PrependFreshId | actions/review-actions.ts:30-44 | Putting a review with the counter's id in front keeps every id below the advanced counter, and keeps the ids distinct. |
| ReviewActions.ReviewsFor | actions/review-actions.ts:56-59 | Exactly the reviews of the product are listed (in both directions). |
| ReviewActions.ReviewsForPrepend | actions/review-actions.ts:44-58 | A review put in front appears first in its product's listing and nowhere else. |
| ReviewActions.MarkHelpful | actions/review-actions.ts:61-68 | An unknown id gives an error. Otherwise only the first review with the id gets one more helpful vote. |
| ReviewActions.HelpfulVoteAddsOne | actions/review-actions.ts:68 | A helpful vote raises the total of helpful votes by exactly one. |
| ReviewActions.HelpfulKeepsListing | actions/review-actions.ts:58-68 | A helpful vote changes no product listing's length. |
| ReviewActions.ReviewStore.constructor | actions/review-actions.ts:7-8 | The store starts from the mock reviews, with the counter one past their largest id. |
| ReviewActions.NewReview | actions/review-actions.ts:29-41 | No contract of its own: the review stored for an accepted form, with the form's product, name, rating, title and comment, user 999, unverified and no helpful votes. `ReviewStore.SubmitReview` states how it is stored. |
| ReviewActions.ReviewStore.SubmitReview | actions/review-actions.ts:10-54 | A rejected form gives its error and changes nothing. An accepted one is put in front, with the counter's id, user 999, unverified and no votes, and the counter advances. Ids stay distinct. |
| ReviewActions.ReviewStore.GetProductReviews | actions/review-actions.ts:56-59 | Returns `ReviewsFor` the product. |
| ReviewActions.ReviewStore.MarkReviewHelpful | actions/review-actions.ts:61-75 | An unknown id gives "Review not found" and changes nothing. Otherwise the store becomes `MarkHelpful` of the old one and the new count is returned. |
| CommentActions.BlogPostNumber | lib/actions/comment-actions.ts:65 | `Number(null)` for a missing post id is falsy, so a missing post id is rejected. |
| CommentActions.SegmentsMakeEmail | lib/actions/comment-actions.ts:75 | Three segments free of white space and "@", joined as local@domain.top, match the pattern. |
| CommentActions.EmailHasOneAt | lib/actions/comment-actions.ts:75 | An address matching the pattern has exactly one "@". |
| CommentActions.NoAtWithin | lib/actions/comment-actions.ts:75 | A segment holds no "@". |
| CommentActions.EmailUntouchedByTrim | lib/actions/comment-actions.ts:75-85 | A matching address has no white space at its ends, so trimming leaves it unchanged. |
| CommentActions.ValidateComment | lib/actions/comment-actions.ts:63-78 | "All fields are required" exactly when a text is missing or empty, or the post id is falsy. "Please enter a valid email address" exactly when all are present but the address fails the pattern. An accepted form carries its values as given. |
| CommentActions.NewComment | lib/actions/comment-actions.ts:81-89 | No contract of its own: the comment stored for an accepted form, with the clock's id, today's date, the texts trimmed and no helpful votes. `StoredEmailAsGiven` and `BlankNameStoredEmpty` state what it keeps of the form. |
| CommentActions.StoredEmailAsGiven | lib/actions/comment-actions.ts:81-89 | The stored address is the one submitted. |
| CommentActions.BlankNameStoredEmpty | lib/actions/comment-actions.ts:70-84 | A name of only white space passes validation but is stored empty. |
| CommentActions.NumeralPostAccepted | lib/actions/comment-actions.ts:63-89 | A positive numeral post id, non-empty texts and a well-formed address are accepted as given. |
| CommentActions.ForPost | lib/actions/comment-actions.ts:58-59 | Exactly the comments of the post are kept (in both directions). |
| CommentActions.CommentsFor | lib/actions/comment-actions.ts:54-61 | The listing is the post's comments, sorted newest date first, as a permutation. |
| CommentActions.ListingMembers | lib/actions/comment-actions.ts:54-61 | A comment is listed exactly when it is stored for the post. |
| CommentActions.ForPostAppend | lib/actions/comment-actions.ts:58-92 | A pushed comment joins its post's list at the end and no other. |
| CommentActions.MarkHelpful | lib/actions/comment-actions.ts:104-111 | An unknown id gives an error. Otherwise only the first comment with the id gets one more vote. |
| CommentActions.HelpfulKeepsPostIds | lib/actions/comment-actions.ts:111 | A helpful vote changes no comment's post. |
| CommentActions.CommentStore.constructor | lib/actions/comment-actions.ts:19-52 | The store starts with the given comments. |
| CommentActions.CommentStore.SubmitComment | lib/actions/comment-actions.ts:63-102 | A rejected form gives its error and changes nothing. An accepted one is appended with the clock's id, today's date, trimmed texts and no votes. |
| CommentActions.CommentStore.GetComments | lib/actions/comment-actions.ts:54-61 | Returns `CommentsFor` the post. |
| CommentActions.CommentStore.MarkCommentHelpful | lib/actions/comment-actions.ts:104-121 | An unknown id gives "Comment not found" and changes nothing. Otherwise the store becomes `MarkHelpful` of the old one and the new count is returned. |
| AddProductForm.LookupUndefined | components/admin/product/add/add-product-form.tsx:195 | Once the path hits undefined it stays undefined. |
| AddProductForm.LookupAppend | components/admin/product/add/add-product-form.tsx:193-195 | Following a path in two parts is following the first part and then the second. |
| AddProductForm.MissingLinkUndefined | components/admin/product/add/add-product-form.tsx:193-201 | A dotted path with a missing link yields undefined, which does not count as filled. |
| AddProductForm.DottedPath | components/admin/product/add/add-product-form.tsx:193-195 | "outer.inner" reads the inner field of the outer object. |
| AddProductForm.FindStep | components/admin/product/add/add-product-form.tsx:31-114 | The eight steps have ids 1..8 in order. Finding an id in range gives step id-1, and any other id gives none. Only step 8 is "Review". |
| AddProductForm.ReviewIsLast | components/admin/product/add/add-product-form.tsx:106-113 | The last step, and only it, is titled "Review". |
| AddProductForm.FindConsecutive | components/admin/product/add/add-product-form.tsx:188 | In a list keyed base, base+1, ..., `find` of id lands at id - base, or nowhere outside the range. |
| AddProductForm.AlwaysCompleted | components/admin/product/add/add-product-form.tsx:188-189 | An unknown step, and the Review step with its empty field list, always count as completed. |
| AddProductForm.SourceStepNeedsRegion | components/admin/product/add/add-product-form.tsx:75-80 | The source step is incomplete while `source.region` is empty. |
| AddProductForm.Remove | components/admin/product/add/add-product-form.tsx:254 | `filter(s => s !== x)` keeps exactly the elements other than x, and changes nothing when x is absent. |
| AddProductForm.RemoveDistinct | components/admin/product/add/add-product-form.tsx:254 | Removing keeps a list distinct and shortens it by one when x was present. |
| AddProductForm.DistinctWithin | components/admin/product/add/add-product-form.tsx:279-283 | A distinct list of ids in lo..hi has at most hi - lo + 1 elements. |
| AddProductForm.DistinctCovering | components/admin/product/add/add-product-form.tsx:214-216 | A distinct list containing all of lo..hi has at least hi - lo + 1 elements. |
| AddProductForm.ChainDown | components/admin/product/add/add-product-form.tsx:231-260 | If every completed step above 1 has its predecessor completed, then a completed step s means steps 1..s are all completed. |
| AddProductForm.ReviewOnlyWhenAllCompleted | components/admin/product/add/add-product-form.tsx:218-222 | In every reachable state where Review is current, all seven non-Review steps are completed. |
| AddProductForm.ProgressIds | components/admin/product/add/add-product-form.tsx:280-283 | The completed steps that count for progress: exactly those that are not Review. |
| AddProductForm.ProgressIdsDistinct | components/admin/product/add/add-product-form.tsx:280-283 | Filtering keeps the completed list distinct. |
| AddProductForm.DistinctParts | components/admin/product/add/add-product-form.tsx:253-256 | The tail of a distinct list is distinct and does not contain its head. |
| AddProductForm.PrependFresh | components/admin/product/add/add-product-form.tsx:253-256 | Putting a fresh element in front keeps a list distinct. |
| AddProductForm.ProgressPercent | components/admin/product/add/add-product-form.tsx:285-287 | The percentage is `count / 7 * 100` rounded to the nearest whole number: it lies within half a point of that value. |
| AddProductForm.ProgressScale | components/admin/product/add/add-product-form.tsx:285-287 | Progress is 0% for none and 100% for all seven. It never falls as the count grows and stays at most 100% for up to seven. |
| AddProductForm.ProgressBounded | components/admin/product/add/add-product-form.tsx:278-287 | In every reachable state, at most seven steps count and progress is at most 100%. On the Review step it is exactly 100%. |
| AddProductForm.ProductWizard.constructor | components/admin/product/add/add-product-form.tsx:117-118 | The wizard starts on step 1 with nothing completed. |
| AddProductForm.ProductWizard.HandleNext | components/admin/product/add/add-product-form.tsx:241-269 | An incomplete step changes nothing. A complete one is moved to the end of the completed list, where it appears exactly once, and the wizard advances by one while before the last step. The invariant is kept. |
| AddProductForm.ProductWizard.HandlePrevious | components/admin/product/add/add-product-form.tsx:272-276 | Goes back one step, never below step 1, and keeps the completed list. |
| AddProductForm.ProductWizard.HandleStepClick | components/admin/product/add/add-product-form.tsx:208-239 | Moves to the clicked step exactly when that is allowed: the step exists, Review only once all other steps are done, backward always, forward only when the previous step is done. The completed list is kept. |
| AddProductForm.ClickAllowed | components/admin/product/add/add-product-form.tsx:208-239 | A click is allowed only for an existing step. A backward click to a step before Review is always allowed. A forward click needs the previous step completed, and Review needs every other step completed. |
| AddProductForm.ClickKeepsInvariant | components/admin/product/add/add-product-form.tsx:208-239 | An allowed click keeps the wizard invariant. |
| AddProductForm.CompletedOnce | components/admin/product/add/add-product-form.tsx:253-256 | After `[...prev.filter(s => s !== c), c]`, c occurs exactly once. |
| AddProductForm.AppendFresh | components/admin/product/add/add-product-form.tsx:253-256 | Appending a fresh element keeps a list distinct. |
| AddProductForm.NextKeepsInvariant | components/admin/product/add/add-product-form.tsx:253-260 | Completing the current step and advancing keeps the wizard invariant: distinct completed steps within 1..8, each with its predecessor completed, and the current step reachable. |
| AddProductForm.NextRange | components/admin/product/add/add-product-form.tsx:253-256 | The completed list stays within 1..8. |
| AddProductForm.NextChain | components/admin/product/add/add-product-form.tsx:253-260 | The completed list keeps every step's predecessor. |
| CheckoutActions.DeliveryFee | actions/checkout-actions.ts:75-83 | The fee is one of 0, 50, 100 and 150. It is 0 or 50 exactly for "dhaka" in any letter case, and 50 or 150 exactly for express delivery. |
| CheckoutActions.DhakaInAnyCase | actions/checkout-actions.ts:80 | Any capitalisation of "dhaka" is free with standard delivery. |
| CheckoutActions.ExpressSurcharge | actions/checkout-actions.ts:81-82 | Express costs exactly 50 more than standard, in any city. |
| CheckoutActions.MissingAmong | actions/checkout-actions.ts:106-108 | Exactly the blank fields among the first n required fields are listed. |
| CheckoutActions.MissingFields | actions/checkout-actions.ts:98-108 | Exactly the required fields that are missing or blank after trimming are listed. |
| CheckoutActions.MissingFieldsExtremes | actions/checkout-actions.ts:98-118 | All fields filled gives no missing field. All blank gives all six, in order. |
| CheckoutActions.AllMissing | actions/checkout-actions.ts:106-108 | All blank gives the first n required fields in order. |
| CheckoutActions.NoneMissing | actions/checkout-actions.ts:106-108 | None blank gives an empty list. |
| CheckoutActions.NothingMissingIsFilled | actions/checkout-actions.ts:106-118 | No missing field means every required field is present and non-blank. |
| CheckoutActions.LastSix | actions/checkout-actions.ts:125 | `slice(-6)` gives the last six characters, or all of a shorter text. |
| CheckoutActions.NewOrder | actions/checkout-actions.ts:120-155 | The order is priced at the cart total plus the city's standard fee (0 or 100). It starts pending with payment pending, its id is "order_" and the clock's numeral, and the name is first and last name joined by a space. |
| CheckoutActions.LookupAfterPlace | actions/checkout-actions.ts:158-260 | After a push, `find` by a fresh id finds the new order. Under a repeated id it keeps finding the earlier one. |
| CheckoutActions.CheckoutStore.constructor | actions/checkout-actions.ts:73 | No orders at first. |
| CheckoutActions.CheckoutStore.PlaceOrder | actions/checkout-actions.ts:85-181 | An empty cart gives "Cart is empty" and stores nothing. Blank required fields give "Missing required fields" with the list of them and store nothing. Otherwise the new order is appended and returned. |
| CheckoutActions.CheckoutStore.GetOrder | actions/checkout-actions.ts:258-260 | None exactly when no order has the id; otherwise the first order with that id. |
| CartContent.SavedRoundTrip | components/layout/cart/cart-content.tsx:84-98 | Moving a saved line to the cart and saving it again gives back the same saved line. |
| CartContent.UpdatedItems | components/layout/cart/cart-content.tsx:72-78 | After `updateQuantity(id, q)` a line with the id remains only when q is not 0, and then its quantity is q. Every line of another id is kept. |
| CartContent.SetQuantity | components/layout/cart/cart-content.tsx:76 | The map keeps the number of lines. |
| CartContent.SetQuantityLines | components/layout/cart/cart-content.tsx:76 | Lines with the id get the new quantity and every other line is unchanged. |
| CartContent.SubtotalWithout | components/layout/cart/cart-content.tsx:74-106 | Filtering out an id takes that id's share out of the subtotal. |
| CartContent.SubtotalSetQuantity | components/layout/cart/cart-content.tsx:76-106 | Setting quantity q replaces that id's share by q times its prices. |
| CartContent.SubtotalAfterUpdate | components/layout/cart/cart-content.tsx:72-106 | After `updateQuantity(id, q)` the subtotal is the old one minus that id's share plus q times its prices. This holds whether q is 0 (removal) or not. |
| CartContent.OneLineShare | components/layout/cart/cart-content.tsx:106 | The share of an id held by one line is that line's price times quantity. |
| CartContent.NoLineShare | components/layout/cart/cart-content.tsx:106 | An id held by no line has no share. |
| CartContent.UpdateOneLine | components/layout/cart/cart-content.tsx:72-106 | Changing one line's quantity moves the subtotal by its price times the change. |
| CartContent.PlusMinusButtons | components/layout/cart/cart-content.tsx:182-191 | The + button raises the subtotal by the line's price, and the - button lowers it by the same. |
| CartContent.SubtotalAppend | components/layout/cart/cart-content.tsx:95-106 | An appended line adds its price times quantity. |
| CartContent.Discount | components/layout/cart/cart-content.tsx:107 | No discount without HONEY10. With it, the discount is 10% of the subtotal rounded to the nearest unit. |
| CartContent.DeliveryFee | components/layout/cart/cart-content.tsx:108 | Delivery is free exactly from a subtotal of 1000, and 60 otherwise. |
| CartContent.CartTotals | components/layout/cart/cart-content.tsx:106-109 | The subtotal is the sum of price times quantity, and total = subtotal - discount + delivery. |
| CartContent.TotalsBounded | components/layout/cart/cart-content.tsx:106-109 | For a non-negative subtotal, the discount lies between 0 and the subtotal. The total is non-negative, never above the total without promo, and at most subtotal + 60. |
| CartContent.SubtotalNonNegative | components/layout/cart/cart-content.tsx:106 | With positive quantities the subtotal is non-negative and at least the first line's price. |
| CartContent.InitialTotals | components/layout/cart/cart-content.tsx:12-29 | The initial cart totals 2150 with free delivery. With HONEY10 the discount is 215 and the total 1935. |
| CartContent.SaveThenMove | components/layout/cart/cart-content.tsx:84-98 | Saving a cart line and moving it back restores the saved list. The line returns at the end of the cart with quantity 1. |
| CartContent.MoveThenSave | components/layout/cart/cart-content.tsx:84-98 | Moving a saved line to the cart and saving it again restores the cart. The line returns at the end of the saved list. |
| CartContent.NoneInStockKept | components/layout/cart/cart-content.tsx:84-98 | Saving and moving keep every saved line without `inStock: true`, so the "Move to cart" button stays disabled. |
| CartContent.InitiallyNoneInStock | components/layout/cart/cart-content.tsx:31-41 | The initial saved item is out of stock. |
| CartContent.Cart.constructor | components/layout/cart/cart-content.tsx:66-70 | The initial state: the two mock lines, the one saved line, an empty promo input and no promo applied. |
| CartContent.Cart.UpdateQuantity | components/layout/cart/cart-content.tsx:72-78 | Quantity 0 removes the id's lines; any other quantity sets it on them. Nothing else changes, and a non-negative quantity keeps the invariant. |
| CartContent.Cart.RemoveItem | components/layout/cart/cart-content.tsx:80-82 | Removes every line with the id and keeps the others in order. Nothing else changes. |
| CartContent.Cart.SaveForLater | components/layout/cart/cart-content.tsx:84-90 | A present line moves to the end of the saved list and leaves the cart. An absent id changes nothing. |
| CartContent.Cart.MoveToCart | components/layout/cart/cart-content.tsx:92-98 | A present saved line moves to the end of the cart with quantity 1 and leaves the saved list. An absent id changes nothing. |
| CartContent.Cart.SetPromoCode | components/layout/cart/cart-content.tsx:362 | The input's text is stored; nothing else changes. |
| CartContent.Cart.ApplyPromoCode | components/layout/cart/cart-content.tsx:100-104 | "honey10" in any case applies HONEY10. Any other code changes nothing. |
| CartContent.Cart.GetTotals | components/layout/cart/cart-content.tsx:106-109 | The page's totals. Under the invariant, the total is non-negative and the discount at most the subtotal. |
| CartContent.PromoInAnyCase | components/layout/cart/cart-content.tsx:101 | Any capitalisation of "honey10" lowers to "honey10". |
| Common.Trim | lib/query/buildQueryString.ts:9 | `trim` never lengthens a text. |
| Common.TrimEnds | lib/query/buildQueryString.ts:9 | A trimmed text neither starts nor ends with white space. |
| Common.TrimUnpadded | lib/query/buildQueryString.ts:9 | A text without white space at either end is its own trim. |
| Common.TrimEmptyIffAllSpace | lib/query/buildQueryString.ts:9-10 | A text trims to "" exactly when it is all white space. |
| Common.TrimIdempotent | lib/query/buildQueryString.ts:9 | Trimming twice is trimming once. |
| Common.TrimStart | actions/review-actions.ts:12 | Leading white space only is removed before `parseInt`. |
| Common.TrimStartSpaces | actions/review-actions.ts:12 | What is removed is all white space, and the rest does not start with white space. |
| Common.LowerChar | actions/checkout-actions.ts:80 | Upper-case ASCII letters move down by 32. Only they and the Kelvin sign change to something else. |
| Common.ToLower | actions/checkout-actions.ts:80 | Lowering keeps the length. |
| Common.ToLowerAt | actions/checkout-actions.ts:80 | Lowering works character by character. |
| Common.ToLowerOfLower | actions/checkout-actions.ts:80 | A text of lower-case characters is unchanged. |
| Common.Join | actions/checkout-actions.ts:115 | Joining no parts gives ""; joining one part gives that part. |
| Common.Concat | components/rich-editor/plugin/lexical-json-to-html.tsx:127 | `join("")` is as long as its parts together. |
| Common.ConcatAppend | components/rich-editor/plugin/lexical-json-to-html.tsx:127 | `join("")` distributes over concatenation. |
| Common.Split | components/admin/product/add/add-product-form.tsx:194 | `split` gives at least one piece. |
| Common.SplitAt | components/admin/product/add/add-product-form.tsx:194 | Splitting after a separator-free head gives the head and then the pieces of the rest. |
| Common.SplitNone | components/admin/product/add/add-product-form.tsx:194 | A text without the separator is one piece. |
| Common.NatToString | actions/checkout-actions.ts:126 | A decimal numeral: non-empty, digits only, with no leading zero. |
| Common.NatToStringValue | actions/checkout-actions.ts:126 | A numeral reads back as its number. |
| Common.Utf8Length | auth/auth.go:32 | Go's `len` of a string, in UTF-8 bytes, is at least its number of characters. |
| Common.Utf8Bytes | lib/query/buildQueryString.ts:18 | The UTF-8 encoding of a character has its width and consists of bytes; ASCII is itself. |
| Common.StringToNumber | lib/query/createQuerySchema.ts:17 | `Number` of a text that trims to "" is 0. |
| Common.NumeralNumber | lib/query/createQuerySchema.ts:17 | `Number` of a decimal numeral is its value. |
| Common.ParseInt | actions/review-actions.ts:12-13 | `parseInt` of a string without a decimal digit is NaN. |
| Common.ParseIntNumeral | actions/review-actions.ts:12-13 | `parseInt` of a decimal numeral is its value. |
| Common.FindKey | actions/order-actions.ts:159 | `findIndex`: -1 exactly when no element has the key, else the first position that has it. |
| Common.FindKeyAppend | actions/checkout-actions.ts:158-259 | After an append, `findIndex` keeps an earlier hit, and otherwise finds the new element when it has the key. |
| Common.FilterOut | components/layout/cart/cart-content.tsx:81 | `filter(x => key(x) !== k)` never makes the list longer. |
| Common.FilterOutMembers | components/layout/cart/cart-content.tsx:81 | An element is in the filtered list exactly when it was in the list and its key differs from `k`. |
| Common.FilterOutNoKey | components/layout/cart/cart-content.tsx:81 | When no element has key `k`, the filter returns the list unchanged. |
| Common.FilterOutAppend | components/layout/cart/cart-content.tsx:81 | Filtering distributes over an append. |
| Common.KeepKey | actions/order-actions.ts:204-216 | `filter(x => key(x) === k)` never makes the list longer. |
| Common.KeepKeyCount | actions/order-actions.ts:204-216 | The filter keeps each element with key `k` exactly as often as the list holds it, and drops every other element. |
| Common.InsertDescSorted | actions/order-actions.ts:148 | Inserting into a list sorted newest first keeps it sorted. |
| Common.InsertDescPermutes | actions/order-actions.ts:148 | Inserting adds exactly the element. |
| Common.SortDesc | actions/order-actions.ts:148 | The sort gives a list sorted by descending key that is a permutation of its input. |

## Left out

- HTTP plumbing is left out: routing, `http.Error` texts, the cookies `Login` and `Logout` write, and the `fmt` output. A handler's result is its verdict and the new account table.
- `HashedPassword`, `CheckPassword` and `GenerateToken` are not part of this model. Register receives the hash outcome, Login a checker function and the two token values.
- The mutex and concurrency around `users` are left out; each handler call is atomic.
- Pagination: `totalPages` and `currentPage` are integers, so a NaN or fractional `currentPage` is not modelled. The source can receive one: a `page` query such as `abc` makes `parseInt` give NaN. For NaN the bar lists only the first and the last page, and neither Previous nor Next is disabled.
- LexicalHtml: the internal renderers are total. The top-level serialisers require every node with a `children` template to have a `children` array. On any other input the source throws a TypeError, and the model does not cover that input.
- CartService.LineWeight takes the weight parser as a parameter. `GetCartTotals` passes `ParseWeight`.
- CartService.RoundTo2: floating-point rounding is left out. Weights and charges are exact reals, and `toFixed(2)` is rounding to the nearest hundredth, halves away from zero. A binary double that lies just below a half is not modelled.
- CartContent.Discount: `Math.round(subtotal * 0.1)` is treated as exact round-half-up of a tenth, without binary floating-point error.
- Common.StringToNumber: `Number()` is modelled on exact reals; rounding to a double and overflow to Infinity are left out.
- `getCartAction` and `clearCartAction` are not part of this model. `PlaceOrder` takes the cart's item count and total as a parameter. A null cart, which the source lets through the emptiness check, is not modelled.
- CheckoutActions.CheckoutStore.PlaceOrder reads one `now` for every time stamp, while the source reads the clock separately for each. Dates are integers rather than ISO strings.
- `processCheckout` and `getOrderByNumber` are not modelled.
- The database query inside `getCart` is not part of this model. The page of cart lines, with each line's subtotal already multiplied, is a parameter.
- AddProductForm.Get reads only an object's own fields. Prototype properties and array indices reached by a dotted path are left out.
- ReviewActions.ReviewStore.constructor requires a non-empty initial list. `Math.max()` of no ids is -Infinity, which the model does not represent.
- The `catch` branches ("Failed to ...") are left out: nothing in the modelled code throws.
- `formData.get` returning a `File` is left out; fields are text or absent.
- `revalidatePath`, toasts, console logging and the simulated delays are left out.
- CartContent: lines keep id, name, weight, price, quantity and `inStock`. Images, original prices, ratings and the recommended products are left out.
- CartContent.Cart.UpdateQuantity accepts any quantity, as the source does. The class invariant (positive quantities) is only kept for q >= 0; the buttons never pass a negative one.
- CommentActions.CommentsFor: `new Date(date)` parsing is left out. Comment dates are integers, and the sort is specified as sorted plus a permutation, not as the exact order `Array.prototype.sort` gives to equal dates.
- OrderActions.OrderStore.GetAllOrders: the same holds for the order list.
- Order, cart and review amounts are integers. The source's JavaScript numbers would round beyond 2^53, which the model does not.

## Findings

| source | as written | input that shows it | evidently intended | confidence | as-written member | corrected member |
|---|---|---|---|---|---|---|
| components/rich-editor/plugin/lexical-json-to-html.tsx:127 (also 54 and 63) | `children.map(processNode)` passes each child's array index as `parentAlignment`. A child after the first inherits the alignment class "1", "2", ..., and an image there gets " mx-auto". | Root children `[blank paragraph, blank paragraph]` give `<p class="mb-2 ">&nbsp;</p><p class="mb-2 1">&nbsp;</p>`. | No alignment is passed, as in `map((child) => processNode(child))`, so both paragraphs render alike. | not executed | LexicalHtml.IndexLeaksIntoClass (on LexicalHtml.FormatLexicalToHtmlAsWritten) | LexicalHtml.FormatLexicalToHtml, with LexicalHtml.FormatAppend |
