# SmartPOS core in Dafny

This project models the data logic of a single-shop point-of-sale web app. The browser plumbing is left out. The model covers:

- the **cart engine**: add a product, remove a line, change a quantity, and the derived total, item count and profit;
- **checkout**, which turns a non-empty cart into a transaction at the head of the log and empties the cart;
- the **product grid filter** and its category tabs;
- the **catalog store** (seeded on first read, upsert by id, delete by id) and the prepend-only **transaction log**, kept in two storage slots;
- the **export document** and the per-section, all-or-nothing **import**;
- the **dashboard**: today's figures and the seven-day chart;
- the pure part of the **AI sales analysis**: fallback messages, today's totals, and the per-product-name unit tally;
- the **product form** save rule (rejections, defaults, id reuse), the form reset and the confirmed delete;
- the **transaction search** and the payment-method label.

Substitutions:

- Money is an `int` in minor units (fen), not a JavaScript float, so the six seed products are priced at 2800, 2600, … fen.
- Storage is a `Store` record with two `Option<seq<…>>` slots. `None` means nothing is stored under that key.
- The clock and time zone are parameters. `dayOf` maps a millisecond timestamp to its local day number, counted from 1970-01-01 (a Thursday). `today` is the current local day, and `dateString` stands for the locale date string.
- `crypto.randomUUID()` becomes a `freshId` argument. Its freshness is a premise of the lemmas that need it.
- `JSON.parse` of the import text becomes the abstract `Db.Parsed`. It is one of: the parse threw, the text was `null`, or a value whose two fields are each absent, a non-array or an array.
- The text-generation service is a function `ai` from the day's digest to a reply or a failure. Whether an API key is configured is a boolean.

Modules, one file each: `Wrappers` (Option), `Seqs` (order-preserving filter, sums, subsequence, substring search, ASCII lower-casing, distinct), `PosTypes` (types.ts), `Db` (services/db.ts), `Pos` (components/POS.tsx), `Dashboard`, `Gemini` (services/gemini.ts), `Inventory`, `TransactionHistory` (components/Transactions.tsx).

`importData` returns `true` even when `products` is not an array, and then leaves the catalog unchanged (services/db.ts:71-77). `Db.ImportData` models that: it fails only when parsing, or field access on `null`, throws.

## Model

| member | source | states |
|---|---|---|
| PosTypes.MethodCodeInjective | types.ts:20 | the three payment methods are stored as three distinct codes, so the code identifies the method |
| Pos.AddToCart | components/POS.tsx:28-36 | a product already in the cart gets quantity+1 on its line, which keeps its original snapshot; the length and all other lines stay the same; a new product is appended at the end as its own snapshot with quantity 1 |
| Pos.AddToCartAmounts | components/POS.tsx:28-36 | in a well-formed cart, adding raises the item count by exactly 1 and the total by one unit price: the new product's price, or the price captured when the existing line was first added |
| Pos.RemoveFromCart | components/POS.tsx:38-39 | the result holds exactly the lines whose id differs, whatever their quantity, each as many times as in the cart, as an order-preserving subsequence of the cart |
| Pos.RemoveFromCartEffect | components/POS.tsx:38-39 | no line with the removed id is left, and removing an id that is not in the cart changes nothing |
| Pos.UpdateQuantity | components/POS.tsx:43-50 | the matching line gets quantity max(1, q+delta), which is never below 1, and keeps its product; other lines and the order are unchanged; an absent id is a no-op |
| Pos.UpdateQuantityCount | components/POS.tsx:43-53 | in a cart with unique ids, the item count changes by exactly the clamped change on the one matching line |
| Pos.CartTotal | components/POS.tsx:52 | the cart total Σ price·qty: 0 for an empty cart, and never negative when no price or quantity is |
| Pos.CartItemCount | components/POS.tsx:53 | the item count Σ qty: 0 for an empty cart, and at least the number of lines when every quantity is at least 1 (so in a well-formed cart it is 0 exactly when the cart is empty) |
| Pos.CartProfit | components/POS.tsx:54 | the profit Σ(price−cost)·qty equals the cart total minus the cost of its goods Σ cost·qty |
| Pos.ProfitIsTotalMinusCost | components/POS.tsx:52-54 | summed over any lines, Σ(price−cost)·qty = Σ price·qty − Σ cost·qty |
| Pos.AddPreservesWellFormed | components/POS.tsx:28-36 | adding keeps one line per product id and every quantity ≥ 1 |
| Pos.RemovePreservesWellFormed | components/POS.tsx:38-39 | removing keeps one line per product id and every quantity ≥ 1 |
| Pos.FilterKeepsUniqueLines | components/POS.tsx:39 | dropping lines never creates two lines for one product |
| Pos.UpdatePreservesWellFormed | components/POS.tsx:43-50 | changing a quantity keeps one line per product id and every quantity ≥ 1 |
| Pos.ApplyAllPreservesWellFormed | components/POS.tsx:28-50 | every sequence of add/remove/update/clear steps keeps a well-formed cart well-formed; clear is the cart's clear button (components/POS.tsx:347) |
| Pos.HandleCheckout | components/POS.tsx:130-143 | an empty cart creates nothing and changes neither cart nor store; otherwise exactly one transaction (fresh id, timestamp, method, items = cart, total = cart total, profit = cart profit) goes to the head of the log, the catalog slot is untouched, and the cart is emptied |
| Pos.CheckoutAmountsConsistent | components/POS.tsx:133-140 | a recorded transaction's total and profit can be recomputed from its own items, and its profit is its total minus the cost of its goods |
| Pos.CheckoutKeepsIdsUnique | components/POS.tsx:134 | with an id not yet in the log, checkout keeps transaction ids unique |
| Pos.LatteSale | components/POS.tsx:28-54 | worked example: a 28.00 latte with cost 8.00, added twice, gives total 56.00, 2 items and profit 40.00, and checkout logs exactly one transaction with those amounts |
| Pos.FilteredProducts | components/POS.tsx:22-26 | a product is shown iff its category is the tab (or the tab is 'All') and its lower-cased name contains the lower-cased term; each shown product occurs as often as in the catalog, and catalog order is kept |
| Pos.AllTabEmptySearchShowsAll | components/POS.tsx:22-26 | the 'All' tab with an empty search shows the whole catalog unchanged |
| Pos.Categories | components/POS.tsx:17-20 | 'All' comes first, followed by every product category exactly once and nothing else, in an order that follows the catalog |
| Db.GetProducts | services/db.ts:16-23 | with nothing stored, the six defaults are written and returned; otherwise the stored list, even an empty one, is returned unchanged; the log slot is never touched |
| Db.SeedOnce | services/db.ts:17-22 | reading again after a read returns the same catalog and store (no re-seeding), and a stored empty catalog reads as empty |
| Db.DefaultsUnique | services/db.ts:6-13 | the seed catalog has unique ids |
| Db.FindIndex | services/db.ts:27 | returns the first position holding the id, or −1 exactly when no entry has it |
| Db.Upsert | services/db.ts:27-32 | a known id is replaced in place at its first position, with the length and every other entry unchanged; a new id is appended at the end |
| Db.UpsertPreservesUniqueIds | services/db.ts:27-32 | upserting into a catalog with unique ids keeps them unique; the id list is unchanged or gains the new id at the end |
| Db.UpsertSameIsIdentity | services/db.ts:27-32 | saving a stored product unchanged into a catalog with unique ids leaves the catalog identical |
| Db.SaveProduct | services/db.ts:25-34 | the catalog becomes the upsert of the (seeded if need be) catalog, and the log slot is untouched |
| Db.SaveProductCatalog | services/db.ts:25-34 | after saving, the catalog holds the product and keeps ids unique; its length is unchanged for a known id and one more for a new id |
| Db.DeleteProduct | services/db.ts:36-39 | the log slot is untouched and a catalog is written |
| Db.DeleteProductCatalog | services/db.ts:36-39 | no entry with the id remains, every other entry does, as many times as before, and their relative order is kept |
| Db.RemoveIdFacts | services/db.ts:37 | filtering out an id leaves no entry with it, keeps every other entry with its multiplicity, and is an order-preserving subsequence |
| Db.DeleteAbsentIsNoop | services/db.ts:36-39 | deleting an id that is not in the catalog changes nothing beyond the seeding read |
| Db.GetTransactions | services/db.ts:41-44 | the stored log, or the empty log when nothing is stored |
| Db.AddTransaction | services/db.ts:46-50 | the log read afterwards is [t] + old log (newest first), and the catalog slot is unchanged |
| Db.ExportData | services/db.ts:53-58 | the document holds the full catalog (seeded if need be), the full log and the given timestamp |
| Db.ImportData | services/db.ts:68-82 | returns false with storage untouched when parsing or field access on null throws; otherwise returns true, and each store is wholly replaced iff its section is an array, else left as is |
| Db.ImportSectionsIndependent | services/db.ts:71-76 | a missing or non-array section leaves its store as it was while the other section still applies |
| Db.Reparse | services/db.ts:54-59 | what parsing the serialised export yields: both sections are arrays holding the exported records in order. This is an assumption about `JSON.parse(JSON.stringify(doc))`, and `Db.ExportImportRoundTrip` rests on it |
| Db.ExportImportRoundTrip | services/db.ts:53-58 | importing the exported document into any store gives back exactly the exported catalog and log, order included |
| Dashboard.OnDay | components/Dashboard.tsx:16-17 | exactly the transactions whose local day is the given day, each as many times as in the log, in log order |
| Dashboard.Today | components/Dashboard.tsx:16-20 | sales/profit today are Σ total / Σ totalProfit over today's transactions, and the order count is their number |
| Dashboard.WeekdayOf | components/Dashboard.tsx:25-34 | `getDay()` of a local day: an index 0..6 (Sunday = 0) congruent to day + 4 modulo 7, since day 0 (1970-01-01) was a Thursday |
| Dashboard.DayPoint | components/Dashboard.tsx:24-37 | a bar carries that day's Σ total and Σ totalProfit and the weekday name `weekdays[getDay()]` |
| Dashboard.ChartData | components/Dashboard.tsx:23-26 | there are always exactly 7 bars, whatever the log holds; bar i is day today−(6−i), oldest first and today last |
| Dashboard.ChartEndsWithToday | components/Dashboard.tsx:17-30 | the last bar's sales and profit equal today's figures |
| Dashboard.QuietDayIsZero | components/Dashboard.tsx:28-30 | a day with no transactions gives an empty list and a zero bar |
| Dashboard.ChartCoversWeek | components/Dashboard.tsx:23-35 | the seven bars have seven different weekday names |
| Dashboard.WeekdaysApart | components/Dashboard.tsx:25-34 | days fewer than seven apart fall on different weekdays |
| Dashboard.OrderIndependent | components/Dashboard.tsx:17-30 | permuting the log changes neither today's figures nor any bar |
| Dashboard.OtherDaysDropped | components/Dashboard.tsx:17 | adding transactions from other days, before or after, leaves a day's list unchanged |
| Gemini.Bump | services/gemini.ts:33 | one line's units are added under its product name, starting from 0 for a new name; every other entry is unchanged and no other key appears |
| Gemini.TallyFrom | services/gemini.ts:31-35 | the tally's keys are the starting keys plus the names sold, and each value is its starting value plus the units sold under that name |
| Gemini.ProductStats | services/gemini.ts:30-35 | keys are exactly the product names sold, not ids, and each value is the total quantity over all lines with that name |
| Gemini.StatsSumPerTransaction | services/gemini.ts:31-35 | a name's tally equals the sum, over the transactions, of the units each sold under that name |
| Gemini.Digest | services/gemini.ts:26-35 | the digest handed to the service: the summed recorded totals and profits of the day's transactions, and one tally entry per product name sold, equal to the per-transaction sum of units under that name |
| Gemini.AnalyzeSales | services/gemini.ts:12-63 | with no API key, the no-key message (checked first); with no transaction today, the no-sales message; otherwise the service's reply on today's digest, or the apology message when the call fails |
| Gemini.OtherDaysIgnored | services/gemini.ts:19-20 | transactions from other days, added before or after, never change the analysis |
| Inventory.TextTruthy | components/Inventory.tsx:42-50 | JavaScript truthiness of a text field: present and non-empty |
| Inventory.NumberTruthy | components/Inventory.tsx:42-47 | JavaScript truthiness of a numeric field: present, not NaN and not 0 |
| Inventory.StartNew | components/Inventory.tsx:91-94 | the new-product form starts from the initial form with nothing being edited |
| Inventory.HandleEdit | components/Inventory.tsx:28-32 | the form is loaded with the product's fields and its id becomes the edited id |
| Inventory.HandleSave | components/Inventory.tsx:41-58 | rejected, changing nothing, iff the name is missing or empty, or the price is missing, 0 or NaN; negative amounts pass; the id is the edited id when truthy, else the fresh id; the defaults are cost 0, category '通用' and colour '#3b82f6'; the product goes through saveProduct, and the form resets to the initial form with nothing being edited |
| Inventory.InitialFormRejected | components/Inventory.tsx:20-26 | the initial form (price 0) is never saved as it stands |
| Inventory.EditThenSaveIsIdentity | components/Inventory.tsx:28-53 | opening a complete stored product and saving it unchanged leaves the catalog identical |
| Inventory.NewProductAppended | components/Inventory.tsx:41-53 | a new product under an unused fresh id is appended at the end of the catalog, and ids stay unique |
| Inventory.HandleDelete | components/Inventory.tsx:34-39 | the store is reached only when the user confirmed |
| TransactionHistory.FilteredTransactions | components/Transactions.tsx:13-19 | a transaction is kept iff its lower-cased id or its date string contains the lower-cased term; each kept transaction occurs as often as in the log, and log order is kept |
| TransactionHistory.EmptySearchKeepsAll | components/Transactions.tsx:13-19 | an empty search term keeps every transaction |
| TransactionHistory.SearchByIdFinds | components/Transactions.tsx:14-18 | searching for a transaction's id, in any ASCII letter case, finds it |
| TransactionHistory.GetMethodLabel | components/Transactions.tsx:21-28 | CASH→'现金', CARD→'刷卡', QR→'扫码', and '未知' exactly for anything else |
| TransactionHistory.MethodsHaveDistinctLabels | components/Transactions.tsx:21-28 | every method a checkout can record gets its own known label |
| Seqs.Map | components/POS.tsx:18 | `map`: same length, element i is f of input element i (used for the category and id lists) |
| Seqs.Filter | services/db.ts:37 | `filter`: an element occurs in the result exactly as often as in the input when the predicate holds and not at all otherwise, in input order (used for every `filter` in the source) |
| Seqs.FilterPermutation | components/Dashboard.tsx:17 | permuted inputs give permuted filter results |
| Seqs.Sum | components/Dashboard.tsx:18-19 | the additive `reduce` from 0: 0 for an empty sequence and the one term for a single element; `Seqs.SumAppend` and `Seqs.SumPermutation` relate longer sums |
| Seqs.SumNonNegative | components/POS.tsx:52 | a sum of terms none of which is negative is not negative |
| Seqs.SumAppend | components/Dashboard.tsx:18-19 | the sum over a concatenation is the sum of the two sums |
| Seqs.SumPermutation | components/Dashboard.tsx:18-19 | a sum does not depend on the order of its terms |
| Seqs.Contains | components/POS.tsx:24 | `includes`: holds iff the term occurs at some position of the text, as `Seqs.ContainsIffOccurs` proves |
| Seqs.ToLower | components/POS.tsx:24 | `toLowerCase` on ASCII: same length, each upper-case ASCII letter lowered and every other character kept |
| Seqs.ContainsIffOccurs | components/POS.tsx:24 | the substring search agrees with "occurs at some index", in both directions |
| Seqs.Distinct | components/POS.tsx:18-19 | `Array.from(new Set(s))`: each element of s exactly once, in an order that follows s |

## Left out

- Rendering, styling, view switching, alerts and the mobile-cart flag are UI and are not modelled. The receipt HTML and printing (components/POS.tsx:56-128) are left out for the same reason.
- `localStorage`, `JSON.stringify`/`JSON.parse` and the download in `exportData` are left out: storage is the `Store` record and parsing is the abstract `Parsed`. Two consequences:
  - Import writes array elements unchecked. The model assumes they are well-formed products and transactions.
  - Corrupt stored text, where the unguarded parse in `getProducts`/`getTransactions` throws, is not modelled.
- The service call, its prompt text and the `today` date string in the prompt (services/gemini.ts:37-59) are external. They are only the `ai` parameter. A reply whose `text` is undefined is not modelled.
- Gemini.ProductStats: tally keys that collide with `Object.prototype` members (a product named `constructor`, say) are not modelled. In the source they would start from an inherited value instead of 0.
- Money is integer minor units. Float rounding, `toFixed(2)` and NaN amounts in stored records are not modelled. Only the form's price and cost fields carry NaN.
- Seqs.ToLower: only ASCII letters are lower-cased. JavaScript's full Unicode `toLowerCase` is not modelled.
- Pos.Categories: states membership, no duplicates and an order that follows the catalog (a subsequence of the category list). It does not state that the order is exactly first-occurrence order. If a product's category is itself 'All', the list holds 'All' twice, as in the source.
- Seqs.Distinct: same weaker ordering statement as Pos.Categories.
- Db.GetProducts: on the first read of empty storage, `getProducts` returns the `DEFAULT_PRODUCTS` array itself (services/db.ts:20). A following `saveProduct` then writes into that module constant (services/db.ts:29-31). The model's defaults are an immutable value, so this aliasing is not modelled. It is visible only if storage is cleared while the app runs.
- The React state model is not modelled: stale closures in `handleCheckout` and `removeFromCart`, and asynchronous loading state on the dashboard. Operations are sequential functions.
- The calendar is abstract: `dayOf` and `dateString` are parameters. The weekday assumes `dayOf` counts local days from 1970-01-01.
