# Breakfast order page: cart engine model

A Dafny model of the cart engine of a single-page breakfast ordering form (`src/app/page.tsx`).
A guest adds dishes and drinks to a cart, changes quantities, chooses a delivery time from a fixed
list of slots and presses the submit button, which shows an alert with the order summary.

The cart is a sequence of order lines. A line is identified by the key (id, type), where the type is
the drink temperature (`ice`, `hot`, `no-ice`) or absent for food. The model proves that:

- adding merges into the line with the same key or appends a new line of one portion;
- removing and updating touch only the line with the given key and keep the order of the rest;
- every cart reached from the empty cart has unique keys and no quantity below one;
- the summary adds the portions up per display name, in order of first occurrence, with the same total;
- the submit handler refuses without a delivery time and otherwise renders a summary; when the cart
  is non-empty and no display name holds a line break, that text reads back line by line into the
  summary's entries. Both conditions hold on the page: the submit button is rendered only in the
  non-empty branch of `cart.length === 0 ? … : …` (page.tsx:358-433), and every display name is a
  catalog name, none of which holds a line break, followed by an optional temperature label;
- the time slots are exactly `8:00, 8:30, 9:00, 9:30, 10:00`.

Modules (one file each):

- `Wrappers` (`wrappers.dfy`): `Option`, used for the optional `type` field.
- `Decimal` (`decimal.dfy`): how a template literal renders an integer, with a parser that inverts it.
- `Text` (`text.dfy`): `Array.prototype.join` and `String.prototype.split` for a one-character separator.
- `Cart` (`cart.dfy`): the updater functions that `addToCart`, `removeFromCart` and `updateQuantity`
  hand to the state setter, plus `getTotalItems`. These are pure functions over `seq`, as in the source.
- `Summary` (`summary.dfy`): `getOrderSummary`. It is a method with a loop that fills a dictionary.
  The dictionary is modelled as a JavaScript object: its keys in insertion order plus a `map`.
- `Slots` (`slots.dfy`): `generateTimeSlots`, a method with the source's loop over the hours.
- `Page` (`page.dfy`): class `Home` holds the component's two state fields, `cart` and `deliveryTime`.
  Each setter is one atomic state change. The module also holds the submit handler and the alert text.

Submitting only shows an alert: the handler sends nothing and leaves the cart as it is
(page.tsx:413-423).

## Model

| member | source | states |
|---|---|---|
| Cart.TempLabel | src/app/page.tsx:128 | the label of a temperature: 冰 for ice, 熱 for hot, 去冰 for no-ice |
| Cart.LineName | src/app/page.tsx:126-132 | the display name of a new line: the item name, followed by ` (label)` when a type is given; its properties are stated by LineNameShape |
| Cart.Matches | src/app/page.tsx:136 | the key test of `find`, `map` and `filter` (also page.tsx:141, 152, 163): same id and same type |
| Cart.HasKey | src/app/page.tsx:135-137 | `find` returns a line: some line of the cart has the key |
| Cart.LineNameShape | src/app/page.tsx:126-132 | a new line's name is the item name followed by ` (冰)`, ` (熱)` or ` (去冰)` for ice, hot or no-ice, and is the item name unchanged without a type |
| Cart.LineNameDeterminesKind | src/app/page.tsx:128 | two adds of one item get the same display name exactly when they have the same type |
| Cart.Increment | src/app/page.tsx:140-144 | the merge `map` keeps the length |
| Cart.IncrementAt | src/app/page.tsx:140-144 | each line with the key gains one portion and every other line is unchanged |
| Cart.IncrementKeepsKey | src/app/page.tsx:140-144 | the merged line still carries the key |
| Cart.IncrementLast | src/app/page.tsx:140-144 | when only the last line has the key, the merge raises that line alone |
| Cart.AddToCart | src/app/page.tsx:134-148 | after an add the key is present; with the key already there the length is unchanged; otherwise the old lines are kept as a prefix and one new line (id, display name, quantity 1, type) is appended |
| Cart.AddToCartExisting | src/app/page.tsx:135-144 | with unique keys, adding an item already in the cart raises exactly that line's quantity by one and leaves every other line and the order as they were |
| Cart.AddToCartNew | src/app/page.tsx:126-147 | adding a key the cart does not hold appends exactly one line (id, display name, quantity 1, type) |
| Cart.AddToNewLine | src/app/page.tsx:135-144 | one more add of the item whose line was appended last raises that line's quantity by one |
| Cart.MoreAdds | src/app/page.tsx:134-148 | m further adds to that line raise its quantity by m and change nothing else |
| Cart.RepeatedAdds | src/app/page.tsx:134-148 | n adds of one key to a cart without it append a single line whose quantity is n |
| Cart.RepeatedAddsFromEmpty | src/app/page.tsx:32 | from the empty cart, n adds of one item give exactly one line with quantity n |
| Cart.RemoveFromCart | src/app/page.tsx:151-153 | the filter never lengthens the cart |
| Cart.RemoveLeavesNoKey | src/app/page.tsx:151-153 | after a removal no line carries the removed key |
| Cart.RemoveKeepsOthers | src/app/page.tsx:152 | a line is kept exactly when it was in the cart and its key differs from the removed one |
| Cart.RemoveAppend | src/app/page.tsx:152 | removing distributes over concatenation, so the kept lines stay in their original order |
| Cart.RemoveMissing | src/app/page.tsx:152 | removing a key that is not in the cart leaves the cart unchanged |
| Cart.KeyOnlyAt | src/app/page.tsx:152 | with unique keys, the line at i is the only one with its key |
| Cart.RemoveAt | src/app/page.tsx:151-153 | with unique keys, removing the key of line i deletes exactly line i |
| Cart.SetQuantity | src/app/page.tsx:161-167 | the update `map` keeps the length and overwrites the quantity of the lines with the key only |
| Cart.UpdateQuantity | src/app/page.tsx:155-168 | a quantity of zero or less is exactly removeFromCart; a positive one overwrites matching lines in place; the cart never grows |
| Cart.UpdateMissing | src/app/page.tsx:155-168 | updating a key that is not in the cart leaves it unchanged, whatever the quantity |
| Cart.UpdateAt | src/app/page.tsx:161-167 | with unique keys, a positive update of line i's key changes only that line's quantity |
| Cart.AddToCartKeepsValid | src/app/page.tsx:134-148 | adding keeps keys unique and every quantity at least one |
| Cart.IncrementKeepsValid | src/app/page.tsx:140-144 | the merge keeps keys unique and every quantity at least one |
| Cart.RemoveKeepsValid | src/app/page.tsx:151-153 | removing keeps keys unique and every quantity at least one |
| Cart.UpdateKeepsValid | src/app/page.tsx:155-168 | updating keeps keys unique and every quantity at least one, because zero or less deletes the line |
| Cart.RunKeepsValid | src/app/page.tsx:123-168 | any sequence of add, remove and update actions keeps a valid cart valid |
| Cart.ReachableIsValid | src/app/page.tsx:32 | every cart reached from the empty cart has unique keys and no quantity below one |
| Cart.TotalItems | src/app/page.tsx:170-172 | the total is 0 for the empty cart and, when every quantity is at least one, at least the number of lines |
| Cart.TotalAppend | src/app/page.tsx:171 | the total of a concatenation is the sum of the totals |
| Cart.TotalLast | src/app/page.tsx:171 | the total is the total of all lines but the last, plus the last line's quantity |
| Cart.TotalReplace | src/app/page.tsx:171 | replacing one line changes the total by the difference of the quantities |
| Cart.AddToCartTotal | src/app/page.tsx:134-148 | with unique keys, each add raises the total by exactly one |
| Cart.RemoveTotal | src/app/page.tsx:151-153 | with unique keys, removing line i lowers the total by that line's quantity |
| Cart.UpdateTotal | src/app/page.tsx:155-168 | with unique keys, a positive update of line i changes the total by the new quantity minus the old one |
| Summary.Bump | src/app/page.tsx:178 | one write of the `forEach`: an existing name's value grows by the quantity, a new name is appended as the last key with the quantity; its properties are stated by SumBump, EntriesBumpExisting and EntriesBumpNew |
| Summary.Entries | src/app/page.tsx:419 | `Object.entries`: the (key, value) pairs in key order |
| Summary.SummaryOf | src/app/page.tsx:174-181 | every key of the dictionary after the `forEach` has a value, and every name with a value is the name of a cart line |
| Summary.SummaryWellFormed | src/app/page.tsx:176-179 | the keys are distinct and are exactly the names that have a value |
| Summary.NamesOf | src/app/page.tsx:177 | the names are the lines' display names, in cart order |
| Summary.FirstIndex | src/app/page.tsx:178 | gives the position of a name's first occurrence |
| Summary.GetOrderSummary | src/app/page.tsx:174-181 | the loop builds SummaryOf(cart): distinct keys that are exactly the cart's names, in order of first occurrence; each name's value is the portions of its lines; the values add up to getTotalItems |
| Summary.SummaryKeys | src/app/page.tsx:176-179 | the summary's keys are exactly the display names in the cart |
| Summary.SummaryCounts | src/app/page.tsx:178 | each name maps to the sum of the quantities of the lines with that name |
| Summary.QuantityNamedAbsent | src/app/page.tsx:178 | a name on no line has no portions |
| Summary.SummaryOrder | src/app/page.tsx:176-179 | the keys appear in the order of their names' first occurrence in the cart |
| Summary.OrderAfterRepeat | src/app/page.tsx:178 | a line whose name is already a key keeps the key order |
| Summary.OrderAfterNew | src/app/page.tsx:178 | a line with a new name puts its key after every earlier key |
| Summary.FirstIndexAppend | src/app/page.tsx:178 | appending a line does not move the first occurrence of a name already present |
| Summary.FirstIndexLast | src/app/page.tsx:178 | a new name first occurs last |
| Summary.SummaryTotal | src/app/page.tsx:170-181 | the values of Object.entries(getOrderSummary()) add up to getTotalItems() |
| Summary.SumBump | src/app/page.tsx:178 | each write to the dictionary adds the line's quantity to the sum of the entries |
| Summary.EntriesBumpExisting | src/app/page.tsx:178 | writing to a name already present changes that one entry in place and keeps the key order |
| Summary.EntriesBumpNew | src/app/page.tsx:178 | writing a new name adds one entry at the end |
| Summary.SummaryMeaning | src/app/page.tsx:174-181 | the summary of any cart meets all the properties above together |
| Summary.SumAppend | src/app/page.tsx:419 | the sum of entry quantities over a concatenation is the sum of the sums |
| Summary.SumReplace | src/app/page.tsx:419 | replacing one entry changes the sum by the difference of the quantities |
| Slots.GenerateTimeSlots | src/app/page.tsx:183-194 | the slots are exactly 8:00, 8:30, 9:00, 9:30, 10:00, in that order and all distinct; no 10:30 because of the `hour < 10` guard |
| Decimal.NatToString | src/app/page.tsx:188 | the rendering of a natural number is a non-empty string of digits with no leading zero except for 0 itself, and is one character long exactly below 10 |
| Decimal.ParseNatToString | src/app/page.tsx:420 | parsing the decimal rendering of n gives n back |
| Decimal.NatToStringInjective | src/app/page.tsx:420 | different numbers render differently |
| Decimal.IntToString | src/app/page.tsx:420-422 | `${n}` of an integer is non-empty; it is all digits exactly for n >= 0 and starts with a minus sign exactly for n < 0 |
| Decimal.ParseIntToString | src/app/page.tsx:420-422 | the rendering of any integer has numeral shape and parses back to the integer |
| Text.Join | src/app/page.tsx:421 | joining no parts gives the empty string; otherwise the length is the parts' lengths plus one separator between neighbours |
| Text.Split | src/app/page.tsx:421 | no page code: the inverse of the `join`, used by SplitJoin and OrderDetailsReadBack; it gives at least one piece and no piece holds the separator |
| Text.SplitJoin | src/app/page.tsx:419-421 | splitting the join of one or more separator-free parts gives the parts back |
| Page.RenderEntry | src/app/page.tsx:420 | one line of the details: the name, `: `, the rendered count and `份` |
| Page.OrderDetails | src/app/page.tsx:419-421 | the summary's entries rendered one per line and joined with line breaks |
| Page.OrderAlert | src/app/page.tsx:422 | the alert text: the confirmation, the delivery time, the details and the total portions |
| Page.RenderEntries | src/app/page.tsx:420 | one line `name: qty份` per summary entry, in entry order |
| Page.LastIndexOf | src/app/page.tsx:420 | no page code: a helper of the reader ParseEntry; it finds a position of the character with none after it, and reports absence exactly when the character does not occur |
| Page.LastIndexAt | src/app/page.tsx:420 | a position of the character with none after it is the one LastIndexOf finds |
| Page.LastIndexSkips | src/app/page.tsx:420 | a suffix without the character does not move its last occurrence |
| Page.NumeralChars | src/app/page.tsx:420 | a rendered count holds no colon, space or line break |
| Page.LastColon | src/app/page.tsx:420 | in `name: qty`, the colon before the count is the last colon, whatever the name holds |
| Page.ParseEntry | src/app/page.tsx:420 | no page code: the reader of one `name: qty份` line, the inverse that ParseRenderEntry and OrderDetailsReadBack use |
| Page.ParseRenderEntry | src/app/page.tsx:420 | each `name: qty份` line reads back as its (name, quantity) entry |
| Page.RenderedLineHasNoBreak | src/app/page.tsx:420 | a line whose name holds no line break holds none |
| Page.OrderDetailsReadBack | src/app/page.tsx:418-421 | for a non-empty cart whose names hold no line break, the details text splits into one line per summary entry, and each line reads back as that entry |
| Page.Home.constructor | src/app/page.tsx:32-34 | the page starts with an empty cart and no delivery time |
| Page.Home.AddToCart | src/app/page.tsx:123-149 | the cart becomes the add updater applied to the old cart; the invariant holds, the total grows by one and the delivery time is unchanged |
| Page.Home.RemoveFromCart | src/app/page.tsx:151-153 | the cart becomes the filtered cart; the invariant holds and the delivery time is unchanged |
| Page.Home.UpdateQuantity | src/app/page.tsx:155-168 | zero or less goes through removeFromCart, otherwise the quantity is overwritten; the invariant holds and the delivery time is unchanged |
| Page.Home.SetDeliveryTime | src/app/page.tsx:344-345 | the select's change sets the delivery time and leaves the cart alone |
| Page.Home.Submit | src/app/page.tsx:413-423 | with no delivery time the please-choose alert is shown and nothing else; otherwise the alert is the time, the joined `name: qty份` lines of the summary and the total; the state is never modified |

Text.Split, Page.LastIndexOf, Page.LastIndexAt, Page.LastIndexSkips, Page.ParseEntry and the parsers in
`Decimal` model no code of the page. They are the inverses of the rendering and the `join`, and
ParseRenderEntry, SplitJoin and OrderDetailsReadBack use them to show that the details text loses
nothing.

## Left out

- Rendering: JSX layout, the `showCart` toggle, images and styling (page.tsx:196-451) are presentational.
- Catalog data: the `menuItems` and `drinks` arrays (page.tsx:36-121) are static. Only an entry's id and name go into a line, and `CatalogItem` models those two fields.
- The `price` field: it is always the constant 0 and no computation reads it.
- Cart.LineName: the source picks the label with `type === 'ice' ? … : type === 'hot' ? … : '去冰'`, so any other string would get `去冰`; the typed `type` parameter admits only the three values, and so does the model.
- Summary.GetOrderSummary: JavaScript orders integer-like keys (such as `"12"`) before all other keys. Names like `__proto__` or `toString` would also hit inherited properties. The model does not capture either, because every display name is a catalog name followed by an optional temperature label.
- Numbers: quantities are JavaScript numbers and are modelled as unbounded integers. The page only adds or subtracts one from integers, so fractions, NaN and rounding never occur.
- React's asynchronous, batched state updates: each setter is modelled as one atomic state change.
- `alert` itself: it is modelled as the text it would show.
- The submit button's `disabled` attribute: it duplicates the handler's own guard.
- src/lib/email.ts, src/app/api/send-email/route.ts and src/app/test-email/page.tsx are mail transport, HTTP plumbing and a test page. They are not part of this model.
- next.config.ts: build configuration, not part of this model.
