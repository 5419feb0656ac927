# Shopping cart and component logic, modelled in Dafny

This project models the logic of a small React shopping-cart demo and proves properties about that model.

**The cart.** The cart reducer (`cartReducer`) takes a state and one of nine actions and returns the next state. It owns:
- the derived totals: subtotal, 10 % tax, flat shipping, and a total that never goes below zero;
- merging an added item into the one with the same id;
- the demo discount codes;
- a snapshot undo stack.

**The orchestrator.** Each public cart operation (`CartContext`) runs a fixed sequence of reducer dispatches: first optimistic, then settling. It also keeps a copy in storage and a "last stable" state.

**The components.** Four components contain smaller pieces of logic that are also modelled:
- the data table: its three-state header sort, its search filter and its pagination footer;
- the home page: sort a copy of the users, then cut out a page of five;
- the user list: filter the users, then order them newest login first;
- the searchable select box.

## Modules

| file | module | models |
|---|---|---|
| `seq_util.dfy` | `SeqUtil` | the array methods used: `filter`, `find`, a stable `sort`, `slice` |
| `js_string.dfy` | `JsString` | `toLowerCase`/`toUpperCase` on ASCII, `includes`, `trim`, and a code-point comparison in place of `localeCompare` |
| `cart_types.dfy` | `CartTypes` | `CartItem`, `Totals`, `CartState` (recursive through `undoStack`), `CartAction` |
| `cart_reducer.dfy` | `CartReducer` | `calcTotals`, `initialState`, `cartReducer` (`Step`), and the invariant `Coherent` that every action keeps |
| `cart_context.dfy` | `CartContext` | the wrappers as dispatch sequences, and the class `CartProvider` with the state cell, the storage slot and the last stable state |
| `data_table.dfy` | `DataTable` | `handleSort` (class `TableState`), `filteredData`, "Showing x to y", and the Prev/Next targets and disabling |
| `home.dfy` | `Home` | `sortedUsers`, `paginatedUsers`, `pagination`, and `handleSort` (class `HomePage`) |
| `user_list.dfy` | `UserList` | `sortedUsers`, `departmentMap`, `isActive` |
| `select_input.dfy` | `SelectInput` | `filtered`, the button label, and the `open`/`query` cells (class `Select`) |

**Money and arithmetic.**
- Money is integer cents. Shipping is 500, SAVE10 takes off 1000, and HALFOFF takes off half the undiscounted subtotal.
- Tax and HALFOFF round to the nearest cent. Their contracts state only "nearest", as `-5 <= 10·tax − subtotal <= 5` and `-1 <= 2·half − subtotal <= 1`, so nothing is claimed about ties.
- Quantities and prices are unbounded integers.

**Sorting.**
- Sorting is a stable insertion sort. `le(a, b)` means "the comparator returns at most 0".
- `Array.prototype.sort` has been stable since ECMAScript 2019. The model's sort is proved sorted, a permutation of its input and stable: users that tie keep their order (`SeqUtil.SortStable`, `Home.SortedUsersStable`).
- For the numeric `id` key and the user list's `lastLogin` order, the comparator is the source's own.
- For `name` and `email`, a comparison by code points stands in for `localeCompare`, and the two orders differ. By code points "Bob" comes before "alice" (`JsString.CapitalsFirst`), while a browser's locale order puts "alice" first. For these keys the model's order is that of the stand-in, not the browser's.

**Server confirmation, time and storage.** Each of these became a parameter:
- The server's confirmation is a `confirmed: bool` argument of each wrapper.
- The current time is a `now` argument of `IsActive`.
- The stored snapshot is an `Option<CartState>` argument of the provider's constructor.

**React.** The provider assumes React 18's batching:
- the dispatches made before the first `await` render once;
- the dispatches made after it render once more;
- the persistence effect runs after each of those renders.

`Commit` models that effect.

**Where the code does not do what it evidently intends.** The model follows the code, and lemmas state each difference.
- A failed `addToCart`, `removeItem` or `updateQuantity(q ≥ 1)` evidently means to leave the network error on show. The catch block (src/cart/CartContext.tsx:62-66) dispatches `SET_LOADING(false)`, then `SET_ERRORS([message])`, and only then `UNDO`.
  - `UNDO` restores the pushed snapshot wholesale (src/cart/cartReducer.ts:111). Its `errors` and its `isLoading` come back with it.
  - So the state ends exactly as it was before the call, and the error just recorded is lost (`CartContext.FailedRollsBack`).
- A failed `updateQuantity` with a quantity below 1 also dispatches `UNDO`, which evidently means "take back this call's change". But such a call pushes no snapshot (src/cart/cartReducer.ts:65). Its `UNDO` therefore pops an unrelated earlier snapshot (`CartContext.FailedUpdateBelowOne`).
- At startup the load effect sets `lastStable` to the parsed snapshot (src/cart/CartContext.tsx:40), evidently to make it the last stable state. But the persistence effect of the same first render (src/cart/CartContext.tsx:47-53) still sees the initial state and overwrites `lastStable` with it. The snapshot becomes the last stable state only after the next render, and only if it is stable (`CartContext.CartProvider.constructor`).

**Demo data.** The demonstration data of the user-list page (src/pages/UserList.tsx:5-15) does not fit together. Its users name their department ("Engineering"), but the departments are keyed by number ("1"). So no card finds its department, and choosing a department hides every user (`UserList.SampleDepartmentsNeverMatch`).

## Model

| member | source | states |
|---|---|---|
| SeqUtil.Filter | src/cart/cartReducer.ts:53 | `filter` returns only elements of the input that satisfy the predicate, and keeps each element that satisfies it exactly as often as it occurs |
| SeqUtil.FilterSubseq | src/cart/cartReducer.ts:53 | the filtered elements keep their relative order: the result is a subsequence of the input |
| SeqUtil.FilterAll | src/cart/cartReducer.ts:53 | when every element satisfies the predicate, the filter returns the sequence unchanged |
| SeqUtil.FilterEmptyIff | src/components/SelectInput.tsx:76 | the filtered sequence is empty iff no element satisfies the predicate |
| SeqUtil.FilterCons | src/cart/cartReducer.ts:53 | filtering `[x] + t` is `x` (if it satisfies the predicate) followed by the filtered `t` |
| SeqUtil.FilterHead | src/cart/cartReducer.ts:53 | filtering a non-empty sequence is its head (if it satisfies the predicate) followed by the filtered tail |
| SeqUtil.Find | src/cart/cartReducer.ts:35 | `find` returns nothing iff no element satisfies the predicate, and otherwise the first element that does |
| SeqUtil.SortedPairwise | src/pages/Home.tsx:51 | for a transitive comparison, order between neighbours implies order between every earlier and later element |
| SeqUtil.Insert | src/pages/Home.tsx:51 | insertion adds exactly one copy of the element |
| SeqUtil.Sort | src/pages/Home.tsx:51 | the sort is a permutation of its input |
| SeqUtil.InsertSorted | src/pages/Home.tsx:51 | inserting into a sorted sequence under a total comparison keeps it sorted |
| SeqUtil.SortSorted | src/pages/Home.tsx:51 | under a total comparison the sort's result is sorted |
| SeqUtil.FilterInsertFirst | src/pages/Home.tsx:51 | when the inserted element compares at most equal to every element of its class, insertion puts it before every other element of that class and leaves the class otherwise in order |
| SeqUtil.SortKeepsOrderOf | src/pages/Home.tsx:51 | elements that all compare at most equal to one another come out of the sort in their input order |
| SeqUtil.SortStable | src/pages/Home.tsx:51 | the sort is stable: for a transitive comparison, the elements that tie with any given one keep their relative order |
| SeqUtil.SortAllEqual | src/pages/Home.tsx:61 | a comparator that ties every pair leaves the order alone |
| SeqUtil.SliceIndex | src/pages/Home.tsx:67 | the reference definition of the `slice` index clamp: into `0..length`, a negative index counting from the end; its properties are stated by `SeqUtil.SliceLength` and `SeqUtil.SliceInRange` |
| SeqUtil.Slice | src/pages/Home.tsx:67 | `slice(start, end)`; no contract of its own, see `SeqUtil.SliceLength` and `SeqUtil.SliceInRange` |
| SeqUtil.SliceLength | src/pages/Home.tsx:67 | `slice(start, end)` never holds more than `end - start` elements, even for negative indices |
| SeqUtil.SliceInRange | src/pages/Home.tsx:67 | with non-negative indices `slice` is the plain sub-sequence, cut at the end |
| JsString.LowerChar | src/components/UserListComp.tsx:64 | the reference definition of `toLowerCase` on one character (ASCII capitals only); its properties are stated by `JsString.LowerIdempotent` and `JsString.LowerOfUpper` |
| JsString.UpperChar | src/cart/cartReducer.ts:86 | the reference definition of `toUpperCase` on one character (ASCII small letters only); its properties are stated by `JsString.UpperFixed` and `JsString.LowerOfUpper` |
| JsString.Lower | src/components/UserListComp.tsx:64 | the reference definition of `toLowerCase`, character by character; its properties are stated by `JsString.LowerIdempotent` and `JsString.LowerOfUpper` |
| JsString.Upper | src/cart/cartReducer.ts:86 | the reference definition of `toUpperCase`, character by character; its properties are stated by `JsString.UpperFixed` and `JsString.LowerOfUpper` |
| JsString.UpperFixed | src/cart/cartReducer.ts:86 | a string without ASCII small letters is its own upper case |
| JsString.LowerIdempotent | src/components/DataTable.tsx:69 | lower-casing twice is lower-casing once |
| JsString.LowerOfUpper | src/components/DataTable.tsx:69 | text that differs only in case lower-cases to the same string, so the search ignores case |
| JsString.Includes | src/components/DataTable.tsx:69 | `includes`; no contract of its own, see `JsString.IncludesIff` and `JsString.IncludesEmpty` |
| JsString.IncludesIff | src/components/DataTable.tsx:69 | `includes` holds iff the term occurs at some index as a contiguous block |
| JsString.IncludesEmpty | src/components/DataTable.tsx:69 | every string includes the empty string |
| JsString.LeadingWhitespace | src/cart/cartReducer.ts:79 | the count covers only whitespace and stops at the first character that is not whitespace, so `trim` drops exactly the leading whitespace |
| JsString.TrailingWhitespace | src/cart/cartReducer.ts:79 | the count covers only whitespace and stops at the last character that is not whitespace, so `trim` drops exactly the trailing whitespace |
| JsString.Trim | src/cart/cartReducer.ts:79 | `trim` returns the block of the input between leading and trailing whitespace, with no whitespace left at either end |
| JsString.TrimFixed | src/cart/cartReducer.ts:79 | a string with no whitespace at either end is its own trim |
| JsString.TrimIdempotent | src/cart/cartReducer.ts:79 | trimming a trimmed code changes nothing |
| JsString.Compare | src/pages/Home.tsx:56 | the comparison is negative, zero or positive, and zero exactly for equal strings |
| JsString.CompareAntisymmetric | src/pages/Home.tsx:56 | swapping the operands flips the sign, so the comparison is total |
| JsString.CompareTransitive | src/pages/Home.tsx:56 | the comparison is transitive |
| JsString.CapitalsFirst | src/pages/Home.tsx:56 | the stand-in order puts "Bob" before "alice", unlike a locale order |
| CartReducer.InitialState | src/cart/cartReducer.ts:6-14 | `initialState`; no contract of its own, see `CartReducer.InitialTotals` and `CartReducer.InitialCoherent` |
| CartReducer.Subtotal | src/cart/cartReducer.ts:17-19 | the `reduce` over the line totals; no contract of its own, see `CartReducer.SubtotalAppend`, `CartReducer.SubtotalUpdate` and `CartReducer.SampleSubtotal` |
| CartReducer.Tax | src/cart/cartReducer.ts:20 | the tax is 10 % of the subtotal, rounded to the nearest cent |
| CartReducer.Half | src/cart/cartReducer.ts:89-91 | half an amount, rounded to the nearest cent |
| CartReducer.CalcTotals | src/cart/cartReducer.ts:16-27 | subtotal is the sum of the line totals; tax is 10 % to the nearest cent; shipping is 500 iff the cart is non-empty; total is `max(0, subtotal + tax + shipping − discount)` |
| CartReducer.InitialTotals | src/cart/cartReducer.ts:6-14 | the initial state's totals are `calcTotals([], 0)`, with no errors and an empty undo stack |
| CartReducer.ShippingAndTotal | src/cart/cartReducer.ts:21-25 | shipping is 0 for an empty cart and 500 otherwise, and the total is never negative |
| CartReducer.RunAppend | src/cart/CartContext.tsx:56-66 | dispatching two action sequences one after the other is dispatching their concatenation |
| CartReducer.SubtotalAppend | src/cart/cartReducer.ts:17-19 | appending an item adds its line total to the subtotal |
| CartReducer.SubtotalUpdate | src/cart/cartReducer.ts:17-19 | replacing one item changes the subtotal by the difference of the line totals |
| CartReducer.MoreOfAnItem | src/cart/cartReducer.ts:18 | adding to an item's quantity adds that many times its price to its line total |
| CartReducer.AddToItems | src/cart/cartReducer.ts:35-42 | the item list after ADD_ITEM; no contract of its own, see `CartReducer.AddExisting`, `CartReducer.AddNew` and `CartReducer.AddQuantity` |
| CartReducer.RemoveFromItems | src/cart/cartReducer.ts:53 | the item list after REMOVE_ITEM; no contract of its own, see `CartReducer.RemoveSpec` and `CartReducer.RemoveAbsent` |
| CartReducer.SetQuantity | src/cart/cartReducer.ts:66-68 | the item list after UPDATE_QUANTITY; no contract of its own, see `CartReducer.UpdateSpec` |
| CartReducer.DiscountRule | src/cart/cartReducer.ts:84-94 | the demo discount rules; no contract of its own, see `CartReducer.DiscountRules`, `CartReducer.Save10Sample`, `CartReducer.HalfOffSample` and `CartReducer.BogusSample` |
| CartReducer.Structural | src/cart/cartReducer.ts:43-49 | the state rebuilt after an item change; no contract of its own, see `CartReducer.ItemActionsFrame` and `CartReducer.StructuralCoherent` |
| CartReducer.Step | src/cart/cartReducer.ts:29-122 | `cartReducer`; no contract of its own, see the lemmas below, `CartReducer.StepCoherent` above all |
| CartReducer.Run | src/cart/CartContext.tsx:30 | the reducer applied to the actions dispatched, one after the other; no contract of its own, see `CartReducer.RunAppend` and `CartReducer.RunCoherent` |
| CartReducer.HasIdIff | src/cart/cartReducer.ts:35 | the `find` test holds iff some item has the id |
| CartReducer.AddExisting | src/cart/cartReducer.ts:35-41 | ADD_ITEM with a present id adds the payload quantity to the items with that id, and keeps every other item, the length and the order |
| CartReducer.AddNew | src/cart/cartReducer.ts:42 | ADD_ITEM with a new id appends the payload at the end |
| CartReducer.MergeIsUpdate | src/cart/cartReducer.ts:37-41 | with unique ids, the merge changes exactly one position |
| CartReducer.AddMergeSubtotal | src/cart/cartReducer.ts:37-47 | merging raises the subtotal by price × added quantity |
| CartReducer.AddNewSubtotal | src/cart/cartReducer.ts:42-47 | appending raises the subtotal by the new line total |
| CartReducer.QuantityOfAbsent | src/cart/cartReducer.ts:35 | an absent id has quantity 0 in the cart |
| CartReducer.QuantityOfAt | src/cart/cartReducer.ts:35 | with unique ids, the quantity counted for an id is that item's quantity |
| CartReducer.ConsUniqueIds | src/cart/cartReducer.ts:42 | putting an item with a fresh id in front of items with unique ids keeps the ids unique |
| CartReducer.FilterUniqueIds | src/cart/cartReducer.ts:53 | removing items keeps the ids unique |
| CartReducer.FirstIdFresh | src/cart/cartReducer.ts:35 | with unique ids, the first item's id does not occur again |
| CartReducer.MergeQuantity | src/cart/cartReducer.ts:36-41 | merging into the item with the payload's id keeps ids unique and adds the payload quantity under that id |
| CartReducer.AppendQuantity | src/cart/cartReducer.ts:42 | appending an item with a new id keeps ids unique and adds its quantity under that id |
| CartReducer.AddQuantity | src/cart/cartReducer.ts:35-42 | ADD_ITEM keeps the ids unique and raises that id's quantity by exactly the payload quantity |
| CartReducer.RepeatedAdds | src/cart/cartReducer.ts:35-42 | on a cart with unique ids, a run of ADD_ITEMs for one id keeps the ids unique and raises that id's quantity by the sum of their quantities |
| CartReducer.RemoveSpec | src/cart/cartReducer.ts:52-60 | REMOVE_ITEM leaves no item with the id and keeps the others in order with their multiplicities; it still pushes the prior state and clears the errors; the totals are recomputed with the discount kept, and every other field, `isLoading` included, is kept |
| CartReducer.RemoveAbsent | src/cart/cartReducer.ts:53 | removing an absent id keeps the items equal |
| CartReducer.UpdateBelowOne | src/cart/cartReducer.ts:65 | UPDATE_QUANTITY below 1 returns the state unchanged, with no undo entry |
| CartReducer.UpdateSpec | src/cart/cartReducer.ts:63-75 | UPDATE_QUANTITY of at least 1 sets only the quantity of the matching items; it pushes the prior state, clears the errors, keeps the discount and recomputes the totals for the new items; every other field, `isLoading` included, is kept |
| CartReducer.DiscountRules | src/cart/cartReducer.ts:78-103 | APPLY_DISCOUNT stores the trimmed code. An empty code gives 0 with no error. SAVE10 in any case gives 1000. HALFOFF in any case gives half the undiscounted subtotal. Anything else gives 0 and the single "Invalid discount code" error. It pushes the prior state, recomputes the totals with the new amount, and keeps the items, `isLoading` and every other field |
| CartReducer.ItemActionsKeepDiscount | src/cart/cartReducer.ts:43-48 | ADD/REMOVE/UPDATE keep the discount code and amount without recomputing them, and reset the errors |
| CartReducer.FieldActions | src/cart/cartReducer.ts:106-117 | CLEAR_ERRORS, SET_ERRORS and SET_LOADING change only their one field |
| CartReducer.LoadCartSpec | src/cart/cartReducer.ts:31-32 | LOAD_CART returns its payload verbatim, whatever the state |
| CartReducer.ItemActionsFrame | src/cart/cartReducer.ts:43-75 | ADD_ITEM, REMOVE_ITEM and UPDATE_QUANTITY of at least 1 push the prior state, recompute the totals for the new items with the discount kept, clear the errors, and keep every other field, `isLoading` included |
| CartReducer.UndoRestores | src/cart/cartReducer.ts:45 | ADD/REMOVE/UPDATE(≥ 1)/APPLY_DISCOUNT push exactly the prior state, so UNDO of the result is exactly the prior state |
| CartReducer.NoPushOtherwise | src/cart/cartReducer.ts:106-117 | CLEAR_ERRORS, SET_LOADING, SET_ERRORS and UPDATE below 1 leave the undo stack alone |
| CartReducer.UndoSpec | src/cart/cartReducer.ts:109-111 | UNDO on an empty stack is the identity; otherwise it restores the top snapshot and consumes one entry |
| CartReducer.InitialCoherent | src/cart/cartReducer.ts:6-14 | the initial state is coherent: its totals match its items and its ids are unique |
| CartReducer.StructuralCoherent | src/cart/cartReducer.ts:43-49 | a structural change to items with unique ids pushes a coherent snapshot and recomputes matching totals |
| CartReducer.UndoCoherent | src/cart/cartReducer.ts:109-111 | UNDO of a coherent state restores a coherent snapshot with a coherent remaining stack |
| CartReducer.StepCoherent | src/cart/cartReducer.ts:29-122 | every action keeps the state coherent, the snapshots included, provided a loaded snapshot is coherent |
| CartReducer.RunCoherent | src/cart/cartReducer.ts:29-122 | any sequence of actions whose loaded snapshots are coherent keeps a coherent state coherent |
| CartReducer.SampleSubtotal | src/cart/cartReducer.ts:17-19 | 10.00 × 2 plus 5.00 × 1 gives a subtotal of 25.00 |
| CartReducer.SampleTotals | src/cart/cartReducer.ts:16-27 | that cart has tax 2.50, shipping 5.00 and total 32.50 |
| CartReducer.SampleSave10 | src/cart/cartReducer.ts:86-87 | SAVE10 on that cart gives a discount of 10.00 and a total of 22.50 |
| CartReducer.Save10Sample | src/cart/cartReducer.ts:86-87 | the SAVE10 rule gives 10.00 with no error |
| CartReducer.HalfOffSample | src/cart/cartReducer.ts:88-91 | "halfoff" on that cart gives 12.50 with no error |
| CartReducer.SampleHalfOff | src/cart/cartReducer.ts:78-103 | "halfoff" in lower case stores the code and gives a discount of 12.50 and a total of 20.00 |
| CartReducer.BogusSample | src/cart/cartReducer.ts:92-94 | the rule for an unknown code gives nothing off and the invalid-code error |
| CartReducer.SampleBogus | src/cart/cartReducer.ts:92-94 | an unknown code leaves the total at 32.50 and reports the invalid code |
| CartReducer.ShippingToggles | src/cart/cartReducer.ts:21 | adding the only item charges shipping, and removing it drops the charge |
| CartContext.IsStable | src/cart/CartContext.tsx:50 | the "stable" test of the persistence effect; no contract of its own, see `CartContext.CartProvider.Commit` |
| CartContext.Optimistic | src/cart/CartContext.tsx:57-59 | the dispatches before the `await`; no contract of its own, see `CartContext.OptimisticRun` |
| CartContext.Settle | src/cart/CartContext.tsx:61-65 | the dispatches after the server answered; no contract of its own, see `CartContext.SettleRun` |
| CartContext.AddToCartActions | src/cart/CartContext.tsx:56-66 | `addToCart`'s dispatches; no contract of its own, see `CartContext.FailedWrappersRestore`, `CartContext.WrappersSettle` and `CartContext.CartProvider.AddToCart` |
| CartContext.RemoveItemActions | src/cart/CartContext.tsx:69-79 | `removeItem`'s dispatches; no contract of its own, see `CartContext.FailedWrappersRestore`, `CartContext.WrappersSettle` and `CartContext.CartProvider.RemoveItem` |
| CartContext.UpdateQuantityActions | src/cart/CartContext.tsx:82-92 | `updateQuantity`'s dispatches; no contract of its own, see `CartContext.FailedWrappersRestore`, `CartContext.FailedUpdateBelowOne` and `CartContext.CartProvider.UpdateQuantity` |
| CartContext.ApplyDiscountActions | src/cart/CartContext.tsx:95-106 | `applyDiscount`'s dispatches, with no UNDO on failure; no contract of its own, see `CartContext.FailedDiscountKept` and `CartContext.CartProvider.ApplyDiscount` |
| CartContext.OptimisticRun | src/cart/CartContext.tsx:57-59 | the optimistic phase ends in the action's result, marked as loading |
| CartContext.SettleRun | src/cart/CartContext.tsx:61-65 | the settling phase clears loading on success; on failure it records the network error and then undoes, or only records it |
| CartContext.WrapperRun | src/cart/CartContext.tsx:56-66 | a wrapper is its optimistic phase followed by its settling phase |
| CartContext.ConfirmedKeepsOptimistic | src/cart/CartContext.tsx:56-61 | a confirmed wrapper ends in the optimistic result with `isLoading = false` |
| CartContext.FailedRollsBack | src/cart/CartContext.tsx:62-66 | a failed wrapper whose action pushed a snapshot ends in exactly the starting state, so the network error is overwritten by the snapshot's own errors |
| CartContext.FailedWrappersRestore | src/cart/CartContext.tsx:62-92 | a failed `addToCart`, `removeItem` or `updateQuantity(q ≥ 1)` ends in exactly the starting state |
| CartContext.FailedUpdateBelowOne | src/cart/CartContext.tsx:83-91 | a failed `updateQuantity` below 1 pops the unrelated top snapshot; on an empty stack it keeps the state, with the network error and no loading |
| CartContext.FailedDiscountKept | src/cart/CartContext.tsx:95-106 | a failed `applyDiscount` keeps the discount change and ends with `isLoading = false` and `errors = [message]`, with no UNDO |
| CartContext.WrappersSettle | src/cart/CartContext.tsx:56-107 | every wrapper ends with `isLoading = false` on either outcome, when started from a state that is not loading |
| CartContext.WrapperCoherent | src/cart/CartContext.tsx:56-107 | a wrapper keeps a coherent cart coherent |
| CartContext.CartProvider.Commit | src/cart/CartContext.tsx:47-53 | the persistence effect saves the state, and replaces the last stable state only with a state that is not loading and has no errors |
| CartContext.CartProvider.Dispatch | src/cart/CartContext.tsx:30 | a dispatch replaces the state by the reducer's result |
| CartContext.CartProvider.constructor | src/cart/CartContext.tsx:30-53 | start-up loads a parsed snapshot verbatim through LOAD_CART, and keeps the initial state when there is none; the last stable state is the snapshot only if the snapshot is stable |
| CartContext.CartProvider.Wrapper | src/cart/CartContext.tsx:56-66 | a wrapper leaves the state at the dispatch sequence's result, updates the last stable state by the stable-only rule, and keeps coherence |
| CartContext.CartProvider.AddToCart | src/cart/CartContext.tsx:56-67 | `addToCart` ends in the optimistic result with loading cleared on success, and exactly in the starting state on failure |
| CartContext.CartProvider.RemoveItem | src/cart/CartContext.tsx:69-80 | `removeItem` ends in the optimistic result with loading cleared on success, and exactly in the starting state on failure |
| CartContext.CartProvider.UpdateQuantity | src/cart/CartContext.tsx:82-93 | `updateQuantity` ends in the optimistic result with loading cleared on success; on failure with a quantity of at least 1 it ends in exactly the starting state |
| CartContext.CartProvider.ApplyDiscount | src/cart/CartContext.tsx:95-107 | `applyDiscount` keeps the discount either way; on failure it ends with `errors = [message]` and loading cleared |
| CartContext.CartProvider.Undo | src/cart/CartContext.tsx:109 | `undo` dispatches exactly one UNDO, with no confirmation |
| DataTable.NextSort | src/components/DataTable.tsx:52-63 | the next key and direction after a header click; no contract of its own, see `DataTable.SortCycle` and `DataTable.ThreeClicks` |
| DataTable.SortCycle | src/components/DataTable.tsx:52-63 | a new key gives (key, asc); the same key while asc gives desc; the same key while desc gives (null, null); key and direction stay set or cleared together |
| DataTable.ThreeClicks | src/components/DataTable.tsx:52-63 | three clicks on one key from unsorted return to unsorted |
| DataTable.AriaSortOf | src/components/DataTable.tsx:109-115 | a header's `aria-sort`; no contract of its own, see `DataTable.AriaSortSpec` |
| DataTable.AriaSortSpec | src/components/DataTable.tsx:109-115 | `aria-sort` is ascending or descending on the sorted column, matching the direction, and none on every other column |
| DataTable.SortIndicator | src/components/DataTable.tsx:119-123 | a header's arrow; no contract of its own, see `DataTable.SortIndicatorSpec` |
| DataTable.SortIndicatorSpec | src/components/DataTable.tsx:119-123 | the arrow appears only on the sorted column when sorting is allowed, up for ascending and down for descending |
| DataTable.TableState.constructor | src/components/DataTable.tsx:46-48 | a table starts unsorted with an empty search |
| DataTable.TableState.HandleSort | src/components/DataTable.tsx:50-64 | with sorting off, nothing changes and `onSort` is not called; otherwise the state takes the next step of the cycle, and `onSort` receives the clicked key and the new direction |
| DataTable.TableState.ClickHeader | src/components/DataTable.tsx:108 | a header click reaches `handleSort` only for a sortable column |
| DataTable.TableState.SetSearchTerm | src/components/DataTable.tsx:86 | the search box sets the term |
| DataTable.RowMatches | src/components/DataTable.tsx:68-70 | some field of the row contains the term, ignoring case; no contract of its own, see `DataTable.SearchSpec` |
| DataTable.FilteredData | src/components/DataTable.tsx:66-72 | `filteredData`; no contract of its own, see `DataTable.SearchSpec` and `DataTable.EmptyTermKeepsAll` |
| DataTable.SearchSpec | src/components/DataTable.tsx:66-72 | with search off the rows are the data; with it on, they are the order-preserving sublist of rows that have a field containing the term, ignoring case |
| DataTable.EmptyTermKeepsAll | src/components/DataTable.tsx:66-72 | an empty term keeps every row that has at least one field |
| DataTable.PageCount | src/components/DataTable.tsx:240 | the page count is the ceiling of total / pageSize |
| DataTable.ShowingStart | src/components/DataTable.tsx:200-203 | the first row number shown; no contract of its own, see `DataTable.ShowingRange` and `DataTable.ShowingOnPage` |
| DataTable.ShowingEnd | src/components/DataTable.tsx:207-210 | the last row number shown; no contract of its own, see `DataTable.ShowingRange` and `DataTable.ShowingOnPage` |
| DataTable.ShowingRange | src/components/DataTable.tsx:200-211 | the end of the range shown never exceeds the total, and the start never exceeds the end |
| DataTable.ShowingOnPage | src/components/DataTable.tsx:200-211 | on a page holding rows, the range starts after the earlier pages and spans min(pageSize, remaining rows) |
| DataTable.PrevTarget | src/components/DataTable.tsx:223 | the page Prev asks for; no contract of its own, see `DataTable.PrevNextSpec` |
| DataTable.PrevDisabled | src/components/DataTable.tsx:224 | when Prev is disabled; no contract of its own, see `DataTable.PrevNextSpec` |
| DataTable.NextTarget | src/components/DataTable.tsx:237-244 | the page Next asks for; no contract of its own, see `DataTable.PrevNextSpec` |
| DataTable.NextDisabled | src/components/DataTable.tsx:245-248 | when Next is disabled; no contract of its own, see `DataTable.PrevNextSpec` |
| DataTable.PrevNextSpec | src/components/DataTable.tsx:223-247 | Prev targets max(1, page−1) and is disabled when page ≤ 1; Next targets min(⌈total/pageSize⌉, page+1) and is disabled when page ≥ ⌈total/pageSize⌉; an enabled button moves by one |
| DataTable.PagesStayInRange | src/components/DataTable.tsx:223-247 | from a page in 1..⌈total/pageSize⌉, enabled clicks stay in that range |
| Home.Cmp | src/pages/Home.tsx:51-62 | the comparator; no contract of its own, see `Home.UserLeOrder`, `Home.SortedById`, `Home.SortedByName` and `Home.SortedByEmail` |
| Home.UserLe | src/pages/Home.tsx:51 | "the comparator returns at most 0"; no contract of its own, see `Home.UserLeOrder` |
| Home.SortedUsers | src/pages/Home.tsx:48-63 | `sortedUsers`; no contract of its own, see the lemmas below |
| Home.UserLeOrder | src/pages/Home.tsx:51-62 | the comparator is total and transitive for every key and direction |
| Home.UnsortedKeepsOrder | src/pages/Home.tsx:49 | with no key, an empty key or no direction, `sortedUsers` is `users` unchanged |
| Home.SortedIsPermutation | src/pages/Home.tsx:48-63 | `sortedUsers` is a permutation of `users` |
| Home.SortedOrder | src/pages/Home.tsx:51-62 | every earlier user compares at most equal to every later one |
| Home.SortedUsersStable | src/pages/Home.tsx:51-62 | users that compare equal keep their relative order in `sortedUsers` |
| Home.SortedById | src/pages/Home.tsx:58-60 | by the numeric id, asc gives non-decreasing order and desc non-increasing |
| Home.SortedByName | src/pages/Home.tsx:55-57 | by name, the order follows the string comparison, reversed for desc |
| Home.SortedByEmail | src/pages/Home.tsx:55-57 | by email, the order follows the string comparison, reversed for desc |
| Home.UnknownKeyKeepsOrder | src/pages/Home.tsx:61 | a key the users lack ties every pair and leaves the order alone |
| Home.PaginatedUsers | src/pages/Home.tsx:65-68 | `paginatedUsers`; no contract of its own, see `Home.PageSpec` and `Home.ShowingMatchesPage` |
| Home.PageSpec | src/pages/Home.tsx:65-68 | a page holds at most five users; from page 1 on it is `sortedUsers[(page−1)·5 .. (page−1)·5+5]`, cut at the end |
| Home.HomePagination | src/pages/Home.tsx:70-74 | the pagination record handed to the table, whose total is all users and not only the page shown; what the footer then shows is stated by `Home.ShowingMatchesPage` |
| Home.ShowingMatchesPage | src/pages/Home.tsx:65-74 | the footer's "Showing x to y" counts exactly the users on the page |
| Home.HomePage.constructor | src/pages/Home.tsx:25-33 | the page starts unsorted on page 1 |
| Home.HomePage.HandleSort | src/pages/Home.tsx:42-46 | `handleSort` records the key and direction and resets the page to 1, so the first five users of the new order are shown |
| Home.HomePage.SetPage | src/pages/Home.tsx:99 | a page change sets the page |
| UserList.MatchesSearch | src/components/UserListComp.tsx:63-65 | `matchesSearch`; no contract of its own, see `UserList.VisibleSpec` |
| UserList.MatchesDepartment | src/components/UserListComp.tsx:66-67 | `matchesDepartment`; no contract of its own, see `UserList.VisibleSpec` and `UserList.EmptyDepartment` |
| UserList.Keep | src/components/UserListComp.tsx:68 | both tests together; no contract of its own, see `UserList.VisibleSpec` |
| UserList.NewestFirst | src/components/UserListComp.tsx:70 | the newest-first comparator; no contract of its own, see `UserList.NewestFirstOrder` |
| UserList.VisibleUsers | src/components/UserListComp.tsx:60-71 | the component's `sortedUsers`; no contract of its own, see `UserList.VisibleSpec`, `UserList.NewestFirstOrder` and `UserList.EmptySearchShowsAll` |
| UserList.VisibleSpec | src/components/UserListComp.tsx:60-71 | a user is shown iff the name or email contains the term, ignoring case, and the department is 'all' or equal; each is shown as often as it occurs |
| UserList.NewestFirstOrder | src/components/UserListComp.tsx:70 | the list is ordered by `lastLogin`, newest first |
| UserList.EmptySearchShowsAll | src/components/UserListComp.tsx:62-69 | an empty term with 'all' shows every user |
| UserList.EmptyDepartment | src/components/UserListComp.tsx:66-67 | a department no user belongs to shows an empty list |
| UserList.DepartmentMap | src/components/UserListComp.tsx:55-58 | `departmentMap`; no contract of its own, see `UserList.DepartmentMapSpec` |
| UserList.DepartmentMapSpec | src/components/UserListComp.tsx:55-58 | an id is in the map iff some department has it, and it maps to the last department with that id |
| UserList.CardDepartment | src/components/UserListComp.tsx:104 | a card's department; no contract of its own, see `UserList.CardDepartmentSpec` |
| UserList.CardDepartmentSpec | src/components/UserListComp.tsx:104 | a card gets the last department whose id is the user's department, and none if there is none |
| UserList.IsActive | src/components/UserListComp.tsx:24 | `isActive`; no contract of its own, see `UserList.ActiveWindow` and `UserList.ActivityExpires` |
| UserList.ActiveWindow | src/components/UserListComp.tsx:24 | the active window is 2 592 000 000 ms, and a login exactly that long ago is inactive |
| UserList.ActivityExpires | src/components/UserListComp.tsx:24 | a user active later was active earlier: activity only expires |
| UserList.SampleDepartmentsNeverMatch | src/pages/UserList.tsx:5-15 | with the demo data no card finds its department, and choosing a department hides every user |
| SelectInput.Filtered | src/components/SelectInput.tsx:23 | `filtered`; no contract of its own, see `SelectInput.FilteredSpec`, `SelectInput.EmptyQueryKeepsAll` and `SelectInput.NoOptionsIff` |
| SelectInput.FilteredSpec | src/components/SelectInput.tsx:23 | `filtered` is the order-preserving sublist of options whose label contains the query, ignoring case |
| SelectInput.EmptyQueryKeepsAll | src/components/SelectInput.tsx:23 | an empty query keeps every option |
| SelectInput.NoOptionsIff | src/components/SelectInput.tsx:76 | "No options" is shown iff no label contains the query |
| SelectInput.ButtonLabel | src/components/SelectInput.tsx:49 | the button's text; no contract of its own, see `SelectInput.ButtonLabelSpec` |
| SelectInput.ButtonLabelSpec | src/components/SelectInput.tsx:49 | the button shows the label of the first option whose value equals `value`, else "Select..." |
| SelectInput.Select.constructor | src/components/SelectInput.tsx:21-22 | the box starts closed with an empty query |
| SelectInput.Select.Listed | src/components/SelectInput.tsx:51-75 | the options on show: none while closed, the filtered ones while open; no contract of its own, see `SelectInput.Select.Choose` |
| SelectInput.Select.ClickButton | src/components/SelectInput.tsx:45 | a button click flips `open` |
| SelectInput.Select.SetQuery | src/components/SelectInput.tsx:58 | typing sets the query |
| SelectInput.Select.Choose | src/components/SelectInput.tsx:67-70 | choosing a listed option reports its value to `onChange` and closes the list |
| SelectInput.Select.DocumentClick | src/components/SelectInput.tsx:27-30 | a document click outside closes the list, and a click inside leaves it unchanged |

The type declarations of `src/cart/cartTypes.ts` are `CartTypes.CartItem`, `CartTypes.Totals`, `CartTypes.CartState` and `CartTypes.CartAction`. Datatypes hold no contracts, but the declarations already fix these facts:
- `Totals` has exactly the four fields;
- `CartState` is recursive through `undoStack: seq<CartState>`;
- `CartAction` has exactly nine variants;
- REMOVE_ITEM carries only an id, and UPDATE_QUANTITY carries an id and a quantity.

## Left out

- I/O: `localStorage` and `JSON.stringify`/`JSON.parse`. Storage is a field that holds the state value. A parse failure or an empty slot is `None` for the constructor. No serialisation round trip is proved.
- The server call: its randomness, its latency and its timers. The outcome is the `confirmed` argument.
- Concurrency: wrapper calls that are in flight at the same time and interleave on the shared undo stack. Each wrapper call is modelled as running alone.
- Floating-point money and `toFixed(2)`. Amounts are integer cents with round-to-nearest. Ties are not claimed, and neither are fractional quantities.
- `localeCompare`: replaced by a lexicographic comparison of code points. It orders capitals before small letters and ignores the locale, so the `name` and `email` orders of the home page are those of the stand-in (`JsString.CapitalsFirst`).
- Non-ASCII `toLowerCase`/`toUpperCase`: only ASCII letters change case.
- `new Date(...)` parsing and `Date.now()`: timestamps are integers and `now` is a parameter. An unparsable date (NaN) is not modelled.
- React hook semantics. `useEffect`, `useMemo` and `useRef` are not modelled. One render per batch is assumed, and one persistence effect per render.
- All rendering and styling: the skeleton rows, the empty message, the export button, the row actions, labels, helper text and errors. The `disabled` prop of the select box is never applied to its button in the source, and it is not modelled either.
- The default branch of the reducer: every action in the union is handled, so it cannot be reached.
- `DataTable.PageCount`, `DataTable.NextTarget`, `DataTable.NextDisabled`: require a page size of at least 1. The source divides by the page size, and a page size of 0 gives `Infinity`/`NaN` in JavaScript.
- `CartContext.WrappersSettle`: requires a starting state that is not loading. A state loaded from storage while a request was pending carries `isLoading = true`. A failed `addToCart`, `removeItem` or `updateQuantity` from such a state restores that flag through UNDO, so "every wrapper ends not loading" does not hold for it. For the same reason, a failed `updateQuantity` below 1 needs the popped snapshot to be not loading.
- `CartContext.CartProvider.UpdateQuantity`: states the exact end state for a failure only when the quantity is at least 1. The failure below 1 is stated by `CartContext.FailedUpdateBelowOne`.
- `DataTable.EmptyTermKeepsAll`: holds only for rows with at least one field. In the source, a row with no fields matches no term, not even the empty one.
- `SeqUtil.Sort` stands for the engine's sort algorithm. Only its result is modelled: sorted, a permutation and stable, as ECMAScript requires of a consistent comparator.
- The open/close handlers of the select box do not reset the query, and neither does the model.
