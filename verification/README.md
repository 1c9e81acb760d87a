# ProductList catalog view-model in Dafny

A model of the logic inside the `Products` catalog component of a small
single-page shop and of the store slice it reads from. The component fetches a
product list once, stores it wholesale in the `products` slice, and renders a
searchable, paginated grid. The model covers:

- the `products` slice: its initial state and its `setProducts` reducer, which
  replaces the stored items wholesale (`ProductsSlice`);
- the search filter: a stable filter keeping the products whose lower-cased
  title or description contains the lower-cased debounced term (`Text`, `Search`);
- the pagination arithmetic: six items per page, `Math.ceil(n / 6)` pages, and
  the visible slice taken with JavaScript's `Array.prototype.slice` rules
  (`Pagination`);
- the pagination bar: "previous" disabled on page 1, "next" disabled on the
  last page, one numbered button per page with exactly one highlighted
  (`Navigation`);
- the component's state: what the fetch effect leaves behind for each outcome,
  the page reset when the debounced term changes, the page moves made by the
  bar, and the choice of what to render: loading, then error, then the
  empty-state message or the grid, with the bar only when more than six
  products match (`ProductsView`);
- the scenarios of the component's test file (`Scenarios`).

Everything is pure functions over immutable datatypes. The fetch outcome and
the debounced search term are inputs.

Points where the code's behaviour is easy to misread:

- A page request outside `[1, totalPages]` is not checked by the page-change
  handler. It cannot happen only because the bar offers no such button and
  disables the arrows at the ends. The model says the same: `Step` ignores a
  press on a control the bar does not offer.
- The bar is shown only when more than six products match (`length > 6`), so
  a single page of results has no bar at all, not only an empty result.
- The error view is chosen by `if (error)`, which is JavaScript truthiness. An
  `Error` with an empty message stores `""`, which is falsy, and the catalog
  view stays on screen (`ProductsView.EmptyErrorMessageShowsCatalog`).
- Before the fetch effect runs, `loading` is `false`. The very first state is
  therefore the catalog view over an empty list; the loading view appears once
  the request is in flight.

## Model

| member | source | states |
|---|---|---|
| Text.LowerChar | src/components/Products.tsx:61-62 | a character's lower case: an upper-case letter becomes its lower-case counterpart, every other character is unchanged, and no upper-case letter remains |
| Text.Lower | src/components/Products.tsx:61-62 | lower-casing keeps the length, turns each upper-case letter into its lower-case counterpart, leaves every other character unchanged, and leaves no upper-case letter |
| Text.LowerIdempotent | src/components/Products.tsx:61-62 | lower-casing an already lower-cased string changes nothing |
| Text.Contains | src/components/Products.tsx:61-62 | `includes` is true exactly when the term occurs at some index of the string |
| Text.ContainsEmpty | src/components/Products.tsx:61-62 | every string contains the empty string |
| ProductsSlice.InitialState | src/redux/features/productsSlice.ts:16-18 | the store starts with an empty product list |
| ProductsSlice.Reduce | src/redux/features/productsSlice.ts:20-28 | `setProducts` makes the items exactly its payload; any other action leaves the state as it was, and a missing state starts from the initial one |
| ProductsSlice.SetProductsIgnoresPrevious | src/redux/features/productsSlice.ts:24-26 | the state after `setProducts(list)` does not depend on the state before it: no merge |
| ProductsSlice.SetProductsLastWriteWins | src/redux/features/productsSlice.ts:24-26 | `setProducts(a)` then `setProducts(b)` gives the same state as `setProducts(b)` alone |
| ProductsSlice.SetProductsIdempotent | src/redux/features/productsSlice.ts:24-26 | dispatching `setProducts(a)` twice gives the same state as once |
| Search.Matches | src/components/Products.tsx:61-62 | a product matches iff the lower-cased term occurs at some index of its lower-cased title or of its lower-cased description |
| Search.Filter | src/components/Products.tsx:60-63 | the filtered list is a subsequence of the catalog, in catalog order, and no longer than it |
| Search.FilterSelectsMatches | src/components/Products.tsx:60-63 | a product is in the filtered list iff it is in the catalog and its lower-cased title or description contains the lower-cased term; matching products keep their multiplicity and the others vanish |
| Search.FilterAppend | src/components/Products.tsx:60-63 | filtering a concatenation is the concatenation of the filtered parts |
| Search.FilterSingle | src/components/Products.tsx:60-63 | a one-product list survives the filter exactly when the product matches |
| Search.FilterEmptyTerm | src/components/Products.tsx:60-63 | the empty term returns the whole catalog unchanged |
| Pagination.TotalPages | src/components/Products.tsx:66 | the page count is the least number of six-item pages holding all matches, so it is 0 exactly when nothing matches |
| Pagination.JsSlice | src/components/Products.tsx:69 | `slice` with non-negative bounds is the clipped sub-range; with both bounds negative it is no longer than their distance; with end 0 it is empty |
| Pagination.PageItems | src/components/Products.tsx:67-69 | the visible items are at most six, and for page p >= 1 they are `filtered[(p-1)*6 .. min(p*6, n))` |
| Pagination.PageOccupancy | src/components/Products.tsx:66-69 | every page from 1 to `totalPages` is non-empty, every page before the last is full, every page after the last is empty |
| Pagination.PagesUpToIsPrefix | src/components/Products.tsx:67-69 | pages 1 to k together are exactly the first k*6 matches (clipped) |
| Pagination.PagesPartition | src/components/Products.tsx:66-69 | concatenating pages 1 to `totalPages` reproduces the filtered list exactly |
| Navigation.PageNumbers | src/components/Products.tsx:123 | the page numbers are 1 to `totalPages`, in order, one per page |
| Navigation.Disabled | src/components/Products.tsx:118 | numbered buttons are never disabled; from a page in `[1, totalPages]`, "previous" (disabled on page 1) and "next" (disabled on page `totalPages`, line 135) are disabled exactly when pressing them would leave `[1, totalPages]` |
| Navigation.NumberedButtons | src/components/Products.tsx:123-131 | the buttons carry pages 1 to `totalPages` in order, and a button is highlighted iff its page is the current one |
| Navigation.ExactlyOneActive | src/components/Products.tsx:123-131 | exactly one button is highlighted when the current page is in range, none otherwise |
| Navigation.Press | src/components/Products.tsx:116-138 | a disabled control leaves the page alone; "previous" off page 1 goes back one, "next" off the last page goes forward one, a numbered button goes to its page |
| Navigation.PressStaysInRange | src/components/Products.tsx:116-138 | from any page in `[1, totalPages]`, every control the bar offers lands in `[1, totalPages]` |
| Navigation.BoundaryPressIsNoOp | src/components/Products.tsx:116-138 | "previous" on page 1 and "next" on the last page change nothing |
| ProductsView.InitialComponent | src/components/Products.tsx:31-33 | the component starts not loading, without an error, over an empty catalog |
| ProductsView.FailureMessage | src/components/Products.tsx:46 | a rejection with an `Error` keeps its message; any other rejection gives "An error occurred" |
| ProductsView.AfterFetch | src/components/Products.tsx:39-49 | in flight the component is loading; a response is stored wholesale, clears the error and ends loading; a failure records its message, keeps the store and ends loading |
| ProductsView.StartSession | src/components/Products.tsx:34-36 | the component mounts on page 1 with the empty term, whose filter is the whole catalog |
| ProductsView.Step | src/components/Products.tsx:55-74 | a new debounced term resets the page to 1; the same term changes nothing; a press on an offered control of the visible bar moves to the page that control asks for (unchanged when it is disabled); any other press changes nothing; the catalog never changes |
| ProductsView.StepKeepsPageInRange | src/components/Products.tsx:114-138 | every event keeps the current page in `[1, max(1, totalPages)]` |
| ProductsView.RunKeepsPageInRange | src/components/Products.tsx:114-138 | any sequence of events from an in-range page keeps the page in range |
| ProductsView.ErrorTruthy | src/components/Products.tsx:80 | the error branch is taken iff an error is stored and its text is non-empty, as JavaScript truthiness of a string decides |
| ProductsView.RenderPager | src/components/Products.tsx:114-143 | the bar disables "previous" on page 1 and "next" on the last page, carries the numbered buttons, and labels the page as current of total |
| ProductsView.Render | src/components/Products.tsx:76-146 | loading wins over an error and an error over the catalog; the error view reads "Error: " and the message; the empty-state view, with the texts "No products found" and "Try adjusting your search item or browse our full collection", shows iff nothing matches; the grid shows the current page's items; the bar shows iff more than six match |
| ProductsView.GridShowsOnlyMatches | src/components/Products.tsx:100-111 | every card in the grid is a catalog product that matches the term, and there are at most six |
| ProductsView.RejectedShowsError | src/components/Products.tsx:80-82 | a failure with a non-empty message shows only "Error: " and that message |
| ProductsView.EmptyErrorMessageShowsCatalog | src/components/Products.tsx:80 | an `Error` with an empty message is falsy and leaves the catalog view on screen |
| ProductsView.ResolvedShowsCatalog | src/components/Products.tsx:43-44 | once the response is stored, the catalog view is shown |
| Scenarios.LoadingScenario | src/components/__tests__/Products.test.tsx:63-70 | while the request is in flight only the loading view is shown |
| Scenarios.ErrorScenario | src/components/__tests__/Products.test.tsx:72-80 | a rejection with `Error("Failed to fetch products")` shows exactly "Error: Failed to fetch products" |
| Scenarios.DifferentSearchScenario | src/components/__tests__/Products.test.tsx:95-115 | searching "Different" over the three-product fixture keeps only "Different Item" |
| Scenarios.NoResultsScenario | src/components/__tests__/Products.test.tsx:117-136 | searching "nonexistent" matches nothing and the empty-state view shows "No products found" and "Try adjusting your search item or browse our full collection" |
| Scenarios.PaginationScenario | src/components/__tests__/Products.test.tsx:138-166 | with ten products page 1 shows products 1 to 6; pressing button 2 moves to page 2, which shows products 7 to 10 and no "Product 1" |

## Left out

- The network request (`axios.get` of the catalog URL): its outcome is the input `FetchOutcome` (in flight, resolved with a list, or rejected).
- The debouncing hook `useDebounce`: it is not part of this model. Its timer-based behaviour is replaced by the `TermSettled` event carrying the settled term.
- `window.scrollTo` on a page change: a browser side effect with no bearing on the state.
- The timing of React effects and re-renders, such as the one render in which the term has changed but the page reset has not yet applied. `Step` applies the reset together with the new term.
- The raw search-box value and its `onChange` handler: only the debounced term reaches the filter.
- Text.Lower: lower-cases ASCII letters only, because `toLowerCase` over full Unicode (including characters whose lower case has a different length) is not modelled.
- Pagination.TotalPages: integer ceiling division stands for `Math.ceil(n / 6)` on floating-point numbers, which agree for every list length a browser can hold.
- `price.toFixed(2)` formatting, the card markup and images, the styled components, routing in `App.tsx` and the test tooling configuration: presentation and tooling.
- Prices and ids are `real` and `int` rather than JavaScript numbers; the response body is taken to be a product list without validation, as the code does.
- `ProductsView.Session` keeps the catalog fixed: the fetch runs once at mount, and the bar cannot be used before the list is stored, so a catalog replaced under a page other than 1 is not modelled.
