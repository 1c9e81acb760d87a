/**
  The `Products` catalog component: the state its fetch effect leaves behind,
  the current page and its reset when the debounced search term changes, and
  the choice of what to render.

  The network request itself is not modelled; its outcome is an input.
  The debounced term is an input too: it is whatever the debouncing hook
  currently reports.
 */
module ProductsView {
  import opened Wrappers
  import opened ProductsSlice
  import opened Search
  import opened Pagination
  import opened Navigation

  /** What a failed request rejects with: an `Error` object carrying a message, or any other value. */
  datatype Failure = ErrorInstance(message: string) | NonErrorValue

  /** How far the catalog request has got. */
  datatype FetchOutcome = InFlight | Resolved(data: seq<Product>) | Rejected(reason: Failure)

  /** The component's fetch-related state together with the store slice it dispatches to. */
  datatype Component = Component(loading: bool, error: Option<string>, store: ProductsState)

  /** The state before the fetch effect has run: not loading, no error, an empty catalog. */
  function InitialComponent(): (c: Component)
    ensures !c.loading && c.error.None? && c.store.items == []
  {
    Component(false, None, InitialState())
  }

  /** The message kept for a failure: the `Error`'s own message, or a fixed fallback. */
  function FailureMessage(f: Failure): (m: string)
    ensures f.ErrorInstance? ==> m == f.message
    ensures f.NonErrorValue? ==> m == "An error occurred"
  {
    match f
    case ErrorInstance(message) => message
    case NonErrorValue => "An error occurred"
  }

  /**
    The state the fetch effect leaves once the request has reached `outcome`.
    While in flight the component is loading. A response is stored wholesale
    and clears the error; a failure records its message and leaves the store
    alone. Either way loading ends.
   */
  function AfterFetch(c: Component, outcome: FetchOutcome): (r: Component)
    ensures outcome.InFlight? ==> r.loading && r.error == c.error && r.store == c.store
    ensures outcome.Resolved? ==> !r.loading && r.error.None? && r.store.items == outcome.data
    ensures outcome.Rejected? ==> !r.loading && r.error == Some(FailureMessage(outcome.reason)) && r.store == c.store
  {
    match outcome
    case InFlight => c.(loading := true)
    case Resolved(data) => c.(loading := false, error := None, store := Reduce(Some(c.store), SetProducts(data)))
    case Rejected(reason) => c.(loading := false, error := Some(FailureMessage(reason)))
  }

  // ---------------------------------------------------------------------------
  // Search term and current page

  /** The catalog, the debounced search term, and the current page. */
  datatype Session = Session(catalog: seq<Product>, term: string, page: int)

  /** The user-visible events that move the current page. */
  datatype Event = TermSettled(term: string) | Pressed(control: Control)

  function Filtered(s: Session): seq<Product> {
    Filter(s.catalog, s.term)
  }

  function PageCount(s: Session): nat {
    TotalPages(|Filtered(s)|)
  }

  /** The pagination bar is rendered only when the matches do not fit on one page. */
  predicate PagerShown(s: Session) {
    |Filtered(s)| > ItemsPerPage
  }

  /** The current page is a real page, or page 1 when there are no matches at all. */
  ghost predicate PageInRange(s: Session) {
    1 <= s.page <= Max(1, PageCount(s))
  }

  /** A freshly mounted component shows page 1 for the empty term. */
  function StartSession(catalog: seq<Product>): (s: Session)
    ensures PageInRange(s)
    ensures s.term == "" && Filtered(s) == catalog
  {
    FilterEmptyTerm(catalog);
    Session(catalog, "", 1)
  }

  /**
    The effect of one event. A new debounced term resets the page to 1 (an
    unchanged term does not re-run the reset). A press on an offered control
    of a visible bar moves to the page it asks for, unless it is disabled.
   */
  function Step(s: Session, e: Event): (r: Session)
    ensures r.catalog == s.catalog
    ensures e.TermSettled? && e.term != s.term ==> r.term == e.term && r.page == 1
    ensures e.TermSettled? && e.term == s.term ==> r == s
    ensures e.Pressed? ==> r.term == s.term
    ensures e.Pressed? && PagerShown(s) && Offered(e.control, PageCount(s)) ==> r.page == Press(e.control, s.page, PageCount(s))
    ensures e.Pressed? && !(PagerShown(s) && Offered(e.control, PageCount(s))) ==> r == s
  {
    match e
    case TermSettled(t) => if t != s.term then s.(term := t, page := 1) else s
    case Pressed(c) =>
      if PagerShown(s) && Offered(c, PageCount(s)) then s.(page := Press(c, s.page, PageCount(s))) else s
  }

  /** Every event keeps the current page inside `[1, max(1, totalPages)]`. */
  lemma StepKeepsPageInRange(s: Session, e: Event)
    requires PageInRange(s)
    ensures PageInRange(Step(s, e))
  {
  }

  /** Any sequence of events from mount keeps the page in range. */
  lemma {:induction false} RunKeepsPageInRange(s: Session, events: seq<Event>)
    requires PageInRange(s)
    ensures PageInRange(Run(s, events))
    decreases |events|
  {
    if |events| > 0 {
      StepKeepsPageInRange(s, events[0]);
      RunKeepsPageInRange(Step(s, events[0]), events[1..]);
    }
  }

  function Run(s: Session, events: seq<Event>): Session
    decreases |events|
  {
    if |events| == 0 then s else Run(Step(s, events[0]), events[1..])
  }

  // ---------------------------------------------------------------------------
  // Rendering

  /** The pagination bar as rendered, including its "Page X of Y" label. */
  datatype Pager = Pager(previousDisabled: bool, buttons: seq<PageButton>, nextDisabled: bool, current: int, total: nat)

  /** Below the search box: the empty-state message or the grid of product cards. */
  datatype Body = NoResults(heading: string, hint: string) | Grid(cards: seq<Product>)

  datatype View = LoadingView | ErrorView(text: string) | CatalogView(body: Body, pager: Option<Pager>)

  /** The empty-state texts shown when nothing matches. */
  const NoResultsHeading: string := "No products found"
  const NoResultsHint: string := "Try adjusting your search item or browse our full collection"

  /** `if (error)`: a JavaScript string is truthy only when it is non-empty. */
  predicate ErrorTruthy(error: Option<string>)
    ensures error.None? ==> !ErrorTruthy(error)
    ensures error.Some? ==> (ErrorTruthy(error) <==> |error.value| > 0)
  {
    error.Some? && error.value != ""
  }

  function RenderPager(page: int, total: nat): (p: Pager)
    ensures p.previousDisabled <==> Disabled(Previous, page, total)
    ensures p.nextDisabled <==> Disabled(Next, page, total)
    ensures p.buttons == NumberedButtons(page, total)
    ensures p.current == page && p.total == total
  {
    Pager(page == 1, NumberedButtons(page, total), page == total, page, total)
  }

  /**
    What the component renders. Loading takes priority over an error, and an
    error over the catalog. The catalog shows the empty-state message exactly
    when nothing matches, otherwise the current page's cards; the pagination
    bar appears exactly when the matches exceed one page.
   */
  function Render(c: Component, s: Session): (v: View)
    requires s.catalog == c.store.items
    ensures c.loading ==> v == LoadingView
    ensures !c.loading && ErrorTruthy(c.error) ==> v == ErrorView("Error: " + c.error.value)
    ensures !c.loading && !ErrorTruthy(c.error) ==> v.CatalogView?
    ensures v.CatalogView? ==> (v.body.NoResults? <==> |Filtered(s)| == 0)
    ensures v.CatalogView? && v.body.NoResults? ==> v.body == NoResults(NoResultsHeading, NoResultsHint)
    ensures v.CatalogView? && v.body.Grid? ==> v.body.cards == PageItems(Filtered(s), s.page)
    ensures v.CatalogView? ==> (v.pager.Some? <==> |Filtered(s)| > ItemsPerPage)
    ensures v.CatalogView? && v.pager.Some? ==> v.pager.value == RenderPager(s.page, PageCount(s))
  {
    if c.loading then
      LoadingView
    else if ErrorTruthy(c.error) then
      ErrorView("Error: " + c.error.value)
    else
      var filtered := Filtered(s);
      var body :=
        if |filtered| == 0 then
          NoResults(NoResultsHeading, NoResultsHint)
        else
          Grid(PageItems(filtered, s.page));
      var pager := if PagerShown(s) then Some(RenderPager(s.page, PageCount(s))) else None;
      CatalogView(body, pager)
  }

  /** Every card on screen is a catalog product that matches the term, and no more than a page's worth are shown. */
  lemma GridShowsOnlyMatches(c: Component, s: Session)
    requires s.catalog == c.store.items
    requires Render(c, s).CatalogView? && Render(c, s).body.Grid?
    ensures |Render(c, s).body.cards| <= ItemsPerPage
    ensures forall p :: p in Render(c, s).body.cards ==> p in s.catalog && Matches(p, s.term)
  {
    var cards := Render(c, s).body.cards;
    var filtered := Filtered(s);
    FilterSelectsMatches(s.catalog, s.term);
    if s.page >= 1 {
      forall p | p in cards ensures p in filtered {
        var k :| 0 <= k < |cards| && cards[k] == p;
        assert p == filtered[Min(StartIndex(s.page), |filtered|) + k];
      }
    } else {
      forall p | p in cards ensures p in filtered {
        var k :| 0 <= k < |cards| && cards[k] == p;
        var from := RelativeIndex(StartIndex(s.page), |filtered|);
        assert p == filtered[from + k];
      }
    }
  }

  /** A failed request that leaves a non-empty message shows only that message, prefixed by "Error: ". */
  lemma RejectedShowsError(c: Component, s: Session, f: Failure)
    requires s.catalog == c.store.items
    requires FailureMessage(f) != ""
    ensures Render(AfterFetch(c, Rejected(f)), s) == ErrorView("Error: " + FailureMessage(f))
  {
  }

  /**
    `if (error)` treats an empty message as no error: an `Error` whose message
    is empty leaves the catalog view on screen.
   */
  lemma EmptyErrorMessageShowsCatalog(c: Component, s: Session)
    requires s.catalog == c.store.items
    ensures Render(AfterFetch(c, Rejected(ErrorInstance(""))), s).CatalogView?
  {
  }

  /** Once the response has arrived, the stored list is the one the search runs over, and no error is shown. */
  lemma ResolvedShowsCatalog(c: Component, data: seq<Product>, term: string, page: int)
    ensures Render(AfterFetch(c, Resolved(data)), Session(data, term, page)).CatalogView?
  {
  }
}
