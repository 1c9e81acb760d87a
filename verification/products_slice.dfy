/**
  The products slice of the application store: one field, `items`, holding the
  catalog exactly as the last successful fetch delivered it.
 */
module ProductsSlice {
  import opened Wrappers

  /** A catalog entry as delivered by the catalog endpoint. `price` is a JavaScript number. */
  datatype Product = Product(id: int, title: string, image: string, description: string, price: real)

  /** The slice state; `items` is its only field. */
  datatype ProductsState = ProductsState(items: seq<Product>)

  /** The actions the slice reducer can receive: its own `setProducts`, or an action of any other type. */
  datatype Action = SetProducts(payload: seq<Product>) | Unrelated

  function InitialState(): (s: ProductsState)
    ensures s.items == []
  {
    ProductsState([])
  }

  /**
    The slice reducer. A store that has no state yet starts from the initial
    state; `setProducts` replaces the stored list wholesale; any other action
    leaves the state as it was.
   */
  function Reduce(state: Option<ProductsState>, action: Action): (r: ProductsState)
    ensures action.SetProducts? ==> r.items == action.payload
    ensures action.Unrelated? && state.Some? ==> r == state.value
    ensures action.Unrelated? && state.None? ==> r.items == []
  {
    var current := if state.Some? then state.value else InitialState();
    match action
    case SetProducts(payload) => current.(items := payload)
    case Unrelated => current
  }

  /** `setProducts` does not merge: the previous items have no influence on the result. */
  lemma SetProductsIgnoresPrevious(s: Option<ProductsState>, t: Option<ProductsState>, list: seq<Product>)
    ensures Reduce(s, SetProducts(list)) == Reduce(t, SetProducts(list))
  {
  }

  /** Last write wins: a second `setProducts` erases every trace of the first. */
  lemma SetProductsLastWriteWins(s: Option<ProductsState>, a: seq<Product>, b: seq<Product>)
    ensures Reduce(Some(Reduce(s, SetProducts(a))), SetProducts(b)) == Reduce(s, SetProducts(b))
  {
  }

  /** Dispatching the same `setProducts` twice is the same as dispatching it once. */
  lemma SetProductsIdempotent(s: Option<ProductsState>, a: seq<Product>)
    ensures Reduce(Some(Reduce(s, SetProducts(a))), SetProducts(a)) == Reduce(s, SetProducts(a))
  {
  }
}
