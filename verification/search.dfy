/**
  The search filter of the catalog view: a product is kept when its lower-cased
  title or lower-cased description contains the lower-cased debounced term.
 */
module Search {
  import opened Text
  import opened ProductsSlice

  /** The filter's test: the term occurs, ignoring case, somewhere in the title or the description. */
  predicate Matches(p: Product, term: string)
    ensures Matches(p, term) <==>
      (exists i :: OccursAt(Lower(p.title), Lower(term), i)) || (exists i :: OccursAt(Lower(p.description), Lower(term), i))
  {
    Contains(Lower(p.title), Lower(term)) || Contains(Lower(p.description), Lower(term))
  }

  /** `a` can be obtained from `b` by deleting elements, keeping the order of the rest. */
  ghost predicate IsSubsequence<T>(a: seq<T>, b: seq<T>)
    decreases |b|
  {
    if |a| == 0 then true
    else if |b| == 0 then false
    else (a[0] == b[0] && IsSubsequence(a[1..], b[1..])) || IsSubsequence(a, b[1..])
  }

  /**
    `products.filter(...)`: a stable filter. The result keeps catalog order
    and is never longer than the catalog; `FilterSelectsMatches` says which
    products it keeps.
   */
  function Filter(catalog: seq<Product>, term: string): (r: seq<Product>)
    ensures |r| <= |catalog|
    ensures IsSubsequence(r, catalog)
  {
    if |catalog| == 0 then
      []
    else
      var rest := Filter(catalog[1..], term);
      if Matches(catalog[0], term) then
        assert ([catalog[0]] + rest)[1..] == rest;
        [catalog[0]] + rest
      else
        rest
  }

  /**
    The filter keeps every product that matches the term and nothing else,
    each as many times as the catalog holds it.
   */
  lemma {:induction false} FilterSelectsMatches(catalog: seq<Product>, term: string)
    ensures forall p :: multiset(Filter(catalog, term))[p] == if Matches(p, term) then multiset(catalog)[p] else 0
    ensures forall p :: p in Filter(catalog, term) <==> p in catalog && Matches(p, term)
  {
    if |catalog| > 0 {
      FilterSelectsMatches(catalog[1..], term);
      assert catalog == [catalog[0]] + catalog[1..];
    }
  }

  /** Filtering distributes over concatenation: each part is filtered on its own, in place. */
  lemma {:induction false} FilterAppend(a: seq<Product>, b: seq<Product>, term: string)
    ensures Filter(a + b, term) == Filter(a, term) + Filter(b, term)
  {
    if |a| > 0 {
      FilterAppend(a[1..], b, term);
      var head := if Matches(a[0], term) then [a[0]] else [];
      assert (a + b)[0] == a[0];
      assert (a + b)[1..] == a[1..] + b;
      assert Filter(a + b, term) == head + Filter(a[1..] + b, term);
      assert Filter(a, term) == head + Filter(a[1..], term);
    } else {
      assert a + b == b;
    }
  }

  /** A single product survives the filter exactly when it matches. */
  lemma FilterSingle(p: Product, term: string)
    ensures Filter([p], term) == if Matches(p, term) then [p] else []
  {
  }

  /** An empty term matches every product, so the filter returns the whole catalog unchanged. */
  lemma {:induction false} FilterEmptyTerm(catalog: seq<Product>)
    ensures Filter(catalog, "") == catalog
  {
    if |catalog| > 0 {
      ContainsEmpty(Lower(catalog[0].title));
      assert Lower("") == "";
      FilterEmptyTerm(catalog[1..]);
      assert catalog == [catalog[0]] + catalog[1..];
    }
  }
}
