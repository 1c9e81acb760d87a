/**
  The scenarios exercised by the component's test file, stated over the model.
 */
module Scenarios {
  import opened Wrappers
  import opened Text
  import opened ProductsSlice
  import opened Search
  import opened Pagination
  import opened Navigation
  import opened ProductsView

  /** The three-product fixture of the test file. */
  function MockProducts(): seq<Product> {
    [TestProduct1(), TestProduct2(), DifferentItem()]
  }

  function TestProduct1(): Product {
    Product(1, "Test Product 1", "test-image-1.jpg", "Test Description 1", 99.99)
  }

  function TestProduct2(): Product {
    Product(2, "Test Product 2", "test-image-2.jpg", "Test Description 2", 149.99)
  }

  function DifferentItem(): Product {
    Product(3, "Different Item", "test-image-3.jpg", "Different Description", 199.99)
  }

  function Digit(d: nat): char
    requires d < 10
  {
    "0123456789"[d]
  }

  /** The decimal numeral of `n`, as a template literal prints it. */
  function Decimal(n: nat): string
    decreases n
  {
    if n < 10 then [Digit(n)] else Decimal(n / 10) + [Digit(n % 10)]
  }

  /** Product `n` of the pagination test's fixture. */
  function NumberedProduct(n: nat): Product {
    Product(n, "Product " + Decimal(n), "image-" + Decimal(n) + ".jpg", "Description " + Decimal(n), 99.99)
  }

  /** The ten-product fixture of the pagination test: products 1 to 10, in order. */
  function ManyProducts(): (r: seq<Product>)
    ensures |r| == 10
    ensures forall i :: 0 <= i < 10 ==> r[i] == NumberedProduct(i + 1)
  {
    seq(10, i requires 0 <= i < 10 => NumberedProduct(i + 1))
  }

  /** The catalog as it stands once the request has resolved with `data`. */
  function Loaded(data: seq<Product>): Component {
    AfterFetch(AfterFetch(InitialComponent(), InFlight), Resolved(data))
  }

  /** While the request is in flight, only the loading indicator is shown. */
  lemma LoadingScenario()
    ensures Render(AfterFetch(InitialComponent(), InFlight), StartSession([])) == LoadingView
  {
  }

  /** A request rejected with `Error("Failed to fetch products")` shows exactly that message and no grid. */
  lemma ErrorScenario()
    ensures Render(AfterFetch(AfterFetch(InitialComponent(), InFlight), Rejected(ErrorInstance("Failed to fetch products"))),
                   StartSession([]))
         == ErrorView("Error: Failed to fetch products")
  {
    var c := AfterFetch(InitialComponent(), InFlight);
    var f := ErrorInstance("Failed to fetch products");
    assert FailureMessage(f) == "Failed to fetch products";
    RejectedShowsError(c, StartSession([]), f);
  }

  /** The filter over a three-product catalog, one product at a time. */
  lemma FilterOfThree(a: Product, b: Product, c: Product, term: string)
    ensures Filter([a, b, c], term)
         == (if Matches(a, term) then [a] else []) + (if Matches(b, term) then [b] else [])
          + (if Matches(c, term) then [c] else [])
  {
    assert [a, b, c] == [a] + [b] + [c];
    FilterAppend([a] + [b], [c], term);
    FilterAppend([a], [b], term);
    FilterSingle(a, term);
    FilterSingle(b, term);
    FilterSingle(c, term);
  }

  /**
    Neither field of `p` holds the lower-case letter `lower` or its upper-case
    form `upper`, so no term holding `lower` at index `k` matches `p`.
   */
  lemma ProductLacks(p: Product, term: string, k: nat, lower: char, upper: char)
    requires IsUpper(upper) && LowerChar(upper) == lower
    requires k < |term| && term[k] == lower
    requires lower !in p.title && upper !in p.title
    requires lower !in p.description && upper !in p.description
    ensures !Matches(p, term)
  {
    forall i | 0 <= i < |p.title| ensures LowerChar(p.title[i]) != LowerChar(term[k]) {
      assert p.title[i] != lower && p.title[i] != upper;
    }
    forall i | 0 <= i < |p.description| ensures LowerChar(p.description[i]) != LowerChar(term[k]) {
      assert p.description[i] != lower && p.description[i] != upper;
    }
    LowerMissingCharNotContained(p.title, term, k);
    LowerMissingCharNotContained(p.description, term, k);
  }

  // 'f' occurs in "Different" and 'x' in "nonexistent"; a fixture product
  // that lacks the letter in both cases cannot match. Each fact has a lemma
  // of its own, which keeps the literal strings out of one another's way.

  lemma TestProduct1MissesDifferent()
    ensures !Matches(TestProduct1(), "Different")
  {
    ProductLacks(TestProduct1(), "Different", 2, 'f', 'F');
  }

  lemma TestProduct2MissesDifferent()
    ensures !Matches(TestProduct2(), "Different")
  {
    ProductLacks(TestProduct2(), "Different", 2, 'f', 'F');
  }

  /** "Different Item" starts with "Different". */
  lemma DifferentItemMatchesDifferent()
    ensures Matches(DifferentItem(), "Different")
  {
  }

  lemma TestProduct1MissesNonexistent()
    ensures !Matches(TestProduct1(), "nonexistent")
  {
    ProductLacks(TestProduct1(), "nonexistent", 4, 'x', 'X');
  }

  lemma TestProduct2MissesNonexistent()
    ensures !Matches(TestProduct2(), "nonexistent")
  {
    ProductLacks(TestProduct2(), "nonexistent", 4, 'x', 'X');
  }

  lemma DifferentItemMissesNonexistent()
    ensures !Matches(DifferentItem(), "nonexistent")
  {
    ProductLacks(DifferentItem(), "nonexistent", 4, 'x', 'X');
  }

  /** Searching "Different" over the three-product fixture keeps only "Different Item". */
  lemma DifferentSearchScenario()
    ensures Filter(MockProducts(), "Different") == [DifferentItem()]
  {
    TestProduct1MissesDifferent();
    TestProduct2MissesDifferent();
    DifferentItemMatchesDifferent();
    FilterOfThree(TestProduct1(), TestProduct2(), DifferentItem(), "Different");
  }

  /** Searching "nonexistent" matches nothing, so the empty-state message is shown. */
  lemma NoResultsScenario()
    ensures Filter(MockProducts(), "nonexistent") == []
    ensures Render(Loaded(MockProducts()), Step(StartSession(MockProducts()), TermSettled("nonexistent"))).body
         == NoResults("No products found", "Try adjusting your search item or browse our full collection")
  {
    TestProduct1MissesNonexistent();
    TestProduct2MissesNonexistent();
    DifferentItemMissesNonexistent();
    FilterOfThree(TestProduct1(), TestProduct2(), DifferentItem(), "nonexistent");
  }

  /** Ten items make two pages: six on the first, four on the second. */
  lemma TenItemsPages<T>(m: seq<T>)
    requires |m| == 10
    ensures TotalPages(|m|) == 2
    ensures PageItems(m, 1) == m[..6]
    ensures PageItems(m, 2) == m[6..]
  {
  }

  /** On a fresh ten-product catalog the bar is shown and pressing button 2 moves to page 2. */
  lemma PressTwoOnTen(m: seq<Product>)
    requires |m| == 10
    ensures Step(StartSession(m), Pressed(Numbered(2))).page == 2
  {
    assert PageNumbers(2)[1] == 2;
  }

  /** Products 7 to 10 are not titled "Product 1". */
  lemma LaterTitlesDiffer(n: nat)
    requires 7 <= n <= 10
    ensures NumberedProduct(n).title != "Product 1"
  {
    var t := NumberedProduct(n).title;
    if n < 10 {
      assert t[8] == Digit(n);
    } else {
      assert |t| == 10;
    }
  }

  /**
    With ten products, page 1 shows products 1 to 6, and pressing button 2
    shows products 7 to 10 and no card titled "Product 1".
   */
  lemma PaginationScenario()
    ensures PageItems(ManyProducts(), 1) == ManyProducts()[..6]
    ensures Step(StartSession(ManyProducts()), Pressed(Numbered(2))).page == 2
    ensures PageItems(ManyProducts(), 2) == ManyProducts()[6..]
    ensures forall p :: p in PageItems(ManyProducts(), 2) ==> p.title != "Product 1"
  {
    var m := ManyProducts();
    TenItemsPages(m);
    PressTwoOnTen(m);
    forall p | p in m[6..] ensures p.title != "Product 1" {
      var k :| 6 <= k < 10 && m[k] == p;
      LaterTitlesDiffer(k + 1);
    }
  }
}
