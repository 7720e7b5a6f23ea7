/** `GET /api/last-products`: the six newest products of the catalogue. */
module LastProducts {
  import opened Models
  import Sorting

  const Limit := 6

  /** The sort key `createdAt`. */
  function CreatedAt(): Product -> int {
    (p: Product) => p.createdAt
  }

  /** `Product.find().sort({ createdAt: -1 }).limit(6)` over the stored listing. */
  function LastProducts(listing: seq<Product>): seq<Product> {
    var sorted := Sorting.SortNewestFirst(listing, CreatedAt());
    sorted[..if |sorted| < Limit then |sorted| else Limit]
  }

  /**
   * At most six products come back, exactly six when there are that many,
   * newest first; every one is from the catalogue and no product left out
   * is newer than any product returned.
   */
  lemma LastProductsSpec(listing: seq<Product>)
    ensures var r := LastProducts(listing);
      && |r| <= Limit
      && |r| == (if |listing| < Limit then |listing| else Limit)
      && Sorting.NewestFirst(r, CreatedAt())
      && multiset(r) <= multiset(listing)
      && forall x, y :: x in multiset(listing) - multiset(r) && y in r ==> x.createdAt <= y.createdAt
  {
    var sorted := Sorting.SortNewestFirst(listing, CreatedAt());
    var n := if |sorted| < Limit then |sorted| else Limit;
    var r := sorted[..n];
    assert |sorted| == |listing| by {
      assert |sorted| == |multiset(sorted)| == |multiset(listing)| == |listing|;
    }
    Sorting.PrefixIsNewest(sorted, CreatedAt(), n);
    Sorting.SuffixIsRest(sorted, n);
    forall x, y | x in multiset(listing) - multiset(r) && y in r
      ensures x.createdAt <= y.createdAt
    {
      assert CreatedAt()(x) <= CreatedAt()(y);
    }
  }

  /** A catalogue of six or fewer products comes back whole, reordered. */
  lemma SmallCatalogueWhole(listing: seq<Product>)
    requires |listing| <= Limit
    ensures multiset(LastProducts(listing)) == multiset(listing)
  {
    var sorted := Sorting.SortNewestFirst(listing, CreatedAt());
    assert |sorted| == |multiset(sorted)| == |listing|;
    assert sorted[..|sorted|] == sorted;
  }
}
