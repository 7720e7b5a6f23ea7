/**
 * `GET /api/products?category=…`: the whole catalogue, or the products of the
 * type whose name matches the category case-insensitively.
 */
module ProductQueries {
  import opened Wrappers
  import opened Models
  import Js
  import Lists

  datatype CategoryResult =
    | Found(products: seq<Product>)   // 200
    | CategoryNotFound                // 404 "Category not found"

  /** The anchored pattern `^pattern$` with option `i`: equal up to letter case. */
  predicate NameMatches(name: string, pattern: string) {
    Js.Upper(name) == Js.Upper(pattern)
  }

  /** `types[i]` is the first type whose name matches. */
  predicate FirstMatch(types: seq<ProductType>, pattern: string, i: int) {
    && 0 <= i < |types|
    && NameMatches(types[i].name, pattern)
    && forall j :: 0 <= j < i ==> !NameMatches(types[j].name, pattern)
  }

  /** `ProductType.findOne(...)`: the first type, in listing order, whose name matches. */
  function FindType(types: seq<ProductType>, pattern: string): (r: Option<ProductType>)
    ensures r.None? <==> forall i :: 0 <= i < |types| ==> !NameMatches(types[i].name, pattern)
    ensures r.Some? ==> exists i :: FirstMatch(types, pattern, i) && types[i] == r.value
  {
    if types == [] then None
    else if NameMatches(types[0].name, pattern) then Some(types[0])
    else
      var r := FindType(types[1..], pattern);
      if r.Some? then
        var i :| FirstMatch(types[1..], pattern, i) && types[1..][i] == r.value;
        assert types[i + 1] == r.value;
        assert FirstMatch(types, pattern, i + 1) by {
          forall j | 0 <= j < i + 1 ensures !NameMatches(types[j].name, pattern) {
            if j > 0 { assert types[j] == types[1..][j - 1]; }
          }
        }
        r
      else
        assert forall i :: 1 <= i < |types| ==> types[i] == types[1..][i - 1];
        r
  }

  /** The filter `{ type: id }`. */
  function OfType(id: TypeId): Product -> bool {
    (p: Product) => p.typeId == id
  }

  function ProductsByCategory(types: seq<ProductType>, listing: seq<Product>, category: Option<string>): CategoryResult {
    if !Js.Truthy(category) then Found(listing)
    else
      match FindType(types, Js.Upper(category.value))
      case None => CategoryNotFound
      case Some(t) => Found(Lists.Keep(listing, OfType(t.id)))
  }

  /** A missing or empty category returns the whole catalogue. */
  lemma NoCategoryAll(types: seq<ProductType>, listing: seq<Product>, category: Option<string>)
    requires !Js.Truthy(category)
    ensures ProductsByCategory(types, listing, category) == Found(listing)
  {
  }

  /** Upper-casing the category first changes nothing: the match already ignores case. */
  lemma {:induction false} UppercaseRedundant(types: seq<ProductType>, category: string)
    ensures FindType(types, Js.Upper(category)) == FindType(types, category)
  {
    Js.UpperIdempotent(category);
    if types != [] {
      UppercaseRedundant(types[1..], category);
    }
  }

  /** Two categories that differ only in letter case give the same answer. */
  lemma CaseInsensitive(types: seq<ProductType>, listing: seq<Product>, a: string, b: string)
    requires Js.Upper(a) == Js.Upper(b)
    ensures ProductsByCategory(types, listing, Some(a)) == ProductsByCategory(types, listing, Some(b))
  {
    assert |a| == |Js.Upper(a)| == |b|;
  }

  /** A category is not found exactly when no type's name matches it. */
  lemma NotFoundIff(types: seq<ProductType>, listing: seq<Product>, category: string)
    requires category != ""
    ensures ProductsByCategory(types, listing, Some(category)).CategoryNotFound?
      <==> forall i :: 0 <= i < |types| ==> !NameMatches(types[i].name, category)
  {
    UppercaseRedundant(types, category);
  }

  /** `r` is the catalogue filtered to type `id`, order and multiplicity kept. */
  ghost predicate OnlyOfType(r: seq<Product>, listing: seq<Product>, id: TypeId) {
    && r == Lists.Keep(listing, OfType(id))
    && forall p :: p in r <==> p in listing && p.typeId == id
  }

  /**
   * A found category yields exactly the products of the first matching
   * type, each as often as in the catalogue and in catalogue order.
   */
  lemma FoundExactlyThatType(types: seq<ProductType>, listing: seq<Product>, category: string)
    requires ProductsByCategory(types, listing, Some(category)).Found?
    requires category != ""
    ensures exists i :: FirstMatch(types, category, i) && OnlyOfType(ProductsByCategory(types, listing, Some(category)).products, listing, types[i].id)
  {
    UppercaseRedundant(types, category);
    var t := FindType(types, category).value;
    var r := Lists.Keep(listing, OfType(t.id));
    assert forall p :: p in r <==> p in listing && OfType(t.id)(p);
    var i :| FirstMatch(types, category, i) && types[i] == t;
    assert OnlyOfType(r, listing, types[i].id);
  }
}
