/**
 * `/api/product-management` (older TypeScript handler): edit with a type check
 * that always runs, and delete. Dispatch is the same as in ProductManagement;
 * the file-upload add is not part of this model.
 */
module ProductManagementLegacy {
  import opened Wrappers
  import opened Models
  import Js
  import Store
  import PM = ProductManagement

  /** The fields editProduct reads from the body. */
  datatype EditBody = EditBody(
    id: Option<ProductId>,
    name: Option<string>,
    price: Option<int>,
    quantity: Option<int>,
    typeId: Option<TypeId>)

  /** The 404 or 400 editProduct answers with, if any: the type is looked up even when unchanged. */
  function EditCheck(products: map<ProductId, Product>, types: map<TypeId, ProductType>, b: EditBody): Option<PM.Response> {
    if b.id.None? || b.id.value !in products then Some(PM.NotFound)
    else if b.typeId.None? || b.typeId.value !in types then Some(PM.BadRequest("Invalid Product Type"))
    else None
  }

  /** The stored product after `name`, `price`, `quantity` and `type` are assigned. */
  function MergeEdit(p: Product, b: EditBody): Product {
    p.(name := Js.OrElse(b.name, p.name),
       price := Js.OrElseNum(b.price, p.price),
       quantity := Js.OrElseNum(b.quantity, p.quantity),
       typeId := Js.OrElse(b.typeId, p.typeId))
  }

  /** An edit goes through exactly for a known id together with an existing type. */
  lemma EditCheckIff(products: map<ProductId, Product>, types: map<TypeId, ProductType>, b: EditBody)
    ensures EditCheck(products, types, b).None? <==>
      b.id.Some? && b.id.value in products && b.typeId.Some? && b.typeId.value in types
    ensures EditCheck(products, types, b) == Some(PM.NotFound) <==> b.id.None? || b.id.value !in products
  {
  }

  /** Leaving the type out of the body fails the edit even when nothing else is wrong. */
  lemma OmittedTypeRejected(products: map<ProductId, Product>, types: map<TypeId, ProductType>, b: EditBody)
    requires b.id.Some? && b.id.value in products && b.typeId.None?
    ensures EditCheck(products, types, b) == Some(PM.BadRequest("Invalid Product Type"))
  {
  }

  /**
   * An accepted edit with a non-empty type id always stores that type; the
   * other fields take the new value when truthy and keep the old one
   * otherwise; image, sizes, id and creation time are untouched.
   */
  lemma MergeFields(p: Product, b: EditBody)
    requires b.typeId.Some? && b.typeId.value != ""
    ensures var q := MergeEdit(p, b);
      && q.typeId == b.typeId.value
      && q.name == (if Js.Truthy(b.name) then b.name.value else p.name)
      && q.price == (if Js.TruthyNum(b.price) then b.price.value else p.price)
      && q.quantity == (if Js.TruthyNum(b.quantity) then b.quantity.value else p.quantity)
      && q.image == p.image && q.sizes == p.sizes && q.id == p.id && q.createdAt == p.createdAt
  {
  }

  /** Both handlers merge name, price and quantity the same way, and agree on the type when both check it. */
  lemma AgreesWithCurrentMerge(p: Product, b: EditBody)
    ensures var q := MergeEdit(p, b);
      var r := PM.MergeEdit(p, PM.ProductBody(b.id, None, b.name, b.price, b.quantity, b.typeId, None, None));
      q == r
  {
  }

  /** An accepted edit keeps every product's type reference resolvable. */
  lemma EditKeepsTypesResolved(products: map<ProductId, Product>, types: map<TypeId, ProductType>, b: EditBody)
    requires PM.TypesResolved(products, types) && EditCheck(products, types, b).None?
    ensures PM.TypesResolved(products[b.id.value := MergeEdit(products[b.id.value], b)], types)
  {
  }

  method EditProduct(db: Store.Db, b: EditBody) returns (r: PM.Response)
    requires db.Valid()
    modifies db
    ensures db.Valid()
    ensures EditCheck(old(db.products), old(db.types), b).Some? ==>
      r == EditCheck(old(db.products), old(db.types), b).value && unchanged(db)
    ensures EditCheck(old(db.products), old(db.types), b).None? ==>
      && r == PM.Updated(MergeEdit(old(db.products)[b.id.value], b))
      && db.products == old(db.products)[b.id.value := r.product]
      && db.types == old(db.types) && db.orders == old(db.orders)
  {
    if b.id.None? || b.id.value !in db.products {
      return PM.NotFound;
    }
    var id := b.id.value;
    if b.typeId.None? || b.typeId.value !in db.types {
      return PM.BadRequest("Invalid Product Type");
    }
    var doc := new Store.ProductDoc.Load(db.products[id]);
    doc.name := Js.OrElse(b.name, doc.name);
    doc.price := Js.OrElseNum(b.price, doc.price);
    doc.quantity := Js.OrElseNum(b.quantity, doc.quantity);
    doc.typeId := Js.OrElse(b.typeId, doc.typeId);
    var saved := doc.Value();
    db.products := db.products[id := saved];
    return PM.Updated(saved);
  }

  method DeleteProduct(db: Store.Db, id: Option<ProductId>) returns (r: PM.Response)
    requires db.Valid()
    modifies db
    ensures db.Valid()
    ensures (id.None? || id.value !in old(db.products)) ==> r == PM.NotFound && unchanged(db)
    ensures id.Some? && id.value in old(db.products) ==>
      && r == PM.Deleted
      && db.products == old(db.products) - {id.value}
      && db.types == old(db.types) && db.orders == old(db.orders)
  {
    if id.None? || id.value !in db.products {
      return PM.NotFound;
    }
    db.products := db.products - {id.value};
    return PM.Deleted;
  }

  /** The dispatch, for every method but the file-upload POST. */
  method Handle(db: Store.Db, verb: string, b: EditBody) returns (r: PM.Response)
    requires db.Valid() && verb != "POST"
    modifies db
    ensures db.Valid()
    ensures PM.RouteOf(verb) == PM.NoRoute ==> r == PM.MethodNotAllowed && unchanged(db)
    ensures PM.RouteOf(verb) == PM.ListRoute ==> r == PM.Listing(old(db.products)) && unchanged(db)
    ensures r.Updated? ==> PM.RouteOf(verb) == PM.EditRoute
    ensures r.Deleted? ==> PM.RouteOf(verb) == PM.DeleteRoute
  {
    match PM.RouteOf(verb) {
      case AddRoute => assert false;
      case EditRoute => r := EditProduct(db, b);
      case DeleteRoute => r := DeleteProduct(db, b.id);
      case ListRoute => r := PM.Listing(db.products);
      case NoRoute => r := PM.MethodNotAllowed;
    }
  }
}
