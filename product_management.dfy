/**
 * `/api/product-management` (JavaScript handler): add, edit, delete and list
 * catalogue products, dispatched on the HTTP method.
 */
module ProductManagement {
  import opened Wrappers
  import opened Models
  import Js
  import Store

  /** The fields of the parsed JSON body; a field the body lacks is None. */
  datatype ProductBody = ProductBody(
    docId: Option<ProductId>,   // `_id`, read by edit
    id: Option<ProductId>,      // `id`, read by delete
    name: Option<string>,
    price: Option<int>,
    quantity: Option<int>,
    typeId: Option<TypeId>,     // `type`
    image: Option<string>,
    sizes: Option<seq<string>>)

  datatype Response =
    | Created(product: Product)                      // 201
    | Updated(product: Product)                      // 200
    | Deleted                                        // 200 "Product deleted"
    | Listing(products: map<ProductId, Product>)     // 200, GET
    | BadRequest(message: string)                    // 400
    | NotFound                                       // 404 "Product not found"
    | MethodNotAllowed                               // 405

  datatype Route = AddRoute | EditRoute | DeleteRoute | ListRoute | NoRoute

  /** The `switch (req.method)` dispatch. */
  function RouteOf(verb: string): (r: Route)
    ensures r == NoRoute <==> verb !in {"POST", "PUT", "DELETE", "GET"}
    ensures r == AddRoute <==> verb == "POST"
    ensures r == EditRoute <==> verb == "PUT"
    ensures r == DeleteRoute <==> verb == "DELETE"
  {
    match verb
    case "POST" => AddRoute
    case "PUT" => EditRoute
    case "DELETE" => DeleteRoute
    case "GET" => ListRoute
    case _ => NoRoute
  }

  // ---------------------------------------------------------------- add

  /** `name`, `price`, `quantity`, `type`, `image` and `sizes` all truthy (any array is). */
  predicate AllFieldsPresent(b: ProductBody) {
    && Js.Truthy(b.name) && Js.TruthyNum(b.price) && Js.TruthyNum(b.quantity)
    && Js.Truthy(b.typeId) && Js.Truthy(b.image) && b.sizes.Some?
  }

  /**
   * What `[^\s$.?#].[^\s]*$` accepts after the scheme: a first character that
   * is neither space nor one of `$ . ? #`, a second that is not a line
   * terminator, and no space after that.
   */
  predicate AfterScheme(t: string) {
    && |t| >= 2
    && !Js.IsSpace(t[0]) && t[0] !in "$.?#"
    && !Js.IsLineTerminator(t[1])
    && forall i :: 2 <= i < |t| ==> !Js.IsSpace(t[i])
  }

  /** The image URL pattern `^(https?:\/\/[^\s$.?#].[^\s]*)$`. */
  predicate IsImageUrl(s: string) {
    || (|s| >= 7 && s[..7] == "http://" && AfterScheme(s[7..]))
    || (|s| >= 8 && s[..8] == "https://" && AfterScheme(s[8..]))
  }

  /** The 400 message addProduct answers with, if any. */
  function AddCheck(b: ProductBody): Option<string> {
    if !AllFieldsPresent(b) then Some("All fields are required")
    else if !IsImageUrl(b.image.value) then Some("Invalid image URL")
    else None
  }

  /** The product addProduct stores, under a fresh id and creation time. */
  function NewProduct(b: ProductBody, id: ProductId, now: int): Product
    requires AllFieldsPresent(b)
  {
    Product(id, b.name.value, b.price.value, b.quantity.value, b.typeId.value, b.image.value, b.sizes, now)
  }

  /** A body passes exactly when every field is truthy and the image is an http(s) URL. */
  lemma AddCheckIff(b: ProductBody)
    ensures AddCheck(b).None? <==> AllFieldsPresent(b) && IsImageUrl(b.image.value)
    ensures AddCheck(b) == Some("All fields are required") <==> !AllFieldsPresent(b)
  {
  }

  /** A price or quantity of 0 is falsy, so such a product cannot be added. */
  lemma AddRejectsZero(b: ProductBody)
    requires b.price == Some(0) || b.quantity == Some(0)
    ensures AddCheck(b) == Some("All fields are required")
  {
  }

  /**
   * Whitespace can appear in an accepted URL only as the second character
   * after the scheme, and an accepted URL has at least nine characters.
   */
  lemma ImageUrlShape(s: string)
    requires IsImageUrl(s)
    ensures |s| >= 9 && s[..4] == "http"
    ensures forall i :: 0 <= i < |s| && Js.IsSpace(s[i]) ==> i == 8 || i == 9
  {
    if |s| >= 7 && s[..7] == "http://" && AfterScheme(s[7..]) {
      assert s[..4] == s[..7][..4];
      forall i | 0 <= i < |s| && i != 8 ensures !Js.IsSpace(s[i]) {
        if i < 7 { assert s[i] == s[..7][i]; }
        else { assert s[i] == s[7..][i - 7]; }
      }
    } else {
      assert s[..4] == s[..8][..4];
      forall i | 0 <= i < |s| && i != 9 ensures !Js.IsSpace(s[i]) {
        if i < 8 { assert s[i] == s[..8][i]; }
        else { assert s[i] == s[8..][i - 8]; }
      }
    }
  }

  /** Any `https://` host of two or more non-space characters not starting with `$ . ? #` is accepted. */
  lemma HttpsHostAccepted(host: string)
    requires |host| >= 2 && host[0] !in "$.?#"
    requires forall i :: 0 <= i < |host| ==> !Js.IsSpace(host[i])
    ensures IsImageUrl("https://" + host)
  {
    var s := "https://" + host;
    assert s[..8] == "https://" && s[8..] == host;
  }

  /** Upload paths, hosts starting with `.` and one-character hosts are refused; a space after the first host character is not. */
  lemma ImageUrlExamples()
    ensures !IsImageUrl("/uploads/1700000000000.png")
    ensures !IsImageUrl("http://.example.com/a.png")
    ensures !IsImageUrl("http://a")
    ensures IsImageUrl("http://a b")
  {
    UploadPathRefused();
    DotHostRefused();
    ShortHostRefused();
    SpaceAfterHostAccepted();
  }

  lemma ShortHostRefused()
    ensures !IsImageUrl("http://a")
  {
    var u := "http://a";
    assert |u[7..]| == 1;
    assert u[..8][4] == ':';
  }

  lemma SpaceAfterHostAccepted()
    ensures IsImageUrl("http://a b")
  {
    var t := "a b";
    assert AfterScheme(t) by {
      assert !Js.IsSpace(t[0]) && t[0] !in "$.?#";
      assert !Js.IsLineTerminator(t[1]);
      assert forall i :: 2 <= i < |t| ==> t[i] == 'b';
    }
    assert "http://a b"[..7] == "http://" && "http://a b"[7..] == t;
  }

  lemma UploadPathRefused()
    ensures !IsImageUrl("/uploads/1700000000000.png")
  {
    assert "/uploads/1700000000000.png"[..7][0] == '/';
    assert "/uploads/1700000000000.png"[..8][0] == '/';
  }

  lemma DotHostRefused()
    ensures !IsImageUrl("http://.example.com/a.png")
  {
    var u := "http://.example.com/a.png";
    assert u[..7] == "http://" && u[7..][0] == '.';
    assert u[..8][7] == '.';
  }

  method AddProduct(db: Store.Db, b: ProductBody, newId: ProductId, now: int) returns (r: Response)
    requires db.Valid() && newId !in db.products
    modifies db
    ensures db.Valid()
    ensures AddCheck(b).Some? ==> r == BadRequest(AddCheck(b).value) && unchanged(db)
    ensures AddCheck(b).None? ==>
      && r == Created(NewProduct(b, newId, now))
      && db.products == old(db.products)[newId := r.product]
      && db.types == old(db.types) && db.orders == old(db.orders)
  {
    if !AllFieldsPresent(b) {
      return BadRequest("All fields are required");
    }
    if !IsImageUrl(b.image.value) {
      return BadRequest("Invalid image URL");
    }
    var p := NewProduct(b, newId, now);
    db.products := db.products[newId := p];
    return Created(p);
  }

  // ---------------------------------------------------------------- edit

  /** The 400 or 404 editProduct answers with, if any. */
  function EditCheck(products: map<ProductId, Product>, types: map<TypeId, ProductType>, b: ProductBody): Option<Response> {
    if !Js.Truthy(b.docId) then Some(BadRequest("Product ID is required"))
    else if b.docId.value !in products then Some(NotFound)
    else if Js.Truthy(b.typeId) && b.typeId.value !in types then Some(BadRequest("Invalid Product Type"))
    else None
  }

  /** The stored product after editProduct assigns the body's fields to it. */
  function MergeEdit(p: Product, b: ProductBody): Product {
    p.(name := Js.OrElse(b.name, p.name),
       price := Js.OrElseNum(b.price, p.price),
       quantity := Js.OrElseNum(b.quantity, p.quantity),
       typeId := Js.OrElse(b.typeId, p.typeId),
       image := if Js.Truthy(b.image) && b.image.value != p.image then b.image.value else p.image,
       sizes := if b.sizes.Some? then b.sizes else p.sizes)
  }

  /** An edit goes through exactly for a known `_id` whose supplied type, if any, exists. */
  lemma EditCheckIff(products: map<ProductId, Product>, types: map<TypeId, ProductType>, b: ProductBody)
    ensures EditCheck(products, types, b).None? <==>
      Js.Truthy(b.docId) && b.docId.value in products && (Js.Truthy(b.typeId) ==> b.typeId.value in types)
    ensures EditCheck(products, types, b) == Some(NotFound) <==> Js.Truthy(b.docId) && b.docId.value !in products
  {
  }

  /** Each field takes the new value when truthy and keeps the old one otherwise; the image guard adds nothing. */
  lemma MergeFields(p: Product, b: ProductBody)
    ensures var q := MergeEdit(p, b);
      && q.name == (if Js.Truthy(b.name) then b.name.value else p.name)
      && q.price == (if Js.TruthyNum(b.price) then b.price.value else p.price)
      && q.quantity == (if Js.TruthyNum(b.quantity) then b.quantity.value else p.quantity)
      && q.typeId == (if Js.Truthy(b.typeId) then b.typeId.value else p.typeId)
      && q.image == (if Js.Truthy(b.image) then b.image.value else p.image)
      && q.id == p.id && q.createdAt == p.createdAt
  {
  }

  /** Edit never sets the price or quantity to 0 unless it already was. */
  lemma EditNeverZeroes(p: Product, b: ProductBody)
    ensures p.quantity != 0 ==> MergeEdit(p, b).quantity != 0
    ensures p.price != 0 ==> MergeEdit(p, b).price != 0
  {
  }

  /** Repeating an edit changes nothing more, and an empty body changes nothing. */
  lemma MergeIdempotent(p: Product, b: ProductBody)
    ensures MergeEdit(MergeEdit(p, b), b) == MergeEdit(p, b)
    ensures b.name.None? && b.price.None? && b.quantity.None? && b.typeId.None? && b.image.None? && b.sizes.None?
      ==> MergeEdit(p, b) == p
  {
  }

  /** Every product refers to an existing type. */
  ghost predicate TypesResolved(products: map<ProductId, Product>, types: map<TypeId, ProductType>) {
    forall k :: k in products ==> products[k].typeId in types
  }

  /** An accepted edit keeps every product's type reference resolvable. */
  lemma EditKeepsTypesResolved(products: map<ProductId, Product>, types: map<TypeId, ProductType>, b: ProductBody)
    requires TypesResolved(products, types) && EditCheck(products, types, b).None?
    ensures TypesResolved(products[b.docId.value := MergeEdit(products[b.docId.value], b)], types)
  {
  }

  /** Add does not look the type up, so it can store a dangling type reference. */
  lemma AddMayDangle()
    ensures var b := ProductBody(None, None, Some("Shirt"), Some(1500), Some(3), Some("t9"), Some("https://cdn"), Some([]));
      && AddCheck(b).None? && !TypesResolved(map["p1" := NewProduct(b, "p1", 0)], map[])
  {
    var b := ProductBody(None, None, Some("Shirt"), Some(1500), Some(3), Some("t9"), Some("https://cdn"), Some([]));
    HttpsHostAccepted("cdn");
    assert "https://" + "cdn" == "https://cdn";
    var products := map["p1" := NewProduct(b, "p1", 0)];
    var none: map<TypeId, ProductType> := map[];
    assert "p1" in products && products["p1"].typeId !in none;
  }

  method EditProduct(db: Store.Db, b: ProductBody) returns (r: Response)
    requires db.Valid()
    modifies db
    ensures db.Valid()
    ensures EditCheck(old(db.products), old(db.types), b).Some? ==>
      r == EditCheck(old(db.products), old(db.types), b).value && unchanged(db)
    ensures EditCheck(old(db.products), old(db.types), b).None? ==>
      && r == Updated(MergeEdit(old(db.products)[b.docId.value], b))
      && db.products == old(db.products)[b.docId.value := r.product]
      && db.types == old(db.types) && db.orders == old(db.orders)
  {
    if !Js.Truthy(b.docId) {
      return BadRequest("Product ID is required");
    }
    var id := b.docId.value;
    if id !in db.products {
      return NotFound;
    }
    if Js.Truthy(b.typeId) && b.typeId.value !in db.types {
      return BadRequest("Invalid Product Type");
    }
    var saved := ApplyEdit(db.products[id], b);
    db.products := db.products[id := saved];
    return Updated(saved);
  }

  /** The loaded document, its fields assigned one by one as the body provides them. */
  method ApplyEdit(current: Product, b: ProductBody) returns (saved: Product)
    ensures saved == MergeEdit(current, b)
  {
    var doc := new Store.ProductDoc.Load(current);
    doc.name := Js.OrElse(b.name, doc.name);
    doc.price := Js.OrElseNum(b.price, doc.price);
    doc.quantity := Js.OrElseNum(b.quantity, doc.quantity);
    doc.typeId := Js.OrElse(b.typeId, doc.typeId);
    if Js.Truthy(b.image) && b.image.value != doc.image {
      doc.image := b.image.value;
    }
    if b.sizes.Some? {
      doc.sizes := b.sizes;
    }
    saved := doc.Value();
  }

  // ---------------------------------------------------------------- delete

  method DeleteProduct(db: Store.Db, b: ProductBody) returns (r: Response)
    requires db.Valid()
    modifies db
    ensures db.Valid()
    ensures !Js.Truthy(b.id) ==> r == BadRequest("Product ID is required") && unchanged(db)
    ensures Js.Truthy(b.id) && b.id.value !in old(db.products) ==> r == NotFound && unchanged(db)
    ensures Js.Truthy(b.id) && b.id.value in old(db.products) ==>
      && r == Deleted
      && db.products == old(db.products) - {b.id.value}
      && db.types == old(db.types) && db.orders == old(db.orders)
  {
    if !Js.Truthy(b.id) {
      return BadRequest("Product ID is required");
    }
    var id := b.id.value;
    if id !in db.products {
      return NotFound;
    }
    db.products := db.products - {id};
    return Deleted;
  }

  // ---------------------------------------------------------------- dispatch

  method Handle(db: Store.Db, verb: string, b: ProductBody, newId: ProductId, now: int) returns (r: Response)
    requires db.Valid() && newId !in db.products
    modifies db
    ensures db.Valid()
    ensures RouteOf(verb) == NoRoute ==> r == MethodNotAllowed && unchanged(db)
    ensures RouteOf(verb) == ListRoute ==> r == Listing(old(db.products)) && unchanged(db)
    ensures r.Created? ==> RouteOf(verb) == AddRoute
    ensures r.Updated? ==> RouteOf(verb) == EditRoute
    ensures r.Deleted? ==> RouteOf(verb) == DeleteRoute
  {
    match RouteOf(verb) {
      case AddRoute => r := AddProduct(db, b, newId, now);
      case EditRoute => r := EditProduct(db, b);
      case DeleteRoute => r := DeleteProduct(db, b);
      case ListRoute => r := Listing(db.products);
      case NoRoute => r := MethodNotAllowed;
    }
  }
}
