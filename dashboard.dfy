/**
 * The admin dashboard (`pages/admin/dashboard/index.jsx`): its local product,
 * type and order lists, and the rules by which each handler updates them once
 * the server has answered. The server's answer is a parameter of each handler.
 */
module Dashboard {
  import opened Wrappers
  import opened Models
  import Js
  import Lists

  // ---------------------------------------------------------------- sizes

  /** `s.split(sep)`: the pieces between separators, empty ones included. */
  function Split(s: string, sep: char): (r: seq<string>)
    ensures |r| >= 1
    ensures forall i :: 0 <= i < |r| ==> sep !in r[i]
  {
    if s == [] then [""]
    else
      var rest := Split(s[1..], sep);
      if s[0] == sep then [""] + rest
      else [[s[0]] + rest[0]] + rest[1..]
  }

  /** `xs.join(sep)` */
  function Join(xs: seq<string>, sep: char): string
    requires |xs| >= 1
  {
    if |xs| == 1 then xs[0] else xs[0] + [sep] + Join(xs[1..], sep)
  }

  lemma JoinConsHead(c: char, xs: seq<string>, sep: char)
    requires |xs| >= 1
    ensures Join([[c] + xs[0]] + xs[1..], sep) == [c] + Join(xs, sep)
  {
    var ys := [[c] + xs[0]] + xs[1..];
    if |xs| > 1 {
      assert ys[1..] == xs[1..];
    }
  }

  /** Joining the pieces back gives the original string. */
  lemma {:induction false} JoinSplit(s: string, sep: char)
    ensures Join(Split(s, sep), sep) == s
  {
    if s != [] {
      var rest := Split(s[1..], sep);
      JoinSplit(s[1..], sep);
      if s[0] == sep {
        assert ([""] + rest)[1..] == rest;
      } else {
        JoinConsHead(s[0], rest, sep);
      }
      assert s == [s[0]] + s[1..];
    }
  }

  /** A separator-free prefix sticks to the first piece. */
  lemma {:induction false} SplitPrefix(a: string, t: string, sep: char)
    requires sep !in a
    ensures Split(a + t, sep) == [a + Split(t, sep)[0]] + Split(t, sep)[1..]
  {
    var st := Split(t, sep);
    if a != [] {
      SplitPrefix(a[1..], t, sep);
      var rest := Split(a[1..] + t, sep);
      assert a + t == [a[0]] + (a[1..] + t);
      SplitCons(a[0], a[1..] + t, sep);
      assert rest[0] == a[1..] + st[0] && rest[1..] == st[1..];
      assert [a[0]] + (a[1..] + st[0]) == a + st[0];
    } else {
      assert a + t == t && a + st[0] == st[0];
      assert st == [st[0]] + st[1..];
    }
  }

  /** A character other than the separator joins the first piece. */
  lemma SplitCons(c: char, s: string, sep: char)
    requires c != sep
    ensures Split([c] + s, sep) == [[c] + Split(s, sep)[0]] + Split(s, sep)[1..]
  {
    assert ([c] + s)[0] == c && ([c] + s)[1..] == s;
  }

  /** Splitting joined separator-free pieces gives the pieces back. */
  lemma {:induction false} SplitJoin(xs: seq<string>, sep: char)
    requires |xs| >= 1
    requires forall i :: 0 <= i < |xs| ==> sep !in xs[i]
    ensures Split(Join(xs, sep), sep) == xs
  {
    if |xs| == 1 {
      SplitPrefix(xs[0], [], sep);
      assert xs[0] + [] == xs[0];
    } else {
      var j := Join(xs[1..], sep);
      SplitJoin(xs[1..], sep);
      SplitPrefix(xs[0], [sep] + j, sep);
      assert xs[0] + [sep] + j == xs[0] + ([sep] + j);
      var sj := Split([sep] + j, sep);
      assert sj == [""] + Split(j, sep) by {
        assert ([sep] + j)[1..] == j;
      }
      assert sj[0] == "" && sj[1..] == xs[1..];
      assert xs[0] + sj[0] == xs[0];
      assert xs == [xs[0]] + xs[1..];
    }
  }

  function TrimEach(xs: seq<string>): (r: seq<string>)
    ensures |r| == |xs|
    ensures forall i :: 0 <= i < |xs| ==> r[i] == Js.Trim(xs[i])
  {
    seq(|xs|, i requires 0 <= i < |xs| => Js.Trim(xs[i]))
  }

  function NonEmpty(): string -> bool {
    (s: string) => s != ""
  }

  /** The form's sizes: the text typed in, or a list already. */
  datatype SizesField = SizesText(text: string) | SizesList(list: seq<string>)

  /** `split(",").map(s => s.trim()).filter(s => s)`, or the list as it is. */
  function ParseSizes(f: SizesField): seq<string> {
    match f
    case SizesText(text) => Lists.Keep(TrimEach(Split(text, ',')), NonEmpty())
    case SizesList(list) => list
  }

  /** A comma-free, trimmed, non-empty size: what the parser produces. */
  predicate CleanSize(x: string) {
    x != "" && Js.IsTrimmed(x) && ',' !in x
  }

  /**
   * Every parsed size is clean and is the trimmed text of one piece between
   * commas; every piece whose trimmed text is non-empty is among them.
   */
  lemma ParseSizesSpec(text: string)
    ensures forall x :: x in ParseSizes(SizesText(text)) ==> CleanSize(x)
    ensures forall x :: x in ParseSizes(SizesText(text)) ==> exists piece :: piece in Split(text, ',') && Js.Trim(piece) == x
    ensures forall piece :: piece in Split(text, ',') && Js.Trim(piece) != "" ==> Js.Trim(piece) in ParseSizes(SizesText(text))
  {
    var pieces := Split(text, ',');
    forall x | x in ParseSizes(SizesText(text))
      ensures CleanSize(x) && exists piece :: piece in pieces && Js.Trim(piece) == x
    {
      var i := ParsedSizeOrigin(pieces, x);
      assert pieces[i] in pieces;
    }
    forall piece | piece in pieces && Js.Trim(piece) != "" ensures Js.Trim(piece) in ParseSizes(SizesText(text)) {
      KeptPiece(pieces, piece);
    }
  }

  lemma ParsedSizeOrigin(pieces: seq<string>, x: string) returns (i: nat)
    requires forall k :: 0 <= k < |pieces| ==> ',' !in pieces[k]
    requires x in Lists.Keep(TrimEach(pieces), NonEmpty())
    ensures i < |pieces| && Js.Trim(pieces[i]) == x && CleanSize(x)
  {
    i := PositionIn(TrimEach(pieces), x);
    TrimmedPieceClean(pieces[i]);
  }

  lemma PositionIn(s: seq<string>, x: string) returns (i: nat)
    requires x in s
    ensures i < |s| && s[i] == x
  {
    i :| 0 <= i < |s| && s[i] == x;
  }

  /** The trimmed text of a comma-free piece, when not empty, is a clean size. */
  lemma TrimmedPieceClean(piece: string)
    requires ',' !in piece && Js.Trim(piece) != ""
    ensures CleanSize(Js.Trim(piece))
  {
    Js.TrimSpec(piece);
    var _, _ := Js.TrimWithin(piece);
  }

  lemma KeptPiece(pieces: seq<string>, piece: string)
    requires piece in pieces && Js.Trim(piece) != ""
    ensures Js.Trim(piece) in Lists.Keep(TrimEach(pieces), NonEmpty())
  {
    var trimmed := TrimEach(pieces);
    var i :| 0 <= i < |pieces| && pieces[i] == piece;
    assert trimmed[i] == Js.Trim(piece) && trimmed[i] in trimmed;
    assert NonEmpty()(trimmed[i]);
  }

  /** Typing clean sizes separated by commas gives back exactly those sizes. */
  lemma ParseSizesRoundTrip(xs: seq<string>)
    requires |xs| >= 1 && forall i :: 0 <= i < |xs| ==> CleanSize(xs[i])
    ensures ParseSizes(SizesText(Join(xs, ','))) == xs
  {
    SplitJoin(xs, ',');
    forall i | 0 <= i < |xs| ensures Js.Trim(xs[i]) == xs[i] {
      Js.TrimSpec(xs[i]);
    }
    assert TrimEach(xs) == xs;
    Lists.KeepAll(xs, NonEmpty());
  }

  // ---------------------------------------------------------------- the form

  /**
   * The add-product form. Price and quantity hold what `Number(...)` stored
   * from their inputs, None while they still hold the initial `""`; the
   * other inputs hold text.
   */
  datatype ProductForm = ProductForm(
    name: string, price: Option<int>, quantity: Option<int>, typeId: string, image: string, sizes: SizesField)

  /** The six fields are truthy: non-empty text, non-zero numbers (a list of sizes is always truthy). */
  predicate FormFilled(f: ProductForm) {
    && f.name != "" && Js.TruthyNum(f.price) && Js.TruthyNum(f.quantity) && f.typeId != "" && f.image != ""
    && (f.sizes.SizesText? ==> f.sizes.text != "")
  }

  /** A price or quantity of 0, or one never typed, leaves the form unfilled. */
  lemma ZeroNumberRefused(f: ProductForm)
    requires f.price == Some(0) || f.quantity == Some(0) || f.price.None? || f.quantity.None?
    ensures !FormFilled(f)
  {
  }

  /** A number the user typed fills its field exactly when it is not 0. */
  lemma NumberFieldFilled(f: ProductForm, price: int, quantity: int)
    requires f.name != "" && f.typeId != "" && f.image != "" && f.sizes.SizesList?
    ensures FormFilled(f.(price := Some(price), quantity := Some(quantity))) <==> price != 0 && quantity != 0
  {
  }

  /** The message `setError` receives when `setSizesInput("")` throws: that name is declared nowhere on the page. */
  const SizesInputUndefined := "Error: setSizesInput is not defined"

  /** The error handleAddProduct leaves, as written: after a successful add the undeclared `setSizesInput` throws. */
  function AddError(form: ProductForm, created: Option<Product>, error: Option<string>): (r: Option<string>)
    ensures r.Some?
  {
    if !FormFilled(form) then Some("Please fill out all fields.")
    else if created.None? then Some("Error: Failed to add product")
    else Some(SizesInputUndefined)
  }

  /** The error handleAddProduct evidently means to leave: a successful add keeps the old error. */
  function IntendedAddError(form: ProductForm, created: Option<Product>, error: Option<string>): (r: Option<string>)
    ensures r.None? ==> error.None?
  {
    if !FormFilled(form) then Some("Please fill out all fields.")
    else if created.None? then Some("Error: Failed to add product")
    else error
  }

  /**
   * As written, every add leaves an error, so the page renders only the
   * alert; even a successful add on a clean page does. The intended
   * version leaves a clean page clean after a successful add.
   */
  lemma SuccessfulAddShowsError(form: ProductForm, p: Product)
    requires FormFilled(form)
    ensures AddError(form, Some(p), None) == Some(SizesInputUndefined)
    ensures IntendedAddError(form, Some(p), None) == None
  {
  }

  /** The two versions differ exactly on a successful add whose old error is not already that message. */
  lemma AddErrorsDiffer(form: ProductForm, created: Option<Product>, error: Option<string>)
    ensures AddError(form, created, error) != IntendedAddError(form, created, error) <==>
      FormFilled(form) && created.Some? && error != Some(SizesInputUndefined)
  {
  }

  // ---------------------------------------------------------------- callbacks

  function ProductHasId(id: Option<ProductId>): Product -> bool {
    (p: Product) => id.Some? && p.id == id.value
  }

  function ProductOtherId(id: ProductId): Product -> bool {
    (p: Product) => p.id != id
  }

  function TypeHasId(id: TypeId): ProductType -> bool {
    (t: ProductType) => t.id == id
  }

  function TypeOtherId(id: TypeId): ProductType -> bool {
    (t: ProductType) => t.id != id
  }

  function OrderHasId(id: OrderId): Order -> bool {
    (o: Order) => o.id == id
  }

  function Becomes<T>(x: T): T -> T {
    (_: T) => x
  }

  function WithStatus(status: string): Order -> Order {
    (o: Order) => o.(status := status)
  }

  // ---------------------------------------------------------------- list rules

  /** No two entries of the local type list share a name. */
  predicate DistinctNames(types: seq<ProductType>) {
    forall i, j :: 0 <= i < j < |types| ==> types[i].name != types[j].name
  }

  /** `productTypes.some(type => type.name === name)` */
  predicate HasTypeNamed(types: seq<ProductType>, name: string) {
    exists i :: 0 <= i < |types| && types[i].name == name
  }

  /** Appending a type under a name the list does not have keeps names distinct. */
  lemma AppendKeepsNamesDistinct(types: seq<ProductType>, t: ProductType)
    requires DistinctNames(types) && !HasTypeNamed(types, t.name)
    ensures DistinctNames(types + [t])
  {
    var u := types + [t];
    forall i, j | 0 <= i < j < |u| ensures u[i].name != u[j].name {
      if j == |types| {
        assert u[i] == types[i];
      } else {
        assert u[i] == types[i] && u[j] == types[j];
      }
    }
  }

  /** Replacing entries by id leaves every other entry, and the order, as it was. */
  lemma ReplaceByIdSpec(products: seq<Product>, id: ProductId, p: Product)
    ensures var r := Lists.Replace(products, ProductHasId(Some(id)), Becomes(p));
      && |r| == |products|
      && forall i :: 0 <= i < |r| ==> r[i] == (if products[i].id == id then p else products[i])
  {
  }

  /** Removing by id drops exactly the entries with that id and keeps the rest in order. */
  lemma {:induction false} RemoveByIdSpec(products: seq<Product>, id: ProductId)
    ensures var r := Lists.Keep(products, ProductOtherId(id));
      && (forall p :: p in r <==> p in products && p.id != id)
      && multiset(r) <= multiset(products)
  {
    Lists.KeepMultiset(products, ProductOtherId(id));
  }

  /** The statuses the order table offers; two of them lie outside the schema's enum. */
  const StatusOptions: seq<string> := ["Processing", "Shipped", "Completed", "Cancelled"]

  lemma StatusOptionsOffEnum()
    ensures forall s :: s in StatusOptions ==> (s in Statuses <==> s == "Processing" || s == "Shipped")
    ensures "Completed" in StatusOptions && "Completed" !in Statuses
    ensures "Cancelled" in StatusOptions && "Cancelled" !in Statuses
    ensures "Cancel" !in StatusOptions && "Delivered" !in StatusOptions
  {
  }

  // ---------------------------------------------------------------- the page state

  class DashboardState {
    var products: seq<Product>
    var productTypes: seq<ProductType>
    var orders: seq<Order>
    var error: Option<string>

    constructor (products: seq<Product>, productTypes: seq<ProductType>, orders: seq<Order>)
      ensures this.products == products && this.productTypes == productTypes && this.orders == orders
      ensures error == None
    {
      this.products, this.productTypes, this.orders := products, productTypes, orders;
      error := None;
    }

    /**
     * handleAddProduct as written: an unfilled form only sets the error; a
     * filled one sends the parsed sizes, and the product the server created
     * is appended (`created` is None when the server refused). After the
     * append, the call to the undeclared `setSizesInput` throws, and the
     * catch sets `SizesInputUndefined` as the error.
     */
    method AddProduct(form: ProductForm, created: Option<Product>) returns (sent: Option<seq<string>>)
      modifies this
      ensures !FormFilled(form) ==> sent == None && products == old(products)
      ensures FormFilled(form) ==> sent == Some(ParseSizes(form.sizes))
      ensures FormFilled(form) && created.Some? ==> products == old(products) + [created.value]
      ensures FormFilled(form) && created.None? ==> products == old(products)
      ensures error == AddError(form, created, old(error))
      ensures productTypes == old(productTypes) && orders == old(orders)
    {
      sent := AddProductIntended(form, created);
      if FormFilled(form) && created.Some? {
        error := Some(SizesInputUndefined);
      }
    }

    /** handleAddProduct without the `setSizesInput` call: a successful add keeps the error as it was. */
    method AddProductIntended(form: ProductForm, created: Option<Product>) returns (sent: Option<seq<string>>)
      modifies this
      ensures !FormFilled(form) ==> sent == None && products == old(products)
      ensures FormFilled(form) ==> sent == Some(ParseSizes(form.sizes))
      ensures FormFilled(form) && created.Some? ==> products == old(products) + [created.value]
      ensures FormFilled(form) && created.None? ==> products == old(products)
      ensures error == IntendedAddError(form, created, old(error))
      ensures productTypes == old(productTypes) && orders == old(orders)
    {
      if !FormFilled(form) {
        error := Some("Please fill out all fields.");
        return None;
      }
      sent := Some(ParseSizes(form.sizes));
      match created {
        case Some(p) => products := products + [p];
        case None => error := Some("Error: Failed to add product");
      }
    }

    /** handleEditProduct: on success the entry with the edited `_id` becomes the product returned. */
    method EditProduct(editingId: Option<ProductId>, updated: Option<Product>)
      modifies this
      ensures updated.Some? ==> products == Lists.Replace(old(products), ProductHasId(editingId), Becomes(updated.value))
      ensures updated.None? ==> products == old(products)
      ensures productTypes == old(productTypes) && orders == old(orders) && error == old(error)
    {
      if updated.Some? {
        products := Lists.Replace(products, ProductHasId(editingId), Becomes(updated.value));
      }
    }

    /** handleRemoveProduct: on success every entry with that `_id` is dropped. */
    method RemoveProduct(id: ProductId, success: bool)
      modifies this
      ensures products == if success then Lists.Keep(old(products), ProductOtherId(id)) else old(products)
      ensures productTypes == old(productTypes) && orders == old(orders) && error == old(error)
    {
      if success {
        products := Lists.Keep(products, ProductOtherId(id));
      }
    }

    /**
     * handleAddProductType: only a non-empty name that no listed type has is
     * sent; the type the server created is appended, a refusal sets the
     * server's message as the error.
     */
    method AddProductType(name: string, created: Result<ProductType, string>) returns (sent: bool)
      modifies this
      ensures sent <==> name != "" && !HasTypeNamed(old(productTypes), name)
      ensures !sent ==> productTypes == old(productTypes) && error == old(error)
      ensures sent && created.Success? ==> productTypes == old(productTypes) + [created.value] && error == old(error)
      ensures sent && created.Failure? ==> productTypes == old(productTypes) && error == Some(created.error)
      ensures sent && created.Success? && created.value.name == name && DistinctNames(old(productTypes))
        ==> DistinctNames(productTypes)
      ensures products == old(products) && orders == old(orders)
    {
      if name == "" || HasTypeNamed(productTypes, name) {
        return false;
      }
      match created {
        case Success(t) =>
          if DistinctNames(productTypes) && t.name == name {
            AppendKeepsNamesDistinct(productTypes, t);
          }
          productTypes := productTypes + [t];
        case Failure(message) => error := Some(message);
      }
      return true;
    }

    /**
     * handleEditProductType: sent only when both the id and the new name are
     * truthy; the entry whose id is the returned type's id becomes that type.
     */
    method EditProductType(id: Option<TypeId>, newName: Option<string>, updated: Result<ProductType, string>)
      returns (sent: bool)
      modifies this
      ensures sent <==> Js.Truthy(newName) && Js.Truthy(id)
      ensures !sent ==> productTypes == old(productTypes) && error == old(error)
      ensures sent && updated.Success? ==>
        productTypes == Lists.Replace(old(productTypes), TypeHasId(updated.value.id), Becomes(updated.value))
        && error == old(error)
      ensures sent && updated.Failure? ==> productTypes == old(productTypes) && error == Some(updated.error)
      ensures products == old(products) && orders == old(orders)
    {
      if !(Js.Truthy(newName) && Js.Truthy(id)) {
        return false;
      }
      match updated {
        case Success(t) => productTypes := Lists.Replace(productTypes, TypeHasId(t.id), Becomes(t));
        case Failure(message) => error := Some(message);
      }
      return true;
    }

    /** handleRemoveProductType: on success the entries with that `_id` are dropped. */
    method RemoveProductType(id: TypeId, outcome: Result<(), string>)
      modifies this
      ensures outcome.Success? ==> productTypes == Lists.Keep(old(productTypes), TypeOtherId(id)) && error == old(error)
      ensures outcome.Failure? ==> productTypes == old(productTypes) && error == Some(outcome.error)
      ensures products == old(products) && orders == old(orders)
    {
      match outcome {
        case Success(_) => productTypes := Lists.Keep(productTypes, TypeOtherId(id));
        case Failure(message) => error := Some(message);
      }
    }

    /** handleChangeOrderStatus: on success only the status of the order with that `_id` changes. */
    method ChangeOrderStatus(id: OrderId, newStatus: string, success: bool)
      modifies this
      ensures success ==> orders == Lists.Replace(old(orders), OrderHasId(id), WithStatus(newStatus))
      ensures !success ==> orders == old(orders)
      ensures products == old(products) && productTypes == old(productTypes) && error == old(error)
    {
      if success {
        orders := Lists.Replace(orders, OrderHasId(id), WithStatus(newStatus));
      }
    }
  }

  /** A status change touches no field but the status, and no order but the one named. */
  lemma StatusChangeSpec(orders: seq<Order>, id: OrderId, newStatus: string)
    ensures var r := Lists.Replace(orders, OrderHasId(id), WithStatus(newStatus));
      && |r| == |orders|
      && forall i :: 0 <= i < |r| ==>
           (orders[i].id == id ==> r[i] == orders[i].(status := newStatus))
           && (orders[i].id != id ==> r[i] == orders[i])
  {
  }
}
