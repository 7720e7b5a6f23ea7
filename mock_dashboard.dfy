/**
 * The mock admin dashboard (`pages/admin/dashboard/index.tsx`): in-memory
 * product, type and order lists seeded with sample data, each handler
 * computing the next list from the current one.
 */
module MockDashboard {
  import opened Wrappers
  import Lists

  datatype MockProduct = MockProduct(id: int, name: string, price: int, quantity: int, typeName: string)
  datatype MockOrder = MockOrder(id: int, customer: string, total: int, status: string)

  /** The new-product form: every input holds text. */
  datatype ProductForm = ProductForm(name: string, price: string, quantity: string, typeName: string)

  /** The rename dialog's state. */
  datatype TypeEdit = TypeEdit(oldName: string, newName: string)

  /** The sample data; prices are in cents. */
  const SampleProducts: seq<MockProduct> := [
    MockProduct(1, "Summer Dress", 4999, 50, "Dresses"),
    MockProduct(2, "Beach Hat", 2499, 100, "Accessories"),
    MockProduct(3, "Sunglasses", 3999, 75, "Accessories")]
  const SampleTypes: seq<string> := ["Dresses", "Tops", "Bottoms", "Swimwear", "Accessories"]

  predicate FormFilled(f: ProductForm) {
    f.name != "" && f.price != "" && f.quantity != "" && f.typeName != ""
  }

  /** No two products share an id. */
  predicate DistinctIds(products: seq<MockProduct>) {
    forall i, j :: 0 <= i < j < |products| ==> products[i].id != products[j].id
  }

  // ---------------------------------------------------------------- products

  /**
   * handleAddProduct as written: a filled form appends a product whose id
   * is the list's length plus one. `price` and `quantity` are the form's
   * text already parsed as numbers.
   */
  function AddProductByLength(products: seq<MockProduct>, f: ProductForm, price: int, quantity: int): seq<MockProduct> {
    if FormFilled(f) then products + [MockProduct(|products| + 1, f.name, price, quantity, f.typeName)]
    else products
  }

  /** Ids are exactly 1, 2, … in list order. */
  predicate Numbered(products: seq<MockProduct>) {
    forall i :: 0 <= i < |products| ==> products[i].id == i + 1
  }

  /** While products are only added, length-based ids stay 1, 2, …, hence distinct. */
  lemma AddByLengthKeepsNumbered(products: seq<MockProduct>, f: ProductForm, price: int, quantity: int)
    requires Numbered(products)
    ensures Numbered(AddProductByLength(products, f, price, quantity))
    ensures DistinctIds(AddProductByLength(products, f, price, quantity))
  {
  }

  /** Removing the first sample product and adding one reuses id 3. */
  lemma RemoveThenAddCollides()
    ensures DistinctIds(SampleProducts)
    ensures var r := AddProductByLength(RemoveProduct(SampleProducts, 1), ProductForm("Tote", "19.99", "5", "Accessories"), 1999, 5);
      !DistinctIds(r)
  {
    var left := RemoveFirstSample();
    var r := AddProductByLength(left, ProductForm("Tote", "19.99", "5", "Accessories"), 1999, 5);
    assert r[1].id == 3 && r[2].id == 3;
  }

  /** Removing id 1 from the samples leaves the other two, in order. */
  lemma RemoveFirstSample() returns (left: seq<MockProduct>)
    ensures left == RemoveProduct(SampleProducts, 1)
    ensures left == [SampleProducts[1], SampleProducts[2]]
  {
    var tail := SampleProducts[1..];
    assert tail == [SampleProducts[1], SampleProducts[2]];
    assert tail[0].id == 2 && tail[1].id == 3;
    Lists.KeepAll(tail, OtherId(1));
    assert SampleProducts == [SampleProducts[0]] + tail;
    left := RemoveProduct(SampleProducts, 1);
  }

  /** The largest id in the list, 0 for an empty list. */
  function MaxId(products: seq<MockProduct>): (r: int)
    ensures r >= 0
    ensures forall i :: 0 <= i < |products| ==> products[i].id <= r
  {
    if products == [] then 0
    else
      var rest := MaxId(products[1..]);
      assert forall i :: 1 <= i < |products| ==> products[i] == products[1..][i - 1];
      if products[0].id > rest then products[0].id else rest
  }

  /** handleAddProduct with the id one past the largest in use. */
  function AddProduct(products: seq<MockProduct>, f: ProductForm, price: int, quantity: int): (r: seq<MockProduct>)
    ensures FormFilled(f) ==> |r| == |products| + 1 && r[..|products|] == products && r[|products|].id > MaxId(products)
    ensures !FormFilled(f) ==> r == products
  {
    if FormFilled(f) then
      var r := products + [MockProduct(MaxId(products) + 1, f.name, price, quantity, f.typeName)];
      assert r[..|products|] == products;
      r
    else products
  }

  /** The corrected add keeps ids distinct whatever was removed before. */
  lemma AddKeepsIdsDistinct(products: seq<MockProduct>, f: ProductForm, price: int, quantity: int)
    requires DistinctIds(products)
    ensures DistinctIds(AddProduct(products, f, price, quantity))
  {
    var r := AddProduct(products, f, price, quantity);
    if FormFilled(f) {
      forall i, j | 0 <= i < j < |r| ensures r[i].id != r[j].id {
        assert r[i] == r[..|products|][i] == products[i];
        if j < |products| {
          assert r[j] == r[..|products|][j] == products[j];
        }
      }
    }
  }

  function HasId(id: int): MockProduct -> bool {
    (p: MockProduct) => p.id == id
  }

  function OtherId(id: int): MockProduct -> bool {
    (p: MockProduct) => p.id != id
  }

  function Becomes<T>(x: T): T -> T {
    (_: T) => x
  }

  /** handleEditProduct: the entry with the edited id becomes the edited product. */
  function EditProduct(products: seq<MockProduct>, editing: Option<MockProduct>): seq<MockProduct> {
    match editing
    case None => products
    case Some(p) => Lists.Replace(products, HasId(p.id), Becomes(p))
  }

  lemma EditProductSpec(products: seq<MockProduct>, p: MockProduct)
    ensures var r := EditProduct(products, Some(p));
      && |r| == |products|
      && forall i :: 0 <= i < |r| ==> r[i] == (if products[i].id == p.id then p else products[i])
  {
  }

  /** Editing keeps ids, so distinct ids stay distinct. */
  lemma EditKeepsIdsDistinct(products: seq<MockProduct>, editing: Option<MockProduct>)
    requires DistinctIds(products)
    ensures DistinctIds(EditProduct(products, editing))
  {
    if editing.Some? {
      var r := EditProduct(products, editing);
      assert forall i :: 0 <= i < |r| ==> r[i].id == products[i].id;
    }
  }

  /** handleRemoveProduct */
  function RemoveProduct(products: seq<MockProduct>, id: int): seq<MockProduct> {
    Lists.Keep(products, OtherId(id))
  }

  /** Removing drops exactly the entries with that id and keeps the rest, in order. */
  lemma RemoveProductSpec(products: seq<MockProduct>, id: int)
    ensures forall p :: p in RemoveProduct(products, id) <==> p in products && p.id != id
    ensures multiset(RemoveProduct(products, id)) <= multiset(products)
  {
    Lists.KeepMultiset(products, OtherId(id));
  }

  // ---------------------------------------------------------------- types

  /** handleAddProductType */
  function AddProductType(types: seq<string>, name: string): (r: seq<string>)
    ensures r == types || r == types + [name]
    ensures r != types <==> name != "" && name !in types
  {
    if name != "" && name !in types then types + [name] else types
  }

  /** No name listed twice. */
  predicate DistinctNames(types: seq<string>) {
    forall i, j :: 0 <= i < j < |types| ==> types[i] != types[j]
  }

  lemma AddTypeKeepsDistinct(types: seq<string>, name: string)
    requires DistinctNames(types)
    ensures DistinctNames(AddProductType(types, name))
  {
    var r := AddProductType(types, name);
    if r != types {
      forall i, j | 0 <= i < j < |r| ensures r[i] != r[j] {
        assert r[i] == types[i];
        if j < |types| { assert r[j] == types[j]; }
      }
    }
  }

  function IsName(name: string): string -> bool {
    (t: string) => t == name
  }

  function OtherName(name: string): string -> bool {
    (t: string) => t != name
  }

  /** handleEditProductType: every entry equal to the old name takes the new one. */
  function EditProductType(types: seq<string>, editing: Option<TypeEdit>): seq<string> {
    match editing
    case None => types
    case Some(e) => Lists.Replace(types, IsName(e.oldName), Becomes(e.newName))
  }

  /** Renaming checks nothing: renaming Tops to Dresses lists Dresses twice. */
  lemma RenameMayDuplicate()
    ensures DistinctNames(SampleTypes)
    ensures !DistinctNames(EditProductType(SampleTypes, Some(TypeEdit("Tops", "Dresses"))))
  {
    var r := EditProductType(SampleTypes, Some(TypeEdit("Tops", "Dresses")));
    assert r[0] == "Dresses" && r[1] == "Dresses";
  }

  /** handleRemoveProductType */
  function RemoveProductType(types: seq<string>, name: string): seq<string> {
    Lists.Keep(types, OtherName(name))
  }

  lemma RemoveTypeSpec(types: seq<string>, name: string)
    ensures name !in RemoveProductType(types, name)
    ensures forall t :: t in types && t != name ==> t in RemoveProductType(types, name)
    ensures multiset(RemoveProductType(types, name)) <= multiset(types)
  {
    Lists.KeepMultiset(types, OtherName(name));
  }

  // ---------------------------------------------------------------- orders

  function OrderHasId(id: int): MockOrder -> bool {
    (o: MockOrder) => o.id == id
  }

  function WithStatus(status: string): MockOrder -> MockOrder {
    (o: MockOrder) => o.(status := status)
  }

  /** handleChangeOrderStatus */
  function ChangeOrderStatus(orders: seq<MockOrder>, id: int, status: string): seq<MockOrder> {
    Lists.Replace(orders, OrderHasId(id), WithStatus(status))
  }

  lemma ChangeOrderStatusSpec(orders: seq<MockOrder>, id: int, status: string)
    ensures var r := ChangeOrderStatus(orders, id, status);
      && |r| == |orders|
      && forall i :: 0 <= i < |r| ==>
           (orders[i].id == id ==> r[i] == orders[i].(status := status))
           && (orders[i].id != id ==> r[i] == orders[i])
  {
  }
}
