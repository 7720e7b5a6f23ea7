/**
 * The database: the Product, ProductType and Order collections, each keyed by
 * document id. A document loaded with `findById` is a fresh object whose fields
 * a handler assigns before `save` writes it back; ProductDoc and TypeDoc model
 * those loaded documents.
 */
module Store {
  import opened Wrappers
  import opened Models

  class Db {
    var products: map<ProductId, Product>
    var types: map<TypeId, ProductType>
    var orders: map<OrderId, Order>

    /** Every document is stored under its own id. */
    ghost predicate Valid()
      reads this
    {
      && (forall k :: k in products ==> products[k].id == k)
      && (forall k :: k in types ==> types[k].id == k)
      && (forall k :: k in orders ==> orders[k].id == k)
    }

    constructor ()
      ensures Valid()
      ensures products == map[] && types == map[] && orders == map[]
    {
      products, types, orders := map[], map[], map[];
    }
  }

  /** A Product document loaded for editing. */
  class ProductDoc {
    const id: ProductId
    const createdAt: int
    var name: string
    var price: int
    var quantity: int
    var typeId: TypeId
    var image: string
    var sizes: Option<seq<string>>

    function Value(): Product
      reads this
    {
      Product(id, name, price, quantity, typeId, image, sizes, createdAt)
    }

    constructor Load(p: Product)
      ensures Value() == p
    {
      id, createdAt := p.id, p.createdAt;
      name, price, quantity, typeId, image, sizes := p.name, p.price, p.quantity, p.typeId, p.image, p.sizes;
    }
  }

  /** A ProductType document loaded for renaming. */
  class TypeDoc {
    const id: TypeId
    const createdAt: int
    var name: string

    function Value(): ProductType
      reads this
    {
      ProductType(id, name, createdAt)
    }

    constructor Load(t: ProductType)
      ensures Value() == t
    {
      id, createdAt, name := t.id, t.createdAt, t.name;
    }
  }
}
