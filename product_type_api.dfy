/** `/api/product-type`: create, list, rename and delete product types. */
module ProductTypeApi {
  import opened Wrappers
  import opened Models
  import Js
  import Store
  import Sorting
  import PM = ProductManagement

  /** The fields of the JSON body; a field the body lacks is None. */
  datatype TypeBody = TypeBody(name: Option<string>, id: Option<TypeId>, newName: Option<string>)

  datatype TypeResponse =
    | TypeCreated(created: ProductType)     // 201
    | TypeUpdated(updated: ProductType)     // 200
    | TypeDeleted                           // 200 "Product type deleted"
    | TypeListing(listing: seq<ProductType>) // 200, GET
    | TypeBadRequest(message: string)       // 400
    | TypeNotFound                          // 404 "Product type not found"
    | TypeMethodNotAllowed                  // 405

  /** `ProductType.findOne({ name })`: some stored type has exactly this name. */
  predicate NameTaken(types: map<TypeId, ProductType>, name: string) {
    exists k :: k in types && types[k].name == name
  }

  /** No two stored types share a name. */
  ghost predicate UniqueNames(types: map<TypeId, ProductType>) {
    forall a, b :: a in types && b in types && types[a].name == types[b].name ==> a == b
  }

  /** Adding a name no type has keeps names unique, and the table grows by exactly one. */
  lemma CreateKeepsUnique(types: map<TypeId, ProductType>, t: ProductType)
    requires UniqueNames(types) && !NameTaken(types, t.name) && t.id !in types
    ensures UniqueNames(types[t.id := t])
    ensures |types[t.id := t].Keys| == |types.Keys| + 1
  {
    var u := types[t.id := t];
    forall a, b | a in u && b in u && u[a].name == u[b].name ensures a == b {
      if a != t.id && b != t.id {
        assert types[a].name == types[b].name;
      }
    }
    KeyCountGrows(types, t);
  }

  lemma KeyCountGrows(types: map<TypeId, ProductType>, t: ProductType)
    requires t.id !in types
    ensures |types[t.id := t].Keys| == |types.Keys| + 1
  {
    assert types[t.id := t].Keys == types.Keys + {t.id};
  }

  method CreateType(db: Store.Db, name: Option<string>, newId: TypeId, now: int) returns (r: TypeResponse)
    requires db.Valid() && newId !in db.types
    modifies db
    ensures db.Valid()
    ensures !Js.Truthy(name) ==> r == TypeBadRequest("Name is required") && unchanged(db)
    ensures Js.Truthy(name) && NameTaken(old(db.types), name.value) ==>
      r == TypeBadRequest("Product type already exists") && unchanged(db)
    ensures Js.Truthy(name) && !NameTaken(old(db.types), name.value) ==>
      && r == TypeCreated(ProductType(newId, name.value, now))
      && db.types == old(db.types)[newId := r.created]
      && db.products == old(db.products) && db.orders == old(db.orders)
    ensures UniqueNames(old(db.types)) ==> UniqueNames(db.types)
  {
    if !Js.Truthy(name) {
      return TypeBadRequest("Name is required");
    }
    if NameTaken(db.types, name.value) {
      return TypeBadRequest("Product type already exists");
    }
    var t := ProductType(newId, name.value, now);
    if UniqueNames(db.types) {
      CreateKeepsUnique(db.types, t);
    }
    db.types := db.types[newId := t];
    return TypeCreated(t);
  }

  /** The collection after `findByIdAndUpdate(id, { name: newName })` on a stored id. */
  function Renamed(types: map<TypeId, ProductType>, id: TypeId, newName: string): (r: map<TypeId, ProductType>)
    requires id in types
    ensures r.Keys == types.Keys
    ensures r[id].name == newName && r[id].id == types[id].id && r[id].createdAt == types[id].createdAt
    ensures forall k :: k in types && k != id ==> r[k] == types[k]
  {
    types[id := types[id].(name := newName)]
  }

  /**
   * Renaming does not look at the other names: renaming one type to
   * another's name is written as asked, so two stored types then share it
   * (the database's unique index, not part of this model, would refuse the
   * save).
   */
  lemma RenameDoesNotCheckNames(types: map<TypeId, ProductType>, a: TypeId, b: TypeId)
    requires a in types && b in types && a != b
    ensures !UniqueNames(Renamed(types, b, types[a].name))
  {
    var renamed := Renamed(types, b, types[a].name);
    assert renamed[a].name == renamed[b].name;
  }

  method RenameType(db: Store.Db, id: Option<TypeId>, newName: Option<string>) returns (r: TypeResponse)
    requires db.Valid()
    modifies db
    ensures db.Valid()
    ensures (!Js.Truthy(id) || !Js.Truthy(newName)) ==> r == TypeBadRequest("ID and new name are required") && unchanged(db)
    ensures Js.Truthy(id) && Js.Truthy(newName) && id.value !in old(db.types) ==> r == TypeNotFound && unchanged(db)
    ensures Js.Truthy(id) && Js.Truthy(newName) && id.value in old(db.types) ==>
      && db.types == Renamed(old(db.types), id.value, newName.value)
      && r == TypeUpdated(db.types[id.value])
      && db.products == old(db.products) && db.orders == old(db.orders)
  {
    if !Js.Truthy(id) || !Js.Truthy(newName) {
      return TypeBadRequest("ID and new name are required");
    }
    if id.value !in db.types {
      return TypeNotFound;
    }
    var doc := new Store.TypeDoc.Load(db.types[id.value]);
    doc.name := newName.value;
    var saved := doc.Value();
    db.types := db.types[id.value := saved];
    return TypeUpdated(saved);
  }

  /** Deleting a type that a product still refers to leaves that reference dangling. */
  lemma DeleteMayDangle(products: map<ProductId, Product>, types: map<TypeId, ProductType>, k: ProductId)
    requires k in products && products[k].typeId in types
    ensures !PM.TypesResolved(products, types - {products[k].typeId})
  {
  }

  method DeleteType(db: Store.Db, id: Option<TypeId>) returns (r: TypeResponse)
    requires db.Valid()
    modifies db
    ensures db.Valid()
    ensures !Js.Truthy(id) ==> r == TypeBadRequest("ID is required") && unchanged(db)
    ensures Js.Truthy(id) && id.value !in old(db.types) ==> r == TypeNotFound && unchanged(db)
    ensures Js.Truthy(id) && id.value in old(db.types) ==>
      && r == TypeDeleted
      && db.types == old(db.types) - {id.value}
      && db.products == old(db.products) && db.orders == old(db.orders)
  {
    if !Js.Truthy(id) {
      return TypeBadRequest("ID is required");
    }
    if id.value !in db.types {
      return TypeNotFound;
    }
    db.types := db.types - {id.value};
    return TypeDeleted;
  }

  /** The sort key `createdAt`. */
  function TypeCreatedAt(): ProductType -> int {
    (t: ProductType) => t.createdAt
  }

  /** GET: the listed types, newest first. */
  function ListTypes(listing: seq<ProductType>): (r: seq<ProductType>)
    ensures Sorting.NewestFirst(r, TypeCreatedAt())
    ensures multiset(r) == multiset(listing)
  {
    Sorting.SortNewestFirst(listing, TypeCreatedAt())
  }

  /** `listing` is the whole types collection: every stored type, each once, and nothing else. */
  predicate ListsAllTypes(types: map<TypeId, ProductType>, listing: seq<ProductType>) {
    && (forall i :: 0 <= i < |listing| ==> listing[i].id in types && types[listing[i].id] == listing[i])
    && (forall k :: k in types ==> types[k] in listing)
    && (forall i, j :: 0 <= i < j < |listing| ==> listing[i].id != listing[j].id)
  }

  /** In a list whose ids are distinct, each listed type occurs once. */
  lemma {:induction false} DistinctIdsOnce(listing: seq<ProductType>, t: ProductType)
    requires forall i, j :: 0 <= i < j < |listing| ==> listing[i].id != listing[j].id
    ensures multiset(listing)[t] == if t in listing then 1 else 0
  {
    if listing != [] {
      assert listing == [listing[0]] + listing[1..];
      assert forall i, j :: 0 <= i < j < |listing[1..]| ==> listing[1..][i].id != listing[1..][j].id by {
        forall i, j | 0 <= i < j < |listing[1..]| ensures listing[1..][i].id != listing[1..][j].id {
          assert listing[1..][i] == listing[i + 1] && listing[1..][j] == listing[j + 1];
        }
      }
      DistinctIdsOnce(listing[1..], t);
      if listing[0] == t {
        assert t !in listing[1..] by {
          forall j | 0 <= j < |listing[1..]| ensures listing[1..][j] != t {
            assert listing[1..][j] == listing[j + 1];
          }
        }
      }
    }
  }

  /** GET over the whole collection returns each stored type exactly once and nothing else. */
  lemma ListTypesAll(types: map<TypeId, ProductType>, listing: seq<ProductType>, t: ProductType)
    requires ListsAllTypes(types, listing)
    ensures multiset(ListTypes(listing))[t] == if t.id in types && types[t.id] == t then 1 else 0
  {
    DistinctIdsOnce(listing, t);
    if t.id in types && types[t.id] == t {
      assert types[t.id] in listing;
    }
  }

  /**
   * The dispatch on the HTTP method. `listing` is the types collection in
   * its natural order, which GET sorts.
   */
  method Handle(db: Store.Db, verb: string, b: TypeBody, listing: seq<ProductType>, newId: TypeId, now: int)
    returns (r: TypeResponse)
    requires db.Valid() && newId !in db.types
    requires ListsAllTypes(db.types, listing)
    modifies db
    ensures db.Valid()
    ensures verb !in {"POST", "GET", "PUT", "DELETE"} ==> r == TypeMethodNotAllowed && unchanged(db)
    ensures verb == "GET" ==> r == TypeListing(ListTypes(listing)) && unchanged(db)
    ensures verb == "GET" ==> forall t :: multiset(r.listing)[t] == if t.id in db.types && db.types[t.id] == t then 1 else 0
    ensures r.TypeCreated? ==> verb == "POST"
    ensures r.TypeUpdated? ==> verb == "PUT"
    ensures r.TypeDeleted? ==> verb == "DELETE"
  {
    if verb == "POST" {
      r := CreateType(db, b.name, newId, now);
    } else if verb == "GET" {
      r := TypeListing(ListTypes(listing));
      forall t ensures multiset(r.listing)[t] == if t.id in db.types && db.types[t.id] == t then 1 else 0 {
        ListTypesAll(db.types, listing, t);
      }
    } else if verb == "PUT" {
      r := RenameType(db, b.id, b.newName);
    } else if verb == "DELETE" {
      r := DeleteType(db, b.id);
    } else {
      r := TypeMethodNotAllowed;
    }
  }
}
