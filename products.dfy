/** The products table and its status changes. */
module ProductService {
  import opened Wrappers
  import opened Catalog
  import opened Lifecycle

  /** The products table, keyed by id; ids come from the auto-increment counter. */
  class ProductTable {
    var products: map<int, Product>
    var nextId: int

    /** Each row carries its own id, and every id lies below the counter. */
    ghost predicate Valid()
      reads this
    {
      forall k :: k in products ==> products[k].id == k && k < nextId
    }

    constructor ()
      ensures Valid() && products == map[] && nextId == 1
    {
      products := map[];
      nextId := 1;
    }

    /** Inserts a product in draft under a fresh id. */
    method CreateProduct(name: string, description: Option<string>) returns (id: int)
      requires Valid()
      modifies this
      ensures Valid()
      ensures id == old(nextId) && id !in old(products)
      ensures products == old(products)[id := Product(id, name, description, DRAFT)]
      ensures nextId == id + 1
    {
      id := nextId;
      products := products[id := Product(id, name, description, DRAFT)];
      nextId := nextId + 1;
    }

    /** Sets the product's status by the change; an unknown id changes nothing. */
    method ChangeStatus(id: int, change: StatusChange)
      requires Valid()
      modifies this
      ensures Valid()
      ensures id !in old(products) ==> products == old(products)
      ensures id in old(products) ==>
        products == old(products)[id := old(products)[id].(status := Apply(change, old(products)[id].status))]
      ensures nextId == old(nextId)
    {
      if id !in products {
        return;
      }
      products := products[id := products[id].(status := Apply(change, products[id].status))];
    }

    /** Publishes a draft product; from any other status nothing is written. */
    method PublishProduct(id: int)
      requires Valid()
      modifies this
      ensures Valid()
      ensures id !in old(products) || old(products)[id].status != DRAFT ==> products == old(products)
      ensures id in old(products) && old(products)[id].status == DRAFT ==>
        products == old(products)[id := old(products)[id].(status := PUBLISHED)]
      ensures nextId == old(nextId)
    {
      ChangeStatus(id, Publish);
    }

    /** Disables a published product; from any other status nothing is written. */
    method DisableProduct(id: int)
      requires Valid()
      modifies this
      ensures Valid()
      ensures id !in old(products) || old(products)[id].status != PUBLISHED ==> products == old(products)
      ensures id in old(products) && old(products)[id].status == PUBLISHED ==>
        products == old(products)[id := old(products)[id].(status := DISABLED)]
      ensures nextId == old(nextId)
    {
      ChangeStatus(id, Disable);
    }

    /**
     * Overwrites name, description and status of the row with that id, whatever its
     * current status; when no row has that id, nothing changes.
     */
    method UpdateProduct(id: int, name: string, description: Option<string>, status: string)
      requires Valid()
      modifies this
      ensures Valid()
      ensures id !in old(products) ==> products == old(products)
      ensures id in old(products) ==> products == old(products)[id := Product(id, name, description, status)]
      ensures nextId == old(nextId)
    {
      if id in products {
        products := products[id := Product(id, name, description, status)];
      }
    }
  }
}
