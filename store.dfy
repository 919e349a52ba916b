/**
  The entity store the mutation workflows work against: the Customer,
  Product and Order tables and the Order-Product relation, with the few
  persistence operations the workflows call (insert a row, save a row
  again, look a customer up, filter products by id, set an order's
  products). Customer and order ids are their positions in the tables;
  product ids are handed out by an auto-increment counter.
 */
module Store {

  import opened Wrappers
  import Phone

  datatype Customer = Customer(name: string, email: string, phone: Option<string>)

  /** `price` is in the smallest currency unit (see the README on floats). */
  datatype Product = Product(name: string, price: int, stock: int)

  datatype Order = Order(customer: int, products: set<int>, totalAmount: int, orderDate: int)

  /** The emails of a sequence of customers. */
  function EmailsOf(cs: seq<Customer>): set<string> {
    set i | 0 <= i < |cs| :: cs[i].email
  }

  lemma EmailsOfSnoc(cs: seq<Customer>, c: Customer)
    ensures EmailsOf(cs + [c]) == EmailsOf(cs) + {c.email}
  {
    var both := cs + [c];
    assert both[|cs|] == c;
    forall e | e in EmailsOf(cs) ensures e in EmailsOf(both) {
      var i :| 0 <= i < |cs| && cs[i].email == e;
      assert both[i] == cs[i];
    }
  }

  lemma EmailsOfConcat(a: seq<Customer>, b: seq<Customer>)
    ensures EmailsOf(a + b) == EmailsOf(a) + EmailsOf(b)
  {
    var both := a + b;
    forall e | e in EmailsOf(a) ensures e in EmailsOf(both) {
      var i :| 0 <= i < |a| && a[i].email == e;
      assert both[i] == a[i];
    }
    forall e | e in EmailsOf(b) ensures e in EmailsOf(both) {
      var i :| 0 <= i < |b| && b[i].email == e;
      assert both[|a| + i] == b[i];
    }
    forall e | e in EmailsOf(both) ensures e in EmailsOf(a) + EmailsOf(b) {
      var i :| 0 <= i < |both| && both[i].email == e;
      if i < |a| {
        assert both[i] == a[i];
      } else {
        assert both[i] == b[i - |a|];
      }
    }
  }

  /** Customer.email is unique across all customers. */
  predicate UniqueEmails(cs: seq<Customer>) {
    forall i, j :: 0 <= i < j < |cs| ==> cs[i].email != cs[j].email
  }

  /** Appending a customer keeps the emails unique exactly when its email is new. */
  lemma UniqueEmailsSnoc(cs: seq<Customer>, c: Customer)
    requires UniqueEmails(cs)
    ensures UniqueEmails(cs + [c]) <==> c.email !in EmailsOf(cs)
  {
    var both := cs + [c];
    if c.email in EmailsOf(cs) {
      var i :| 0 <= i < |cs| && cs[i].email == c.email;
      assert both[i].email == both[|cs|].email;
    } else {
      forall i, j | 0 <= i < j < |both| ensures both[i].email != both[j].email {
        if j == |cs| {
          assert both[i] == cs[i];
        } else {
          assert both[i] == cs[i] && both[j] == cs[j];
        }
      }
    }
  }

  predicate Distinct(s: seq<int>) {
    forall i, j :: 0 <= i < j < |s| ==> s[i] != s[j]
  }

  /**
    `Product.objects.filter(id__in=ids)`: the distinct stored products whose
    id is among `ids`. Rows are listed in the order their ids first occur in
    `ids`; the database's row order is not modelled, and nothing the
    workflows compute from the rows depends on it.
   */
  function Resolve(ids: seq<int>, products: map<int, Product>): (rows: seq<int>)
    ensures Distinct(rows)
    ensures forall id :: id in rows <==> id in ids && id in products
    ensures |rows| <= |ids|
    decreases |ids|
  {
    if ids == [] then []
    else
      var init := ids[..|ids| - 1];
      var last := ids[|ids| - 1];
      assert ids == init + [last];
      var earlier := Resolve(init, products);
      if last in products && last !in earlier then earlier + [last] else earlier
  }

  /** Every id resolves, once each, exactly when the ids are distinct stored products. */
  lemma {:induction false} ResolveCount(ids: seq<int>, products: map<int, Product>)
    ensures |Resolve(ids, products)| == |ids| <==>
      Distinct(ids) && forall i :: 0 <= i < |ids| ==> ids[i] in products
    decreases |ids|
  {
    if ids != [] {
      var init := ids[..|ids| - 1];
      var last := ids[|ids| - 1];
      assert ids == init + [last];
      ResolveCount(init, products);
      if Distinct(ids) && forall i :: 0 <= i < |ids| ==> ids[i] in products {
        assert Distinct(init) by {
          forall i, j | 0 <= i < j < |init| ensures init[i] != init[j] {
            assert init[i] == ids[i] && init[j] == ids[j];
          }
        }
        assert forall i :: 0 <= i < |init| ==> init[i] == ids[i];
        assert last !in init by {
          forall i | 0 <= i < |init| ensures init[i] != last {
            assert init[i] == ids[i];
          }
        }
      }
      if |Resolve(ids, products)| == |ids| {
        var earlier := Resolve(init, products);
        assert |earlier| == |init| && last in products && last !in earlier;
        forall i, j | 0 <= i < j < |ids| ensures ids[i] != ids[j] {
          if j == |ids| - 1 {
            assert ids[i] == init[i];
          } else {
            assert ids[i] == init[i] && ids[j] == init[j];
          }
        }
        forall i | 0 <= i < |ids| ensures ids[i] in products {
          if i < |init| {
            assert ids[i] == init[i];
          }
        }
      }
    }
  }

  /** When every id is a distinct stored product, the filter returns the ids themselves. */
  lemma {:induction false} ResolveAll(ids: seq<int>, products: map<int, Product>)
    requires Distinct(ids) && forall i :: 0 <= i < |ids| ==> ids[i] in products
    ensures Resolve(ids, products) == ids
    decreases |ids|
  {
    if ids != [] {
      var init := ids[..|ids| - 1];
      var last := ids[|ids| - 1];
      assert ids == init + [last];
      assert forall i :: 0 <= i < |init| ==> init[i] == ids[i];
      assert Distinct(init);
      ResolveAll(init, products);
      assert last !in init;
    }
  }

  /**
    The invariants the data model states for stored rows: unique emails,
    well-formed phones, positive prices, non-negative stock, and orders that
    reference an existing customer and a non-empty set of existing products.
   */
  ghost predicate ConsistentState(cs: seq<Customer>, ps: map<int, Product>, os: seq<Order>) {
    && UniqueEmails(cs)
    && (forall i :: 0 <= i < |cs| ==> Phone.Accepts(cs[i].phone))
    && (forall id :: id in ps ==> ps[id].price > 0 && ps[id].stock >= 0)
    && (forall k :: 0 <= k < |os| ==>
          0 <= os[k].customer < |cs| && os[k].products != {} && os[k].products <= ps.Keys)
  }

  lemma ConsistentAddCustomer(cs: seq<Customer>, ps: map<int, Product>, os: seq<Order>, c: Customer)
    requires ConsistentState(cs, ps, os)
    requires c.email !in EmailsOf(cs) && Phone.Accepts(c.phone)
    ensures ConsistentState(cs + [c], ps, os)
  {
    UniqueEmailsSnoc(cs, c);
    assert forall i :: 0 <= i < |cs| ==> (cs + [c])[i] == cs[i];
  }

  lemma ConsistentAddProduct(cs: seq<Customer>, ps: map<int, Product>, os: seq<Order>, id: int, p: Product)
    requires ConsistentState(cs, ps, os)
    requires p.price > 0 && p.stock >= 0
    ensures ConsistentState(cs, ps[id := p], os)
  {
  }

  lemma ConsistentAddOrder(cs: seq<Customer>, ps: map<int, Product>, os: seq<Order>, o: Order)
    requires ConsistentState(cs, ps, os)
    requires 0 <= o.customer < |cs| && o.products != {} && o.products <= ps.Keys
    ensures ConsistentState(cs, ps, os + [o])
  {
  }

  class EntityStore {
    var customers: seq<Customer>
    var products: map<int, Product>
    var nextProductId: int
    var orders: seq<Order>

    /** The auto-increment counter is above every product id handed out. */
    ghost predicate Valid()
      reads this
    {
      nextProductId >= 0 && forall id :: id in products ==> 0 <= id < nextProductId
    }

    ghost predicate Consistent()
      reads this
    {
      ConsistentState(customers, products, orders)
    }

    constructor ()
      ensures Valid() && Consistent()
      ensures customers == [] && products == map[] && orders == [] && nextProductId == 0
    {
      customers, products, nextProductId, orders := [], map[], 0, [];
    }

    /** `Customer.objects.filter(email=email).exists()`. */
    function ExistsByEmail(email: string): (found: bool)
      reads this
      ensures found <==> exists i :: 0 <= i < |customers| && customers[i].email == email
    {
      email in EmailsOf(customers)
    }

    /** `Customer.objects.get(id=id)`, with `DoesNotExist` as `None`. */
    function GetCustomer(id: int): (c: Option<Customer>)
      reads this
      ensures c.Some? <==> 0 <= id < |customers|
      ensures c.Some? ==> c.value == customers[id]
    {
      if 0 <= id < |customers| then Some(customers[id]) else None
    }

    /** `Product.objects.filter(id__in=ids)`, over the products stored now (see Resolve). */
    function FilterProducts(ids: seq<int>): (rows: seq<int>)
      reads this
      ensures rows == Resolve(ids, products)
    {
      Resolve(ids, products)
    }

    /** Saving a new customer row; its id is its position. */
    method InsertCustomer(c: Customer) returns (id: int)
      modifies this
      ensures id == |old(customers)| && customers == old(customers) + [c]
      ensures products == old(products) && nextProductId == old(nextProductId) && orders == old(orders)
    {
      id := |customers|;
      customers := customers + [c];
    }

    /** Saving an already stored customer row again. */
    method UpdateCustomer(id: int, c: Customer)
      requires 0 <= id < |customers|
      modifies this
      ensures customers == old(customers)[id := c]
      ensures products == old(products) && nextProductId == old(nextProductId) && orders == old(orders)
    {
      customers := customers[id := c];
    }

    /** Saving a new product row under the next auto-increment id. */
    method InsertProduct(p: Product) returns (id: int)
      requires Valid()
      modifies this
      ensures Valid()
      ensures id == old(nextProductId) && id !in old(products)
      ensures products == old(products)[id := p] && nextProductId == old(nextProductId) + 1
      ensures customers == old(customers) && orders == old(orders)
    {
      id := nextProductId;
      products := products[id := p];
      nextProductId := nextProductId + 1;
    }

    /** Saving an already stored product row again. */
    method UpdateProduct(id: int, p: Product)
      requires id in products
      modifies this
      ensures products == old(products)[id := p]
      ensures customers == old(customers) && nextProductId == old(nextProductId) && orders == old(orders)
    {
      products := products[id := p];
    }

    /** Saving a new order row; its id is its position. */
    method InsertOrder(o: Order) returns (id: int)
      modifies this
      ensures id == |old(orders)| && orders == old(orders) + [o]
      ensures customers == old(customers) && products == old(products) && nextProductId == old(nextProductId)
    {
      id := |orders|;
      orders := orders + [o];
    }

    /** Saving an already stored order row again. */
    method UpdateOrder(id: int, o: Order)
      requires 0 <= id < |orders|
      modifies this
      ensures orders == old(orders)[id := o]
      ensures customers == old(customers) && products == old(products) && nextProductId == old(nextProductId)
    {
      orders := orders[id := o];
    }

    /** `order.products.set(products)`: replaces the order's related products. */
    method SetOrderProducts(id: int, ps: set<int>)
      requires 0 <= id < |orders|
      modifies this
      ensures orders == old(orders)[id := old(orders)[id].(products := ps)]
      ensures customers == old(customers) && products == old(products) && nextProductId == old(nextProductId)
    {
      orders := orders[id := orders[id].(products := ps)];
    }
  }
}
