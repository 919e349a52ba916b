/**
  The four mutations of `crm/schema.py`, the relay/filter variant. They
  differ from module Schema only in how rows reach the store: each row is
  inserted by `objects.create(...)` and then saved a second time, and the
  bulk import appends a customer to its result list before that second
  save. They are proved against the same specification in module
  Mutations, so both variants promise the same results and the same new
  store.
 */
module CrmSchema {

  import opened Wrappers
  import opened Store
  import opened Mutations
  import Phone

  /** CreateCustomer: both checks run and their errors accumulate; on any error nothing is written. */
  method CreateCustomer(store: EntityStore, name: string, email: string, phone: Option<string>)
    returns (customer: Option<Customer>, id: Option<int>, message: string, errors: seq<string>)
    modifies store
    ensures errors == CustomerErrors(email in EmailsOf(old(store.customers)), phone)
    ensures errors != [] ==>
      customer == None && id == None && message == VALIDATION_FAILED && store.customers == old(store.customers)
    ensures errors == [] ==>
      && customer == Some(Customer(name, email, phone)) && message == CUSTOMER_CREATED
      && id == Some(|old(store.customers)|)
      && store.customers == old(store.customers) + [Customer(name, email, phone)]
    ensures store.products == old(store.products) && store.nextProductId == old(store.nextProductId)
    ensures store.orders == old(store.orders)
    ensures UniqueEmails(old(store.customers)) ==> UniqueEmails(store.customers)
    ensures old(store.Consistent()) ==> store.Consistent()
  {
    errors := [];
    if store.ExistsByEmail(email) {
      errors := errors + [EMAIL_EXISTS];
    }
    if phone.Some? && phone.value != "" && !Phone.Matches(phone.value) {
      errors := errors + [INVALID_PHONE];
    }
    if errors != [] {
      return None, None, VALIDATION_FAILED, errors;
    }
    var fields := Customer(name, email, phone);
    if UniqueEmails(store.customers) {
      UniqueEmailsSnoc(store.customers, fields);
    }
    if store.Consistent() {
      ConsistentAddCustomer(store.customers, store.products, store.orders, fields);
    }
    var newId := store.InsertCustomer(fields);
    var created := store.customers[newId];
    store.UpdateCustomer(newId, created);
    return Some(created), Some(newId), CUSTOMER_CREATED, [];
  }

  /**
    BulkCreateCustomers: rows are handled in input order; a row that
    passes both checks is created at once, so later rows of the same batch
    see its email; a row that fails adds one `"Row k: ..."` error.
   */
  method BulkCreateCustomers(store: EntityStore, input: seq<CustomerInput>)
    returns (customers: seq<Customer>, errors: seq<string>)
    modifies store
    ensures BulkResult(customers, errors) == Bulk(old(store.customers), input)
    ensures store.customers == old(store.customers) + customers
    ensures store.products == old(store.products) && store.nextProductId == old(store.nextProductId)
    ensures store.orders == old(store.orders)
    ensures UniqueEmails(old(store.customers)) ==> UniqueEmails(store.customers)
    ensures old(store.Consistent()) ==> store.Consistent()
  {
    ghost var existing := store.customers;
    customers, errors := [], [];
    for i := 0 to |input|
      invariant BulkResult(customers, errors) == Bulk(existing, input[..i])
      invariant store.customers == existing + customers
      invariant store.products == old(store.products) && store.nextProductId == old(store.nextProductId)
      invariant store.orders == old(store.orders)
    {
      var data := input[i];
      assert input[..i + 1] == input[..i] + [data];
      BulkSnoc(existing, input[..i], data);
      if store.ExistsByEmail(data.email) {
        errors := errors + [RowMessage(i + 1, DuplicateEmail(data.email))];
      } else if data.phone.Some? && data.phone.value != "" && !Phone.Matches(data.phone.value) {
        errors := errors + [RowMessage(i + 1, InvalidPhoneFor(data.email))];
      } else {
        var fields := Customer(data.name, data.email, data.phone);
        var newId := store.InsertCustomer(fields);
        var c := store.customers[newId];
        customers := customers + [c];
        store.UpdateCustomer(newId, c);
      }
    }
    assert input[..|input|] == input;
    if UniqueEmails(existing) {
      BulkKeepsUnique(existing, input);
    }
    if old(store.Consistent()) {
      BulkKeepsConsistent(existing, store.products, store.orders, input);
    }
  }

  /** CreateProduct: the price and the stock checks both run; on any error nothing is written. */
  method CreateProduct(store: EntityStore, name: string, price: int, stock: int := 0)
    returns (product: Option<Product>, id: Option<int>, errors: seq<string>)
    requires store.Valid()
    modifies store
    ensures store.Valid()
    ensures errors == ProductErrors(price, stock)
    ensures errors != [] ==>
      product == None && id == None && store.products == old(store.products) && store.nextProductId == old(store.nextProductId)
    ensures errors == [] ==>
      && product == Some(Product(name, price, stock)) && id == Some(old(store.nextProductId))
      && old(store.nextProductId) !in old(store.products)
      && store.products == old(store.products)[old(store.nextProductId) := Product(name, price, stock)]
      && store.nextProductId == old(store.nextProductId) + 1
    ensures store.customers == old(store.customers) && store.orders == old(store.orders)
    ensures old(store.Consistent()) ==> store.Consistent()
  {
    errors := [];
    if price <= 0 {
      errors := errors + [PRICE_NOT_POSITIVE];
    }
    if stock < 0 {
      errors := errors + [NEGATIVE_STOCK];
    }
    if errors != [] {
      return None, None, errors;
    }
    var newId := store.InsertProduct(Product(name, price, stock));
    var created := store.products[newId];
    store.UpdateProduct(newId, created);
    return Some(created), Some(newId), [];
  }

  /**
    CreateOrder: three gates with early return (customer, non-empty list,
    every id resolved once); then the order is created with the total of
    the resolved prices, saved again, and the resolved products are
    attached to it. Product stock is not touched.
   */
  method CreateOrder(store: EntityStore, customerId: int, productIds: seq<int>, orderDate: Option<int>, now: int)
    returns (order: Option<Order>, id: Option<int>, errors: seq<string>)
    modifies store
    ensures errors == OrderErrors(0 <= customerId < |old(store.customers)|, productIds,
                                  Resolve(productIds, old(store.products)))
    ensures errors != [] ==> order == None && id == None && store.orders == old(store.orders)
    ensures errors == [] ==>
      var rows := Resolve(productIds, old(store.products));
      && order == Some(Order(customerId, SetOf(rows), Total(rows, old(store.products)), OrderDate(orderDate, now)))
      && store.orders == old(store.orders) + [order.value] && id == Some(|old(store.orders)|)
    ensures store.customers == old(store.customers) && store.products == old(store.products)
    ensures store.nextProductId == old(store.nextProductId)
    ensures old(store.Consistent()) ==> store.Consistent()
  {
    errors := [];
    var customer := store.GetCustomer(customerId);
    if customer.None? {
      errors := errors + [INVALID_CUSTOMER_ID];
      return None, None, errors;
    }
    if productIds == [] {
      errors := errors + [NO_PRODUCTS];
      return None, None, errors;
    }
    var products := store.FilterProducts(productIds);
    if |products| != |productIds| {
      errors := errors + [INVALID_PRODUCT_IDS];
      return None, None, errors;
    }
    var totalAmount := Total(products, store.products);
    var fields := Order(customerId, {}, totalAmount, OrderDate(orderDate, now));
    ghost var final := fields.(products := SetOf(products));
    assert products[0] in SetOf(products);
    if store.Consistent() {
      ConsistentAddOrder(store.customers, store.products, store.orders, final);
    }
    var newId := store.InsertOrder(fields);
    store.UpdateOrder(newId, store.orders[newId]);
    store.SetOrderProducts(newId, SetOf(products));
    assert store.orders == old(store.orders) + [final];
    return Some(store.orders[newId]), Some(newId), [];
  }
}
