# GraphQL CRM mutations, modelled in Dafny

The repository is a small Django/graphene CRM with three tables: Customer
(name, unique email, optional phone), Product (name, price, stock) and
Order (customer, a set of products, total amount, order date). Its logic
sits in four GraphQL mutations. The repository has them twice, in
`schema.py` and in the relay/filter variant `crm/schema.py`:

- **CreateCustomer** runs both checks, email uniqueness then phone format,
  and collects their errors. It saves nothing if either fails.
- **BulkCreateCustomers** handles rows in input order. A valid row is
  saved at once, so later rows of the same batch see its email. A failing
  row adds one `"Row k: ..."` error, with k counted from 1.
- **CreateProduct** runs the price check and the stock check, and saves
  the product only if both pass. Stock defaults to 0 when not given.
- **CreateOrder** returns at the first failing gate: the customer must
  exist, the id list must not be empty, and every requested id must
  resolve to a different stored product. It then stores the order with
  the sum of the resolved prices and the resolved product set.

The model has these modules:

- `Wrappers` holds `Option`.
- `Digits` holds the ASCII digit predicate that the pattern's `\d` and
  the row numbers share.
- `Decimal` writes a natural number in decimal and reads it back.
- `Phone` codes the pattern `^\+?\d[\d\-]{7,}$` by hand.
- `Store` holds:
  - the entities;
  - the `EntityStore` class, whose fields are the tables and whose
    methods are the persistence operations the mutations call;
  - `Resolve`, which models `filter(id__in=...)`;
  - the stored-data invariant `ConsistentState`.
- `Mutations` holds the specification functions and the lemmas about
  them.
- `Schema` and `CrmSchema` hold the two variants' mutations, as methods
  on an `EntityStore`.

The two variants differ in how rows reach the store:

- `schema.py` builds a row in memory and then saves it.
- `crm/schema.py` calls `objects.create` and then saves the row a second
  time. Its bulk path appends the customer to the result list before
  that second save.

Both variants are proved against the same functions in `Mutations`,
which shows they return the same results and leave the same store.

Every method's contract covers:

- the error list it returns;
- what it returns besides the errors. CreateCustomer, CreateProduct and
  CreateOrder return the entity and its new id, and CreateCustomer also
  returns its message. BulkCreateCustomers returns the created customers;
- the whole new state of the store: unchanged on failure, and nothing
  touched beyond the rows the call saves. CreateCustomer, CreateProduct
  and CreateOrder add exactly one row on success. BulkCreateCustomers
  appends one customer per saved input row, in input order.

Email uniqueness, and the full stored-data invariant `ConsistentState`,
survive every mutation when the mutations run one at a time. Each method
is modelled as running alone on the store; interleaved requests are not
modelled (see "## Left out").

## Model

| member | source | states |
|---|---|---|
| Phone.Matches | schema.py:64 | `re.match` of the anchored pattern; its meaning is stated by Phone.AcceptsPattern and Phone.MatchesNewlines |
| Phone.Accepts | crm/schema.py:79 | the phone check `not (phone and not re.match(...))`; its meaning is stated by Phone.AcceptsPattern |
| Phone.AcceptsPattern | schema.py:64 | an absent or empty phone is accepted; any other phone is accepted exactly when it is an optional `+`, one digit and seven or more digits/hyphens, possibly followed by a single newline |
| Phone.FullMatchIsPattern | schema.py:64 | a phone passes the anchored pattern exactly when it is an optional `+`, one digit, then seven or more characters that are each a digit or `-` |
| Phone.MatchesNewlines | schema.py:64 | like Python's `$`, the match allows one final newline and no other newline anywhere |
| Phone.ComposedMatches | schema.py:64 | one digit followed by a run of seven or more digits/hyphens matches, with or without a leading `+` |
| Phone.AcceptedInternational | schema.py:65 | `+1234567890`, the first format the error message names, is accepted |
| Phone.AcceptedHyphenated | crm/schema.py:80 | `123-456-7890`, the second format the error message names, is accepted |
| Phone.AcceptedUnchecked | crm/schema.py:79 | a missing phone and an empty phone are not checked; a phone with a single trailing newline passes |
| Phone.RejectedExamples | schema.py:64 | `12345`, `+1234567` (too few characters after the sign) and a phone ending in two newlines are rejected |
| Decimal.NatToString | schema.py:108 | `str(i+1)`: a non-empty string of decimal digits with no leading zero |
| Decimal.ParseNatToString | schema.py:108 | reading `str(n)` back gives `n` |
| Decimal.NatToStringInjective | schema.py:108 | different row numbers give different strings |
| Store.UniqueEmailsSnoc | schema.py:60-61 | appending a customer keeps emails unique exactly when the new email is not stored yet |
| Store.ConsistentAddCustomer | schema.py:60-71 | saving a customer whose email is new and whose phone passes keeps every stored-data invariant |
| Store.Resolve | schema.py:163 | `filter(id__in=ids)` returns distinct rows: exactly the requested ids that are stored, and never more rows than ids |
| Store.ResolveCount | schema.py:163-164 | the number of rows equals the number of requested ids exactly when the ids are distinct and all stored |
| Store.ResolveAll | crm/schema.py:178-179 | when every requested id is a distinct stored product, the rows are the requested ids |
| Store.EntityStore.ExistsByEmail | schema.py:60 | true exactly when some stored customer has the email |
| Store.EntityStore.GetCustomer | schema.py:152-156 | `Customer.objects.get(id=...)`: the customer at that id, or `None` for `DoesNotExist` |
| Store.EntityStore.FilterProducts | crm/schema.py:178 | `Product.objects.filter(id__in=ids)` is Resolve over the products stored at the call |
| Store.EntityStore.InsertCustomer | schema.py:70-71 | saving a new row appends exactly that customer and changes no other table |
| Store.EntityStore.UpdateCustomer | crm/schema.py:85-86 | saving a stored customer again replaces only that row |
| Store.EntityStore.InsertProduct | schema.py:133-134 | a new product is stored under the next auto-increment id, which was unused |
| Store.EntityStore.UpdateProduct | crm/schema.py:148-149 | saving a stored product again replaces only that entry |
| Store.EntityStore.InsertOrder | schema.py:171-176 | saving a new order row appends exactly that order |
| Store.EntityStore.UpdateOrder | crm/schema.py:186-191 | saving a stored order again replaces only that row |
| Store.EntityStore.SetOrderProducts | schema.py:177 | `order.products.set(...)` replaces that order's product set and nothing else |
| Mutations.CustomerErrors | schema.py:57-67 | empty exactly when the email is new and the phone passes; each message is present exactly when its check fails; the email error comes first, the phone error last |
| Mutations.ProductErrors | schema.py:124-130 | empty exactly when price > 0 and stock >= 0; each message is present exactly when its check fails; the price error comes before the stock error |
| Mutations.DuplicateEmail | schema.py:97 | the text `"Duplicate email: <email>"`; Mutations.RowErrorTexts states its properties |
| Mutations.InvalidPhoneFor | schema.py:101 | the text `"Invalid phone format for <email>"`; Mutations.RowErrorTexts states its properties |
| Mutations.RowErrorTexts | crm/schema.py:112-116 | both row errors end with the row's email, and the two never coincide |
| Mutations.RowMessage | schema.py:108 | the text `f"Row {i+1}: {str(e)}"`; Mutations.RowMessageRoundTrip and Mutations.RowMessageKeepsMessage state its properties |
| Mutations.RowMessageKeepsMessage | crm/schema.py:123 | a bulk error ends with the row's own error text |
| Mutations.RowMessageRoundTrip | schema.py:108 | the row number can be read back from every `"Row k: ..."` error |
| Mutations.RowError | schema.py:95-101 | the `try` block's two checks for one row: any error it gives is the duplicate-email text or the invalid-phone text for the row's email |
| Mutations.RowErrorChecks | schema.py:96-101 | a row is saved exactly when its email is new and its phone passes; a stored email is reported as a duplicate whatever the phone, and the phone message is given only for a new email |
| Mutations.Bulk | schema.py:93-110 | every row is either created or reported: the two counts sum to the number of rows |
| Mutations.BulkSnoc | crm/schema.py:108-123 | one more row checks against everything saved before it and adds either that customer or one `"Row k: ..."` error |
| Mutations.BulkIsSavedAndReported | schema.py:93-108 | the created list holds the rows with no error and the error list holds the others' messages |
| Mutations.OutcomeOfRow | schema.py:96-105 | each row is judged against the customers stored before the batch plus those its earlier rows saved |
| Mutations.SavedInOrder | schema.py:103-105 | the created customers are the saved rows' customers, in input order |
| Mutations.ReportedInOrder | schema.py:107-108 | the errors are the failing rows' messages in input order, each prefixed by its 1-based row number |
| Mutations.PositionsOfKind | schema.py:93-108 | the positions of saved (failing) rows are exactly the rows without (with) an error |
| Mutations.PositionsCount | schema.py:93-108 | every row is either saved or failing |
| Mutations.PositionsIncreasing | schema.py:93-108 | the positions of either kind increase, so each list follows input order |
| Mutations.RowAccounting | crm/schema.py:108-125 | for any outcome per row, saving the rows without an error and reporting the others is `Accounted`: every row in exactly one list, both lists in input order, created customers equal to their rows, and each error equal to `"Row k: "` plus that row's error text |
| Mutations.BulkAccounting | schema.py:93-110 | every bulk import is `Accounted` against its rows' outcomes, with the clauses listed for Mutations.RowAccounting |
| Mutations.BulkCreatedFresh | schema.py:96-105 | the created customers' emails are new to the store and to each other, and their phones pass |
| Mutations.BulkKeepsUnique | schema.py:96-97 | a bulk import keeps emails unique |
| Mutations.BulkKeepsConsistent | crm/schema.py:111-120 | a bulk import keeps every stored-data invariant |
| Mutations.BulkCreatedGrows | schema.py:103-105 | customers saved by earlier rows remain, in front, for later rows |
| Mutations.BulkRepeatedEmail | crm/schema.py:111-112 | a row whose email an earlier row of the same batch saved fails with `"Duplicate email: <email>"` |
| Mutations.BulkExample | schema.py:93-110 | three rows where the second repeats the first's email: the first and third are created, and the only error is `"Row 2: Duplicate email: ..."` |
| Mutations.Total | schema.py:169 | `sum(p.price for p in products)`; Mutations.TotalConcat, Mutations.TotalPermutation and Mutations.TotalPositive state its properties |
| Mutations.TotalConcat | schema.py:169 | the total of two lists of products is the sum of their totals |
| Mutations.TotalRemove | crm/schema.py:184 | taking one product out of a list takes its price out of the total |
| Mutations.TotalPermutation | schema.py:163-169 | any other order of the same rows, such as the database's own order, has the same total |
| Mutations.TotalPositive | schema.py:169 | with positive prices, the total of a non-empty order is positive |
| Mutations.OrderErrors | schema.py:152-166 | the gates short-circuit in order, and a failing gate gives exactly its one message |
| Mutations.OrderDate | schema.py:174 | the given order date, or "now" when none is given |
| Mutations.OrderGates | crm/schema.py:167-181 | an order passes exactly when the customer exists and the ids are a non-empty list of distinct stored products; a repeated id or an unknown id gives `["Some product IDs are invalid"]` |
| Mutations.AcceptedOrder | schema.py:163-177 | for an accepted order the total is the sum of the requested products' prices, and the product set is the set of requested ids |
| Mutations.TwoProductOrder | crm/schema.py:178-192 | an order of two distinct stored products is accepted and costs their two prices |
| Schema.CreateCustomer | schema.py:56-72 | errors as CustomerErrors; on error: null, "Validation failed", store unchanged; on success: exactly one customer added, its id returned, "Customer created successfully"; uniqueness and invariants kept |
| Schema.BulkCreateCustomers | schema.py:89-110 | the result is Bulk of the store's customers before the call, and exactly the created customers are appended; other tables unchanged; uniqueness and invariants kept |
| Schema.CreateProduct | schema.py:123-135 | stock defaults to 0; errors as ProductErrors; on error: null, store unchanged; on success: exactly one product added under a new id, which is returned |
| Schema.CreateOrder | schema.py:148-179 | errors as OrderErrors; on error: store unchanged; on success: exactly one order appended with the resolved product set, their price total and the date, and its id returned; customers and products (stock included) unchanged |
| CrmSchema.CreateCustomer | crm/schema.py:71-87 | the same contract as Schema.CreateCustomer, with create-then-save |
| CrmSchema.BulkCreateCustomers | crm/schema.py:104-125 | the same contract as Schema.BulkCreateCustomers, with append-before-save |
| CrmSchema.CreateProduct | crm/schema.py:138-150 | the same contract as Schema.CreateProduct, with create-then-save |
| CrmSchema.CreateOrder | crm/schema.py:163-194 | the same contract as Schema.CreateOrder, with create-then-save |

## Left out

- GraphQL types, their `Meta` field lists and the query resolvers (including `order_by`, the filter connection fields and relay pagination) are framework wiring with no logic of their own.
- The `transaction.atomic` decorator and the rollback it gives on an unexpected database failure are not modelled. The store never fails, so in the model `except Exception` catches only the two validation errors. In the source it also catches database errors, and the `AttributeError` a null row raises (next line).
- Concurrent requests are not modelled: each mutation runs alone on the store, so email uniqueness is proved only for calls made one after another. In the source the email check and the save are separate database calls with no lock between them (schema.py:60 then 70-71, crm/schema.py:75 then 85; schema.py:96 then 104 in the bulk loop), and `transaction.atomic` does not serialise those reads. Two requests with the same new email can both pass the check and both save. Any unique constraint the database itself enforces is not modelled either.
- Null bulk rows are not modelled. `graphene.List(CustomerInput, required=True)` (schema.py:83, crm/schema.py:98) allows null items. For such an item, `data.email` raises `AttributeError`, and the row gets `"Row k: 'NoneType' object has no attribute 'email'"`. The model's input is a sequence of rows, which has no null row.
- Schema.BulkCreateCustomers: the created customers are returned without their ids. Their ids follow from the contract: they are the positions after the customers stored before the call.
- The database engine's own row order is not modelled. `Resolve` lists rows in the order their ids first occur; the workflows use only the rows' count, set and price sum, which do not depend on the order (for the sum, Mutations.TotalPermutation).
- Schema.CreateProduct: prices are whole numbers (the smallest currency unit), not Python floats, so float rounding in the price check and the total is not modelled.
- Mutations.OrderDate: `timezone.now()` is the parameter `now` given by the caller; time zones and the datetime type are not modelled (timestamps are integers).
- Schema.CreateOrder: customer and product ids are integers. A GraphQL ID that is not numeric makes Django raise `ValueError` rather than `DoesNotExist`; that path is not modelled.
- Customer and order ids are their 0-based positions in their tables, and product ids come from a counter starting at 0; Django's ids start at 1. Deletion is not part of the core, so positions stay stable.
- models.py is not part of this model: fields such as creation timestamps and database-level constraints are not modelled. The stored-data invariant `ConsistentState` states the constraints the mutations rely on, and each mutation preserves it.
- Phone.Matches: `\d` is modelled as the ASCII digits 0-9. Python's `re` also matches other Unicode decimal digits in str patterns.
- `crm/schema.py` uses `re`, `transaction` and `timezone` without importing them (lines 1-5 against lines 79, 103, 115 and 189), so the module would fail to load. The model gives it the behaviour those imports evidently intend, which is the same as `schema.py`.
- `seed.py` is a one-off script that creates fixed rows; it is not modelled.
- CreateOrder does not decrement product stock, and neither does the model; its contract states that products are unchanged.
