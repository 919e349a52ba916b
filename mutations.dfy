/**
  What the four mutation workflows compute, as functions of the store they
  start from: the ordered error lists of CreateCustomer and CreateProduct,
  the per-row outcome of BulkCreateCustomers, and the gates and total of
  CreateOrder. Both schema variants are proved against these definitions.
 */
module Mutations {

  import opened Wrappers
  import opened Decimal
  import opened Store
  import Phone

  const EMAIL_EXISTS := "Email already exists"
  const INVALID_PHONE := "Invalid phone format (use +1234567890 or 123-456-7890)"
  const VALIDATION_FAILED := "Validation failed"
  const CUSTOMER_CREATED := "Customer created successfully"
  const PRICE_NOT_POSITIVE := "Price must be positive"
  const NEGATIVE_STOCK := "Stock cannot be negative"
  const INVALID_CUSTOMER_ID := "Invalid customer ID"
  const NO_PRODUCTS := "At least one product must be provided"
  const INVALID_PRODUCT_IDS := "Some product IDs are invalid"

  // ---------- CreateCustomer ----------

  /**
    Both checks always run: the uniqueness error first, then the phone
    error. The customer is created exactly when the list is empty.
   */
  function CustomerErrors(emailTaken: bool, phone: Option<string>): (errors: seq<string>)
    ensures errors == [] <==> !emailTaken && Phone.Accepts(phone)
    ensures |errors| == (if emailTaken then 1 else 0) + (if Phone.Accepts(phone) then 0 else 1)
    ensures (EMAIL_EXISTS in errors <==> emailTaken) && (INVALID_PHONE in errors <==> !Phone.Accepts(phone))
    ensures emailTaken ==> errors[0] == EMAIL_EXISTS
    ensures !Phone.Accepts(phone) ==> errors[|errors| - 1] == INVALID_PHONE
  {
    (if emailTaken then [EMAIL_EXISTS] else []) + (if Phone.Accepts(phone) then [] else [INVALID_PHONE])
  }

  // ---------- CreateProduct ----------

  /** Both checks always run: the price error (price <= 0) before the stock error (stock < 0). */
  function ProductErrors(price: int, stock: int): (errors: seq<string>)
    ensures errors == [] <==> price > 0 && stock >= 0
    ensures |errors| == (if price <= 0 then 1 else 0) + (if stock < 0 then 1 else 0)
    ensures (PRICE_NOT_POSITIVE in errors <==> price <= 0) && (NEGATIVE_STOCK in errors <==> stock < 0)
    ensures price <= 0 ==> errors[0] == PRICE_NOT_POSITIVE
    ensures stock < 0 ==> errors[|errors| - 1] == NEGATIVE_STOCK
  {
    (if price <= 0 then [PRICE_NOT_POSITIVE] else []) + (if stock < 0 then [NEGATIVE_STOCK] else [])
  }

  // ---------- BulkCreateCustomers ----------

  datatype CustomerInput = CustomerInput(name: string, email: string, phone: Option<string>)

  datatype BulkResult = BulkResult(created: seq<Customer>, errors: seq<string>)

  function NewCustomer(row: CustomerInput): Customer {
    Customer(row.name, row.email, row.phone)
  }

  function DuplicateEmail(email: string): string {
    "Duplicate email: " + email
  }

  function InvalidPhoneFor(email: string): string {
    "Invalid phone format for " + email
  }

  const ROW_PREFIX := "Row "
  const ROW_SEPARATOR := ": "

  /** `f"Row {k}: {message}"`. */
  function RowMessage(k: nat, message: string): string {
    ROW_PREFIX + NatToString(k) + ROW_SEPARATOR + message
  }

  /** Reads the row number back from a `"Row k: ..."` message. */
  function ParseRowNumber(s: string): Option<nat> {
    if |s| < |ROW_PREFIX| || s[..|ROW_PREFIX|] != ROW_PREFIX then None
    else
      var rest := s[|ROW_PREFIX|..];
      var digits := LeadingDigits(rest);
      var after := rest[|digits|..];
      if digits != [] && |after| >= |ROW_SEPARATOR| && after[..|ROW_SEPARATOR|] == ROW_SEPARATOR
      then Some(ParseNat(digits))
      else None
  }

  /** The two row errors name the row's email last, and they never coincide. */
  lemma RowErrorTexts(email: string)
    ensures var duplicate := DuplicateEmail(email);
      |duplicate| > |email| && duplicate[|duplicate| - |email|..] == email
    ensures var invalid := InvalidPhoneFor(email);
      |invalid| > |email| && invalid[|invalid| - |email|..] == email
    ensures DuplicateEmail(email) != InvalidPhoneFor(email)
  {
    assert DuplicateEmail(email)[0] == 'D' && InvalidPhoneFor(email)[0] == 'I';
  }

  /** A bulk error ends with the row's own message, `str(e)`. */
  lemma RowMessageKeepsMessage(k: nat, message: string)
    ensures var s := RowMessage(k, message);
      |s| > |message| && s[|s| - |message|..] == message
  {
    var head := ROW_PREFIX + NatToString(k) + ROW_SEPARATOR;
    assert RowMessage(k, message) == head + message;
  }

  /** Every bulk error names the row it belongs to. */
  lemma RowMessageRoundTrip(k: nat, message: string)
    ensures ParseRowNumber(RowMessage(k, message)) == Some(k)
  {
    var digits := NatToString(k);
    var tail := ROW_SEPARATOR + message;
    var s := ROW_PREFIX + (digits + tail);
    assert s == RowMessage(k, message);
    assert s[..|ROW_PREFIX|] == ROW_PREFIX && s[|ROW_PREFIX|..] == digits + tail;
    assert tail[0] == ':';
    LeadingDigitsOfConcat(digits, tail);
    assert (digits + tail)[|digits|..] == tail;
    assert tail[..|ROW_SEPARATOR|] == ROW_SEPARATOR;
    ParseNatToString(k);
  }

  /**
    The single error of one bulk row, judged against the customers stored
    when the row is reached: the email check runs first, the phone check
    only when the email is new.
   */
  function RowError(stored: seq<Customer>, row: CustomerInput): (error: Option<string>)
    ensures error.Some? ==> error.value == DuplicateEmail(row.email) || error.value == InvalidPhoneFor(row.email)
  {
    if row.email in EmailsOf(stored) then Some(DuplicateEmail(row.email))
    else if !Phone.Accepts(row.phone) then Some(InvalidPhoneFor(row.email))
    else None
  }

  /**
    A row is saved exactly when its email is new and its phone is
    accepted; a stored email is reported as a duplicate whatever the phone,
    and the phone message is given only for a new email.
   */
  lemma RowErrorChecks(stored: seq<Customer>, row: CustomerInput)
    ensures RowError(stored, row).None? <==>
      (forall i :: 0 <= i < |stored| ==> stored[i].email != row.email) && Phone.Accepts(row.phone)
    ensures (exists i :: 0 <= i < |stored| && stored[i].email == row.email) ==>
      RowError(stored, row) == Some(DuplicateEmail(row.email))
    ensures (forall i :: 0 <= i < |stored| ==> stored[i].email != row.email) && !Phone.Accepts(row.phone) ==>
      RowError(stored, row) == Some(InvalidPhoneFor(row.email))
  {
    if row.email in EmailsOf(stored) {
      var i :| 0 <= i < |stored| && stored[i].email == row.email;
    }
  }

  /**
    The rows processed in order: a row without error is saved before the
    next row is checked, so later rows see it; a row with an error adds
    `"Row k: ..."` (k counted from 1) and saves nothing.
   */
  function Bulk(existing: seq<Customer>, rows: seq<CustomerInput>): (r: BulkResult)
    ensures |r.created| + |r.errors| == |rows|
    decreases |rows|
  {
    if rows == [] then BulkResult([], [])
    else
      var done := Bulk(existing, rows[..|rows| - 1]);
      var row := rows[|rows| - 1];
      match RowError(existing + done.created, row)
      case Some(message) => BulkResult(done.created, done.errors + [RowMessage(|rows|, message)])
      case None => BulkResult(done.created + [NewCustomer(row)], done.errors)
  }

  /** Bulk over one more row: the definition read from the front of the batch. */
  lemma BulkSnoc(existing: seq<Customer>, rows: seq<CustomerInput>, row: CustomerInput)
    ensures var done := Bulk(existing, rows);
      Bulk(existing, rows + [row]) ==
        match RowError(existing + done.created, row)
        case Some(message) => BulkResult(done.created, done.errors + [RowMessage(|rows| + 1, message)])
        case None => BulkResult(done.created + [NewCustomer(row)], done.errors)
  {
    assert (rows + [row])[..|rows|] == rows;
  }

  /**
    The outcome of every row, judged against the customers stored when the
    row is reached: its error, or None when it is saved.
   */
  ghost function Outcomes(existing: seq<Customer>, rows: seq<CustomerInput>): (outcomes: seq<Option<string>>)
    ensures |outcomes| == |rows|
    decreases |rows|
  {
    if rows == [] then []
    else
      var init := rows[..|rows| - 1];
      Outcomes(existing, init) + [RowError(existing + Bulk(existing, init).created, rows[|rows| - 1])]
  }

  /** The customers of the rows whose outcome is None, in input order. */
  function Saved(rows: seq<CustomerInput>, outcomes: seq<Option<string>>): seq<Customer>
    requires |outcomes| == |rows|
    decreases |rows|
  {
    if rows == [] then []
    else
      var n := |rows|;
      Saved(rows[..n - 1], outcomes[..n - 1]) + (if outcomes[n - 1].None? then [NewCustomer(rows[n - 1])] else [])
  }

  /** The `"Row k: ..."` messages of the rows whose outcome is an error, in input order. */
  function Reported(outcomes: seq<Option<string>>): seq<string>
    decreases |outcomes|
  {
    if outcomes == [] then []
    else
      var n := |outcomes|;
      Reported(outcomes[..n - 1]) + (if outcomes[n - 1].Some? then [RowMessage(n, outcomes[n - 1].value)] else [])
  }

  /** The (0-based) positions of the saved rows (`saved`) or of the failing rows (`!saved`). */
  function Positions(outcomes: seq<Option<string>>, saved: bool): seq<nat>
    decreases |outcomes|
  {
    if outcomes == [] then []
    else
      var n := |outcomes|;
      Positions(outcomes[..n - 1], saved) + (if outcomes[n - 1].None? == saved then [n - 1] else [])
  }

  predicate Increasing(s: seq<nat>) {
    forall j, k :: 0 <= j < k < |s| ==> s[j] < s[k]
  }

  /** One more row adds its position at the end of the list of its kind. */
  lemma PositionsSnoc(outcomes: seq<Option<string>>, saved: bool)
    requires outcomes != []
    ensures var n := |outcomes|;
      Positions(outcomes, saved) == Positions(outcomes[..n - 1], saved) + (if outcomes[n - 1].None? == saved then [n - 1] else [])
  {
  }

  /** The positions of either kind are increasing and are row positions. */
  lemma {:induction false} PositionsIncreasing(outcomes: seq<Option<string>>, saved: bool)
    ensures var ps := Positions(outcomes, saved);
      && Increasing(ps)
      && (forall j :: 0 <= j < |ps| ==> ps[j] < |outcomes|)
    decreases |outcomes|
  {
    if outcomes != [] {
      var n := |outcomes|;
      var earlier := Positions(outcomes[..n - 1], saved);
      PositionsIncreasing(outcomes[..n - 1], saved);
      PositionsSnoc(outcomes, saved);
      var ps := Positions(outcomes, saved);
      assert forall j :: 0 <= j < |earlier| ==> ps[j] == earlier[j];
    }
  }

  /** The positions of either kind name exactly the rows of that kind. */
  lemma {:induction false} PositionsOfKind(outcomes: seq<Option<string>>, saved: bool)
    ensures forall i :: 0 <= i < |outcomes| ==> (i in Positions(outcomes, saved) <==> outcomes[i].None? == saved)
    decreases |outcomes|
  {
    if outcomes != [] {
      var n := |outcomes|;
      var init := outcomes[..n - 1];
      var earlier := Positions(init, saved);
      PositionsOfKind(init, saved);
      PositionsIncreasing(init, saved);
      PositionsSnoc(outcomes, saved);
      var ps := Positions(outcomes, saved);
      forall i | 0 <= i < n ensures i in ps <==> outcomes[i].None? == saved {
        if i < n - 1 {
          assert i in ps <==> i in earlier;
          assert init[i] == outcomes[i];
        } else {
          assert n - 1 in ps <==> outcomes[n - 1].None? == saved by {
            assert n - 1 !in earlier;
          }
        }
      }
    }
  }

  /** Every row is of exactly one kind. */
  lemma {:induction false} PositionsCount(outcomes: seq<Option<string>>)
    ensures |Positions(outcomes, true)| + |Positions(outcomes, false)| == |outcomes|
    decreases |outcomes|
  {
    if outcomes != [] {
      PositionsCount(outcomes[..|outcomes| - 1]);
      PositionsSnoc(outcomes, true);
      PositionsSnoc(outcomes, false);
    }
  }

  /** The saved customers are the saved rows, in input order. */
  lemma {:induction false} SavedInOrder(rows: seq<CustomerInput>, outcomes: seq<Option<string>>)
    requires |outcomes| == |rows|
    ensures var ps := Positions(outcomes, true);
      var created := Saved(rows, outcomes);
      && |ps| == |created|
      && forall j :: 0 <= j < |ps| ==> ps[j] < |rows| && created[j] == NewCustomer(rows[ps[j]])
    decreases |rows|
  {
    PositionsIncreasing(outcomes, true);
    if rows != [] {
      var n := |rows|;
      var init := outcomes[..n - 1];
      SavedInOrder(rows[..n - 1], init);
      var earlier := Positions(init, true);
      PositionsIncreasing(init, true);
      PositionsSnoc(outcomes, true);
      var ps := Positions(outcomes, true);
      var created := Saved(rows, outcomes);
      forall j | 0 <= j < |ps| ensures created[j] == NewCustomer(rows[ps[j]]) {
        if j < |earlier| {
          assert ps[j] == earlier[j] && created[j] == Saved(rows[..n - 1], init)[j];
          assert rows[..n - 1][earlier[j]] == rows[earlier[j]];
        }
      }
    }
  }

  /** The errors are the failing rows' messages, in input order, each behind its 1-based row number. */
  lemma {:induction false} ReportedInOrder(outcomes: seq<Option<string>>)
    ensures var ps := Positions(outcomes, false);
      var errors := Reported(outcomes);
      && |ps| == |errors|
      && forall j :: 0 <= j < |ps| ==>
           ps[j] < |outcomes| && outcomes[ps[j]].Some? && errors[j] == RowMessage(ps[j] + 1, outcomes[ps[j]].value)
    decreases |outcomes|
  {
    PositionsIncreasing(outcomes, false);
    if outcomes != [] {
      var n := |outcomes|;
      var init := outcomes[..n - 1];
      ReportedInOrder(init);
      var earlier := Positions(init, false);
      PositionsIncreasing(init, false);
      PositionsSnoc(outcomes, false);
      var ps := Positions(outcomes, false);
      var errors := Reported(outcomes);
      forall j | 0 <= j < |ps|
        ensures outcomes[ps[j]].Some? && errors[j] == RowMessage(ps[j] + 1, outcomes[ps[j]].value)
      {
        if j < |earlier| {
          assert ps[j] == earlier[j] && errors[j] == Reported(init)[j];
          assert init[earlier[j]] == outcomes[earlier[j]];
        }
      }
    }
  }

  /** Bulk saves the rows whose outcome is None and reports the others. */
  lemma {:induction false} BulkIsSavedAndReported(existing: seq<Customer>, rows: seq<CustomerInput>)
    ensures Bulk(existing, rows) == BulkResult(Saved(rows, Outcomes(existing, rows)), Reported(Outcomes(existing, rows)))
    decreases |rows|
  {
    if rows != [] {
      var n := |rows|;
      var init := rows[..n - 1];
      BulkIsSavedAndReported(existing, init);
      var outcomes := Outcomes(existing, rows);
      assert outcomes[..n - 1] == Outcomes(existing, init);
    }
  }

  /** Row `i`'s outcome is judged against the customers saved by the rows before it. */
  lemma {:induction false} OutcomeOfRow(existing: seq<Customer>, rows: seq<CustomerInput>, i: nat)
    requires i < |rows|
    ensures Outcomes(existing, rows)[i] == RowError(existing + Bulk(existing, rows[..i]).created, rows[i])
    decreases |rows|
  {
    var n := |rows|;
    var init := rows[..n - 1];
    if i < n - 1 {
      OutcomeOfRow(existing, init, i);
      assert init[..i] == rows[..i] && init[i] == rows[i];
    }
  }

  /**
    The row accounting of a bulk result `r` for outcomes per row: every row
    is either saved or reported, never both; the saved customers are the
    saved rows in input order; the errors are the failing rows' messages in
    input order, each behind its 1-based row number (which reads back, by
    RowMessageRoundTrip).
   */
  predicate Accounted(rows: seq<CustomerInput>, outcomes: seq<Option<string>>, r: BulkResult) {
    var savedAt := Positions(outcomes, true);
    var failedAt := Positions(outcomes, false);
    && |outcomes| == |rows|
    && |r.created| + |r.errors| == |rows|
    && Increasing(savedAt) && Increasing(failedAt)
    && (forall i :: 0 <= i < |rows| ==> (i in savedAt <==> outcomes[i].None?))
    && (forall i :: 0 <= i < |rows| ==> (i in failedAt <==> outcomes[i].Some?))
    && |savedAt| == |r.created| && |failedAt| == |r.errors|
    && (forall j :: 0 <= j < |savedAt| ==> savedAt[j] < |rows| && r.created[j] == NewCustomer(rows[savedAt[j]]))
    && (forall j :: 0 <= j < |failedAt| ==>
          && failedAt[j] < |rows| && outcomes[failedAt[j]].Some?
          && r.errors[j] == RowMessage(failedAt[j] + 1, outcomes[failedAt[j]].value))
  }

  /** Saving the rows without an error and reporting the others is accounted for, whatever the outcomes. */
  lemma RowAccounting(rows: seq<CustomerInput>, outcomes: seq<Option<string>>)
    requires |outcomes| == |rows|
    ensures Accounted(rows, outcomes, BulkResult(Saved(rows, outcomes), Reported(outcomes)))
  {
    PositionsIncreasing(outcomes, true);
    PositionsIncreasing(outcomes, false);
    PositionsOfKind(outcomes, true);
    PositionsOfKind(outcomes, false);
    PositionsCount(outcomes);
    SavedInOrder(rows, outcomes);
    ReportedInOrder(outcomes);
  }

  /**
    Every bulk import is accounted for, row by row, against the outcomes of
    its rows; each row's outcome is its check against the customers saved
    before it (OutcomeOfRow).
   */
  lemma BulkAccounting(existing: seq<Customer>, rows: seq<CustomerInput>)
    ensures Accounted(rows, Outcomes(existing, rows), Bulk(existing, rows))
  {
    BulkIsSavedAndReported(existing, rows);
    RowAccounting(rows, Outcomes(existing, rows));
  }

  /** Saved rows carry emails that are new to the store and to each other, and accepted phones. */
  lemma {:induction false} BulkCreatedFresh(existing: seq<Customer>, rows: seq<CustomerInput>)
    ensures var created := Bulk(existing, rows).created;
      && UniqueEmails(created)
      && EmailsOf(created) !! EmailsOf(existing)
      && forall j :: 0 <= j < |created| ==> Phone.Accepts(created[j].phone)
    decreases |rows|
  {
    if rows != [] {
      var done := Bulk(existing, rows[..|rows| - 1]);
      var row := rows[|rows| - 1];
      BulkCreatedFresh(existing, rows[..|rows| - 1]);
      if RowError(existing + done.created, row).None? {
        var c := NewCustomer(row);
        EmailsOfConcat(existing, done.created);
        UniqueEmailsSnoc(done.created, c);
        EmailsOfSnoc(done.created, c);
        assert forall j :: 0 <= j < |done.created| ==> (done.created + [c])[j] == done.created[j];
      }
    }
  }

  /** Email uniqueness of the store survives a bulk import. */
  lemma {:induction false} BulkKeepsUnique(existing: seq<Customer>, rows: seq<CustomerInput>)
    requires UniqueEmails(existing)
    ensures UniqueEmails(existing + Bulk(existing, rows).created)
    decreases |rows|
  {
    if rows != [] {
      var done := Bulk(existing, rows[..|rows| - 1]);
      var row := rows[|rows| - 1];
      BulkKeepsUnique(existing, rows[..|rows| - 1]);
      if RowError(existing + done.created, row).None? {
        var c := NewCustomer(row);
        UniqueEmailsSnoc(existing + done.created, c);
        assert existing + (done.created + [c]) == (existing + done.created) + [c];
      }
    }
  }

  /** A bulk import keeps every stored-data invariant of the store. */
  lemma BulkKeepsConsistent(existing: seq<Customer>, products: map<int, Product>, orders: seq<Order>,
                            rows: seq<CustomerInput>)
    requires ConsistentState(existing, products, orders)
    ensures ConsistentState(existing + Bulk(existing, rows).created, products, orders)
  {
    var created := Bulk(existing, rows).created;
    BulkKeepsUnique(existing, rows);
    BulkCreatedFresh(existing, rows);
    var all := existing + created;
    forall i | 0 <= i < |all| ensures Phone.Accepts(all[i].phone) {
      if i >= |existing| {
        assert all[i] == created[i - |existing|];
      }
    }
  }

  /** The customers saved for a prefix of the rows are a prefix of those saved for a longer one. */
  lemma {:induction false} BulkCreatedGrows(existing: seq<Customer>, rows: seq<CustomerInput>, k: nat, m: nat)
    requires k <= m <= |rows|
    ensures Bulk(existing, rows[..k]).created <= Bulk(existing, rows[..m]).created
    decreases m - k
  {
    if k < m {
      BulkCreatedGrows(existing, rows, k, m - 1);
      assert rows[..m][..m - 1] == rows[..m - 1];
    }
  }

  /**
    An email saved by an earlier row of the same batch makes a later row
    with that email fail with the duplicate-email message.
   */
  lemma BulkRepeatedEmail(existing: seq<Customer>, rows: seq<CustomerInput>, i: nat, j: nat)
    requires i < j < |rows| && rows[i].email == rows[j].email
    requires Outcomes(existing, rows)[i].None?
    ensures Outcomes(existing, rows)[j] == Some(DuplicateEmail(rows[j].email))
  {
    OutcomeOfRow(existing, rows, i);
    OutcomeOfRow(existing, rows, j);
    var before := Bulk(existing, rows[..i]).created;
    assert rows[..i + 1] == rows[..i] + [rows[i]];
    BulkSnoc(existing, rows[..i], rows[i]);
    assert Bulk(existing, rows[..i + 1]).created == before + [NewCustomer(rows[i])];
    BulkCreatedGrows(existing, rows, i + 1, j);
    var seen := Bulk(existing, rows[..j]).created;
    assert seen[|before|] == NewCustomer(rows[i]);
    assert (existing + seen)[|existing| + |before|] == NewCustomer(rows[i]);
  }

  /** Three rows, the second repeating the first one's email. */
  lemma BulkExample()
    ensures var rows := [CustomerInput("Ann", "ann@example.com", None),
                         CustomerInput("Bea", "ann@example.com", Some("+1234567890")),
                         CustomerInput("Cid", "cid@example.com", Some("123-456-7890"))];
      Bulk([], rows) == BulkResult(
        [Customer("Ann", "ann@example.com", None), Customer("Cid", "cid@example.com", Some("123-456-7890"))],
        [RowMessage(2, DuplicateEmail("ann@example.com"))])
    ensures NatToString(2) == "2"
  {
    var ann := CustomerInput("Ann", "ann@example.com", None);
    var bea := CustomerInput("Bea", "ann@example.com", Some("+1234567890"));
    var cid := CustomerInput("Cid", "cid@example.com", Some("123-456-7890"));
    var rows := [ann, bea, cid];
    Phone.AcceptedHyphenated();
    assert rows[..0] == [] && rows[..1] == [ann] && rows[..2] == [ann, bea] && rows[..3] == rows;
    assert [ann][..0] == [] && [ann, bea][..1] == [ann] && rows[..2] == [ann, bea];
    assert EmailsOf([]) == {};
    assert Bulk([], [ann]) == BulkResult([NewCustomer(ann)], []);
    EmailsOfSnoc([], NewCustomer(ann));
    assert [] + [NewCustomer(ann)] == [NewCustomer(ann)];
    assert EmailsOf([NewCustomer(ann)]) == {"ann@example.com"};
    assert NatToString(2) == "2";
    assert Bulk([], [ann, bea]) == BulkResult([NewCustomer(ann)], [RowMessage(2, DuplicateEmail(bea.email))]);
    assert "cid@example.com" !in EmailsOf([NewCustomer(ann)]);
    assert [] + [NewCustomer(ann)] == [NewCustomer(ann)];
  }

  // ---------- CreateOrder ----------

  /** `sum(p.price for p in products)`. */
  function Total(ids: seq<int>, products: map<int, Product>): int
    requires forall i :: 0 <= i < |ids| ==> ids[i] in products
    decreases |ids|
  {
    if ids == [] then 0 else Total(ids[..|ids| - 1], products) + products[ids[|ids| - 1]].price
  }

  /** The total of two lists of products is the sum of their totals. */
  lemma {:induction false} TotalConcat(a: seq<int>, b: seq<int>, products: map<int, Product>)
    requires forall i :: 0 <= i < |a| ==> a[i] in products
    requires forall i :: 0 <= i < |b| ==> b[i] in products
    ensures forall i :: 0 <= i < |a + b| ==> (a + b)[i] in products
    ensures Total(a + b, products) == Total(a, products) + Total(b, products)
    decreases |b|
  {
    assert forall i :: 0 <= i < |a + b| ==> (a + b)[i] in products by {
      forall i | 0 <= i < |a + b| ensures (a + b)[i] in products {
        if i >= |a| {
          assert (a + b)[i] == b[i - |a|];
        }
      }
    }
    if b == [] {
      assert a + b == a;
    } else {
      var init := b[..|b| - 1];
      TotalConcat(a, init, products);
      assert (a + b)[..|a + b| - 1] == a + init;
    }
  }

  /** Taking one product out of a list takes its price out of the total. */
  lemma TotalRemove(b: seq<int>, k: nat, products: map<int, Product>)
    requires k < |b| && forall i :: 0 <= i < |b| ==> b[i] in products
    ensures var rest := b[..k] + b[k + 1..];
      && (forall i :: 0 <= i < |rest| ==> rest[i] in products)
      && multiset(rest) == multiset(b) - multiset{b[k]}
      && Total(b, products) == Total(rest, products) + products[b[k]].price
  {
    var before, x, after := b[..k], b[k], b[k + 1..];
    assert b == before + [x] + after;
    assert forall i :: 0 <= i < |before| ==> before[i] == b[i];
    assert forall i :: 0 <= i < |after| ==> after[i] == b[k + 1 + i];
    TotalConcat(before, [x], products);
    TotalConcat(before + [x], after, products);
    TotalConcat(before, after, products);
    assert [x][..0] == [];
  }

  /**
    The total does not depend on the order of the rows: any permutation of
    the same products (the order the database returns them in, say) has the
    same total.
   */
  lemma {:induction false} TotalPermutation(a: seq<int>, b: seq<int>, products: map<int, Product>)
    requires forall i :: 0 <= i < |a| ==> a[i] in products
    requires multiset(a) == multiset(b)
    ensures forall i :: 0 <= i < |b| ==> b[i] in products
    ensures Total(a, products) == Total(b, products)
    decreases |a|
  {
    assert forall i :: 0 <= i < |b| ==> b[i] in products by {
      forall i | 0 <= i < |b| ensures b[i] in products {
        assert b[i] in multiset(a);
        var j :| 0 <= j < |a| && a[j] == b[i];
      }
    }
    if a != [] {
      var n := |a|;
      var x := a[n - 1];
      assert a == a[..n - 1] + [x];
      assert multiset(a[..n - 1]) == multiset(a) - multiset{x};
      assert x in multiset(b);
      var k :| 0 <= k < |b| && b[k] == x;
      TotalRemove(b, k, products);
      TotalPermutation(a[..n - 1], b[..k] + b[k + 1..], products);
    }
  }

  /** Positive prices make the total of a non-empty order positive. */
  lemma {:induction false} TotalPositive(ids: seq<int>, products: map<int, Product>)
    requires forall i :: 0 <= i < |ids| ==> ids[i] in products && products[ids[i]].price > 0
    requires ids != []
    ensures Total(ids, products) > 0
    decreases |ids|
  {
    if |ids| > 1 {
      TotalPositive(ids[..|ids| - 1], products);
    }
  }

  /**
    The gates are checked in order and the first that fails is the only
    error: unknown customer, then no products, then a resolved count that
    differs from the requested count.
   */
  function OrderErrors(customerFound: bool, requested: seq<int>, resolved: seq<int>): (errors: seq<string>)
    ensures errors == [] <==> customerFound && requested != [] && |resolved| == |requested|
    ensures errors != [] ==> |errors| == 1
    ensures !customerFound ==> errors == [INVALID_CUSTOMER_ID]
    ensures customerFound && requested == [] ==> errors == [NO_PRODUCTS]
    ensures customerFound && requested != [] && |resolved| != |requested| ==> errors == [INVALID_PRODUCT_IDS]
  {
    if !customerFound then [INVALID_CUSTOMER_ID]
    else if requested == [] then [NO_PRODUCTS]
    else if |resolved| != |requested| then [INVALID_PRODUCT_IDS]
    else []
  }

  /** `order_date or timezone.now()`. */
  function OrderDate(orderDate: Option<int>, now: int): (date: int)
    ensures orderDate.Some? ==> date == orderDate.value
    ensures orderDate.None? ==> date == now
  {
    if orderDate.Some? then orderDate.value else now
  }

  function SetOf(ids: seq<int>): set<int> {
    set id | id in ids
  }

  /**
    An order passes the gates exactly when the customer exists and the
    product ids are a non-empty list of distinct stored products; an
    unknown id or a repeated id is reported as an invalid product id.
   */
  lemma OrderGates(customerFound: bool, ids: seq<int>, products: map<int, Product>)
    ensures var errors := OrderErrors(customerFound, ids, Resolve(ids, products));
      && (errors == [] <==>
            customerFound && ids != [] && Distinct(ids) && forall i :: 0 <= i < |ids| ==> ids[i] in products)
      && (customerFound && ids != [] && !Distinct(ids) ==> errors == [INVALID_PRODUCT_IDS])
      && (customerFound && (exists i :: 0 <= i < |ids| && ids[i] !in products) ==> errors == [INVALID_PRODUCT_IDS])
  {
    ResolveCount(ids, products);
  }

  /**
    For an accepted order the resolved products are exactly the requested
    ones: the total is the sum of the requested products' prices and the
    order's product set is the set of requested ids.
   */
  lemma AcceptedOrder(ids: seq<int>, products: map<int, Product>)
    requires OrderErrors(true, ids, Resolve(ids, products)) == []
    ensures forall i :: 0 <= i < |ids| ==> ids[i] in products
    ensures Total(Resolve(ids, products), products) == Total(ids, products)
    ensures SetOf(Resolve(ids, products)) == SetOf(ids)
  {
    OrderGates(true, ids, products);
    ResolveAll(ids, products);
  }

  /** Two distinct stored products: the order is accepted and costs their two prices. */
  lemma TwoProductOrder(p1: int, p2: int, products: map<int, Product>)
    requires p1 in products && p2 in products && p1 != p2
    ensures OrderErrors(true, [p1, p2], Resolve([p1, p2], products)) == []
    ensures Total(Resolve([p1, p2], products), products) == products[p1].price + products[p2].price
    ensures SetOf(Resolve([p1, p2], products)) == {p1, p2}
  {
    ResolveAll([p1, p2], products);
    assert [p1, p2][..1] == [p1] && [p1][..0] == [];
    assert Total([p1], products) == products[p1].price;
    assert Total([p1, p2], products) == Total([p1], products) + products[p2].price;
  }
}
