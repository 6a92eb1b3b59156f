/**
 * Tasks 4 and 5 of main.py: every customer row, then every invoice row, is
 * turned into one new `Address`, appended to `all_addresses`; the same
 * address is also appended to `missing_addresses` when one of the row's
 * five raw address columns is `None`.  The classification is taken from
 * the raw row when the address is made, not recomputed later.
 */
module Extraction {
  import opened Rows
  import opened Registry

  /** The two result lists, as ids of `Address` objects, and the world they live in. */
  datatype Lists = Lists(world: World, all: seq<nat>, missing: seq<nat>)

  function CustomerFields(row: CustomerRow): AddressFields
  {
    AddressFields(row.address, row.city, row.postalCode, row.state, row.country)
  }

  function InvoiceFields(row: InvoiceRow): AddressFields
  {
    AddressFields(row.billingAddress, row.billingCity, row.billingPostalCode, row.billingState, row.billingCountry)
  }

  /** Python's `None in (street, city, zip_code, state, country)`; an empty string is not missing. */
  predicate HasMissing(f: AddressFields)
  {
    f.street.None? || f.city.None? || f.zipCode.None? || f.state.None? || f.country.None?
  }

  /** `s` lists the ids `lo`, `lo + 1`, ..., `lo + |s| - 1`, in that order. */
  predicate Ids(s: seq<nat>, lo: nat)
  {
    forall k :: 0 <= k < |s| ==> s[k] == lo + k
  }

  /**
   * Reference definition of the addresses classified as incomplete: when
   * `rows[k]` becomes the address of id `first + k`, the ids, in order, of
   * the rows with a `None` field.
   */
  function MissingIds(first: nat, rows: seq<AddressFields>): seq<nat>
  {
    if rows == [] then []
    else
      var k := |rows| - 1;
      MissingIds(first, rows[..k]) + (if HasMissing(rows[k]) then [first + k] else [])
  }

  /** An id is among `MissingIds(first, rows)` exactly when it belongs to a row with a `None` field. */
  lemma {:induction false} MissingIdsMembers(first: nat, rows: seq<AddressFields>)
    ensures forall id :: id in MissingIds(first, rows) <==> first <= id < first + |rows| && HasMissing(rows[id - first])
  {
    if rows != [] {
      var k := |rows| - 1;
      MissingIdsMembers(first, rows[..k]);
      assert forall j :: 0 <= j < k ==> rows[..k][j] == rows[j];
    }
  }

  /**
   * Reference definition of the object graph an extraction pass leaves:
   * `Address(street, city, zip_code, state, country)` called on each row in
   * order, starting from `w`.
   */
  function Built(w: World, rows: seq<AddressFields>): (r: World)
    requires Valid(w)
    ensures Valid(r)
  {
    BuiltValid(w, rows, 0);
    BuiltOnward(w, rows, 0)
  }

  /** The object graph left by `Address(...)` on rows `i`, `i + 1`, ... in order, starting from `w`. */
  function BuiltOnward(w: World, rows: seq<AddressFields>, i: nat): World
    requires Valid(w) && i <= |rows|
    decreases |rows| - i, 1
  {
    if i == |rows| then w else BuiltAfter(w, rows, i)
  }

  /**
   * What `BuiltOnward` leaves once row `i`'s `Address` exists.  Split from
   * `BuiltOnward` so that one unfolding exposes exactly one `NewAddress`.
   */
  function BuiltAfter(w: World, rows: seq<AddressFields>, i: nat): World
    requires Valid(w) && i < |rows|
    decreases |rows| - i, 0
  {
    BuiltOnward(NewAddress(w, rows[i]).world, rows, i + 1)
  }

  /** Building from row `i` is row `i`'s `Address(...)`, then building from row `i + 1`. */
  lemma BuiltStep(w: World, rows: seq<AddressFields>, i: nat)
    requires Valid(w) && i < |rows|
    ensures BuiltOnward(w, rows, i) == BuiltOnward(NewAddress(w, rows[i]).world, rows, i + 1)
  {
    assert BuiltOnward(w, rows, i) == BuiltAfter(w, rows, i);
  }

  /** Building is done on valid object graphs only. */
  lemma {:induction false} BuiltValid(w: World, rows: seq<AddressFields>, i: nat)
    requires Valid(w) && i <= |rows|
    ensures Valid(BuiltOnward(w, rows, i))
    decreases |rows| - i
  {
    if i < |rows| {
      BuiltStep(w, rows, i);
      BuiltValid(NewAddress(w, rows[i]).world, rows, i + 1);
    }
  }

  /**
   * The first `n` rows became the addresses `lo`, ..., `lo + n - 1`: each
   * holds its row's street and the `Locality` registered under its row's city.
   */
  predicate RowsHeld(w: World, lo: nat, rows: seq<AddressFields>, n: nat)
    requires n <= |rows|
  {
    forall k :: 0 <= k < n ==> Holds(w, lo + k, rows[k].street, rows[k].city)
  }

  lemma RowsHeldExtends(w: World, w': World, lo: nat, rows: seq<AddressFields>, n: nat)
    requires n <= |rows| && RowsHeld(w, lo, rows, n) && Extends(w, w')
    ensures RowsHeld(w', lo, rows, n)
  {
    forall k | 0 <= k < n
      ensures Holds(w', lo + k, rows[k].street, rows[k].city)
    {
      HoldsStable(w, w', lo + k, rows[k].street, rows[k].city);
    }
  }

  lemma RowsHeldNext(w: World, lo: nat, rows: seq<AddressFields>, n: nat)
    requires n < |rows| && RowsHeld(w, lo, rows, n) && Holds(w, lo + n, rows[n].street, rows[n].city)
    ensures RowsHeld(w, lo, rows, n + 1)
  {
  }

  /** One more row extends the ids made so far by the next id. */
  lemma IdsNext(made: seq<nat>, lo: nat, id: nat)
    requires Ids(made, lo) && id == lo + |made|
    ensures Ids(made + [id], lo)
  {
  }

  /** Appending the ids made by a pass to `all` keeps `all` as it was, followed by those ids. */
  lemma IdsAppended(all: seq<nat>, made: seq<nat>, lo: nat)
    requires Ids(made, lo)
    ensures |all + made| == |all| + |made| && (all + made)[..|all|] == all && Ids((all + made)[|all|..], lo)
  {
    assert (all + made)[|all|..] == made;
  }

  /** One more row extends the incomplete ids so far by its id exactly when it has a `None` field. */
  lemma MissingIdsNext(added: seq<nat>, first: nat, rows: seq<AddressFields>, n: nat, id: nat)
    requires n < |rows| && added == MissingIds(first, rows[..n]) && id == first + n
    ensures (if HasMissing(rows[n]) then added + [id] else added) == MissingIds(first, rows[..n + 1])
  {
    assert rows[..n + 1][..n] == rows[..n];
  }

  /**
   * The extraction loop's invariant after `i` rows: `world` extends `w` by
   * one address per row done, building from the rest of the rows gives the
   * pass's final world, and `made` and `added` are the ids and incomplete ids
   * of the rows done.
   */
  predicate Progress(w: World, rows: seq<AddressFields>, i: nat, world: World, made: seq<nat>, added: seq<nat>)
    requires Valid(w)
  {
    && i <= |rows|
    && Valid(world) && Extends(w, world) && |world.addresses| == |w.addresses| + i
    && BuiltOnward(world, rows, i) == Built(w, rows)
    && RowsHeld(world, |w.addresses|, rows, i)
    && |made| == i && Ids(made, |w.addresses|)
    && added == MissingIds(|w.addresses|, rows[..i])
  }

  /** One iteration of the extraction loop keeps the invariant. */
  lemma ExtractStep(w: World, rows: seq<AddressFields>, i: nat, world: World, made: seq<nat>, added: seq<nat>, next: Made)
    requires Valid(w) && i < |rows| && Progress(w, rows, i, world, made, added)
    requires next == NewAddress(world, rows[i])
    ensures Progress(w, rows, i + 1, next.world, made + [next.id], if HasMissing(rows[i]) then added + [next.id] else added)
  {
    BuiltStep(world, rows, i);
    RowsHeldExtends(world, next.world, |w.addresses|, rows, i);
    RowsHeldNext(next.world, |w.addresses|, rows, i);
    ExtendsTransitive(w, world, next.world);
    MissingIdsNext(added, |w.addresses|, rows, i, next.id);
    IdsNext(made, |w.addresses|, next.id);
  }

  /** Once every row is done, the loop's variables are the pass's results. */
  lemma ExtractDone(w: World, rows: seq<AddressFields>, all: seq<nat>, world: World, made: seq<nat>, added: seq<nat>)
    requires Valid(w) && Progress(w, rows, |rows|, world, made, added)
    ensures world == Built(w, rows)
    ensures |all + made| == |all| + |made| && (all + made)[..|all|] == all && Ids((all + made)[|all|..], |w.addresses|)
    ensures added == MissingIds(|w.addresses|, rows)
    ensures forall k :: 0 <= k < |rows| ==> Holds(world, |w.addresses| + k, rows[k].street, rows[k].city)
  {
    assert rows[..|rows|] == rows;
    IdsAppended(all, made, |w.addresses|);
  }

  /**
   * The loop body shared by `extract_addresses_from_customers` and
   * `extract_addresses_from_invoices`: one new address per row, appended to
   * `all` in row order; its id also appended to `missing` when the row has a
   * `None` field.
   */
  method ExtractRows(w: World, rows: seq<AddressFields>, all: seq<nat>, missing: seq<nat>) returns (r: Lists)
    requires Valid(w)
    ensures r.world == Built(w, rows)
    ensures Valid(r.world) && Extends(w, r.world)
    ensures |r.world.addresses| == |w.addresses| + |rows|
    ensures |r.all| == |all| + |rows| && r.all[..|all|] == all && Ids(r.all[|all|..], |w.addresses|)
    ensures r.missing == missing + MissingIds(|w.addresses|, rows)
    ensures forall k :: 0 <= k < |rows| ==> Holds(r.world, |w.addresses| + k, rows[k].street, rows[k].city)
  {
    var world := w;
    var made, added := [], [];
    var i := 0;
    while i < |rows|
      invariant Progress(w, rows, i, world, made, added)
    {
      var row := rows[i];
      var missingData := HasMissing(row);
      var address := NewAddress(world, row);
      ExtractStep(w, rows, i, world, made, added, address);
      world := address.world;
      made := made + [address.id];
      if missingData {
        added := added + [address.id];
      }
      i := i + 1;
    }
    ExtractDone(w, rows, all, world, made, added);
    r := Lists(world, all + made, missing + added);
  }

  function CustomersFields(customers: seq<CustomerRow>): (rows: seq<AddressFields>)
    ensures |rows| == |customers|
    ensures forall k :: 0 <= k < |customers| ==> rows[k] == CustomerFields(customers[k])
  {
    seq(|customers|, k requires 0 <= k < |customers| => CustomerFields(customers[k]))
  }

  function InvoicesFields(invoices: seq<InvoiceRow>): (rows: seq<AddressFields>)
    ensures |rows| == |invoices|
    ensures forall k :: 0 <= k < |invoices| ==> rows[k] == InvoiceFields(invoices[k])
  {
    seq(|invoices|, k requires 0 <= k < |invoices| => InvoiceFields(invoices[k]))
  }

  /**
   * `extract_addresses_from_customers`: appends one new address per
   * customer, in query order, to `all`, and appends to `missing`, in order,
   * the new addresses whose customer has a `None` address column.
   */
  method ExtractFromCustomers(w: World, customers: seq<CustomerRow>, all: seq<nat>, missing: seq<nat>) returns (r: Lists)
    requires Valid(w)
    ensures r.world == Built(w, CustomersFields(customers))
    ensures Valid(r.world) && Extends(w, r.world)
    ensures |r.world.addresses| == |w.addresses| + |customers|
    ensures |r.all| == |all| + |customers| && r.all[..|all|] == all && Ids(r.all[|all|..], |w.addresses|)
    ensures r.missing == missing + MissingIds(|w.addresses|, CustomersFields(customers))
    ensures forall k :: 0 <= k < |customers| ==>
      Holds(r.world, |w.addresses| + k, customers[k].address, customers[k].city)
  {
    r := ExtractRows(w, CustomersFields(customers), all, missing);
  }

  /**
   * `extract_addresses_from_invoices`: appends one new address per invoice,
   * in query order, to `all`, and appends to `missing`, in order, the new
   * addresses whose invoice has a `None` billing address column.
   */
  method ExtractFromInvoices(w: World, invoices: seq<InvoiceRow>, all: seq<nat>, missing: seq<nat>) returns (r: Lists)
    requires Valid(w)
    ensures r.world == Built(w, InvoicesFields(invoices))
    ensures Valid(r.world) && Extends(w, r.world)
    ensures |r.world.addresses| == |w.addresses| + |invoices|
    ensures |r.all| == |all| + |invoices| && r.all[..|all|] == all && Ids(r.all[|all|..], |w.addresses|)
    ensures r.missing == missing + MissingIds(|w.addresses|, InvoicesFields(invoices))
    ensures forall k :: 0 <= k < |invoices| ==>
      Holds(r.world, |w.addresses| + k, invoices[k].billingAddress, invoices[k].billingCity)
  {
    r := ExtractRows(w, InvoicesFields(invoices), all, missing);
  }

  /**
   * The two extraction passes of main.py, customers first, starting from
   * empty registries and empty lists.  Address ids are allocation order, so
   * `all` lists customer `k` as id `k` and invoice `k` as id
   * `|customers| + k`, and `missing` lists, in that order, the ids whose raw
   * row has a `None` field.
   */
  method ExtractAddresses(customers: seq<CustomerRow>, invoices: seq<InvoiceRow>) returns (r: Lists)
    ensures r.world == Built(Built(Empty, CustomersFields(customers)), InvoicesFields(invoices))
    ensures Valid(r.world)
    ensures |r.world.addresses| == |customers| + |invoices|
    ensures |r.all| == |customers| + |invoices| && Ids(r.all, 0)
    ensures r.missing == Incomplete(customers, invoices)
    ensures forall k :: 0 <= k < |customers| ==> Holds(r.world, k, customers[k].address, customers[k].city)
    ensures forall k :: 0 <= k < |invoices| ==>
      Holds(r.world, |customers| + k, invoices[k].billingAddress, invoices[k].billingCity)
  {
    EmptyValid();
    var first := ExtractFromCustomers(Empty, customers, [], []);
    CustomersFirst(customers, Empty, first.world);
    var second := ExtractFromInvoices(first.world, invoices, first.all, first.missing);
    InvoicesAfterCustomers(invoices, first.world, second.world, |customers|);
    TwoPasses(customers, invoices, first, second);
    r := second;
  }

  /** What the invoice pass adds to the customer pass, and what it keeps. */
  lemma TwoPasses(customers: seq<CustomerRow>, invoices: seq<InvoiceRow>, first: Lists, second: Lists)
    requires |first.world.addresses| == |customers|
    requires |first.all| == |customers| && Ids(first.all, 0)
    requires first.missing == MissingIds(0, CustomersFields(customers))
    requires forall k :: 0 <= k < |customers| ==> Holds(first.world, k, customers[k].address, customers[k].city)
    requires Extends(first.world, second.world)
    requires |second.all| == |first.all| + |invoices| && second.all[..|first.all|] == first.all
    requires Ids(second.all[|first.all|..], |customers|)
    requires second.missing == first.missing + MissingIds(|customers|, InvoicesFields(invoices))
    ensures |second.all| == |customers| + |invoices| && Ids(second.all, 0)
    ensures second.missing == Incomplete(customers, invoices)
    ensures forall k :: 0 <= k < |customers| ==> Holds(second.world, k, customers[k].address, customers[k].city)
  {
    CustomersKept(customers, first.world, second.world);
    AllOfTwoPasses(first.all, second.all, |customers|, |invoices|);
  }

  /** The customer pass, run on no addresses, makes customer `k` address `k`. */
  lemma CustomersFirst(customers: seq<CustomerRow>, w: World, w': World)
    requires |w.addresses| == 0
    requires forall k :: 0 <= k < |customers| ==>
      Holds(w', |w.addresses| + k, customers[k].address, customers[k].city)
    ensures forall k :: 0 <= k < |customers| ==> Holds(w', k, customers[k].address, customers[k].city)
  {
  }

  /** The invoice pass, run after `n` customer addresses, makes invoice `k` address `n + k`. */
  lemma InvoicesAfterCustomers(invoices: seq<InvoiceRow>, w: World, w': World, n: nat)
    requires |w.addresses| == n
    requires forall k :: 0 <= k < |invoices| ==>
      Holds(w', |w.addresses| + k, invoices[k].billingAddress, invoices[k].billingCity)
    ensures forall k :: 0 <= k < |invoices| ==>
      Holds(w', n + k, invoices[k].billingAddress, invoices[k].billingCity)
  {
  }

  /** The invoice pass leaves every customer address as the customer pass built it. */
  lemma CustomersKept(customers: seq<CustomerRow>, w: World, w': World)
    requires forall k :: 0 <= k < |customers| ==> Holds(w, k, customers[k].address, customers[k].city)
    requires Extends(w, w')
    ensures forall k :: 0 <= k < |customers| ==> Holds(w', k, customers[k].address, customers[k].city)
  {
    forall k | 0 <= k < |customers|
      ensures Holds(w', k, customers[k].address, customers[k].city)
    {
      HoldsStable(w, w', k, customers[k].address, customers[k].city);
    }
  }

  /** The ids listed by a pass over `n` rows, then by a pass over `m` more, are the first `n + m` ids. */
  lemma AllOfTwoPasses(a: seq<nat>, b: seq<nat>, n: nat, m: nat)
    requires |a| == n && Ids(a, 0)
    requires |b| == n + m && b[..n] == a && Ids(b[n..], n)
    ensures Ids(b, 0)
  {
    forall k | 0 <= k < |b|
      ensures b[k] == k
    {
      if k < n {
        assert b[k] == b[..n][k] == a[k];
      } else {
        assert b[k] == b[n..][k - n];
      }
    }
  }

  /** The ids the two passes list as incomplete, customers first. */
  function Incomplete(customers: seq<CustomerRow>, invoices: seq<InvoiceRow>): seq<nat>
  {
    MissingIds(0, CustomersFields(customers)) + MissingIds(|customers|, InvoicesFields(invoices))
  }

  /**
   * The classification the two passes produce: customer `k` (address `k`)
   * and invoice `k` (address `|customers| + k`) are listed as incomplete
   * exactly when their row has a `None` field, and every listed address is
   * one of the extracted addresses.
   */
  lemma MissingExactlyIncomplete(customers: seq<CustomerRow>, invoices: seq<InvoiceRow>)
    ensures forall k :: 0 <= k < |customers| ==>
      (k in Incomplete(customers, invoices) <==> HasMissing(CustomerFields(customers[k])))
    ensures forall k :: 0 <= k < |invoices| ==>
      (|customers| + k in Incomplete(customers, invoices) <==> HasMissing(InvoiceFields(invoices[k])))
    ensures forall a :: a in Incomplete(customers, invoices) ==> a < |customers| + |invoices|
  {
    forall k | 0 <= k < |customers|
      ensures k in Incomplete(customers, invoices) <==> HasMissing(CustomerFields(customers[k]))
    {
      IncompleteMember(customers, invoices, k);
    }
    forall k | 0 <= k < |invoices|
      ensures |customers| + k in Incomplete(customers, invoices) <==> HasMissing(InvoiceFields(invoices[k]))
    {
      IncompleteMember(customers, invoices, |customers| + k);
    }
    forall a | a in Incomplete(customers, invoices)
      ensures a < |customers| + |invoices|
    {
      IncompleteMember(customers, invoices, a);
    }
  }

  lemma IncompleteMember(customers: seq<CustomerRow>, invoices: seq<InvoiceRow>, id: nat)
    ensures id in Incomplete(customers, invoices) <==>
      || (id < |customers| && HasMissing(CustomerFields(customers[id])))
      || (|customers| <= id < |customers| + |invoices| && HasMissing(InvoiceFields(invoices[id - |customers|])))
  {
    MissingIdsMember(0, CustomersFields(customers), id);
    MissingIdsMember(|customers|, InvoicesFields(invoices), id);
  }

  lemma MissingIdsMember(first: nat, rows: seq<AddressFields>, id: nat)
    ensures id in MissingIds(first, rows) <==> first <= id < first + |rows| && HasMissing(rows[id - first])
  {
    MissingIdsMembers(first, rows);
  }
}
