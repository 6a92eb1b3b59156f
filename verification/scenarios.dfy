/**
 * Concrete runs of the model on small inputs: the sharing the singleton
 * registries produce, the overwrite that keying by name alone causes, the
 * incomplete-address classification.
 */
module Scenarios {
  import opened Wrappers
  import opened Rows
  import opened Registry
  import opened Extraction

  const Portland := AddressFields(Some("1 Washington Ave"), Some("Portland"), Some("04102"), Some("Maine"), Some("USA"))
  const Waterville := AddressFields(Some("400 Mayflower Drive"), Some("Waterville"), Some("04901"), Some("Maine"), Some("USA"))

  /**
   * Two Maine addresses in different cities share one `State` and one
   * `Country` but get two `Locality` objects, and each still reads back
   * its own row.
   */
  lemma TwoCitiesOfMaine()
    ensures var w1 := NewAddress(Empty, Portland).world;
      var w2 := NewAddress(w1, Waterville).world;
      && Valid(w2) && |w2.addresses| == 2
      && StateOf(w2, 0) == StateOf(w2, 1)
      && CountryOf(w2, 0) == CountryOf(w2, 1)
      && LocalityOf(w2, 0) != LocalityOf(w2, 1)
      && Read(w2, 0) == Portland && Read(w2, 1) == Waterville
  {
    EmptyValid();
    var w1 := NewAddress(Empty, Portland).world;
    var w2 := NewAddress(w1, Waterville).world;
    NewAddressReadsBack(Empty, Portland);
    NewAddressReadsBack(w1, Waterville);
    NewAddressRewritesEarlier(w1, Waterville, 0);
    SameNameSameInstance(w2, 0, 1);
  }

  const Illinois := AddressFields(Some("1 Main St"), Some("Springfield"), Some("62701"), Some("Illinois"), Some("USA"))
  const Massachusetts := AddressFields(Some("2 Elm St"), Some("Springfield"), Some("01101"), Some("Massachusetts"), Some("USA"))

  /**
   * A `Locality` is keyed by its city alone: a second Springfield, in
   * another state, reuses the first one's `Locality` and overwrites its zip
   * code and state, so the first address now reports the second row's.
   */
  lemma SpringfieldCollapses()
    ensures var w1 := NewAddress(Empty, Illinois).world;
      var w2 := NewAddress(w1, Massachusetts).world;
      && Valid(w2) && |w2.addresses| == 2
      && LocalityOf(w2, 0) == LocalityOf(w2, 1)
      && Read(w2, 0) == Illinois.(zipCode := Some("01101"), state := Some("Massachusetts"))
  {
    EmptyValid();
    var w1 := NewAddress(Empty, Illinois).world;
    NewAddressReadsBack(Empty, Illinois);
    NewAddressRewritesEarlier(w1, Massachusetts, 0);
    var w2 := NewAddress(w1, Massachusetts).world;
    NewAddressReadsBack(w1, Massachusetts);
    SameNameSameInstance(w2, 0, 1);
  }

  /**
   * A customer without a postal code and an invoice without a city are
   * listed as incomplete; a customer with all five columns is not.
   */
  lemma IncompleteRows()
    ensures var customers := [CustomerRow(Some("1 Washington Ave"), Some("Portland"), None, Some("Maine"), Some("USA")),
                              CustomerRow(Some("400 Mayflower Drive"), Some("Waterville"), Some("04901"), Some("Maine"), Some("USA"))];
      var invoices := [InvoiceRow(Some("1 Main St"), None, Some("62701"), Some("Illinois"), Some("USA"))];
      var missing := Incomplete(customers, invoices);
      0 in missing && 1 !in missing && 2 in missing
  {
    var customers := [CustomerRow(Some("1 Washington Ave"), Some("Portland"), None, Some("Maine"), Some("USA")),
                      CustomerRow(Some("400 Mayflower Drive"), Some("Waterville"), Some("04901"), Some("Maine"), Some("USA"))];
    var invoices := [InvoiceRow(Some("1 Main St"), None, Some("62701"), Some("Illinois"), Some("USA"))];
    MissingExactlyIncomplete(customers, invoices);
    assert HasMissing(CustomerFields(customers[0]));
    assert !HasMissing(CustomerFields(customers[1]));
    assert HasMissing(InvoiceFields(invoices[0]));
  }
}
