/**
 * The records main.py reads through its ORM session, as plain values: the
 * address columns of `Customer` and `Invoice` rows, and the `Artist` →
 * `Album` → `Track` → `InvoiceLine` relationship collections.  A query
 * result is a sequence of records in the order the query returned them.
 */
module Rows {
  import opened Wrappers

  /** A value read from a nullable text column; `None` is Python's `None`. */
  type Name = Option<string>

  /** The address columns of a `Customer` row. */
  datatype CustomerRow = CustomerRow(address: Name, city: Name, postalCode: Name, state: Name, country: Name)

  /** The billing address columns of an `Invoice` row. */
  datatype InvoiceRow = InvoiceRow(
    billingAddress: Name, billingCity: Name, billingPostalCode: Name, billingState: Name, billingCountry: Name)

  /** A `Track` with the ids of the rows of its `invoiceline_collection`. */
  datatype Track = Track(name: Name, invoiceLines: seq<nat>)

  /** An `Album` with its `track_collection`. */
  datatype Album = Album(title: Name, tracks: seq<Track>)

  /** An `Artist` with its `album_collection`. */
  datatype Artist = Artist(name: Name, albums: seq<Album>)
}
