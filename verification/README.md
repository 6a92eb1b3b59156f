# Chinook address normalisation and reports, modelled in Dafny

A model of the in-memory logic of `main.py`, a SQLAlchemy exercise over the
Chinook music-store database. The model covers three parts.

- **Address normalisation (task 4).** `Country`, `State` and `Locality` are
  singletons by name. Each overrides `__new__` to return the instance already
  in a class-level dictionary. Python still runs `__init__` on a returned
  instance, so a reused `State` gets its `country` rebound and a reused
  `Locality` gets its `zip_code` and `state` rebound: last write wins.
  `State` is keyed by the state name alone and `Locality` by the city alone.
  `None` is an ordinary key. `Address` is never shared.
- **Address extraction (tasks 4 and 5).** Every customer row, then every invoice
  row, becomes one new `Address`. It is appended to `all_addresses`, and also
  to `missing_addresses` when one of the row's five raw columns is `None`.
- **Two reports.**
  - Task 3 builds one `(name, album count)` tuple per artist, sorts the list
    with Python's stable descending sort, and prints the first five.
  - Task 7 builds the nested dictionary artist name → track name → number of
    invoice lines.

### How Python objects are represented

- **Identity is explicit.** The objects of each deduplicated class form a
  `Registry.Table`. Each object has an id, which is its position in
  allocation order. The table holds each object's name and its reassignable
  attributes, plus the class dictionary from name to id.
- **References are ids.** A reference attribute holds the id of the object
  it points to.
- **One world for all classes.** A `Registry.World` holds the three tables
  and the list of `Address` objects. Every constructor is a function from
  one world to the next.
- **Query results are inputs.** Each query result is a sequence of plain
  records (module `Rows`), in the order the query returned them.
- **Nullable columns.** A nullable text column is an `Option<string>`, and
  `None` is Python's `None`.

`State.__init__` and `Locality.__init__` register the instance before they
call the next constructor down. The model calls that constructor first. The
result is the same, because the calls touch different dictionaries and ids
are allocated per class.

### Behaviour of main.py the model keeps

- **`None` columns pass through.** The five raw columns of a row are passed
  to the `Address` constructor unchanged (main.py:398, 412-416). A `None`
  city, state or country becomes a dictionary key, and a `None` street or
  zip code is stored as an attribute value.
- **Fewer than five artists.** The top-five loop reads `lst[i]` for `i`
  from 0 to 4 (main.py:264-265). With fewer than five artists, the existing
  entries are printed and then `lst[i]` raises `IndexError`
  (`Ranking.PrintTopFive`).
- **One tuple per artist row.** Task 3 appends one tuple per artist row
  (main.py:258-260), so two artists with the same name give two entries.
- **Keying by name alone.** `State` is keyed by the state name and
  `Locality` by the city name (main.py:309-319, 333-344).
  `Scenarios.SpringfieldCollapses` shows the consequence: a Springfield in a
  second state overwrites the zip code and state that the first Springfield
  address reports.

## Model

| member | source | states |
|---|---|---|
| Registry.Construct | main.py:283-296 | The class-dictionary pattern. The object registered under the name is returned, or else a new object with the next id, registered under the name. Either way its attributes are set to the new values. The only key added is the name, no key is removed or rebound, and no other object changes. |
| Registry.NewCountry | main.py:287-296 | `Country(n)` returns the instance registered under `n` and leaves everything unchanged, or appends a new instance and registers it under `n`. The result is named `n`, and a later `Country(n)` returns it. The only key the `Country` registry can gain is `n`. |
| Registry.NewState | main.py:309-319 | `State(s, c)` is keyed by `s` alone. Reuse returns the same id. The state's country becomes the id of `Country(c)`. The `State` registry can gain only `s`, and the `Country` registry only `c`. Every other `State`, all localities and all addresses are unchanged. |
| Registry.NewLocality | main.py:333-344 | `Locality(city, zip, s, c)` is keyed by `city` alone. Reuse returns the same id. Its zip code becomes `zip` and its state becomes the id of `State(s, c)`. The `Locality`, `State` and `Country` registries can gain only `city`, `s` and `c`. Every other `Locality` and all addresses are unchanged. |
| Registry.NewLocalityState | main.py:315-344 | The `State(s, c)` that `Locality(city, zip, s, c)` runs rebinds the country of the `State` registered under `s` to the `Country` registered under `c`, and every other `State` keeps its country. |
| Registry.NewAddress | main.py:354-356 | `Address(...)` is always a new object, with the next id. Its name is the street, and its locality is the `Locality` registered under the city. The `Locality`, `State` and `Country` registries gain only the call's city, state and country. No key is removed or rebound, and every reference stays valid. |
| Registry.NewAddressReadsBack | main.py:354-356 | Following its references, a new address reports exactly the five values it was built from. |
| Registry.HoldsStable | main.py:339-342 | Later constructor calls never change an existing address's street, or which registered `Locality` it refers to. |
| Registry.StreetAndCityStable | main.py:339-342 | An address's street and city, as read through its references, never change afterwards. |
| Registry.SameNameSameInstance | main.py:287-344 | Two addresses share a `Locality` exactly when they report the same city. They share a `State` exactly when they report the same state name, and a `Country` exactly when they report the same country name. |
| Registry.NewAddressRewritesEarlier | main.py:315-344 | Last write wins for every earlier address. If it has the new row's city, it now reports the new zip code, state and country. Otherwise, if it has the new row's state name, it reports the new country. Otherwise it reads back unchanged. |
| Extraction.ExtractRows | main.py:392-400 | One new address per row, in order. All new ids are appended to `all`. The ids of rows with a `None` column are appended to `missing`. Address `k` holds row `k`'s street and the `Locality` of row `k`'s city. The object graph afterwards is exactly `Extraction.Built`: `Address(street, city, zip_code, state, country)` called on each row, in order. |
| Extraction.ExtractFromCustomers | main.py:390-401 | The same for customer rows. The object graph afterwards is `Address(Address, City, PostalCode, State, Country)` called on each customer row, in order. |
| Extraction.ExtractFromInvoices | main.py:404-419 | The same for invoice rows. The object graph afterwards is `Address(BillingAddress, BillingCity, BillingPostalCode, BillingState, BillingCountry)` called on each invoice row, in order. |
| Extraction.ExtractAddresses | main.py:421-422 | Customers first, then invoices, starting from empty registries. `all_addresses` lists the ids from 0 up to the number of customers plus invoices, in order. `missing_addresses` is the incomplete ids in order. Customer `k` is address `k`, and invoice `k` comes right after the last customer's address, at offset `k`. The final object graph is the customer rows built onto empty registries, then the invoice rows built onto the result. |
| Extraction.MissingIdsMembers | main.py:393-400 | An id is listed as incomplete exactly when it belongs to a row that has a `None` column. |
| Extraction.MissingExactlyIncomplete | main.py:393-400 | Customer `k` and invoice `k` are in `missing_addresses` exactly when their row has a `None` column. Every listed address is one of the extracted addresses. |
| Ranking.Entries | main.py:258-260 | One `(name, album count)` entry per artist, in query order; the list is exactly `EntriesOf(artists)`, which `TopFive` sorts. |
| Ranking.SortDescending | main.py:261 | The sorted list is a permutation of the input, with non-increasing counts. |
| Ranking.SortKeepsClasses | main.py:261 | The sort is stable: for every count, the entries with that count keep their input order. |
| Ranking.StableSortUnique | main.py:261 | Non-increasing order plus stability determines the result: two lists with both properties and the same count classes are equal. |
| Ranking.SortSorted | main.py:261 | Sorting a list that is already non-increasing returns it unchanged. |
| Ranking.SortIdempotent | main.py:261 | Sorting twice gives the same list as sorting once. |
| Ranking.PrintTopFive | main.py:264-265 | Prints `lst[0..4]` in order. When there are fewer than five entries, it prints all of them and then raises `IndexError`. |
| Ranking.TopFive | main.py:252-265 | The printed entries are a prefix of the ranking: the first five, or all of them when there are fewer. `IndexError` is raised exactly when there are fewer than five artists. |
| Ranking.TopAreLargest | main.py:261-265 | Every artist entry left out of a printed prefix has no more albums than any entry printed. |
| TopTracks.AssignKeys | main.py:523 | After a sequence of dictionary assignments, the keys are exactly the keys written. |
| TopTracks.AssignLast | main.py:523 | After a sequence of dictionary assignments, a key is bound to the value of its last write. |
| TopTracks.AlbumTracksMembers | main.py:521-522 | The tracks visited for an artist are exactly the tracks of the artist's albums. |
| TopTracks.FillArtist | main.py:520-523 | One pass of the outer loop. The artist's entry is reset to `{}`, then each track of each album, in order, writes its invoice-line count under its name. The entry ends up as the dictionary that the assignment-by-assignment reference definition gives for the artist's tracks. No other artist's entry changes. |
| TopTracks.BuildArtistTopTracks | main.py:516-524 | The three nested loops build exactly the dictionary of the reference definition: the assignments `d[artist.Name] = <inner dictionary>`, one per artist, in query order. `TopTracks.ArtistTopTracksMeaning` spells out what that dictionary holds. |
| TopTracks.TrackCountsMeaning | main.py:521-523 | The inner keys are the names of the artist's tracks. A track name maps to the invoice-line count of the last track with that name. An artist with no albums maps to `{}`. |
| TopTracks.ArtistTopTracksMeaning | main.py:516-524 | The keys of the result are exactly the artists' names, including those of artists without albums. A name maps to the inner dictionary of the last artist with that name, which replaces any earlier artist's entry entirely. |
| Scenarios.TwoCitiesOfMaine | main.py:333-356 | Portland and Waterville in Maine, USA, share one `State` and one `Country` but have two `Locality` objects. Each address reads back its own row. |
| Scenarios.SpringfieldCollapses | main.py:333-344 | A Springfield in Massachusetts reuses the `Locality` of a Springfield in Illinois. The first address now reports the Massachusetts zip code and state. |
| Scenarios.IncompleteRows | main.py:393-418 | A customer without a postal code and an invoice without a city are listed as incomplete. A complete customer is not. |

## Left out

- **The SQLAlchemy engine, session, automap reflection and class aliases**
  (main.py:32-48, 117-135). They are library plumbing. Query results are
  input sequences of records instead.
- **Tasks 1 and 2** (main.py:158-220). They are row counts computed by
  SQLite, and printing.
- **The raw-SQL versions of tasks 3 and 6** (main.py:234-249, 454-469).
  Their meaning is SQLite's.
- **The Python version of task 6** (main.py:472-489). It sums `float` prices
  and formats them with `%0.2f`, and floating point is not modelled.
- **Task 8** (main.py:551-554). It is the length of an ORM relationship
  collection.
- **Output.** All `print` output, the warnings toggling (main.py:186-190)
  and the commented-out declarative classes are left out. Reports are
  returned as values instead of being printed.
- **Dictionary iteration order.** Python dictionaries keep insertion order,
  and the model's `map`s have no order. The order only matters when the
  first five items of the dictionary built for task 7 are printed
  (main.py:527-532).
- **`IndexError` stops the program.** In the source, the uncaught
  `IndexError` from task 3 ends the program. The model returns a flag, and
  the later tasks are modelled independently of it.
- **Invoice lines are ids.** A track's invoice lines are modelled as their
  ids, because only their number is used.
