/**
 * The address object graph of main.py: `Country`, `State`, `Locality` and
 * `Address`, and the class-level dictionaries that make the first three
 * singletons-by-name.
 *
 * Python object identity is modelled explicitly.  Each deduplicated class is
 * a `Table`: its objects in allocation order (so a new object's id is the
 * number of objects made before it), each with its `name` and its other,
 * reassignable attributes, together with the class dictionary from name to
 * id (`_countries`, `_states`, `_localities`).  A reference attribute holds
 * an id.
 *
 * Python runs `__init__` even when `__new__` hands back a registered
 * instance, so a reused `State` has its `country` reassigned and a reused
 * `Locality` has its `zip_code` and `state` reassigned: the attributes at the
 * reused id are overwritten, and every object that refers to that id sees
 * the new values.  `__init__` also reassigns `name`, but always to the key
 * the instance is registered under, which is its name already, so names are
 * stored once.
 */
module Registry {
  import opened Rows

  /**
   * The objects of one deduplicated class and its class dictionary:
   * object `i` has name `names[i]` and reassignable attributes `fields[i]`.
   */
  datatype Table<F> = Table(ids: map<Name, nat>, names: seq<Name>, fields: seq<F>)

  /** A constructor call on one class: the table afterwards and the id of the object returned. */
  datatype Constructed<F> = Constructed(table: Table<F>, id: nat)

  function EmptyTable<F>(): Table<F>
  {
    Table(map[], [], [])
  }

  /**
   * The class dictionary maps each name to the one object of that name, and
   * every object is registered under its name.
   */
  predicate Keyed<F>(t: Table<F>)
  {
    && |t.names| == |t.fields|
    && (forall n :: n in t.ids ==> t.ids[n] < |t.names| && t.names[t.ids[n]] == n)
    && (forall i :: 0 <= i < |t.names| ==> t.names[i] in t.ids && t.ids[t.names[i]] == i)
  }

  /**
   * `t'` is `t` after more constructor calls: no key removed, no key bound
   * to another object, no object destroyed or renamed.
   */
  predicate Grows<F>(t: Table<F>, t': Table<F>)
  {
    && (forall n :: n in t.ids ==> n in t'.ids && t'.ids[n] == t.ids[n])
    && t.names <= t'.names
    && |t.fields| <= |t'.fields|
  }

  /**
   * The `__new__`/`__init__` pair of a deduplicated class: the object
   * registered under `n`, or a new object registered under `n` when there is
   * none; either way its reassignable attributes are then set to `f`.
   */
  function Construct<F>(t: Table<F>, n: Name, f: F): (r: Constructed<F>)
    requires Keyed(t)
    ensures Keyed(r.table) && Grows(t, r.table)
    ensures n in r.table.ids && r.table.ids[n] == r.id
    ensures r.table.ids.Keys == t.ids.Keys + {n}
    ensures r.id < |r.table.fields| && r.table.fields[r.id] == f
    ensures n in t.ids ==> r.id == t.ids[n] && r.table.names == t.names
    ensures n !in t.ids ==> r.id == |t.names| && r.table.names == t.names + [n]
    ensures forall i :: 0 <= i < |t.fields| && i != r.id ==> r.table.fields[i] == t.fields[i]
  {
    if n in t.ids then
      var id := t.ids[n];
      Constructed(t.(fields := t.fields[id := f]), id)
    else
      var id := |t.names|;
      Constructed(Table(t.ids[n := id], t.names + [n], t.fields + [f]), id)
  }

  /** The reassignable attributes of a `Locality`; `state` is the id of a `State`. */
  datatype LocalityFields = LocalityFields(zipCode: Name, state: nat)

  /** `name` is the street; `locality` is the id of a `Locality`.  Never deduplicated. */
  datatype Address = Address(name: Name, locality: nat)

  /** The five raw values an `Address` is built from, in the constructor's order. */
  datatype AddressFields = AddressFields(street: Name, city: Name, zipCode: Name, state: Name, country: Name)

  /**
   * Every object of the four classes.  A `Country` has no attribute but its
   * name; a `State`'s only other attribute is the id of its `Country`.
   */
  datatype World = World(
    countries: Table<()>, states: Table<nat>, localities: Table<LocalityFields>, addresses: seq<Address>)

  /** A constructor call's effect on the whole object graph, and the id of the object it returned. */
  datatype Made = Made(world: World, id: nat)

  /** The program before the first constructor call: empty class dictionaries, no objects. */
  const Empty := World(EmptyTable(), EmptyTable(), EmptyTable(), [])

  /** Every reference attribute points at an existing object. */
  predicate LinksValid(w: World)
  {
    && (forall i :: 0 <= i < |w.states.fields| ==> w.states.fields[i] < |w.countries.names|)
    && (forall i :: 0 <= i < |w.localities.fields| ==> w.localities.fields[i].state < |w.states.names|)
    && (forall i :: 0 <= i < |w.addresses| ==> w.addresses[i].locality < |w.localities.names|)
  }

  predicate Valid(w: World)
  {
    Keyed(w.countries) && Keyed(w.states) && Keyed(w.localities) && LinksValid(w)
  }

  /**
   * `w'` is reachable from `w` by constructor calls: the registries only gain
   * keys, and `Address` objects, which are never reassigned, keep their values.
   */
  predicate Extends(w: World, w': World)
  {
    && Grows(w.countries, w'.countries)
    && Grows(w.states, w'.states)
    && Grows(w.localities, w'.localities)
    && w.addresses <= w'.addresses
  }

  lemma ExtendsTransitive(w0: World, w1: World, w2: World)
    requires Extends(w0, w1) && Extends(w1, w2)
    ensures Extends(w0, w2)
  {
  }

  lemma EmptyValid()
    ensures Valid(Empty)
  {
  }

  /**
   * `Country(n)`: the instance registered under `n` if there is one, and
   * otherwise a new instance, registered under `n`.  Either way it is named
   * `n`, and a later `Country(n)` returns the same instance.
   */
  function NewCountry(w: World, n: Name): (r: Made)
    requires Valid(w)
    ensures Valid(r.world) && Extends(w, r.world)
    ensures n in r.world.countries.ids && r.world.countries.ids[n] == r.id
    ensures r.world.countries.ids.Keys == w.countries.ids.Keys + {n}
    ensures r.id < |r.world.countries.names| && r.world.countries.names[r.id] == n
    ensures n in w.countries.ids ==> r.id == w.countries.ids[n] && r.world == w
    ensures n !in w.countries.ids ==> r.id == |w.countries.names| && |r.world.countries.names| == r.id + 1
    ensures r.world.states == w.states && r.world.localities == w.localities && r.world.addresses == w.addresses
  {
    var e := Construct(w.countries, n, ());
    assert n in w.countries.ids ==> e.table.fields == w.countries.fields by {
      if n in w.countries.ids {
        assert forall i :: 0 <= i < |e.table.fields| ==> e.table.fields[i] == () == w.countries.fields[i];
      }
    }
    Made(w.(countries := e.table), e.id)
  }

  /**
   * `State(s, c)`: the instance registered under `s` alone (whatever
   * country it was made with) if there is one, and otherwise a new
   * instance, registered under `s`; either way its `country` is then
   * rebound to `Country(c)`.  No other `State` changes.
   */
  function NewState(w: World, s: Name, c: Name): (r: Made)
    requires Valid(w)
    ensures Valid(r.world) && Extends(w, r.world)
    ensures s in r.world.states.ids && r.world.states.ids[s] == r.id
    ensures r.world.states.ids.Keys == w.states.ids.Keys + {s}
    ensures r.world.countries.ids.Keys == w.countries.ids.Keys + {c}
    ensures c in r.world.countries.ids && r.id < |r.world.states.fields|
    ensures r.world.states.fields[r.id] == r.world.countries.ids[c]
    ensures s in w.states.ids ==> r.id == w.states.ids[s]
    ensures s !in w.states.ids ==> r.id == |w.states.names|
    ensures forall i :: 0 <= i < |w.states.fields| && i != r.id ==> r.world.states.fields[i] == w.states.fields[i]
    ensures r.world.localities == w.localities && r.world.addresses == w.addresses
  {
    var country := NewCountry(w, c);
    var e := Construct(country.world.states, s, country.id);
    Made(country.world.(states := e.table), e.id)
  }

  /**
   * `Locality(city, zipCode, s, c)`: the instance registered under `city`
   * alone (whatever state and zip code it was made with) if there is one,
   * and otherwise a new instance, registered under `city`; either way its
   * `zip_code` is then set to `zipCode` and its `state` rebound to
   * `State(s, c)`.  No other `Locality` changes.
   */
  function NewLocality(w: World, city: Name, zipCode: Name, s: Name, c: Name): (r: Made)
    requires Valid(w)
    ensures Valid(r.world) && Extends(w, r.world)
    ensures city in r.world.localities.ids && r.world.localities.ids[city] == r.id
    ensures r.world.localities.ids.Keys == w.localities.ids.Keys + {city}
    ensures r.world.states.ids.Keys == w.states.ids.Keys + {s}
    ensures r.world.countries.ids.Keys == w.countries.ids.Keys + {c}
    ensures s in r.world.states.ids && r.id < |r.world.localities.fields|
    ensures r.world.localities.fields[r.id] == LocalityFields(zipCode, r.world.states.ids[s])
    ensures city in w.localities.ids ==> r.id == w.localities.ids[city]
    ensures city !in w.localities.ids ==> r.id == |w.localities.names|
    ensures forall i :: 0 <= i < |w.localities.fields| && i != r.id ==> r.world.localities.fields[i] == w.localities.fields[i]
    ensures r.world.addresses == w.addresses
  {
    var state := NewState(w, s, c);
    var e := Construct(state.world.localities, city, LocalityFields(zipCode, state.id));
    Made(state.world.(localities := e.table), e.id)
  }

  /**
   * The `State(s, c)` inside `Locality(city, zipCode, s, c)`: the `State`
   * registered under `s` now belongs to `Country(c)`, and every other
   * `State` keeps its country.
   */
  lemma NewLocalityState(w: World, city: Name, zipCode: Name, s: Name, c: Name)
    requires Valid(w)
    ensures var r := NewLocality(w, city, zipCode, s, c);
      && s in r.world.states.ids && c in r.world.countries.ids
      && r.world.states.ids[s] < |r.world.states.fields|
      && r.world.states.fields[r.world.states.ids[s]] == r.world.countries.ids[c]
      && forall i :: 0 <= i < |w.states.fields| && i != r.world.states.ids[s] ==> r.world.states.fields[i] == w.states.fields[i]
  {
    var st := NewState(w, s, c);
    assert NewLocality(w, city, zipCode, s, c).world.states == st.world.states;
    assert NewLocality(w, city, zipCode, s, c).world.countries == st.world.countries;
  }

  /**
   * `Address(street, city, zip_code, state, country)`: always a new object,
   * with name `street` and locality `Locality(city, zip_code, state, country)`.
   */
  function NewAddress(w: World, f: AddressFields): (r: Made)
    requires Valid(w)
    ensures Valid(r.world) && Extends(w, r.world)
    ensures r.id == |w.addresses| && |r.world.addresses| == r.id + 1
    ensures Holds(r.world, r.id, f.street, f.city)
    ensures r.world.localities.ids.Keys == w.localities.ids.Keys + {f.city}
    ensures r.world.states.ids.Keys == w.states.ids.Keys + {f.state}
    ensures r.world.countries.ids.Keys == w.countries.ids.Keys + {f.country}
  {
    var locality := NewLocality(w, f.city, f.zipCode, f.state, f.country);
    var w1 := locality.world;
    Made(w1.(addresses := w1.addresses + [Address(f.street, locality.id)]), |w1.addresses|)
  }

  /** Address `a` exists, is named `street`, and its locality is the `Locality` registered under `city`. */
  predicate Holds(w: World, a: nat, street: Name, city: Name)
  {
    && a < |w.addresses|
    && city in w.localities.ids
    && w.addresses[a] == Address(street, w.localities.ids[city])
  }

  /** Later constructor calls never change which street and which registered `Locality` an address holds. */
  lemma HoldsStable(w: World, w': World, a: nat, street: Name, city: Name)
    requires Holds(w, a, street, city) && Extends(w, w')
    ensures Holds(w', a, street, city)
  {
    assert Grows(w.localities, w'.localities);
    assert w'.addresses[a] == w.addresses[a];
  }

  /** The id of the `Locality` of an existing address. */
  function LocalityOf(w: World, a: nat): nat
    requires Valid(w) && a < |w.addresses|
  {
    w.addresses[a].locality
  }

  /** The id of the `State` an existing address reaches through its `Locality`. */
  function StateOf(w: World, a: nat): nat
    requires Valid(w) && a < |w.addresses|
  {
    w.localities.fields[LocalityOf(w, a)].state
  }

  /** The id of the `Country` an existing address reaches through its `Locality` and `State`. */
  function CountryOf(w: World, a: nat): nat
    requires Valid(w) && a < |w.addresses|
  {
    w.states.fields[StateOf(w, a)]
  }

  /** The five values an existing address reports, following its references as they are now. */
  function Read(w: World, a: nat): AddressFields
    requires Valid(w) && a < |w.addresses|
  {
    var l := LocalityOf(w, a);
    AddressFields(w.addresses[a].name, w.localities.names[l], w.localities.fields[l].zipCode,
                  w.states.names[StateOf(w, a)], w.countries.names[CountryOf(w, a)])
  }

  /**
   * A new address reads back exactly the five values it was built from:
   * its street, and the name, zip code, state name and country name its
   * freshly (re)initialised `Locality` now holds.
   */
  lemma NewAddressReadsBack(w: World, f: AddressFields)
    requires Valid(w)
    ensures var r := NewAddress(w, f); r.id < |r.world.addresses| && Read(r.world, r.id) == f
  {
    var l := NewLocality(w, f.city, f.zipCode, f.state, f.country);
    var s := NewState(w, f.state, f.country);
    var c := NewCountry(w, f.country);
    var r := NewAddress(w, f);
    assert r.world.localities == l.world.localities;
    assert l.world.states == s.world.states;
    assert l.world.countries == s.world.countries;
  }

  /**
   * An address's street and city never change once it exists: `Address`
   * objects are never reassigned, and a `Locality`'s name is the key it is
   * registered under, which no later call rebinds.
   */
  lemma StreetAndCityStable(w: World, w': World, a: nat)
    requires Valid(w) && Valid(w') && Extends(w, w') && a < |w.addresses|
    ensures a < |w'.addresses|
    ensures Read(w', a).street == Read(w, a).street && Read(w', a).city == Read(w, a).city
  {
    assert w'.addresses[a] == w.addresses[a];
    var l := LocalityOf(w, a);
    assert w'.localities.names[l] == w.localities.names[l];
  }

  /**
   * The singleton invariant: two addresses reach the same `Locality` exactly
   * when they report the same city, the same `State` exactly when they
   * report the same state name, and the same `Country` exactly when they
   * report the same country name.
   */
  lemma SameNameSameInstance(w: World, a: nat, b: nat)
    requires Valid(w) && a < |w.addresses| && b < |w.addresses|
    ensures LocalityOf(w, a) == LocalityOf(w, b) <==> Read(w, a).city == Read(w, b).city
    ensures StateOf(w, a) == StateOf(w, b) <==> Read(w, a).state == Read(w, b).state
    ensures CountryOf(w, a) == CountryOf(w, b) <==> Read(w, a).country == Read(w, b).country
  {
    var la, lb := LocalityOf(w, a), LocalityOf(w, b);
    assert w.localities.ids[w.localities.names[la]] == la;
    assert w.localities.ids[w.localities.names[lb]] == lb;
    var sa, sb := StateOf(w, a), StateOf(w, b);
    assert w.states.ids[w.states.names[sa]] == sa;
    assert w.states.ids[w.states.names[sb]] == sb;
    var ca, cb := CountryOf(w, a), CountryOf(w, b);
    assert w.countries.ids[w.countries.names[ca]] == ca;
    assert w.countries.ids[w.countries.names[cb]] == cb;
  }

  /**
   * What a new `Address(f)` does to an address made earlier (last write
   * wins): its street and city never change; if it has the new row's city,
   * it now reports the new row's zip code, state and country; otherwise, if
   * it has the new row's state name, it now reports the new row's country;
   * otherwise it reads back as before.
   */
  lemma NewAddressRewritesEarlier(w: World, f: AddressFields, a: nat)
    requires Valid(w) && a < |w.addresses|
    ensures var w' := NewAddress(w, f).world;
      var g := Read(w, a);
      && a < |w'.addresses|
      && Read(w', a) ==
           if g.city == f.city then g.(zipCode := f.zipCode, state := f.state, country := f.country)
           else if g.state == f.state then g.(country := f.country)
           else g
  {
    var wl := NewLocality(w, f.city, f.zipCode, f.state, f.country);
    var ws := NewState(w, f.state, f.country);
    var w' := NewAddress(w, f).world;
    var g := Read(w, a);
    var l := LocalityOf(w, a);
    assert w'.addresses[a] == w.addresses[a];
    assert w'.localities == wl.world.localities && w'.states == wl.world.states;
    assert w'.countries == wl.world.countries && wl.world.countries == ws.world.countries;
    assert w.localities.ids[g.city] == l;
    var st := StateOf(w, a);
    assert w.states.ids[g.state] == st;
    var co := CountryOf(w, a);
    assert w'.countries.names[co] == w.countries.names[co];
    if g.city == f.city {
      assert wl.id == l;
    } else {
      assert wl.id != l;
      assert w'.localities.fields[l] == w.localities.fields[l];
      if g.state == f.state {
        assert ws.id == st;
      } else {
        assert ws.id != st;
        assert w'.states.fields[st] == w.states.fields[st];
      }
    }
  }
}
