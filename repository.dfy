/**
 * The local store: the filtered search query (a conjunction of five
 * "filter absent OR field matches" clauses) and an in-memory stand-in for
 * the persistence engine behind save, find-by-id and delete-by-id.
 */
module FlightRepository {
  import opened Wrappers
  import opened FlightModel

  /** The optional filters of a search; `None` is a null parameter. */
  datatype SearchFilters = SearchFilters(
    airline: Option<string>,
    departureAirport: Option<string>,
    destinationAirport: Option<string>,
    departureTime: Option<int>,
    arrivalTime: Option<int>)

  const NoFilters: SearchFilters := SearchFilters(None, None, None, None, None)

  /** Exact match on the airline. */
  predicate AirlineClause(q: SearchFilters, f: Flight)
    ensures q.airline == None ==> AirlineClause(q, f)
    ensures q.airline == Some(f.airline) ==> AirlineClause(q, f)
    ensures q.airline.Some? && f.airline != q.airline.value ==> !AirlineClause(q, f)
  {
    q.airline == None || f.airline == q.airline.value
  }

  /** Exact match on the departure airport. */
  predicate DepartureAirportClause(q: SearchFilters, f: Flight)
    ensures q.departureAirport == None ==> DepartureAirportClause(q, f)
    ensures q.departureAirport == Some(f.departureAirport) ==> DepartureAirportClause(q, f)
    ensures q.departureAirport.Some? && f.departureAirport != q.departureAirport.value ==> !DepartureAirportClause(q, f)
  {
    q.departureAirport == None || f.departureAirport == q.departureAirport.value
  }

  /** Exact match on the destination airport. */
  predicate DestinationAirportClause(q: SearchFilters, f: Flight)
    ensures q.destinationAirport == None ==> DestinationAirportClause(q, f)
    ensures q.destinationAirport == Some(f.destinationAirport) ==> DestinationAirportClause(q, f)
    ensures q.destinationAirport.Some? && f.destinationAirport != q.destinationAirport.value ==> !DestinationAirportClause(q, f)
  {
    q.destinationAirport == None || f.destinationAirport == q.destinationAirport.value
  }

  /** Inclusive lower bound on the departure time. */
  predicate DepartureTimeClause(q: SearchFilters, f: Flight)
    ensures q.departureTime == None ==> DepartureTimeClause(q, f)
    ensures q.departureTime == Some(f.departureTime) ==> DepartureTimeClause(q, f)
    ensures q.departureTime.Some? && f.departureTime > q.departureTime.value ==> DepartureTimeClause(q, f)
    ensures q.departureTime.Some? && f.departureTime < q.departureTime.value ==> !DepartureTimeClause(q, f)
  {
    q.departureTime == None || f.departureTime >= q.departureTime.value
  }

  /** Inclusive upper bound on the arrival time. */
  predicate ArrivalTimeClause(q: SearchFilters, f: Flight)
    ensures q.arrivalTime == None ==> ArrivalTimeClause(q, f)
    ensures q.arrivalTime == Some(f.arrivalTime) ==> ArrivalTimeClause(q, f)
    ensures q.arrivalTime.Some? && f.arrivalTime < q.arrivalTime.value ==> ArrivalTimeClause(q, f)
    ensures q.arrivalTime.Some? && f.arrivalTime > q.arrivalTime.value ==> !ArrivalTimeClause(q, f)
  {
    q.arrivalTime == None || f.arrivalTime <= q.arrivalTime.value
  }

  /** The WHERE clause of the search query. */
  predicate Matches(q: SearchFilters, f: Flight)
    ensures q == NoFilters ==> Matches(q, f)
    ensures Matches(q, f) ==>
              && (q.airline == None || f.airline == q.airline.value)
              && (q.departureAirport == None || f.departureAirport == q.departureAirport.value)
              && (q.destinationAirport == None || f.destinationAirport == q.destinationAirport.value)
              && (q.departureTime == None || q.departureTime.value <= f.departureTime)
              && (q.arrivalTime == None || f.arrivalTime <= q.arrivalTime.value)
  {
    && AirlineClause(q, f)
    && DepartureAirportClause(q, f)
    && DestinationAirportClause(q, f)
    && DepartureTimeClause(q, f)
    && ArrivalTimeClause(q, f)
  }

  /** The rows that satisfy the query, in store order. */
  function SearchFlights(rows: seq<Flight>, q: SearchFilters): (hits: seq<Flight>)
    ensures |hits| <= |rows|
    ensures forall i | 0 <= i < |hits| :: hits[i] in rows && Matches(q, hits[i])
  {
    if rows == [] then []
    else if Matches(q, rows[0]) then [rows[0]] + SearchFlights(rows[1..], q)
    else SearchFlights(rows[1..], q)
  }

  /** A flight is found exactly when it is stored and satisfies every clause. */
  lemma {:induction false} SearchMembership(rows: seq<Flight>, q: SearchFilters, f: Flight)
    ensures f in SearchFlights(rows, q) <==> f in rows && Matches(q, f)
  {
    if rows != [] {
      SearchMembership(rows[1..], q, f);
      assert f in rows <==> f == rows[0] || f in rows[1..];
    }
  }

  /** The search distributes over concatenation: it keeps store order. */
  lemma {:induction false} SearchKeepsStoreOrder(a: seq<Flight>, b: seq<Flight>, q: SearchFilters)
    ensures SearchFlights(a + b, q) == SearchFlights(a, q) + SearchFlights(b, q)
  {
    if a == [] {
      assert a + b == b;
    } else {
      var ab := a + b;
      assert ab[0] == a[0];
      assert ab[1..] == a[1..] + b;
      var head := if Matches(q, a[0]) then [a[0]] else [];
      calc {
        SearchFlights(ab, q);
      == { SearchUnfold(ab, q); }
        head + SearchFlights(a[1..] + b, q);
      == { SearchKeepsStoreOrder(a[1..], b, q); }
        head + (SearchFlights(a[1..], q) + SearchFlights(b, q));
      ==
        (head + SearchFlights(a[1..], q)) + SearchFlights(b, q);
      == { SearchUnfold(a, q); }
        SearchFlights(a, q) + SearchFlights(b, q);
      }
    }
  }

  /** One step of the search: the first row's contribution, then the rest. */
  lemma SearchUnfold(rows: seq<Flight>, q: SearchFilters)
    requires rows != []
    ensures SearchFlights(rows, q)
            == (if Matches(q, rows[0]) then [rows[0]] else []) + SearchFlights(rows[1..], q)
  {
  }

  /** A single row is returned exactly when it matches. */
  lemma SearchSingleRow(f: Flight, q: SearchFilters)
    ensures SearchFlights([f], q) == if Matches(q, f) then [f] else []
  {
  }

  /** With every filter absent, the whole store comes back in order. */
  lemma {:induction false} SearchWithoutFiltersReturnsAll(rows: seq<Flight>)
    ensures SearchFlights(rows, NoFilters) == rows
  {
    if rows != [] {
      SearchWithoutFiltersReturnsAll(rows[1..]);
      assert [rows[0]] + rows[1..] == rows;
    }
  }

  /** An airline filter that no stored flight carries yields nothing. */
  lemma {:induction false} SearchUnknownAirlineIsEmpty(rows: seq<Flight>, q: SearchFilters)
    requires q.airline.Some?
    requires forall i | 0 <= i < |rows| :: rows[i].airline != q.airline.value
    ensures SearchFlights(rows, q) == []
  {
    if rows != [] {
      SearchUnknownAirlineIsEmpty(rows[1..], q);
    }
  }

  /** Position of the row with identifier `id`, if any. */
  function IndexOfId(rows: seq<Flight>, id: int): (k: Option<nat>)
    ensures k.Some? ==> k.value < |rows| && rows[k.value].id == Some(id)
    ensures k.None? ==> forall i | 0 <= i < |rows| :: rows[i].id != Some(id)
  {
    if rows == [] then None
    else if rows[0].id == Some(id) then Some(0)
    else match IndexOfId(rows[1..], id)
      case None => None
      case Some(k) => Some(k + 1)
  }

  /** No two rows share an identifier. */
  ghost predicate UniqueIds(rows: seq<Flight>)
  {
    forall i, j | 0 <= i < j < |rows| :: rows[i].id != rows[j].id
  }

  /**
   * The persistence engine: rows in store order and the next identifier the
   * engine will generate.
   */
  class FlightStore {
    var rows: seq<Flight>
    var nextId: int

    /** Every row has a generated identifier, and identifiers are unique. */
    ghost predicate Valid()
      reads this
    {
      && (forall i | 0 <= i < |rows| :: rows[i].id.Some? && rows[i].id.value < nextId)
      && UniqueIds(rows)
    }

    constructor ()
      ensures Valid() && rows == [] && nextId == 1
    {
      rows := [];
      nextId := 1;
    }

    /** The stored row with identifier `id`, if any. */
    function FindById(id: int): (r: Option<Flight>)
      reads this
      ensures r.Some? ==> r.value in rows && r.value.id == Some(id)
      ensures r.None? ==> forall i | 0 <= i < |rows| :: rows[i].id != Some(id)
    {
      match IndexOfId(rows, id)
      case None => None
      case Some(k) => Some(rows[k])
    }

    /**
     * Save: a flight whose identifier is stored replaces that row in place;
     * any other flight is appended with a freshly generated identifier.
     */
    method Save(f: Flight) returns (saved: Flight)
      requires Valid()
      modifies this
      ensures Valid()
      ensures EntityInfo(saved) == EntityInfo(f)
      ensures var k := if f.id.Some? then IndexOfId(old(rows), f.id.value) else None;
              if k.Some? then
                saved == f && rows == old(rows)[k.value := f] && nextId == old(nextId)
              else
                && saved == f.(id := Some(old(nextId)))
                && rows == old(rows) + [saved]
                && nextId == old(nextId) + 1
    {
      var k := if f.id.Some? then IndexOfId(rows, f.id.value) else None;
      if k.Some? {
        rows := rows[k.value := f];
        saved := f;
      } else {
        saved := f.(id := Some(nextId));
        rows := rows + [saved];
        nextId := nextId + 1;
      }
    }

    /** Delete-by-id: removes the row with that identifier; a missing one is a no-op. */
    method DeleteById(id: int)
      requires Valid()
      modifies this
      ensures Valid() && nextId == old(nextId)
      ensures var k := IndexOfId(old(rows), id);
              if k.Some? then rows == old(rows)[..k.value] + old(rows)[k.value + 1..]
              else rows == old(rows)
      ensures |rows| == if old(FindById(id)).Some? then |old(rows)| - 1 else |old(rows)|
      ensures forall i | 0 <= i < |rows| :: rows[i].id != Some(id)
    {
      var k := IndexOfId(rows, id);
      if k.Some? {
        ghost var before := rows;
        rows := rows[..k.value] + rows[k.value + 1..];
        assert forall i | 0 <= i < |rows| :: rows[i] == before[if i < k.value then i else i + 1];
      }
    }
  }
}
