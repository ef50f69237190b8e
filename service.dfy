/**
 * The flight service: the read path that merges local hits with supplier
 * offers and survives any supplier failure, and the create, update and
 * delete handlers that change the local store and wrap its failures.
 */
module FlightService {
  import opened Wrappers
  import opened FlightModel
  import opened FlightMapper
  import opened FlightRepository
  import opened ErrorDecoder

  const SaveErrorMessage: string := "Error on saving flight"
  const UpdateErrorMessage: string := "Error on updating flight"
  const DeleteErrorMessage: string := "Error on deleting flight"
  /** Spelled as the service spells it. */
  const FlightNotFoundMessage: string := "Flight doenst exist"

  /** Why a supplier call failed. */
  datatype SupplierFault =
    | HttpError(decoded: DecodedError)
    | TransportError
    | MalformedBody

  /** What one supplier call produced: a (possibly null) list of offers, or a failure. */
  datatype SupplierOutcome =
    | Returned(body: Option<seq<FlightCrazySupplierResponse>>)
    | Failed(fault: SupplierFault)

  /** The result of a service call: a value, or the exception it throws. */
  datatype Outcome<T> = Success(value: T) | Thrown(exception: ServiceException)

  /**
   * The supplier request built from the search filters: the two airports and
   * the two times; the airline filter is not part of it.
   */
  function SupplierRequestFor(q: SearchFilters): (r: FlightCrazySupplierRequest)
    ensures r.from == q.departureAirport && r.to == q.destinationAirport
    ensures r.outboundDate == q.departureTime && r.inboundDate == q.arrivalTime
  {
    FlightCrazySupplierRequest(q.departureAirport, q.destinationAirport, q.departureTime, q.arrivalTime)
  }

  /** Searches that differ only in the airline filter send the supplier the same request. */
  lemma AirlineIsNotForwarded(q: SearchFilters, airline: Option<string>)
    ensures SupplierRequestFor(q.(airline := airline)) == SupplierRequestFor(q)
  {
  }

  /**
   * A flight appended by a create shows up in every later search it
   * matches, after the earlier hits.
   */
  lemma CreatedFlightIsFoundLast(rows: seq<Flight>, created: Flight, q: SearchFilters)
    ensures SearchFlights(rows + [created], q)
            == SearchFlights(rows, q) + (if Matches(q, created) then [created] else [])
  {
    SearchKeepsStoreOrder(rows, [created], q);
    SearchSingleRow(created, q);
  }

  /** The offers a supplier call contributes: none when it failed or returned null. */
  function OffersOf(outcome: SupplierOutcome): (offers: seq<FlightCrazySupplierResponse>)
    ensures outcome.Failed? ==> offers == []
    ensures outcome.Returned? ==> offers == if outcome.body.Some? then outcome.body.value else []
  {
    match outcome
    case Returned(Some(flights)) => flights
    case Returned(None) => []
    case Failed(_) => []
  }

  class FlightService {
    const store: FlightStore

    constructor (store: FlightStore)
      ensures this.store == store
    {
      this.store := store;
    }

    /**
     * The local hits in store order, mapped to responses, followed by the
     * mapped offers of one supplier call; a failed call adds nothing and
     * raises nothing. The store is only read.
     */
    method GetFlights(q: SearchFilters, supplier: FlightCrazySupplierRequest -> SupplierOutcome)
      returns (result: seq<FlightResponse>)
      ensures var hits := SearchFlights(store.rows, q);
              var offers := OffersOf(supplier(SupplierRequestFor(q)));
              && |result| == |hits| + |offers|
              && result[..|hits|] == ToResponses(hits)
              && result[|hits|..] == FromCrazySupplierToResponses(offers)
      ensures supplier(SupplierRequestFor(q)).Failed? ==> result == ToResponses(SearchFlights(store.rows, q))
      ensures var hits := SearchFlights(store.rows, q);
              forall i | 0 <= i < |hits| ::
                && hits[i] in store.rows && Matches(q, hits[i])
                && result[i].id == hits[i].id && ResponseInfo(result[i]) == EntityInfo(hits[i])
      ensures forall j | |SearchFlights(store.rows, q)| <= j < |result| ::
                result[j].id == None && result[j].supplier == CrazySupplierLabel
    {
      result := [];
      var flightInfos := SearchFlights(store.rows, q);
      if |flightInfos| > 0 {
        result := result + ToResponses(flightInfos);
      }
      assert result == ToResponses(flightInfos);
      var outcome := supplier(SupplierRequestFor(q));
      match outcome {
        case Returned(Some(flights)) =>
          if |flights| > 0 {
            result := result + FromCrazySupplierToResponses(flights);
          }
        case Returned(None) =>
        case Failed(_) =>
          // the failure is logged and swallowed
      }
    }

    /*
     * In the three handlers below, `tryBlockFails` says that something inside
     * the handler's protected block throws: the request-to-entity mapping or
     * the store call. The store is then left as it was.
     */

    /**
     * Create: the request is stored under a fresh identifier and returned as
     * a response; a failure leaves the store as it was and is reported as a
     * technical failure.
     */
    method SaveFlightInfo(req: FlightRequest, tryBlockFails: bool) returns (r: Outcome<FlightResponse>)
      requires store.Valid()
      modifies store
      ensures store.Valid()
      ensures tryBlockFails ==> && r == Thrown(TechnicalException(SaveErrorMessage))
                                && store.rows == old(store.rows) && store.nextId == old(store.nextId)
      ensures !tryBlockFails ==> && r.Success?
                                 && r.value.id == Some(old(store.nextId))
                                 && ResponseInfo(r.value) == RequestInfo(req)
                                 && (forall i | 0 <= i < |old(store.rows)| :: old(store.rows)[i].id != r.value.id)
                                 && store.rows == old(store.rows) + [ToEntity(req).(id := r.value.id)]
                                 && store.nextId == old(store.nextId) + 1
      ensures |store.rows| == |old(store.rows)| + (if tryBlockFails then 0 else 1)
    {
      if tryBlockFails {
        r := Thrown(TechnicalException(SaveErrorMessage));
        return;
      }
      var flight := ToEntity(req);
      var savedFlight := store.Save(flight);
      r := Success(ToResponse(savedFlight));
    }

    /**
     * Update: an unknown identifier is a business failure raised before the
     * protected block; otherwise the request replaces the row in place under
     * the same identifier, or a failure is reported as a technical failure.
     * On either failure the store is as it was.
     */
    method UpdateFlightInfo(id: int, req: FlightRequest, tryBlockFails: bool) returns (r: Outcome<()>)
      requires store.Valid()
      modifies store
      ensures store.Valid() && store.nextId == old(store.nextId)
      ensures old(store.FindById(id)).None? ==>
                r == Thrown(BusinessException(FlightNotFoundMessage)) && store.rows == old(store.rows)
      ensures old(store.FindById(id)).Some? && tryBlockFails ==>
                r == Thrown(TechnicalException(UpdateErrorMessage)) && store.rows == old(store.rows)
      ensures old(store.FindById(id)).Some? && !tryBlockFails ==>
                && r == Success(())
                && |store.rows| == |old(store.rows)|
                && store.rows == old(store.rows)[IndexOfId(old(store.rows), id).value := ToEntity(req).(id := Some(id))]
    {
      var flight := store.FindById(id);
      if flight.None? {
        r := Thrown(BusinessException(FlightNotFoundMessage));
        return;
      }
      if tryBlockFails {
        r := Thrown(TechnicalException(UpdateErrorMessage));
        return;
      }
      var flightUpdated := ToEntity(req).(id := flight.value.id);
      var savedFlight := store.Save(flightUpdated);
      r := Success(());
    }

    /**
     * Delete: removes the row with the identifier, if there is one; a null
     * identifier or a failure is reported as a technical failure and leaves
     * the store as it was.
     */
    method DeleteFlightInfo(id: Option<int>, tryBlockFails: bool) returns (r: Outcome<()>)
      requires store.Valid()
      modifies store
      ensures store.Valid() && store.nextId == old(store.nextId)
      ensures tryBlockFails || id.None? ==>
                r == Thrown(TechnicalException(DeleteErrorMessage)) && store.rows == old(store.rows)
      ensures !tryBlockFails && id.Some? ==>
                && r == Success(())
                && (forall i | 0 <= i < |store.rows| :: store.rows[i].id != id)
                && |store.rows| == |old(store.rows)| - (if old(store.FindById(id.value)).Some? then 1 else 0)
                && var k := IndexOfId(old(store.rows), id.value);
                   store.rows == if k.Some? then old(store.rows)[..k.value] + old(store.rows)[k.value + 1..]
                                 else old(store.rows)
    {
      if tryBlockFails || id.None? {
        r := Thrown(TechnicalException(DeleteErrorMessage));
        return;
      }
      store.DeleteById(id.value);
      r := Success(());
    }
  }
}
