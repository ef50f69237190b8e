/**
 * The end-to-end scenarios the project's integration tests exercise, each
 * run against a fresh in-memory store and stated as what the caller
 * observes: the reply and the store's rows afterwards.
 */
module FlightScenarios {
  import opened Wrappers
  import opened FlightModel
  import opened FlightMapper
  import opened FlightRepository
  import opened ErrorDecoder
  import opened GlobalExceptionHandler
  import opened RequestValidation
  import opened FlightService

  /** The single offer the stubbed supplier returns. */
  const LufthansaOffer: FlightCrazySupplierResponse :=
    FlightCrazySupplierResponse("Lufthansa", 200.0, 50.0, "FRA", "JFK", 202507101430, 202507200945)

  /** The flight the tests put in the store beforehand. */
  const StoredLufthansa: Flight :=
    Flight(None, "Lufthansa", "WorldLine", 250.5, "FRA", "JFK", 202507011000, 202507011800)

  /** The body the create and update tests send. */
  const DeltaRequest: FlightRequest :=
    FlightRequest("Delta", "Worldline", 200.1, "AMS", "JFK", 202601010000, 202601010000)

  /** Empty store, one supplier offer: one item, the offer, and still no rows. */
  method GetFlightsOnlyFromSupplier() returns (response: seq<FlightResponse>, rowsAfter: seq<Flight>)
    ensures |response| == 1
    ensures response[0].id == None && response[0].fare == 250.0 && response[0].supplier == CrazySupplierLabel
    ensures rowsAfter == []
  {
    var store := new FlightStore();
    var service := new FlightService(store);
    response := service.GetFlights(NoFilters, _ => Returned(Some([LufthansaOffer])));
    rowsAfter := store.rows;
  }

  /** One matching row and one offer: two items, the stored one first; still one row. */
  method GetFlightsFromStoreAndSupplier() returns (response: seq<FlightResponse>, rowsAfter: seq<Flight>)
    ensures |response| == 2
    ensures response[0].id.Some? && response[1].id == None
    ensures |rowsAfter| == 1
  {
    var store := new FlightStore();
    var saved := store.Save(StoredLufthansa);
    var service := new FlightService(store);
    var filters := NoFilters.(airline := Some(saved.airline));
    SearchSingleRow(saved, filters);
    response := service.GetFlights(filters, _ => Returned(Some([LufthansaOffer])));
    rowsAfter := store.rows;
  }

  /** An airline filter nobody matches and no offers: nothing; the row stays. */
  method GetFlightsWrongFilter() returns (response: seq<FlightResponse>, rowsAfter: seq<Flight>)
    ensures response == []
    ensures |rowsAfter| == 1
  {
    var store := new FlightStore();
    var saved := store.Save(StoredLufthansa);
    var service := new FlightService(store);
    var filters := NoFilters.(airline := Some("WRONG"));
    SearchSingleRow(saved, filters);
    response := service.GetFlights(filters, _ => Returned(Some([])));
    rowsAfter := store.rows;
  }

  /** The supplier answers 500: the search still succeeds, with no items. */
  method GetFlightsSupplierError() returns (response: seq<FlightResponse>)
    ensures response == []
  {
    var store := new FlightStore();
    var service := new FlightService(store);
    var fault := HttpError(Decode("CrazySupplierClient#getFlights(FlightCrazySupplierRequest)", 500));
    response := service.GetFlights(NoFilters.(airline := Some("WRONG")), _ => Failed(fault));
  }

  /** A valid body is created: the store grows from zero rows to one. */
  method SaveFlight() returns (reply: Outcome<FlightResponse>, rowsAfter: seq<Flight>)
    ensures reply.Success? && ResponseInfo(reply.value) == RequestInfo(DeltaRequest)
    ensures |rowsAfter| == 1
  {
    var store := new FlightStore();
    var service := new FlightService(store);
    reply := service.SaveFlightInfo(DeltaRequest, false);
    rowsAfter := store.rows;
  }

  /**
   * Airport codes of four and five characters: the body is rejected with
   * 400 and the two size messages, so the service is never called. That the
   * store stays empty follows from the body being rejected before the
   * service; the binding step that does this rejecting is not modelled.
   */
  method SaveFlightAirportTooLong() returns (reply: Option<ResponseEntity>)
    ensures reply.Some? && reply.value.status == 400
    ensures |reply.value.body.messages| == 2
    ensures forall m | m in reply.value.body.messages ::
              m == "Destination airport must be exactly 3 characters"
              || m == "Departure airport code must be exactly 3 characters"
  {
    var req := DeltaRequest.(departureAirport := "AMSS", destinationAirport := "JFKSS");
    var errors := RequestFieldErrors(req);
    BothBadAirportsGiveTwoMessages(req);
    reply := Handle(MethodArgumentNotValid(errors));
  }

  /** Updating the stored row: still one row, same identifier, the body's fields. */
  method UpdateFlight() returns (reply: Outcome<()>, rowsAfter: seq<Flight>, savedId: Option<int>)
    ensures reply == Success(())
    ensures |rowsAfter| == 1
    ensures rowsAfter[0].id == savedId && EntityInfo(rowsAfter[0]) == RequestInfo(DeltaRequest)
  {
    var store := new FlightStore();
    var saved := store.Save(StoredLufthansa);
    savedId := saved.id;
    var service := new FlightService(store);
    reply := service.UpdateFlightInfo(saved.id.value, DeltaRequest, false);
    rowsAfter := store.rows;
  }

  /** Updating identifier 999: 400 with the not-found message; the row is untouched. */
  method UpdateNonExistingFlight() returns (reply: Option<ResponseEntity>, rowsAfter: seq<Flight>)
    ensures reply.Some? && reply.value.status == 400
    ensures reply.value.body.messages == ["Flight doenst exist"]
    ensures |rowsAfter| == 1 && EntityInfo(rowsAfter[0]) == EntityInfo(StoredLufthansa)
  {
    var store := new FlightStore();
    var saved := store.Save(StoredLufthansa);
    var service := new FlightService(store);
    var outcome := service.UpdateFlightInfo(999, DeltaRequest, false);
    reply := match outcome
      case Thrown(ex) => Handle(Service(ex))
      case Success(_) => None;
    rowsAfter := store.rows;
  }

  /** Deleting the stored row: the store is empty afterwards. */
  method DeleteFlight() returns (reply: Outcome<()>, rowsAfter: seq<Flight>)
    ensures reply == Success(())
    ensures rowsAfter == []
  {
    var store := new FlightStore();
    var saved := store.Save(StoredLufthansa);
    var service := new FlightService(store);
    reply := service.DeleteFlightInfo(saved.id, false);
    rowsAfter := store.rows;
  }
}
