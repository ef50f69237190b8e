/**
 * The normalizer: field-by-field mappings from the stored entity, from a
 * request body and from a supplier offer into the shapes the service uses.
 */
module FlightMapper {
  import opened Wrappers
  import opened FlightModel

  /** The supplier label every supplier offer is given. */
  const CrazySupplierLabel: string := "CrazySupplier"

  /** Entity to response: every field, the identifier included, is copied. */
  function ToResponse(f: Flight): (r: FlightResponse)
    ensures r.id == f.id
    ensures ResponseInfo(r) == EntityInfo(f)
  {
    FlightResponse(f.id, f.airline, f.supplier, f.fare, f.departureAirport,
                   f.destinationAirport, f.departureTime, f.arrivalTime)
  }

  /** Request to entity: the request has no identifier, so the entity has none. */
  function ToEntity(req: FlightRequest): (f: Flight)
    ensures f.id == None
    ensures EntityInfo(f) == RequestInfo(req)
  {
    Flight(None, req.airline, req.supplier, req.fare, req.departureAirport,
           req.destinationAirport, req.departureTime, req.arrivalTime)
  }

  /**
   * Supplier offer to response: no identifier, the fixed supplier label, a
   * fare made of base price plus tax, and the airports and times renamed.
   * Airport names are copied whatever their length.
   */
  function FromCrazySupplierToResponse(offer: FlightCrazySupplierResponse): (r: FlightResponse)
    ensures r.id == None
    ensures r.supplier == CrazySupplierLabel
    ensures r.fare == offer.basePrice + offer.tax
    ensures r.airline == offer.carrier
    ensures r.departureAirport == offer.departureAirportName
    ensures r.destinationAirport == offer.arrivalAirportName
    ensures r.departureTime == offer.outboundDateTime
    ensures r.arrivalTime == offer.inboundDateTime
  {
    FlightResponse(None, offer.carrier, CrazySupplierLabel, offer.basePrice + offer.tax,
                   offer.departureAirportName, offer.arrivalAirportName,
                   offer.outboundDateTime, offer.inboundDateTime)
  }

  /** The entity mapping applied to each flight, in order. */
  function ToResponses(flights: seq<Flight>): (rs: seq<FlightResponse>)
    ensures |rs| == |flights|
    ensures forall i | 0 <= i < |flights| :: rs[i] == ToResponse(flights[i])
  {
    seq(|flights|, i requires 0 <= i < |flights| => ToResponse(flights[i]))
  }

  /** The offer mapping applied to each supplier offer, in order. */
  function FromCrazySupplierToResponses(offers: seq<FlightCrazySupplierResponse>): (rs: seq<FlightResponse>)
    ensures |rs| == |offers|
    ensures forall i | 0 <= i < |offers| :: rs[i] == FromCrazySupplierToResponse(offers[i])
  {
    seq(|offers|, i requires 0 <= i < |offers| => FromCrazySupplierToResponse(offers[i]))
  }

  /**
   * A request mapped to an entity, given an identifier and mapped back to a
   * response carries that identifier and exactly the request's fields: the
   * path a created or updated flight takes.
   */
  lemma RequestSurvivesStorage(req: FlightRequest, id: int)
    ensures ToResponse(ToEntity(req).(id := Some(id))).id == Some(id)
    ensures ResponseInfo(ToResponse(ToEntity(req).(id := Some(id)))) == RequestInfo(req)
  {
  }
}
