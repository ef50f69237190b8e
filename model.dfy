/**
 * The records the flight service passes around: the stored entity, the
 * request and response bodies of the REST API, the supplier's request and
 * offer shapes, and the two exceptions the service raises.
 *
 * Timestamps (Java LocalDateTime) are ordered integers; monetary amounts
 * (Java double) are exact reals.
 */
module FlightModel {
  import opened Wrappers

  /** The stored flight; `id` is null until the store assigns one. */
  datatype Flight = Flight(
    id: Option<int>,
    airline: string,
    supplier: string,
    fare: real,
    departureAirport: string,
    destinationAirport: string,
    departureTime: int,
    arrivalTime: int)

  /** The body of a create or update call: a flight without an identifier. */
  datatype FlightRequest = FlightRequest(
    airline: string,
    supplier: string,
    fare: real,
    departureAirport: string,
    destinationAirport: string,
    departureTime: int,
    arrivalTime: int)

  /** The unified output shape; `id` is absent for supplier offers. */
  datatype FlightResponse = FlightResponse(
    id: Option<int>,
    airline: string,
    supplier: string,
    fare: real,
    departureAirport: string,
    destinationAirport: string,
    departureTime: int,
    arrivalTime: int)

  /** What is sent to the supplier; every field may be null. */
  datatype FlightCrazySupplierRequest = FlightCrazySupplierRequest(
    from: Option<string>,
    to: Option<string>,
    outboundDate: Option<int>,
    inboundDate: Option<int>)

  /** One offer in the supplier's own schema. */
  datatype FlightCrazySupplierResponse = FlightCrazySupplierResponse(
    carrier: string,
    basePrice: real,
    tax: real,
    departureAirportName: string,
    arrivalAirportName: string,
    outboundDateTime: int,
    inboundDateTime: int)

  /** The body of every error reply. */
  datatype ErrorResponse = ErrorResponse(messages: seq<string>)

  /** The two exceptions the service layer raises on purpose. */
  datatype ServiceException =
    | BusinessException(message: string)
    | TechnicalException(message: string)

  /** Everything a flight record says apart from its identifier. */
  datatype FlightInfo = FlightInfo(
    airline: string,
    supplier: string,
    fare: real,
    departureAirport: string,
    destinationAirport: string,
    departureTime: int,
    arrivalTime: int)

  function EntityInfo(f: Flight): FlightInfo
  {
    FlightInfo(f.airline, f.supplier, f.fare, f.departureAirport, f.destinationAirport,
               f.departureTime, f.arrivalTime)
  }

  function RequestInfo(r: FlightRequest): FlightInfo
  {
    FlightInfo(r.airline, r.supplier, r.fare, r.departureAirport, r.destinationAirport,
               r.departureTime, r.arrivalTime)
  }

  function ResponseInfo(r: FlightResponse): FlightInfo
  {
    FlightInfo(r.airline, r.supplier, r.fare, r.departureAirport, r.destinationAirport,
               r.departureTime, r.arrivalTime)
  }
}
