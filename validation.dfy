/**
 * The input rules checked before the service is reached: airport codes,
 * when given, are exactly three characters long. The query filters of a
 * search and the fields of a request body carry the rule with slightly
 * different messages.
 */
module RequestValidation {
  import opened Wrappers
  import opened FlightModel
  import opened FlightRepository
  import opened GlobalExceptionHandler

  const DepartureFilterMessage: string := "Departure airport code must be exactly 3 characters"
  const DestinationFilterMessage: string := "Destination airport code must be exactly 3 characters"
  const DepartureBodyMessage: string := "Departure airport code must be exactly 3 characters"
  const DestinationBodyMessage: string := "Destination airport must be exactly 3 characters"

  /** The size rule: between 3 and 3 characters; a null value passes. */
  predicate SizeIsThree(s: Option<string>)
    ensures s == None ==> SizeIsThree(s)
    ensures s.Some? ==> (SizeIsThree(s) <==> |s.value| == 3)
  {
    s.None? || 3 <= |s.value| <= 3
  }

  /** Filters that pass the size rule on both airport codes. */
  predicate FiltersValid(q: SearchFilters)
    ensures q.departureAirport == None && q.destinationAirport == None ==> FiltersValid(q)
    ensures q.departureAirport.Some? && |q.departureAirport.value| != 3 ==> !FiltersValid(q)
    ensures q.destinationAirport.Some? && |q.destinationAirport.value| != 3 ==> !FiltersValid(q)
  {
    SizeIsThree(q.departureAirport) && SizeIsThree(q.destinationAirport)
  }

  /** The violations of the search filters, departure airport first. */
  function FilterViolations(q: SearchFilters): (vs: seq<ConstraintViolation>)
    ensures vs == [] <==> FiltersValid(q)
    ensures |vs| == (if SizeIsThree(q.departureAirport) then 0 else 1)
                    + (if SizeIsThree(q.destinationAirport) then 0 else 1)
    ensures !SizeIsThree(q.departureAirport) ==> vs[0].message == DepartureFilterMessage
    ensures !SizeIsThree(q.destinationAirport) ==> vs[|vs| - 1].message == DestinationFilterMessage
  {
    (if SizeIsThree(q.departureAirport) then []
     else [ConstraintViolation("getFlights.departureAirport", DepartureFilterMessage)])
    + (if SizeIsThree(q.destinationAirport) then []
       else [ConstraintViolation("getFlights.destinationAirport", DestinationFilterMessage)])
  }

  /** The field errors of a request body, departure airport first. */
  function RequestFieldErrors(req: FlightRequest): (es: seq<ObjectError>)
    ensures forall i | 0 <= i < |es| :: es[i].FieldError?
    ensures es == [] <==> |req.departureAirport| == 3 && |req.destinationAirport| == 3
    ensures |es| == (if |req.departureAirport| == 3 then 0 else 1)
                    + (if |req.destinationAirport| == 3 then 0 else 1)
    ensures |req.departureAirport| != 3 ==> es[0].defaultMessage == DepartureBodyMessage
    ensures |req.destinationAirport| != 3 ==> es[|es| - 1].defaultMessage == DestinationBodyMessage
  {
    (if SizeIsThree(Some(req.departureAirport)) then []
     else [FieldError("departureAirport", DepartureBodyMessage)])
    + (if SizeIsThree(Some(req.destinationAirport)) then []
       else [FieldError("destinationAirport", DestinationBodyMessage)])
  }

  /**
   * A body with both airport codes of the wrong length is answered with 400
   * and exactly the two size messages.
   */
  lemma BothBadAirportsGiveTwoMessages(req: FlightRequest)
    requires |req.departureAirport| != 3 && |req.destinationAirport| != 3
    ensures var r := Handle(MethodArgumentNotValid(RequestFieldErrors(req)));
            && r.Some?
            && r.value.status == BadRequest
            && r.value.body.messages == [DepartureBodyMessage, DestinationBodyMessage]
  {
  }
}
