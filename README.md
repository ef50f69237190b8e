# Flight aggregation service — a Dafny model

This project models the core of a flight REST service. The service returns
flights stored in a local database together with offers from an external
supplier ("CrazySupplier"). Reads merge both sources: local hits come first,
in store order, then the supplier's offers. The read still succeeds when the
supplier fails; the caller then gets only the local hits. Create, update and
delete change the local store. Their failures become a technical failure,
except an update of an unknown identifier, which is a business failure.

Modules, one per component of the service:

- `Wrappers` (`wrappers.dfy`): `Option`, which stands for Java's nullable references.
- `FlightModel` (`model.dfy`): the stored `Flight` entity, the request and response bodies, the supplier's request and offer records, `ErrorResponse`, and the two service exceptions. `FlightInfo` holds the fields a flight has apart from its identifier.
- `FlightMapper` (`mapper.dfy`): maps an entity to a response, a request to an entity, and a supplier offer to a response.
- `FlightRepository` (`repository.dfy`): the search query as five clause predicates and an order-preserving filter. `FlightStore` is a class standing in for the persistence engine: rows in store order, a counter for generated identifiers, and `Save`, `FindById` and `DeleteById`.
- `ErrorDecoder` (`decoder.dfy`): sorts a supplier's HTTP error status by series.
- `GlobalExceptionHandler` (`handler.dfy`): turns each exception kind into a status code and a list of messages.
- `RequestValidation` (`validation.dfy`): the three-character rule on airport codes, once for the search filters and once for request bodies.
- `FlightService` (`service.dfy`): a class holding the store, with `GetFlights`, `SaveFlightInfo`, `UpdateFlightInfo` and `DeleteFlightInfo`.
- `FlightScenarios` (`scenarios.dfy`): the integration-test scenarios, each run against a fresh store. Each states what the caller observes, using only the contracts above.

Abstractions:

- The supplier is a parameter of `GetFlights`: a function from the supplier request to `Returned(body)` or `Failed(fault)`. A `body` of `None` is a null list. A fault is an HTTP error classified by `ErrorDecoder.Decode`, a transport error or a malformed body. `GetFlights` applies the function exactly once.
- In the three mutation handlers (create, update, delete), failures are a `tryBlockFails` parameter. It means that something inside the handler's `try` block throws: the request-to-entity mapping or the store call. The store is then left as it was.
- `GetFlights` has no `modifies` clause, so Dafny checks that it leaves the store unchanged.
- Timestamps are integers compared by order. Fares, base prices and taxes are exact reals.

Two details of the code that the model keeps:

- The not-found message keeps the code's spelling "Flight doenst exist".
- The delete endpoint does not require its `id` parameter. A missing id reaches `deleteById` as null, and that call throws. The model therefore takes `Option<int>`, and a missing id gives the technical failure "Error on deleting flight".

## Model

| member | source | states |
|---|---|---|
| `FlightMapper.ToResponse` | src/main/java/com/api/worldline/flights/config/FlightMapper.java:12 | the response has the entity's identifier and exactly the entity's other fields |
| `FlightMapper.ToEntity` | src/main/java/com/api/worldline/flights/config/FlightMapper.java:14 | the entity has no identifier and exactly the request's fields |
| `FlightMapper.FromCrazySupplierToResponse` | src/main/java/com/api/worldline/flights/config/FlightMapper.java:16-24 | no identifier; supplier is the constant "CrazySupplier"; fare = basePrice + tax; airline = carrier; airports = departure/arrival airport names, with no length check; times = outbound/inbound times |
| `FlightMapper.ToResponses` | src/main/java/com/api/worldline/flights/service/FlightService.java:41-45 | one response per local hit, in the same order, each the entity mapping of that hit |
| `FlightMapper.FromCrazySupplierToResponses` | src/main/java/com/api/worldline/flights/service/FlightService.java:51-55 | one response per offer, in the same order, each the offer mapping of that offer |
| `FlightMapper.RequestSurvivesStorage` | src/main/java/com/api/worldline/flights/service/FlightService.java:66-68 | a request mapped to an entity, given identifier k and mapped back, has identifier k and exactly the request's fields |
| `FlightRepository.AirlineClause` | src/main/java/com/api/worldline/flights/repository/FlightRepository.java:15 | an absent airline filter always holds; a present one holds for that airline and fails for any other |
| `FlightRepository.DepartureAirportClause` | src/main/java/com/api/worldline/flights/repository/FlightRepository.java:16 | an absent departure-airport filter always holds; a present one holds for that airport and fails for any other |
| `FlightRepository.DestinationAirportClause` | src/main/java/com/api/worldline/flights/repository/FlightRepository.java:17 | an absent destination-airport filter always holds; a present one holds for that airport and fails for any other |
| `FlightRepository.DepartureTimeClause` | src/main/java/com/api/worldline/flights/repository/FlightRepository.java:18 | an absent departure-time filter always holds; a present one is an inclusive lower bound (equal or later passes, earlier fails) |
| `FlightRepository.ArrivalTimeClause` | src/main/java/com/api/worldline/flights/repository/FlightRepository.java:19 | an absent arrival-time filter always holds; a present one is an inclusive upper bound (equal or earlier passes, later fails) |
| `FlightRepository.Matches` | src/main/java/com/api/worldline/flights/repository/FlightRepository.java:15-19 | with every filter absent every flight matches; a matching flight meets each of the five present filters (airline, departure airport and destination airport equal, departure time not before, arrival time not after) |
| `FlightRepository.SearchFlights` | src/main/java/com/api/worldline/flights/repository/FlightRepository.java:15-24 | returns no more flights than are stored; every returned flight is stored and satisfies all five clauses |
| `FlightRepository.SearchMembership` | src/main/java/com/api/worldline/flights/repository/FlightRepository.java:15-19 | a flight is returned if and only if it is stored and satisfies every clause; an absent filter is a clause that always holds |
| `FlightRepository.SearchKeepsStoreOrder` | src/main/java/com/api/worldline/flights/repository/FlightRepository.java:15-20 | searching a concatenation is the concatenation of the searches, so results keep store order |
| `FlightRepository.SearchSingleRow` | src/main/java/com/api/worldline/flights/repository/FlightRepository.java:15-19 | one row is returned exactly when it matches all clauses |
| `FlightRepository.SearchWithoutFiltersReturnsAll` | src/main/java/com/api/worldline/flights/repository/FlightRepository.java:15-19 | with every filter absent, the whole store is returned in order |
| `FlightRepository.SearchUnknownAirlineIsEmpty` | src/test/java/com/api/wordline/flights/controller/FlightControllerTest.java:142-153 | an airline filter that no stored flight carries returns nothing |
| `FlightRepository.IndexOfId` | src/main/java/com/api/worldline/flights/service/FlightService.java:76 | the position found holds a row with that identifier; no position means no row has it |
| `FlightRepository.FlightStore.constructor` | src/test/java/com/api/wordline/flights/controller/FlightControllerTest.java:55 | a fresh store is valid and empty, and its first generated identifier is 1 |
| `FlightRepository.FlightStore.FindById` | src/main/java/com/api/worldline/flights/service/FlightService.java:76 | the flight found is stored and has that identifier; none found means no stored row has it |
| `FlightRepository.FlightStore.Save` | src/main/java/com/api/worldline/flights/service/FlightService.java:67 | a stored identifier is replaced in place; otherwise the flight is appended under the next generated identifier; identifiers stay unique |
| `FlightRepository.FlightStore.DeleteById` | src/main/java/com/api/worldline/flights/service/FlightService.java:88 | the matching row is removed (the count drops by one) and other rows keep their order; an unknown identifier changes nothing |
| `ErrorDecoder.Series` | src/main/java/com/api/wordline/flights/client/CustomFeignErrorDecoder.java:13-15 | for a non-negative status the series is its hundreds digit: series * 100 <= status < series * 100 + 100 |
| `ErrorDecoder.Decode` | src/main/java/com/api/wordline/flights/client/CustomFeignErrorDecoder.java:12-22 | series 4 if and only if a status exception with the same status and "Client error occurred when calling: " + method key; series 5 gives the same with "Server error ..."; any other series goes to the default decoder |
| `ErrorDecoder.DecodeDependsOnlyOnSeries` | src/main/java/com/api/wordline/flights/client/CustomFeignErrorDecoder.java:13-15 | two statuses of the same series take the same branch with the same message |
| `ErrorDecoder.DecodeKeepsStatusAndMethodKey` | src/main/java/com/api/wordline/flights/client/CustomFeignErrorDecoder.java:16-19 | the decoded error carries the status it was given, and a status exception's message ends with the method key |
| `GlobalExceptionHandler.HandleBusinessException` | src/main/java/com/api/wordline/flights/controller/GlobalExceptionHandler.java:21-25 | status 400 and a one-element list holding the exception's message |
| `GlobalExceptionHandler.HandleTechnicalException` | src/main/java/com/api/wordline/flights/controller/GlobalExceptionHandler.java:27-31 | status 500 and a one-element list holding the exception's message |
| `GlobalExceptionHandler.FieldErrorMessages` | src/main/java/com/api/wordline/flights/controller/GlobalExceptionHandler.java:35-42 | succeeds if and only if every binding error is a field error (the cast); the result is then each error's default message, in order |
| `GlobalExceptionHandler.HandleValidationExceptions` | src/main/java/com/api/wordline/flights/controller/GlobalExceptionHandler.java:33-48 | status 400 with exactly one message per field error, in order, carried as the list itself and not as the joined string; no reply if an error is not a field error |
| `GlobalExceptionHandler.HandleConstraintViolation` | src/main/java/com/api/wordline/flights/controller/GlobalExceptionHandler.java:50-60 | status 400 with one message per violation, in order |
| `GlobalExceptionHandler.Handle` | src/main/java/com/api/wordline/flights/controller/GlobalExceptionHandler.java:18-61 | a service exception always gets a reply carrying its message, with status 500 exactly for a technical failure; a body-validation failure gets a reply exactly when every binding error is a field error, and that reply is 400 with the errors' default messages in order; a constraint failure gets 400 with one message per violation, in order; every reply is 400 or 500 |
| `RequestValidation.SizeIsThree` | src/main/java/com/api/worldline/flights/controller/FlightController.java:40-45 | a null value passes the size rule; a present one passes exactly when it has 3 characters |
| `RequestValidation.FiltersValid` | src/main/java/com/api/worldline/flights/controller/FlightController.java:38-47 | both airport filters absent passes; a present airport filter of any length other than 3 fails |
| `RequestValidation.FilterViolations` | src/main/java/com/api/worldline/flights/controller/FlightController.java:38-47 | no violations exactly when each airport filter is absent or 3 characters long; one violation per bad filter, with the filter's message |
| `RequestValidation.RequestFieldErrors` | src/main/java/com/api/wordline/flights/controller/dto/FlightResponse.java:21-27 | all are field errors; none exactly when both airport codes have 3 characters; one error per bad code, with its size message |
| `RequestValidation.BothBadAirportsGiveTwoMessages` | src/test/java/com/api/wordline/flights/controller/FlightControllerTest.java:207-241 | two bad airport codes give status 400 and exactly the two size messages |
| `FlightService.SupplierRequestFor` | src/main/java/com/api/worldline/flights/service/FlightService.java:49 | the supplier request is exactly (departure airport, destination airport, departure time, arrival time) |
| `FlightService.AirlineIsNotForwarded` | src/main/java/com/api/worldline/flights/service/FlightService.java:49 | changing the airline filter does not change the supplier request |
| `FlightService.CreatedFlightIsFoundLast` | src/main/java/com/api/worldline/flights/service/FlightService.java:39-67 | searching after a create returns the earlier hits followed by the created flight, exactly when it matches the filters |
| `FlightService.OffersOf` | src/main/java/com/api/worldline/flights/service/FlightService.java:48-59 | a failed call or a null list contributes no offers; otherwise the returned list |
| `FlightService.FlightService.constructor` | src/main/java/com/api/worldline/flights/service/FlightService.java:24-30 | the service works on the store it is given |
| `FlightService.FlightService.GetFlights` | src/main/java/com/api/worldline/flights/service/FlightService.java:32-62 | result = mapped local hits ++ mapped offers of the single supplier call; length = hits + offers with no deduplication; on supplier failure exactly the mapped local hits; local items keep their identifier and fields and satisfy the filters; supplier items have no identifier and the CrazySupplier label |
| `FlightService.FlightService.SaveFlightInfo` | src/main/java/com/api/worldline/flights/service/FlightService.java:64-73 | on success the request is appended under a fresh identifier and returned with it, so the store grows by one and the identifier counter advances by one; on failure "Error on saving flight" and the store is unchanged |
| `FlightService.FlightService.UpdateFlightInfo` | src/main/java/com/api/worldline/flights/service/FlightService.java:75-84 | unknown id: business failure "Flight doenst exist", store unchanged; a failure afterwards: "Error on updating flight", store unchanged; on success the row is replaced in place by the request's fields under the same identifier, and the size is unchanged |
| `FlightService.FlightService.DeleteFlightInfo` | src/main/java/com/api/worldline/flights/service/FlightService.java:86-92 | on success no row has the identifier and the count drops by one if it was stored; a null id or a failure gives "Error on deleting flight" and the store is unchanged |
| `FlightScenarios.GetFlightsOnlyFromSupplier` | src/test/java/com/api/wordline/flights/controller/FlightControllerTest.java:64-94 | empty store and one offer: one item (fare 250, no identifier) and still no rows |
| `FlightScenarios.GetFlightsFromStoreAndSupplier` | src/test/java/com/api/wordline/flights/controller/FlightControllerTest.java:96-130 | one matching row and one offer: two items, the stored one first; still one row |
| `FlightScenarios.GetFlightsWrongFilter` | src/test/java/com/api/wordline/flights/controller/FlightControllerTest.java:132-158 | an unknown airline and no offers: no items; still one row |
| `FlightScenarios.GetFlightsSupplierError` | src/test/java/com/api/wordline/flights/controller/FlightControllerTest.java:160-178 | a supplier 500 still gives a successful, empty result |
| `FlightScenarios.SaveFlight` | src/test/java/com/api/wordline/flights/controller/FlightControllerTest.java:180-205 | creating a valid body takes the store from zero rows to one |
| `FlightScenarios.SaveFlightAirportTooLong` | src/test/java/com/api/wordline/flights/controller/FlightControllerTest.java:207-241 | codes of 4 and 5 characters: 400 with the two size messages |
| `FlightScenarios.UpdateFlight` | src/test/java/com/api/wordline/flights/controller/FlightControllerTest.java:243-281 | one row, same identifier, and the body's fields |
| `FlightScenarios.UpdateNonExistingFlight` | src/test/java/com/api/wordline/flights/controller/FlightControllerTest.java:283-323 | 400 with ["Flight doenst exist"]; the stored row is untouched |
| `FlightScenarios.DeleteFlight` | src/test/java/com/api/wordline/flights/controller/FlightControllerTest.java:325-343 | the store is empty after deleting its only row |

## Left out

- HTTP routing, status codes of successful replies (200/201/204), OpenAPI annotations, request binding and dependency injection: these are framework plumbing. The network call to the supplier is replaced by the supplier-function parameter.
- JPA/H2 persistence, transactions and database-generated identifiers: the store is the in-memory `FlightStore`, with identifiers counted up from 1.
- FlightRepository.FlightStore.Save: the service never saves a flight whose identifier is not stored, so that case cannot be reached from it. For that case the model chooses to append the flight under a fresh identifier; persistence engines differ there, some rejecting such a save instead.
- FlightRepository.FlightStore.DeleteById: deleting an unknown identifier is a silent no-op. Some store versions report an error for it instead.
- Logging calls: they have no effect on results.
- Floating-point fares: `basePrice + tax` is exact real addition, with no IEEE rounding.
- LocalDateTime parsing and ISO-8601 formatting: timestamps are ordered integers.
- Null fields inside entities, request bodies and offers, and SQL NULL comparison semantics: all record fields are non-null. Only the filters, identifiers and the supplier's list are optional. The store query never returns a null list here.
- FlightService.FlightService.GetFlights: a failure of the local search, which happens outside the `try`, propagates unchanged and is not modelled.
- FlightService.FlightService.UpdateFlightInfo: a failure of the lookup itself, which happens outside the `try`, is not modelled.
- FlightService.FlightService.SaveFlightInfo: only failures that leave the store unchanged are modelled. A failure of the entity-to-response mapping after a committed save cannot happen here, because the mapper is total.
- ErrorDecoder.Decode: every integer status is classified. The source's `HttpStatus.valueOf` throws for codes Spring does not list, and that rejection is not modelled. The default decoder's own result (retry headers, exception subclasses) is reduced to `DefaultDecoderError(methodKey, status)`. `Series` uses Dafny's division, which matches Java's for the non-negative codes HTTP uses.
- RequestValidation.FilterViolations and RequestValidation.RequestFieldErrors: lengths count Unicode scalar values. Java counts UTF-16 code units, so the two differ for characters outside the Basic Multilingual Plane.
- RequestValidation.RequestFieldErrors: FlightRequest.java is not part of this model. The request's fields follow the constructor calls in the tests, and its size rule and messages follow the same rule on FlightResponse.java and the messages the tests expect. Bean validation does not fix the order of errors; the model puts the departure airport first, and the tests check membership only.
- GlobalExceptionHandler.HandleConstraintViolation: the source's violations form a set. The model takes them in one fixed iteration order.
- The comma-joined message string built in the body-validation handler is never used in the reply, so it is not modelled.
- The duplicated `wordline`/`worldline` package trees: each component is modelled once.
- The test harness (WireMock, RestAssured, Mockito): the FlightControllerTest scenarios are restated in `FlightScenarios`; the FlightServiceTest cases are not restated as members and follow from the contracts of `FlightService.FlightService`, with `tryBlockFails` standing for a mocked repository or mapper that throws.
