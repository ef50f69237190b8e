/**
 * Classification of the supplier's non-success HTTP replies by status
 * series: client errors and server errors become a status exception with a
 * fixed message naming the failing call; every other series goes to the
 * HTTP client's default decoder.
 */
module ErrorDecoder {

  /** The exception the decoder hands back to the HTTP client. */
  datatype DecodedError =
    | ResponseStatusException(status: int, reason: string)
    | DefaultDecoderError(methodKey: string, status: int)

  const ClientErrorPrefix: string := "Client error occurred when calling: "
  const ServerErrorPrefix: string := "Server error occurred when calling: "

  /** The status series: 4 for 4xx, 5 for 5xx, and so on. */
  function Series(status: int): (series: int)
    ensures 0 <= status ==> 0 <= series && series * 100 <= status < series * 100 + 100
  {
    status / 100
  }

  function Decode(methodKey: string, status: int): (r: DecodedError)
    ensures Series(status) == 4 <==> r == ResponseStatusException(status, ClientErrorPrefix + methodKey)
    ensures Series(status) == 5 <==> r == ResponseStatusException(status, ServerErrorPrefix + methodKey)
    ensures Series(status) != 4 && Series(status) != 5 <==> r == DefaultDecoderError(methodKey, status)
  {
    var series := Series(status);
    assert (ClientErrorPrefix + methodKey)[0] != (ServerErrorPrefix + methodKey)[0];
    if series == 4 then ResponseStatusException(status, ClientErrorPrefix + methodKey)
    else if series == 5 then ResponseStatusException(status, ServerErrorPrefix + methodKey)
    else DefaultDecoderError(methodKey, status)
  }

  /**
   * Two statuses of the same series are classified alike: the same branch,
   * and for the status branches the same message.
   */
  lemma DecodeDependsOnlyOnSeries(methodKey: string, s1: int, s2: int)
    requires Series(s1) == Series(s2)
    ensures Decode(methodKey, s1).ResponseStatusException? == Decode(methodKey, s2).ResponseStatusException?
    ensures Decode(methodKey, s1).ResponseStatusException? ==>
              Decode(methodKey, s1).reason == Decode(methodKey, s2).reason
  {
  }

  /**
   * The decoded error keeps the reply's status, and the method key can be
   * read back from the end of a status exception's message.
   */
  lemma DecodeKeepsStatusAndMethodKey(methodKey: string, status: int)
    ensures Decode(methodKey, status).status == status
    ensures Decode(methodKey, status).ResponseStatusException? ==>
              Decode(methodKey, status).reason[|ClientErrorPrefix|..] == methodKey
  {
  }
}
