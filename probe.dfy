/**
 * `test_url_status`: one GET to a URL with a 15-second timeout, judged by its
 * status code. The network is not modelled; what the GET produced is an
 * input, either a transport failure (any exception the request raised) or
 * the status code of the response.
 */
module Probe {

  /** What one HTTP GET produced. */
  datatype HttpOutcome = TransportError | Response(status: int)

  /** The timeout every probe is issued with. */
  const ProbeTimeoutSeconds: nat := 15

  /** One probe as issued: the URL, its timeout and the status it must see. */
  datatype ProbeRequest = ProbeRequest(url: string, timeoutSeconds: nat, expected: int)

  /** True for a response whose status is the expected one; false otherwise. */
  function TestUrlStatus(outcome: HttpOutcome, expected: int): (ok: bool)
    ensures outcome.TransportError? ==> !ok
    ensures outcome.Response? ==> (ok <==> outcome.status == expected)
  {
    match outcome
    case TransportError => false
    case Response(status) => status == expected
  }

  /** The probe passes exactly when a response arrived with the expected status. */
  lemma TestUrlStatusIff(outcome: HttpOutcome, expected: int)
    ensures TestUrlStatus(outcome, expected) <==> outcome == Response(expected)
  {
  }

  /**
   * A transport failure and a wrong status give the same verdict, so a
   * caller cannot tell them apart.
   */
  lemma TransportErrorIsWrongStatus(expected: int, status: int)
    requires status != expected
    ensures TestUrlStatus(TransportError, expected) == TestUrlStatus(Response(status), expected) == false
  {
  }
}
