/**
 * The email-verification lookup (Hunter.io) as seen by the /send-email
 * handler: the URL it requests, the outcomes the call can have, and how the
 * handler classifies them.
 */
module Verification {
  import opened Wrappers

  /**
   * A thrown JavaScript error: its `message` and, when the error carries an
   * HTTP `response` (axios errors for non-2xx replies), that response's status.
   */
  datatype JsError = JsError(message: string, responseStatus: Option<int>)

  /** What `data.data` is in the verifier's reply body. */
  datatype Nested = Undefined | Null | Record(status: Option<string>)

  /**
   * The outcome of the awaited `axios.get`: a reply whose body has `data.data`
   * of the given kind, a reply whose body is JSON `null`, or a thrown error.
   */
  datatype VerifierOutcome = Answered(data: Nested) | NullBody | Threw(error: JsError)

  const InvalidStatus: string := "invalid"
  const RateLimitedStatus: int := 429

  const VerifierEndpoint: string := "https://api.hunter.io/v2/email-verifier?email="

  /** The requested URL; the address and the key are interpolated unescaped. */
  function LookupUrl(email: string, apiKey: string): (u: string)
    ensures |u| == |VerifierEndpoint| + |email| + |"&api_key="| + |apiKey|
    ensures u[..|VerifierEndpoint|] == VerifierEndpoint
    ensures u[|VerifierEndpoint|..|VerifierEndpoint| + |email|] == email
    ensures u[|VerifierEndpoint| + |email|..] == "&api_key=" + apiKey
  {
    VerifierEndpoint + email + "&api_key=" + apiKey
  }

  /** The TypeError raised by reading `property` of an undefined or null `receiver`. */
  function ReadPropertyError(receiver: string, property: string): JsError
  {
    JsError("Cannot read properties of " + receiver + " (reading '" + property + "')", None)
  }

  /** The TypeError raised by reading `status` of a `data.data` that is not an object. */
  function TypeErrorFor(n: Nested): (e: JsError)
    requires !n.Record?
    ensures e.responseStatus == None
  {
    ReadPropertyError(if n.Null? then "null" else "undefined", "status")
  }

  /** The TypeError raised by reading `data` of a reply body that is `null`. */
  function NullBodyError(): (e: JsError)
    ensures e.responseStatus == None
  {
    ReadPropertyError("null", "data")
  }

  /**
   * The verification verdict: only an explicit "invalid" status rejects, a
   * rate-limited lookup is indeterminate, and every other failure (including
   * a reply whose body or `data.data` is missing) is a hard failure.
   */
  datatype Verdict = Valid | Invalid | Indeterminate | HardFailure(error: JsError)

  function Classify(o: VerifierOutcome): (v: Verdict)
    ensures v == Invalid <==> o == Answered(Record(Some(InvalidStatus)))
    ensures v == Valid <==> o.Answered? && o.data.Record? && o.data.status != Some(InvalidStatus)
    ensures v == Indeterminate <==> o.Threw? && o.error.responseStatus == Some(RateLimitedStatus)
    ensures v.HardFailure? <==>
      (o.Answered? && !o.data.Record?) || o.NullBody? ||
      (o.Threw? && o.error.responseStatus != Some(RateLimitedStatus))
    ensures v.HardFailure? && o.Threw? ==> v.error == o.error
    ensures v.HardFailure? && !o.Threw? ==> v.error.responseStatus == None
  {
    match o
    case Answered(Record(status)) => if status == Some(InvalidStatus) then Invalid else Valid
    case Answered(data) => HardFailure(TypeErrorFor(data))
    case NullBody => HardFailure(NullBodyError())
    case Threw(e) => if e.responseStatus == Some(RateLimitedStatus) then Indeterminate else HardFailure(e)
  }
}
