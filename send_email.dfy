/**
 * The POST /send-email pipeline: the rate limiter's denial handler, the
 * availability flag, the best-effort verification and the single mail
 * dispatch, with the HTTP response each path produces.
 */
module SendEmail {
  import opened Wrappers
  import opened MailText
  import opened Verification

  /** A JSON response body; absent keys are `None`. */
  datatype JsonBody = JsonBody(message: string, error: Option<string>, suggestion: Option<string>)

  datatype Response = Response(status: int, body: JsonBody)

  /** The outcome of the awaited `transporter.sendMail`. */
  datatype SendOutcome = Delivered | SendFailed(error: JsError)

  const TryLater: string := "Resource gone temporarily. You might try again later."

  /** Sent by the limiter's handler when it denies a request. */
  const TooManyRequests: Response :=
    Response(410, JsonBody("The resource is currently unavailable due to too many requests.", Some(TryLater), None))

  const ResourceUnavailable: Response :=
    Response(410, JsonBody("The resource is currently unavailable.", Some(TryLater), None))

  const InvalidEmail: Response :=
    Response(404, JsonBody("The provided email address is invalid.", Some("Invalid email detected"),
                           Some("Please provide a valid email address.")))

  const EmailSent: Response := Response(200, JsonBody("Email successfully sent", None, None))

  function ServerError(e: JsError): Response
  {
    Response(500, JsonBody("Server error", Some(e.message), None))
  }

  /** The admitted request gets as far as the mail transport. */
  predicate Dispatches(unavailable: bool, v: Verdict)
  {
    !unavailable && (v.Valid? || v.Indeterminate?)
  }

  /**
   * The route's outcome as a stage-by-stage decision: availability, then the
   * verdict, then the transport. This is the reference the handler is proved
   * against.
   */
  function Pipeline(unavailable: bool, v: Verdict, send: SendOutcome): Response
  {
    if unavailable then ResourceUnavailable
    else match v
      case Invalid => InvalidEmail
      case HardFailure(e) => ServerError(e)
      case _ => match send
        case Delivered => EmailSent
        case SendFailed(e) => ServerError(e)
  }

  /**
   * The route handler. `verifier` and `mailer` are the outcomes the two
   * awaited calls would have; `lookups` are the URLs requested from the
   * verifier and `sent` the messages handed to `sendMail`.
   */
  method PostSendEmail(resourceUnavailable: bool, body: Submission, account: string, apiKey: string,
                       verifier: VerifierOutcome, mailer: SendOutcome)
    returns (res: Response, lookups: seq<string>, sent: seq<MailOptions>)
    ensures res == Pipeline(resourceUnavailable, Classify(verifier), mailer)
    ensures lookups == if resourceUnavailable then [] else [LookupUrl(body.email, apiKey)]
    ensures sent == if Dispatches(resourceUnavailable, Classify(verifier)) then [MailOptionsFor(body, account)] else []
    ensures resourceUnavailable ==> res == ResourceUnavailable && sent == []
    ensures !resourceUnavailable && verifier == Answered(Record(Some(InvalidStatus))) ==>
      res == InvalidEmail && sent == []
    ensures (!resourceUnavailable && verifier.Answered? && verifier.data.Record? &&
             verifier.data.status != Some(InvalidStatus)) ==> |sent| == 1
    ensures !resourceUnavailable && verifier.Threw? && verifier.error.responseStatus == Some(RateLimitedStatus) ==>
      |sent| == 1
    ensures !resourceUnavailable && verifier.Threw? && verifier.error.responseStatus != Some(RateLimitedStatus) ==>
      res == ServerError(verifier.error) && sent == []
    ensures !resourceUnavailable && verifier.Answered? && !verifier.data.Record? ==>
      res == ServerError(TypeErrorFor(verifier.data)) && sent == []
    ensures !resourceUnavailable && verifier.NullBody? ==> res == ServerError(NullBodyError()) && sent == []
    ensures |sent| == 1 ==> res == if mailer.Delivered? then EmailSent else ServerError(mailer.error)
  {
    lookups, sent := [], [];
    if resourceUnavailable {
      return ResourceUnavailable, lookups, sent;
    }
    var mailOptions := MailOptionsFor(body, account);
    // the error reaching the outer catch, if any
    var thrown: Option<JsError> := None;
    var emailIsValid := true;

    // inner try: the lookup and the status check
    lookups := lookups + [LookupUrl(body.email, apiKey)];
    var caught: Option<JsError>;
    match verifier {
      case Answered(data) =>
        match data {
          case Record(status) =>
            if status == Some(InvalidStatus) {
              emailIsValid := false;
              return InvalidEmail, lookups, sent;
            }
            caught := None;
          case _ =>
            caught := Some(TypeErrorFor(data));
        }
      case NullBody =>
        caught := Some(NullBodyError());
      case Threw(e) =>
        caught := Some(e);
    }
    // inner catch: a rate-limited lookup is logged and ignored, the rest rethrown
    if caught.Some? && caught.value.responseStatus != Some(RateLimitedStatus) {
      thrown := caught;
    }

    if thrown.None? {
      sent := sent + [mailOptions];
      match mailer {
        case Delivered =>
          return EmailSent, lookups, sent;
        case SendFailed(e) =>
          thrown := Some(e);
      }
    }
    // outer catch
    res := ServerError(thrown.value);
  }

  /**
   * A POST to /send-email: the limiter middleware runs first and, when it
   * denies, answers itself and the route handler never runs.
   */
  method ServeSendEmail(limiterDenies: bool, resourceUnavailable: bool, body: Submission, account: string,
                        apiKey: string, verifier: VerifierOutcome, mailer: SendOutcome)
    returns (res: Response, lookups: seq<string>, sent: seq<MailOptions>)
    ensures limiterDenies ==> res == TooManyRequests && lookups == [] && sent == []
    ensures !limiterDenies ==> res == Pipeline(resourceUnavailable, Classify(verifier), mailer)
    ensures !limiterDenies ==> lookups == if resourceUnavailable then [] else [LookupUrl(body.email, apiKey)]
    ensures !limiterDenies ==>
      sent == if Dispatches(resourceUnavailable, Classify(verifier)) then [MailOptionsFor(body, account)] else []
    ensures |lookups| <= 1 && |sent| <= 1
    ensures sent != [] ==> sent == [MailOptionsFor(body, account)] && lookups == [LookupUrl(body.email, apiKey)]
    ensures res.status in {200, 404, 410, 500}
    ensures res.status == 200 <==> sent != [] && mailer.Delivered?
    ensures res.status == 404 ==> sent == []
  {
    if limiterDenies {
      res, lookups, sent := TooManyRequests, [], [];
    } else {
      res, lookups, sent := PostSendEmail(resourceUnavailable, body, account, apiKey, verifier, mailer);
    }
  }
}
