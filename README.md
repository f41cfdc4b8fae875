# Contact-form relay: the /send-email pipeline

This project models the one endpoint of a small Express back end. It takes a lead-submission form, checks the submitted address with an email-verification service (Hunter.io) on a best-effort basis, and forwards the form as a plain-text email to the operator's own mailbox. A rate limiter sits in front of it.

The model has four modules:

- `Wrappers` holds `Option`.
- `MailText` models the `mailOptions` object and its template text. `Submission` carries the ten body fields. `RenderText` renders the template literal exactly, including its separators: an escaped `\n`, the literal line break, and 11 spaces of indentation. `MailOptionsFor` builds the object. Lemmas about `Join` and `Start` give the offset at which each labelled line appears.
- `Verification` models the lookup. `LookupUrl` is the requested URL. `VerifierOutcome` is a reply, where `data.data` is undefined, null or a record with an optional `status`; a reply whose body is JSON `null`; or a thrown `JsError` with an optional HTTP response status. `Classify` maps an outcome to the verdict Valid, Invalid, Indeterminate or HardFailure.
- `SendEmail` models the responses and the route handler. `PostSendEmail` mirrors the handler's early returns, its nested try/catch with rethrow, and its local `emailIsValid`. The error that reaches the outer catch is an `Option<JsError>` variable. `PostSendEmail` is proved equal to `Pipeline`, a stage-by-stage reference decision, and its contract also states each path's guarantees on the raw collaborator outcomes. `ServeSendEmail` puts the limiter middleware in front of the route.

The collaborators are parameters:

- the limiter's decision (`limiterDenies`);
- the `resourceUnavailable` flag, which the code declares but only ever reads;
- the configured account `EMAIL_USERNAME` and the API key;
- the outcome of the awaited `axios.get`;
- the outcome of the awaited `sendMail`.

The handler also returns two sequences. `lookups` holds the URLs requested from the verifier. `sent` holds the messages handed to `sendMail`. Their lengths are the numbers of attempts, so the contracts show both how many calls are made (at most one of each) and which message is sent.

## Model

| member | source | states |
|---|---|---|
| MailText.MailOptionsFor | server.js:70-83 | sender and recipient are both the configured account, the subject is the fixed one, and every label with its value is in the text at its line's offset, the text opening with "Nombre: ", the first name, a space and the last name |
| MailText.RenderedFieldsInOrder | server.js:74-82 | each of the nine labels (Nombre, Objetivo, Correo, Teléfono, Respuesta, Plan, Disponibilidad, Encontrado por, Mensaje) is followed verbatim by its value; the lines occur in that order without overlap; the first and last names sit at offsets 8 and 9 + the first name's length, so all ten values appear verbatim and in order |
| Verification.TypeErrorFor | server.js:96 | reading `status` of an undefined or null `data.data` throws an error without an HTTP response, so it can never be taken for a rate-limit reply |
| Verification.NullBodyError | server.js:93-96 | reading `data` of a reply body that is `null` throws an error without an HTTP response, so it too is rethrown |
| Verification.LookupUrl | server.js:89-91 | the requested URL opens with the Hunter.io email-verifier endpoint, holds the address verbatim right after it, and ends with "&api_key=" and the key |
| Verification.Classify | server.js:93-111 | Invalid exactly when the reply's `data.data.status` is the string "invalid"; Valid for any other status, including a missing one; Indeterminate exactly when the thrown error's response status is 429; a hard failure for every other thrown error, carrying it, and for a reply whose body or `data.data` is missing, carrying a TypeError without response |
| SendEmail.PostSendEmail | server.js:46-124 | the response equals the reference `Pipeline` of flag, verdict and send outcome. With the flag set: 410 "currently unavailable", no lookup, no send. Otherwise: exactly one lookup of the address. An "invalid" status gives 404 with message, error and suggestion, and no send. Any other status, or a 429 from the verifier, gives exactly one send of the `mailOptions` message. Any other thrown verifier error gives 500 "Server error" with that error's message, and a reply whose body or `data.data` is missing gives 500 with the TypeError's message; neither sends. After a send, the response is 200 "Email successfully sent" when the transport succeeds and 500 with the transport's error otherwise |
| SendEmail.ServeSendEmail | server.js:34-46 | a limiter denial gives the 410 "too many requests" response, with no lookup and no send. Otherwise the route's response, lookups and sends: one lookup unless the flag is set, and exactly one send of this submission's message when the flag is clear and the verdict lets it through, none otherwise. On every path: at most one lookup and at most one send, a send only together with its lookup, a status among 200, 404, 410 and 500, and 200 exactly when a send was made and succeeded |

## Left out

- The rate limiter's counting (server.js:30-33) lives inside express-rate-limit, which is not part of this model. A denial is therefore an input boolean. The per-client counters, the window (configured as 0 ms) and the quota of 2 are not modelled, and neither is the "N + 1-th request within a window is denied" behaviour.
- `resourceUnavailable` is an input. The code never assigns it after `let resourceUnavailable = false`, so in the running program it is always false. No "once set, stays set" invariant is modelled, because nothing sets the flag.
- The HTTP calls are inputs: the `axios.get` to Hunter.io and `transporter.sendMail`. So are Express routing, `express.json`, the CORS configuration (server.js:12-20), `dotenv` and `process.env`, `app.listen`, and the `/` liveness route (server.js:126-133). These are I/O glue with no decision logic.
- Logging is not modelled: `console.log`, `console.warn` and `console.error`. The outer catch logs `error.response.data` or `error.message`, and this has no effect on the response.
- Absent body fields render as "undefined" in JavaScript. Here every field is a string.
- The exact TypeError text for a missing `data.data` follows the V8 wording. Other engines word it differently. It reaches the client only as the `error` field of the 500 body.
- A thrown value without a `message` would make the 500 body omit `error`. Every error here carries a message string.
- Requests do not run concurrently with each other in the model, and the `async`/`await` scheduling is not modelled. Each request is handled sequentially in one call.
- JavaScript strings are sequences of UTF-16 code units; here they are Dafny strings of Unicode scalar values. A body field holding a lone surrogate cannot be represented, and the offsets in `RenderedFieldsInOrder` and `LookupUrl` count characters, not UTF-16 code units (they differ for characters outside the Basic Multilingual Plane).
- The lookup and the send are returned as two separate sequences, so the model does not state that the lookup happens before the send; it states only that a send never happens without the lookup.
- The email address is interpolated into the lookup URL without encoding. The model keeps that (`LookupUrl`) but proves nothing about the query string it produces.
