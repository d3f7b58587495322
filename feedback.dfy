/** What the user is shown after submitting the upload form: the message
    chosen on each failure path of the submission, or the analysis result.
    The asynchronous request is represented by how it settled. */
module Feedback {
  import opened Options
  import Overlay

  const NoImageSelected: string := "Please select an image first."
  const ServerErrorFallback: string := "Server error occurred"
  const InvalidResponseFallback: string := "Invalid response from server"
  const AnalysisErrorFallback: string := "An error occurred during analysis"

  /** A parsed JSON body, as far as the front end inspects it. */
  datatype Payload =
    | Null                 // JSON `null`
    | Falsy                // `false`, `0` or `""`: reading `.error` of it gives `undefined`
    | Object(error: Option<string>, detection: Overlay.Detection)

  datatype Body = Unparsable(parseError: string) | Parsed(payload: Payload)

  /** How the request settled: `fetch` rejected, or a response arrived. */
  datatype Settlement =
    | NetworkFailure(reason: string)
    | Reply(ok: bool, body: Body)

  datatype Shown = ShowError(message: string) | ShowResults(detection: Overlay.Detection)

  /** Whether a request was sent, and what the page shows afterwards. */
  datatype Outcome = Outcome(requested: bool, shown: Shown)

  /** A JavaScript string that may be missing is truthy when present and not empty. */
  predicate Truthy(v: Option<string>) { v.Some? && v.value != [] }

  /** JavaScript `value || fallback` for such a string. */
  function OrElse(v: Option<string>, fallback: string): (r: string)
    ensures Truthy(v) ==> r == v.value
    ensures !Truthy(v) ==> r == fallback
    ensures fallback != [] ==> r != []
  {
    if Truthy(v) then v.value else fallback
  }

  /** `data.error` read without failing: a bare value, `null` included, has
      no `error` field. The code itself fails on `null`; see SettleAsWritten. */
  function ErrorOf(p: Payload): (e: Option<string>)
    ensures p.Object? ==> e == p.error
    ensures !p.Object? ==> !Truthy(e)
  {
    if p.Object? then p.error else None
  }

  /** The `catch` handler: the thrown error's message, or a generic one. */
  function Caught(message: string): (r: Shown)
    ensures r.ShowError? && r.message != []
    ensures message != [] ==> r.message == message
    ensures message == [] ==> r == ShowError(AnalysisErrorFallback)
  {
    ShowError(OrElse(Some(message), AnalysisErrorFallback))
  }

  /** A parsed reply: a failure status throws the body's `error` (or the
      server fallback) into the `catch` handler; a success shows the result
      unless the body is falsy or carries an `error`. The `error` field is
      read with ErrorOf, which is safe on a `null` body: this is the
      corrected reading, and SettleAsWritten gives the code's own. */
  function ReplyShown(ok: bool, p: Payload): (r: Shown)
    ensures r.ShowResults? <==> ok && p.Object? && !Truthy(p.error)
    ensures r.ShowResults? ==> r.detection == p.detection
    ensures r.ShowError? && Truthy(ErrorOf(p)) ==> r.message == ErrorOf(p).value
    ensures r.ShowError? && !Truthy(ErrorOf(p)) ==>
              r.message == if ok then InvalidResponseFallback else ServerErrorFallback
  {
    if !ok then Caught(OrElse(ErrorOf(p), ServerErrorFallback))
    else if p.Object? && !Truthy(p.error) then ShowResults(p.detection)
    else ShowError(OrElse(ErrorOf(p), InvalidResponseFallback))
  }

  /** The settled request, with `data.error` read safely also when the body
      is `null`. */
  function Settle(s: Settlement): (r: Shown)
    ensures r.ShowError? ==> r.message != []
    ensures r.ShowResults? <==>
              s.Reply? && s.ok && s.body.Parsed? && s.body.payload.Object? && !Truthy(s.body.payload.error)
    ensures s.NetworkFailure? ==> r == Caught(s.reason)
    ensures s.Reply? && s.body.Unparsable? ==> r == Caught(s.body.parseError)
    ensures s.Reply? && s.body.Parsed? ==> r == ReplyShown(s.ok, s.body.payload)
  {
    match s
    case NetworkFailure(reason) => Caught(reason)
    case Reply(_, Unparsable(parseError)) => Caught(parseError)
    case Reply(ok, Parsed(p)) => ReplyShown(ok, p)
  }

  /** The settled request as the code reads it: `data.error` on a `null`
      body throws a TypeError whose text is the runtime's. */
  function SettleAsWritten(s: Settlement, typeErrorText: string): (r: Shown)
    ensures !(s.Reply? && s.body == Parsed(Null)) ==> r == Settle(s)
    ensures s.Reply? && s.body == Parsed(Null) && typeErrorText != [] ==> r == ShowError(typeErrorText)
  {
    if s.Reply? && s.body == Parsed(Null) then Caught(typeErrorText) else Settle(s)
  }

  /** Submitting the form: no request without a selected file. */
  function Submit(hasFile: bool, s: Settlement): (o: Outcome)
    ensures o.requested == hasFile
    ensures !hasFile ==> o.shown == ShowError(NoImageSelected)
    ensures hasFile ==> o.shown == Settle(s)
  {
    if hasFile then Outcome(true, Settle(s)) else Outcome(false, ShowError(NoImageSelected))
  }

  /** Submitting the form as the code behaves, `data.error` on a `null`
      body included. */
  function SubmitAsWritten(hasFile: bool, s: Settlement, typeErrorText: string): (o: Outcome)
    ensures o.requested == hasFile
    ensures !hasFile ==> o.shown == ShowError(NoImageSelected)
    ensures hasFile ==> o.shown == SettleAsWritten(s, typeErrorText)
    ensures hasFile && s.Reply? && s.body == Parsed(Null) && typeErrorText != [] ==>
              o.shown == ShowError(typeErrorText)
  {
    if hasFile then Outcome(true, SettleAsWritten(s, typeErrorText))
    else Outcome(false, ShowError(NoImageSelected))
  }

  /** A failure status never shows a result; its message is the body's
      `error` when that is a non-empty string. */
  lemma FailureStatusShowsError(b: Body, e: string, d: Overlay.Detection)
    ensures Settle(Reply(false, b)).ShowError?
    ensures e != [] ==> Settle(Reply(false, Parsed(Object(Some(e), d)))) == ShowError(e)
    ensures Settle(Reply(false, Parsed(Object(None, d)))) == ShowError(ServerErrorFallback)
  {
  }

  /** The service's own message reaches the page. */
  lemma UnsupportedFormatExample(d: Overlay.Detection)
    ensures Submit(true, Reply(false, Parsed(Object(Some("Unsupported format"), d))))
            == Outcome(true, ShowError("Unsupported format"))
    ensures Submit(false, Reply(true, Parsed(Object(None, d))))
            == Outcome(false, ShowError("Please select an image first."))
  {
  }

  /** As written, a successful reply whose body is `null` shows the runtime's
      TypeError text instead of the fallback the `!data` guard is there for. */
  lemma NullBodyAsWritten()
    ensures SettleAsWritten(Reply(true, Parsed(Null)), "Cannot read properties of null (reading 'error')")
            != ShowError(InvalidResponseFallback)
  {
  }

  /** With the read made safe, a `null` body is treated like any other
      falsy body: the matching fallback is shown. */
  lemma NullBodyShowsFallback(ok: bool)
    ensures Settle(Reply(ok, Parsed(Null))) == Settle(Reply(ok, Parsed(Falsy)))
    ensures Settle(Reply(ok, Parsed(Null))) ==
              ShowError(if ok then InvalidResponseFallback else ServerErrorFallback)
  {
  }
}
