/**
 * The application's last two middlewares: the fallback that turns an unmatched request
 * into a 404 error, and the error handler that renders the error page. The handler
 * picks the status (the error's own, 500 when it has none), shows the error's message
 * only for a 404, and exposes the stack trace only when the app runs in the
 * "development" environment.
 */
module ErrorPage {
  import opened Wrappers
  import opened Text
  import opened Js
  import opened Http

  const NotFoundMessage := "Sorry, we appear to have lost that page."
  const CrashMessage := "Oh no! There was a crash. Maybe try a different route?"

  /** The error the 404 fallback passes on: status 404 and the lost-page message. */
  function NotFoundError(): (err: JsError)
    ensures err.status == Some(404) && err.message == NotFoundMessage
  {
    JsError("Error", NotFoundMessage, Some(404))
  }

  /** `err.status || 500`: an absent status, or the falsy status 0, gives 500. */
  function ErrorStatus(err: JsError): (status: int)
    ensures err.status.Some? && err.status.value != 0 ==> status == err.status.value
    ensures err.status.None? || err.status == Some(0) ==> status == 500
    ensures status != 0
  {
    if err.status.Some? && err.status.value != 0 then err.status.value else 500
  }

  /** The message shown: the error's own for a 404, the fixed crash text otherwise. */
  function ErrorMessage(status: int, err: JsError): (message: string)
    ensures status == 404 ==> message == err.message
    ensures status != 404 ==> message == CrashMessage
  {
    if status == 404 then err.message else CrashMessage
  }

  /** What the error handler sends: the status and the rendered error view. The stack
      trace is produced by the runtime and is given as `stack`. */
  datatype ErrorResponse = ErrorResponse(status: int, view: View)

  /** The error view: title "<status> - Error", the message, the navigation, the status,
      and the stack trace only in the "development" environment (`null` otherwise). */
  function RenderError(err: JsError, stack: string, nav: string, cfg: Config): (r: ErrorResponse)
    ensures r.view.name == "errors/error"
    ensures r.status == ErrorStatus(err)
    ensures "title" in r.view.data && "message" in r.view.data && "nav" in r.view.data
    ensures "status" in r.view.data && "stack" in r.view.data
    ensures r.view.data["status"] == Num(r.status) && r.view.data["nav"] == Str(nav)
  {
    var status := ErrorStatus(err);
    ErrorResponse(status, View("errors/error", map[
      "title" := Str(IntToString(status) + " - Error"),
      "message" := Str(ErrorMessage(status, err)),
      "nav" := Str(nav),
      "status" := Num(status),
      "stack" := if AppEnv(cfg) == "development" then Str(stack) else Null]))
  }

  /** The error's message reaches the page exactly when the status is 404; any other
      error shows only the crash text. */
  lemma MessageShownOnlyFor404(err: JsError, stack: string, nav: string, cfg: Config)
    requires err.message != CrashMessage
    ensures var r := RenderError(err, stack, nav, cfg);
            r.view.data["message"] == Str(err.message) <==> r.status == 404
  {
  }

  /** The stack trace is exposed exactly in the "development" environment, which is also
      the environment of an app started without `NODE_ENV`. */
  lemma StackShownOnlyInDevelopment(err: JsError, stack: string, nav: string, cfg: Config)
    ensures var r := RenderError(err, stack, nav, cfg);
            && (r.view.data["stack"] != Null <==> AppEnv(cfg) == "development")
            && (r.view.data["stack"] != Null ==> r.view.data["stack"] == Str(stack))
            && (cfg.nodeEnv.None? ==> r.view.data["stack"] == Str(stack))
  {
  }

  /** The title names the status: it is the status in decimal, then " - Error", and the
      number read back from it is the status. */
  lemma TitleNamesStatus(err: JsError, stack: string, nav: string, cfg: Config)
    ensures var r := RenderError(err, stack, nav, cfg);
            exists digits :: && r.view.data["title"] == Str(digits + " - Error")
                             && ParseInteger(digits) == Some(r.status)
  {
    var status := ErrorStatus(err);
    IntToStringRoundTrip(status);
    assert RenderError(err, stack, nav, cfg).view.data["title"] == Str(IntToString(status) + " - Error");
  }

  /** An unmatched request ends in a 404 page titled "404 - Error" that shows the
      lost-page message. */
  lemma UnmatchedRequestPage(stack: string, nav: string, cfg: Config)
    ensures var r := RenderError(NotFoundError(), stack, nav, cfg);
            && r.status == 404
            && r.view.data["title"] == Str("404 - Error")
            && r.view.data["message"] == Str(NotFoundMessage)
  {
    assert IntToString(404) == "404" by {
      assert NatToString(404) == NatToString(40) + [DigitChar(4)];
      assert NatToString(40) == NatToString(4) + [DigitChar(0)];
    }
  }

  /** An error thrown without a status, such as a failing store call, gives a 500 page
      with the crash text. */
  lemma UnexpectedErrorPage(err: JsError, stack: string, nav: string, cfg: Config)
    requires err.status.None?
    ensures var r := RenderError(err, stack, nav, cfg);
            r.status == 500 && r.view.data["message"] == Str(CrashMessage)
  {
  }

  /** The error handler: set the status, then render the error view. */
  method HandleError(err: JsError, stack: string, nav: string, cfg: Config, res: Response)
    modifies res`statusCode, res`rendered
    ensures var page := RenderError(err, stack, nav, cfg);
            res.statusCode == page.status && res.rendered == Some(page.view)
  {
    var page := RenderError(err, stack, nav, cfg);
    res.Status(page.status);
    res.Render(page.view.name, page.view.data);
  }
}
