/** ExceptionMiddleware (API/Middleware/ExceptionMiddleware.cs): turns an
    exception thrown further down the pipeline into a JSON error response. */
module ExceptionMiddleware {
  import opened Wrappers
  import opened Validation

  /** What the request pipeline below the middleware did. */
  datatype Exception =
    | ValidationException(errors: Option<seq<ValidationFailure>>)
    | OtherException(message: string, stackTrace: Option<string>)

  datatype Outcome = Completed | Threw(ex: Exception)

  /** AppException of Application/Core/AppException.cs: the body of a 500 response. */
  datatype AppException = AppException(statusCode: int, message: string, details: Option<string>)

  datatype ValidationProblemDetails = ValidationProblemDetails(
    errors: map<string, seq<string>>,
    status: int,
    kind: string,
    title: string,
    detail: string)

  /** The object written as the response body (before JSON serialisation). */
  datatype Body = NoBody | AppError(app: AppException) | Problem(problem: ValidationProblemDetails)

  /** The parts of `HttpContext.Response` the middleware sets. */
  class HttpResponse {
    var statusCode: int
    var contentType: Option<string>
    var body: Body

    constructor ()
      ensures statusCode == 200 && contentType == None && body == NoBody
    {
      statusCode := 200;
      contentType := None;
      body := NoBody;
    }
  }

  /** The distinct property names among the failures. */
  function PropertyNames(es: seq<ValidationFailure>): set<string> {
    set i | 0 <= i < |es| :: es[i].propertyName
  }

  /** The messages reported for property `name`, in failure order. */
  function MessagesFor(es: seq<ValidationFailure>, name: string): seq<string> {
    if es == [] then []
    else
      var last := es[|es| - 1];
      MessagesFor(es[..|es| - 1], name) + (if last.propertyName == name then [last.errorMessage] else [])
  }

  lemma MessagesForSnoc(es: seq<ValidationFailure>, e: ValidationFailure, name: string)
    ensures MessagesFor(es + [e], name) ==
            MessagesFor(es, name) + (if e.propertyName == name then [e.errorMessage] else [])
  {
    assert (es + [e])[..|es|] == es;
  }

  lemma PropertyNamesSnoc(es: seq<ValidationFailure>, e: ValidationFailure)
    ensures PropertyNames(es + [e]) == PropertyNames(es) + {e.propertyName}
  {
    var t := es + [e];
    forall n | n in PropertyNames(t) ensures n in PropertyNames(es) + {e.propertyName} {
      var i :| 0 <= i < |t| && t[i].propertyName == n;
      if i < |es| { assert es[i] == t[i]; }
    }
    forall n | n in PropertyNames(es) ensures n in PropertyNames(t) {
      var i :| 0 <= i < |es| && es[i].propertyName == n;
      assert t[i] == es[i];
    }
    assert t[|es|] == e;
  }

  /** A name that no failure carries has no messages. */
  lemma {:induction false} NoMessagesForAbsentName(es: seq<ValidationFailure>, name: string)
    requires name !in PropertyNames(es)
    ensures MessagesFor(es, name) == []
  {
    if es != [] {
      var p := es[..|es| - 1];
      assert es == p + [es[|es| - 1]];
      PropertyNamesSnoc(p, es[|es| - 1]);
      NoMessagesForAbsentName(p, name);
    }
  }

  /** The grouping loop of `HandleValidationException`: one key per distinct
      property name, holding that property's messages in their original
      order; a null `Errors` gives an empty dictionary. */
  method GroupErrors(errors: Option<seq<ValidationFailure>>) returns (grouped: map<string, seq<string>>)
    ensures errors.None? ==> grouped == map[]
    ensures grouped.Keys == PropertyNames(errors.GetOr([]))
    ensures forall name :: name in grouped ==> grouped[name] == MessagesFor(errors.GetOr([]), name)
  {
    grouped := map[];
    if errors.None? {
      return;
    }
    var es := errors.value;
    var i := 0;
    while i < |es|
      invariant 0 <= i <= |es|
      invariant grouped.Keys == PropertyNames(es[..i])
      invariant forall name :: name in grouped ==> grouped[name] == MessagesFor(es[..i], name)
    {
      var error := es[i];
      assert es[..i + 1] == es[..i] + [error];
      PropertyNamesSnoc(es[..i], error);
      forall name ensures MessagesFor(es[..i + 1], name) ==
          MessagesFor(es[..i], name) + (if error.propertyName == name then [error.errorMessage] else []) {
        MessagesForSnoc(es[..i], error, name);
      }
      if error.propertyName in grouped {
        grouped := grouped[error.propertyName := grouped[error.propertyName] + [error.errorMessage]];
      } else {
        NoMessagesForAbsentName(es[..i], error.propertyName);
        grouped := grouped[error.propertyName := [error.errorMessage]];
      }
      i := i + 1;
    }
    assert es[..i] == es;
  }

  /** The property names in order of first appearance. */
  function DistinctNames(es: seq<ValidationFailure>): (ns: seq<string>)
    ensures forall i, j :: 0 <= i < j < |ns| ==> ns[i] != ns[j]
    ensures forall n :: n in ns <==> n in PropertyNames(es)
  {
    if es == [] then []
    else
      var p := es[..|es| - 1];
      var e := es[|es| - 1];
      assert es == p + [e];
      PropertyNamesSnoc(p, e);
      var ns := DistinctNames(p);
      if e.propertyName in ns then ns else ns + [e.propertyName]
  }

  /** The number of messages grouped under the names `ns`. */
  function Total(es: seq<ValidationFailure>, ns: seq<string>): nat {
    if ns == [] then 0 else |MessagesFor(es, ns[0])| + Total(es, ns[1..])
  }

  lemma {:induction false} TotalSnoc(es: seq<ValidationFailure>, e: ValidationFailure, ns: seq<string>)
    requires forall i, j :: 0 <= i < j < |ns| ==> ns[i] != ns[j]
    ensures Total(es + [e], ns) == Total(es, ns) + (if e.propertyName in ns then 1 else 0)
  {
    if ns != [] {
      MessagesForSnoc(es, e, ns[0]);
      assert forall i, j :: 0 <= i < j < |ns[1..]| ==> ns[1..][i] != ns[1..][j] by {
        forall i, j | 0 <= i < j < |ns[1..]| ensures ns[1..][i] != ns[1..][j] {
          assert ns[1..][i] == ns[i + 1] && ns[1..][j] == ns[j + 1];
        }
      }
      TotalSnoc(es, e, ns[1..]);
      assert e.propertyName in ns <==> e.propertyName == ns[0] || e.propertyName in ns[1..];
      if e.propertyName == ns[0] {
        assert e.propertyName !in ns[1..] by {
          forall k | 0 <= k < |ns[1..]| ensures ns[1..][k] != ns[0] {
            assert ns[1..][k] == ns[k + 1];
          }
        }
      }
    }
  }

  lemma {:induction false} TotalAppend(es: seq<ValidationFailure>, ns: seq<string>, n: string)
    ensures Total(es, ns + [n]) == Total(es, ns) + |MessagesFor(es, n)|
  {
    if ns == [] {
      assert [n][1..] == [];
    } else {
      assert (ns + [n])[1..] == ns[1..] + [n];
      TotalAppend(es, ns[1..], n);
    }
  }

  /** Grouping loses and invents no message: the grouped lists hold as many
      messages as there were failures. */
  lemma {:induction false} GroupingKeepsEveryMessage(es: seq<ValidationFailure>)
    ensures Total(es, DistinctNames(es)) == |es|
  {
    if es != [] {
      var p := es[..|es| - 1];
      var e := es[|es| - 1];
      assert es == p + [e];
      GroupingKeepsEveryMessage(p);
      var ns := DistinctNames(p);
      TotalSnoc(p, e, ns);
      if e.propertyName !in ns {
        TotalAppend(es, ns, e.propertyName);
        NoMessagesForAbsentName(p, e.propertyName);
        MessagesForSnoc(p, e, e.propertyName);
      }
    }
  }

  /** The body `HandleValidationException` writes for `errors`: a problem with
      status 400, its fixed type, title and detail, one key per property name,
      and under each key that property's messages in failure order. */
  predicate ValidationProblemFor(body: Body, errors: Option<seq<ValidationFailure>>) {
    && body.Problem?
    && var p := body.problem;
    && p.status == 400 && p.kind == "ValidationFailure" && p.title == "Validation error"
    && p.detail == "One or more validation errors has occurred"
    && p.errors.Keys == PropertyNames(errors.GetOr([]))
    && forall name :: name in p.errors ==> p.errors[name] == MessagesFor(errors.GetOr([]), name)
  }

  /** The middleware with its hosting environment. */
  class Middleware {
    const isDevelopment: bool

    constructor (isDevelopment: bool)
      ensures this.isDevelopment == isDevelopment
    {
      this.isDevelopment := isDevelopment;
    }

    /** `HandleException`: status 500, a JSON content type, and the message
        with the stack trace only in development. */
    method HandleException(response: HttpResponse, message: string, stackTrace: Option<string>)
      modifies response
      ensures response.statusCode == 500
      ensures response.contentType == Some("application/json")
      ensures response.body == AppError(AppException(500, message, if isDevelopment then stackTrace else None))
    {
      response.contentType := Some("application/json");
      response.statusCode := 500;
      var details := if isDevelopment then stackTrace else None;
      response.body := AppError(AppException(response.statusCode, message, details));
    }

    /** `HandleValidationException`: status 400 and the grouped failures. The
        content type that `WriteAsJsonAsync` sets is not modelled, so the field
        is left as it was. */
    method HandleValidationException(response: HttpResponse, errors: Option<seq<ValidationFailure>>)
      modifies response
      ensures response.statusCode == 400
      ensures response.contentType == old(response.contentType)
      ensures ValidationProblemFor(response.body, errors)
    {
      var grouped := GroupErrors(errors);
      response.statusCode := 400;
      response.body := Problem(ValidationProblemDetails(
        grouped, 400, "ValidationFailure", "Validation error", "One or more validation errors has occurred"));
    }

    /** `InvokeAsync`: a validation exception goes to the validation handler,
        any other exception to the generic one, and a completed request
        passes through untouched. */
    method InvokeAsync(response: HttpResponse, outcome: Outcome)
      modifies response
      ensures outcome.Completed? ==>
        response.statusCode == old(response.statusCode) && response.contentType == old(response.contentType)
        && response.body == old(response.body)
      ensures outcome.Threw? && outcome.ex.ValidationException? ==>
        response.statusCode == 400 && response.contentType == old(response.contentType)
        && ValidationProblemFor(response.body, outcome.ex.errors)
      ensures outcome.Threw? && outcome.ex.OtherException? ==>
        response.statusCode == 500 && response.contentType == Some("application/json")
        && response.body == AppError(AppException(500, outcome.ex.message,
                                                  if isDevelopment then outcome.ex.stackTrace else None))
    {
      match outcome
      case Completed =>
      case Threw(ValidationException(errors)) =>
        HandleValidationException(response, errors);
      case Threw(OtherException(message, stackTrace)) =>
        HandleException(response, message, stackTrace);
    }
  }
}
