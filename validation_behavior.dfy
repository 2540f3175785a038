/** ValidationBehavior.Handle (Application/Core/ValidationBehavior.cs): the
    MediatR pipeline step that runs a request's validator before its handler. */
module ValidationBehavior {
  import opened Wrappers
  import opened Domain
  import opened ActivityDtos
  import opened Validation
  import opened ActivityValidators

  /** How the step ends: the next handler's response, together with how many
      times `next()` was called, or a thrown `ValidationException`. */
  datatype Outcome<R> = Returned(response: R, nextCalls: nat) | ThrewValidation(errors: seq<ValidationFailure>)

  /** `validator` is the optional injected `IValidator<TRequest>`, as the
      failures it reports for a request; `next` is what the next handler
      responds. `IsValid` means no failures. */
  function Handle<Req, R>(validator: Option<Req -> seq<ValidationFailure>>, request: Req, next: R)
    : (o: Outcome<R>)
    ensures validator.None? ==> o == Returned(next, 1)
    ensures validator.Some? && validator.value(request) != [] ==> o == ThrewValidation(validator.value(request))
    ensures validator.Some? && validator.value(request) == [] ==> o == Returned(next, 1)
    ensures o.ThrewValidation? ==> o.errors != []
  {
    match validator
    case None => Returned(next, 1)
    case Some(validate) =>
      var errors := validate(request);
      if errors != [] then ThrewValidation(errors) else Returned(next, 1)
  }

  /** With EditActivityValidator in place, an edit command reaches its handler,
      exactly once, precisely when it passes every rule; otherwise the
      exception carries the id failure whenever the id is empty. */
  lemma EditReachesHandlerOnlyWhenValid<R>(dto: EditActivityDto, now: DateTime, next: R)
    ensures var o := Handle(Some((d: EditActivityDto) => ValidateEdit(d, now)), dto, next);
      && (o == Returned(next, 1) <==> BaseRulesHold(dto.fields, now) && NotBlank(dto.id))
      && (!NotBlank(dto.id) ==> o.ThrewValidation? && ValidationFailure("ActivityDto.Id", "Id is required") in o.errors)
  {
    EditValidIff(dto, now);
  }
}
