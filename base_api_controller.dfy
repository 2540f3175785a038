/** BaseApiController.HandleResult (API/Controllers/BaseApiController.cs):
    how every controller action turns a handler's result into a response. */
module BaseApiController {
  import opened Wrappers
  import opened CoreResult

  /** The three responses `HandleResult` can build. */
  datatype ActionResult<T> = NotFound | Ok(value: T) | BadRequest(error: Option<string>)

  function HandleResult<T>(result: Result<T>): (a: ActionResult<T>)
    ensures a.NotFound? <==> !result.IsSuccess && result.Code == 404
    ensures a.Ok? <==> result.IsSuccess && result.Value.Some?
    ensures a.Ok? ==> a.value == result.Value.value
    ensures a.BadRequest? ==> a.error == result.Error
  {
    if !result.IsSuccess && result.Code == 404 then NotFound
    else if result.IsSuccess && result.Value.Some? then Ok(result.Value.value)
    else BadRequest(result.Error)
  }

  /** The factories meet the controller: a success is `Ok` with its value, a
      404 failure is `NotFound`, any other failure is `BadRequest` with its
      message, and a success record without a value is a `BadRequest` with no message. */
  lemma HandleFactories<T>(v: T, error: string, code: int)
    ensures HandleResult(Success(v)) == Ok(v)
    ensures HandleResult(Failure<T>(error, 404)) == NotFound
    ensures code != 404 ==> HandleResult(Failure<T>(error, code)) == BadRequest(Some(error))
    ensures HandleResult<T>(Result(true, None, None, 0)) == BadRequest(None)
  {
  }
}
