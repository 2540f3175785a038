/** `Result<T>` of Application/Core/Result.cs: the value every handler returns. */
module CoreResult {
  import opened Wrappers

  /** The record with its four properties. `Value` and `Error` are `None`
      where C# leaves them `null`/default; since the properties are settable,
      every combination is a value of this type. */
  datatype Result<T> = Result(IsSuccess: bool, Value: Option<T>, Error: Option<string>, Code: int)

  /** `Result<T>.Success(value)`. */
  function Success<T>(value: T): (r: Result<T>)
    ensures r.IsSuccess && r.Value == Some(value)
    ensures r.Error == None && r.Code == 0
  {
    Result(true, Some(value), None, 0)
  }

  /** `Result<T>.Failure(error, code)`. */
  function Failure<T>(error: string, code: int): (r: Result<T>)
    ensures !r.IsSuccess && r.Error == Some(error) && r.Code == code
    ensures r.Value == None
  {
    Result(false, None, Some(error), code)
  }

  /** The two factories never build the same record, and each one can be
      read back: a result built by one of them determines its arguments. */
  lemma FactoriesAreDistinctAndInjective<T>(v: T, w: T, e: string, f: string, c: int, d: int)
    ensures Success(v) != Failure<T>(e, c)
    ensures Success(v) == Success(w) <==> v == w
    ensures Failure<T>(e, c) == Failure<T>(f, d) <==> e == f && c == d
  {
  }
}
