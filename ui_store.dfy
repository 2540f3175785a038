/** `UiStore` (client/src/lib/stores/uiStore.ts): the global loading flag. */
module Ui {

  /** The two actions of the store. */
  datatype Call = Busy | Idle

  /** The flag after one call: each call sets it, whatever it was. */
  function Step(loading: bool, c: Call): (r: bool)
    ensures r <==> c == Busy
  {
    match c
    case Busy => true
    case Idle => false
  }

  /** The flag after a sequence of calls, first call first. */
  function Run(loading: bool, calls: seq<Call>): bool
    decreases calls
  {
    if calls == [] then loading else Run(Step(loading, calls[0]), calls[1..])
  }

  /** Only the last call made decides the flag. */
  lemma {:induction false} LastCallDecides(loading: bool, calls: seq<Call>)
    decreases calls
    ensures calls == [] ==> Run(loading, calls) == loading
    ensures calls != [] ==> (Run(loading, calls) <==> calls[|calls| - 1] == Busy)
  {
    if calls != [] {
      LastCallDecides(Step(loading, calls[0]), calls[1..]);
    }
  }

  /** Repeating a call changes nothing. */
  lemma Idempotent(loading: bool, c: Call)
    ensures Step(Step(loading, c), c) == Step(loading, c)
  {
  }

  class UiStore {
    var isLoading: bool

    constructor ()
      ensures !isLoading
    {
      isLoading := false;
    }

    /** `isBusy()`. */
    method IsBusy()
      modifies this
      ensures isLoading == Step(old(isLoading), Busy)
    {
      isLoading := true;
    }

    /** `isIdle()`. */
    method IsIdle()
      modifies this
      ensures isLoading == Step(old(isLoading), Idle)
    {
      isLoading := false;
    }
  }
}
