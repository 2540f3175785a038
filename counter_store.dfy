/** `CounterStore` (client/src/lib/stores/counterStore.ts): a count and the log
    of every change made to it. */
module Counter {
  import opened Wrappers

  // Decimal text of an integer, as a template literal prints it.

  function DigitChar(d: nat): (c: char)
    requires d < 10
    ensures '0' <= c <= '9'
  {
    ('0' as int + d) as char
  }

  /** The value of a digit character; any other character reads as 0. */
  function DigitValue(c: char): (d: nat)
    ensures '0' <= c <= '9' ==> d < 10 && DigitChar(d) == c
  {
    if '0' <= c <= '9' then (c as int - '0' as int) as nat else 0
  }

  /** The decimal digits of `n`, most significant first, without leading zeros. */
  function Digits(n: nat): (s: string)
    ensures |s| >= 1
    ensures forall i :: 0 <= i < |s| ==> '0' <= s[i] <= '9'
    ensures s[0] == '0' ==> n == 0 && |s| == 1
  {
    if n < 10 then [DigitChar(n)] else Digits(n / 10) + [DigitChar(n % 10)]
  }

  /** Reads a string of digits back as a number. */
  function ParseDigits(s: string): nat {
    if s == [] then 0 else ParseDigits(s[..|s| - 1]) * 10 + DigitValue(s[|s| - 1])
  }

  /** `${n}` for an integer `n`. */
  function IntToString(n: int): (s: string)
    ensures |s| >= 1
    ensures n < 0 <==> s[0] == '-'
  {
    if n < 0 then "-" + Digits(-n) else Digits(n)
  }

  /** Reads `${n}` back. */
  function ParseInt(s: string): int {
    if |s| >= 1 && s[0] == '-' then -(ParseDigits(s[1..]) as int) else ParseDigits(s)
  }

  lemma {:induction false} DigitsRoundTrip(n: nat)
    ensures ParseDigits(Digits(n)) == n
  {
    if n >= 10 {
      var s := Digits(n);
      assert s[..|s| - 1] == Digits(n / 10);
      DigitsRoundTrip(n / 10);
    }
  }

  lemma ParseNegative(d: string)
    ensures ParseInt("-" + d) == -(ParseDigits(d) as int)
  {
    assert ("-" + d)[1..] == d;
  }

  lemma ParseNonNegative(d: string)
    requires |d| >= 1 && d[0] != '-'
    ensures ParseInt(d) == ParseDigits(d)
  {
  }

  /** The text of a number determines the number. */
  lemma IntToStringRoundTrip(n: int)
    ensures ParseInt(IntToString(n)) == n
  {
    if n < 0 {
      var d := Digits(-n);
      assert IntToString(n) == "-" + d;
      ParseNegative(d);
      DigitsRoundTrip(-n);
    } else {
      var d := Digits(n);
      assert IntToString(n) == d;
      assert '0' <= d[0] <= '9';
      ParseNonNegative(d);
      DigitsRoundTrip(n);
    }
  }

  /** The two kinds of change, with their amount. */
  datatype Change = Incremented(amount: int) | Decremented(amount: int)

  const InitialCount := 42

  const InitialEvent := "Initial count is " + IntToString(InitialCount)

  /** The count after the changes in `h`, starting from 42. */
  function CountAfter(h: seq<Change>): int {
    if h == [] then InitialCount
    else
      var before := CountAfter(h[..|h| - 1]);
      match h[|h| - 1]
      case Incremented(a) => before + a
      case Decremented(a) => before - a
  }

  /** The log line for the change `c` that left the count at `count`. */
  function Describe(c: Change, count: int): string {
    match c
    case Incremented(a) => "Incremented by " + IntToString(a) + " - count is now " + IntToString(count)
    case Decremented(a) => "Decremented by " + IntToString(a) + " - count is now " + IntToString(count)
  }

  /** An increment undone by a decrement of the same amount, or the other way round, leaves the count. */
  lemma ChangeAndUndo(h: seq<Change>, a: int)
    ensures CountAfter(h + [Incremented(a), Decremented(a)]) == CountAfter(h)
    ensures CountAfter(h + [Decremented(a), Incremented(a)]) == CountAfter(h)
  {
    assert (h + [Incremented(a), Decremented(a)])[..|h| + 1] == h + [Incremented(a)];
    assert (h + [Incremented(a)])[..|h|] == h;
    assert (h + [Decremented(a), Incremented(a)])[..|h| + 1] == h + [Decremented(a)];
    assert (h + [Decremented(a)])[..|h|] == h;
  }

  /** The log after the changes in `h`: the initial line, then one line per
      change, each naming the count that change left. */
  function Log(h: seq<Change>): seq<string> {
    if h == [] then [InitialEvent]
    else Log(h[..|h| - 1]) + [Describe(h[|h| - 1], CountAfter(h))]
  }

  /** One line per change after the initial one, which stays first; earlier lines never change. */
  lemma {:induction false} LogShape(h: seq<Change>, k: nat)
    requires k <= |h|
    ensures |Log(h)| == |h| + 1
    ensures Log(h)[0] == InitialEvent
    ensures Log(h[..k]) == Log(h)[..k + 1]
  {
    if h != [] {
      var p := h[..|h| - 1];
      if k == |h| {
        assert h[..k] == h;
        LogShape(p, 0);
      } else {
        assert h[..k] == p[..k];
        LogShape(p, k);
      }
    }
  }

  /** The initial line reads "Initial count is 42". */
  lemma InitialEventText()
    ensures InitialEvent == "Initial count is 42"
  {
    assert Digits(4) == "4" && Digits(2) == "2";
    assert IntToString(42) == "42";
  }

  class CounterStore {
    var title: string
    var count: int
    var events: seq<string>
    /** The changes made so far, in order. */
    ghost var history: seq<Change>

    /** The count is 42 moved by every change, and the log has a line per change. */
    ghost predicate Valid()
      reads this
    {
      && title == "Counter store"
      && count == CountAfter(history)
      && events == Log(history)
    }

    constructor ()
      ensures Valid()
      ensures count == InitialCount && events == [InitialEvent] && history == []
    {
      title := "Counter store";
      count := InitialCount;
      events := [InitialEvent];
      history := [];
    }

    /** `increment(amount = 1)`. */
    method Increment(amount: Option<int>)
      requires Valid()
      modifies this
      ensures Valid()
      ensures history == old(history) + [Incremented(amount.GetOr(1))]
      ensures count == old(count) + amount.GetOr(1)
      ensures events == old(events) + [Describe(Incremented(amount.GetOr(1)), count)]
    {
      var a := amount.GetOr(1);
      count := count + a;
      events := events + [Describe(Incremented(a), count)];
      history := history + [Incremented(a)];
      assert history[..|history| - 1] == old(history);
    }

    /** `decrement(amount = 1)`. */
    method Decrement(amount: Option<int>)
      requires Valid()
      modifies this
      ensures Valid()
      ensures history == old(history) + [Decremented(amount.GetOr(1))]
      ensures count == old(count) - amount.GetOr(1)
      ensures events == old(events) + [Describe(Decremented(amount.GetOr(1)), count)]
    {
      var a := amount.GetOr(1);
      count := count - a;
      events := events + [Describe(Decremented(a), count)];
      history := history + [Decremented(a)];
      assert history[..|history| - 1] == old(history);
    }

    /** The `eventCount` getter: one event more than changes made. */
    function EventCount(): (r: nat)
      requires Valid()
      reads this
      ensures r == |events|
      ensures r == |history| + 1
    {
      LogShape(history, 0);
      |events|
    }
  }
}
