/** Indexing the token list split() returned, as Python does: an index past the end is an
    IndexError, and int() of a token may be a ValueError. */
module Tokens {
  import opened Errors
  import opened Decimal

  /** tokens[j] */
  function TokenAt(ts: seq<string>, j: nat): (r: Result<string>)
    ensures r.Ok? <==> j < |ts|
    ensures r.Ok? ==> r.value == ts[j]
    ensures r.Err? ==> r.error == IndexError
  {
    if j < |ts| then Ok(ts[j]) else Err(IndexError)
  }

  /** How many indices range(n) yields: none when n is not positive. */
  function RangeCount(n: int): nat {
    if n < 0 then 0 else n
  }

  /** int(tokens[j]) */
  function IntAt(ts: seq<string>, j: nat): Result<int> {
    var t :- TokenAt(ts, j);
    ParseInt(t)
  }

  /** A token written by str() reads back as the same integer. */
  lemma {:induction false} IntAtString(ts: seq<string>, j: nat, n: int)
    requires j < |ts| && ts[j] == IntToString(n)
    ensures IntAt(ts, j) == Ok(n)
  {
    IntRoundTrip(n);
  }
}
