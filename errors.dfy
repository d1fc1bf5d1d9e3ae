/** Python's exceptions, as values. A raised exception becomes an `Err`. */
module Errors {

  /** The messages the PAFF code and the built-ins it calls attach to their exceptions, by
      name; Messages.Text spells each one out. */
  datatype Message =
    | NoMessage                       // a bare `assert`
    | InvalidLiteral                  // int() of a token that is not a decimal integer
    | NegativeSeek                    // seek() to a position before the start of the file
    | IndexOutOfRange                 // read_partition's range check
    | FilePathRequired                // PAFFFile() without a file path
    | NotEnoughToUnpack(got: nat)     // unpacking fewer than four metadata lines
    | TooManyToUnpack                 // unpacking more than four metadata lines
    | VersionMismatch
    | ModeMismatch
    | PartsLineFormatError
    | PartitionCountMismatch
    | ChecksumMismatch(partition: int) // the 1-based number of the partition

  /** The exceptions the PAFF code raises or lets through from the built-ins it calls. */
  datatype Error =
    | ValueError(message: Message)     // int() on a bad literal, negative seek, bad index, unpacking
    | IndexError                       // a list or sequence index past the end
    | AssertionError(message: Message) // a failed `assert`

  /** The exceptions reading a directory entry can raise: int() of a token that is not a
      number, a token past the end of the line, a seek before the start of the file. */
  predicate ReadError(e: Error) {
    e == ValueError(InvalidLiteral) || e == IndexError || e == ValueError(NegativeSeek)
  }

  /** Either a value or the exception that stopped the computation. */
  datatype Result<+T> = Ok(value: T) | Err(error: Error) {
    predicate IsFailure() { Err? }

    function PropagateFailure<U>(): Result<U>
      requires Err?
    {
      Err(error)
    }

    function Extract(): T
      requires Ok?
    {
      value
    }
  }

  datatype Option<+T> = None | Some(value: T)

  /** The values of a run of attempts made in order, or the exception of the first one that
      failed. */
  function Collect<T>(rs: seq<Result<T>>): Result<seq<T>> {
    if rs == [] then Ok([])
    else
      var done :- Collect(rs[..|rs| - 1]);
      var last :- rs[|rs| - 1];
      Ok(done + [last])
  }

  /** With the attempts before i all good, attempt i's exception is the collection's. */
  lemma {:induction false} CollectStops<T>(rs: seq<Result<T>>, i: nat)
    requires i < |rs|
    requires Collect(rs[..i]).Ok?
    ensures rs[i].Err? ==> Collect(rs) == Err(rs[i].error)
    decreases |rs|
  {
    if rs[i].Err? && i < |rs| - 1 {
      var init := rs[..|rs| - 1];
      assert init[..i] == rs[..i];
      CollectStops(init, i);
    } else if rs[i].Err? {
      assert rs[..|rs| - 1] == rs[..i];
    }
  }

  /** A good attempt i adds its value to the collection of the attempts before it. */
  lemma {:induction false} CollectNext<T>(rs: seq<Result<T>>, i: nat)
    requires i < |rs|
    requires Collect(rs[..i]).Ok? && rs[i].Ok?
    ensures Collect(rs[..i + 1]) == Ok(Collect(rs[..i]).value + [rs[i].value])
  {
    assert rs[..i + 1][..i] == rs[..i];
  }

  /** The collection succeeds exactly when every attempt does, and then holds their values
      in order. */
  lemma {:induction false} CollectOk<T>(rs: seq<Result<T>>)
    ensures Collect(rs).Ok? <==> forall k :: 0 <= k < |rs| ==> rs[k].Ok?
    ensures Collect(rs).Ok? ==>
      |Collect(rs).value| == |rs| && forall k :: 0 <= k < |rs| ==> rs[k] == Ok(Collect(rs).value[k])
  {
    if rs != [] {
      var init := rs[..|rs| - 1];
      CollectOk(init);
      assert forall k :: 0 <= k < |init| ==> init[k] == rs[k];
    }
  }

  /** Attempts that all succeed collect to their values. */
  lemma {:induction false} CollectAll<T>(rs: seq<Result<T>>, vs: seq<T>)
    requires |rs| == |vs| && forall k :: 0 <= k < |rs| ==> rs[k] == Ok(vs[k])
    ensures Collect(rs) == Ok(vs)
  {
    CollectOk(rs);
    assert Collect(rs).value == vs;
  }

  /** A failed collection carries the exception of the first attempt that failed. */
  lemma {:induction false} CollectErr<T>(rs: seq<Result<T>>)
    requires Collect(rs).Err?
    ensures exists k :: 0 <= k < |rs| && rs[k] == Err(Collect(rs).error) && forall j :: 0 <= j < k ==> rs[j].Ok?
  {
    var init := rs[..|rs| - 1];
    assert forall j :: 0 <= j < |init| ==> rs[j] == init[j];
    if Collect(init).Err? {
      CollectErr(init);
    } else {
      CollectOk(init);
      assert rs[|rs| - 1] == Err(Collect(rs).error);
    }
  }

  /** Everything a collection tells: it succeeds exactly when every attempt does, with their
      values in order, and otherwise fails with the exception of the first failed attempt. */
  lemma {:induction false} CollectSpec<T>(rs: seq<Result<T>>)
    ensures Collect(rs).Ok? <==> forall k :: 0 <= k < |rs| ==> rs[k].Ok?
    ensures Collect(rs).Ok? ==>
      |Collect(rs).value| == |rs| && forall k :: 0 <= k < |rs| ==> rs[k] == Ok(Collect(rs).value[k])
    ensures Collect(rs).Err? ==>
      exists k :: 0 <= k < |rs| && rs[k] == Err(Collect(rs).error) && forall j :: 0 <= j < k ==> rs[j].Ok?
  {
    CollectOk(rs);
    if Collect(rs).Err? {
      CollectErr(rs);
    }
  }
}
