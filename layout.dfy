/** The directory both writers lay out: one (offset, size, checksum) triple per partition,
    with 1-based offsets and the partitions packed one after the other. */
module Layout {
  import opened Errors
  import opened Text
  import opened TextFile
  import opened Decimal
  import opened Utils

  /** The offset both writers record for partition `i`: 1 plus the total length of the
      partitions before it. */
  function Offset(ps: seq<string>, i: nat): int
    requires i <= |ps|
  {
    1 + |Concat(ps[..i])|
  }

  /** The three directory tokens of partition `i`: offset, size and checksum. */
  function Triple(ps: seq<string>, i: nat): seq<string>
    requires i < |ps|
  {
    [IntToString(Offset(ps, i)), IntToString(|ps[i]|), Checksum(ps[i])]
  }

  /** The directory tokens of all partitions, partition by partition. */
  function DirectoryTokens(ps: seq<string>): (ts: seq<string>)
    ensures |ts| == 3 * |ps|
  {
    if ps == [] then [] else DirectoryTokens(ps[..|ps| - 1]) + Triple(ps, |ps| - 1)
  }

  /** Offsets start at 1. */
  lemma {:induction false} OffsetFirst(ps: seq<string>)
    ensures Offset(ps, 0) == 1
  {
    assert ps[..0] == [];
  }

  /** Each partition starts where the one before it ends. */
  lemma {:induction false} OffsetNext(ps: seq<string>, i: nat)
    requires i < |ps|
    ensures Offset(ps, i + 1) == Offset(ps, i) + |ps[i]|
  {
    ConcatSnoc(ps, i);
  }

  /** `offsets` lists the offsets of the first |offsets| partitions. */
  predicate OffsetsOf(ps: seq<string>, offsets: seq<int>) {
    |offsets| <= |ps| + 1 && forall k :: 0 <= k < |offsets| ==> offsets[k] == Offset(ps, k)
  }

  /** The writers' `offsets.append(offsets[-1] + size)` extends the list by the next offset. */
  lemma {:induction false} OffsetsGrow(ps: seq<string>, offsets: seq<int>, i: nat)
    requires i < |ps| && |offsets| == i + 1 && OffsetsOf(ps, offsets)
    ensures OffsetsOf(ps, offsets + [offsets[i] + |ps[i]|])
  {
    OffsetNext(ps, i);
    var next := offsets + [offsets[i] + |ps[i]|];
    forall k | 0 <= k < |next|
      ensures next[k] == Offset(ps, k)
    {
      if k < |offsets| {
        assert next[k] == offsets[k];
      }
    }
  }

  /** The directory of one more partition is the old directory and that partition's triple. */
  lemma {:induction false} DirectoryTokensSnoc(ps: seq<string>, i: nat)
    requires i < |ps|
    ensures DirectoryTokens(ps[..i + 1]) == DirectoryTokens(ps[..i]) + Triple(ps, i)
  {
    var q := ps[..i + 1];
    assert q[..|q| - 1] == ps[..i];
    assert q[..i] == ps[..i];
  }

  /** Tokens 3i, 3i+1 and 3i+2 are the offset, size and checksum of partition i. */
  lemma {:induction false} DirectoryTokensAt(ps: seq<string>, i: nat)
    requires i < |ps|
    ensures DirectoryTokens(ps)[3 * i] == IntToString(Offset(ps, i))
    ensures DirectoryTokens(ps)[3 * i + 1] == IntToString(|ps[i]|)
    ensures DirectoryTokens(ps)[3 * i + 2] == Checksum(ps[i])
    decreases |ps|
  {
    var init := ps[..|ps| - 1];
    if i < |init| {
      DirectoryTokensAt(init, i);
      assert init[..i] == ps[..i];
    }
  }

  /** Every directory token is a single word. */
  lemma {:induction false} DirectoryTokensAreWords(ps: seq<string>)
    ensures forall k :: 0 <= k < |DirectoryTokens(ps)| ==> IsWord(DirectoryTokens(ps)[k])
    decreases |ps|
  {
    if ps != [] {
      var n := |ps| - 1;
      DirectoryTokensAreWords(ps[..n]);
      IntToStringIsWord(Offset(ps, n));
      IntToStringIsWord(|ps[n]|);
      ChecksumIsWord(ps[n]);
    }
  }

  /** Behind a header of any length, partition k is the text a seek to its offset (counted
      from 1 after the header) followed by a read of its size returns. */
  lemma {:induction false} PartitionSlice(ps: seq<string>, header: string, k: nat, pos: int)
    requires k < |ps| && pos == |header| + Offset(ps, k) - 1
    ensures SeekRead(header + Concat(ps), pos, |ps[k]|) == Ok(ps[k])
  {
    var file := header + Concat(ps);
    var at := |Concat(ps[..k])|;
    ConcatSlice(ps, k);
    assert file[|header| + at..|header| + at + |ps[k]|] == Concat(ps)[at..at + |ps[k]|];
  }
}
