/** writer.py: write_ppaf, the writer of the three-line format
      PAFF <version>\n  mode: <mode>\n  <count> <offset> <size> <checksum> ...\n  <payload> */
module Writer {
  import opened Text
  import opened Decimal
  import opened Utils
  import opened Layout

  /** The third line without its line feed: the partition count, then every directory token,
      each after one space. */
  function CountAndDirectory(ps: seq<string>): string {
    Join([IntToString(|ps|)] + DirectoryTokens(ps))
  }

  /** The text write_ppaf puts in the file: the three lines, then the partitions in order. */
  function Written(ps: seq<string>, version: string, mode: string): string {
    VersionStr(version) + ModeStr(mode) + CountAndDirectory(ps) + "\n" + Concat(ps)
  }

  /** With no partitions the file is the header and a count of 0. */
  lemma {:induction false} WrittenEmpty(version: string, mode: string)
    ensures Written([], version, mode) == "PAFF " + version + "\nmode: " + mode + "\n0\n"
  {
    assert IntToString(0) == "0";
    assert Concat([]) == "";
  }

  /** The third line, without its line feed, as far as the first `i` partitions. */
  function CountAndDirectoryUpTo(ps: seq<string>, i: nat): string
    requires i <= |ps|
  {
    Join([IntToString(|ps|)] + DirectoryTokens(ps[..i]))
  }

  /** What partition `i` adds to the third line: its triple, each token after one space. */
  function Entry(ps: seq<string>, i: nat): string
    requires i < |ps|
  {
    " " + IntToString(Offset(ps, i)) + " " + IntToString(|ps[i]|) + " " + Checksum(ps[i])
  }

  /** Partition i adds " <offset> <size> <checksum>" to the third line. */
  lemma {:induction false} CountAndDirectoryNext(ps: seq<string>, i: nat)
    requires i < |ps|
    ensures CountAndDirectoryUpTo(ps, i + 1) == CountAndDirectoryUpTo(ps, i) + Entry(ps, i)
  {
    var head := [IntToString(|ps|)] + DirectoryTokens(ps[..i]);
    var x, y, z := IntToString(Offset(ps, i)), IntToString(|ps[i]|), Checksum(ps[i]);
    assert CountAndDirectoryUpTo(ps, i + 1) == Join(head + [x, y, z]) by {
      DirectoryTokensSnoc(ps, i);
      assert [IntToString(|ps|)] + DirectoryTokens(ps[..i + 1]) == head + [x, y, z];
    }
    assert Join(head + [x, y, z]) == Join(head) + " " + x + " " + y + " " + z by {
      JoinAppend3(head, x, y, z);
    }
  }

  /** One pass of write_ppaf's loop keeps its three accumulators in step with the layout. */
  lemma {:induction false} WriteStep(ps: seq<string>, i: nat, metadataStr: string, dataStr: string, lastOffset: int)
    requires i < |ps|
    requires IntToString(|ps|) + metadataStr == CountAndDirectoryUpTo(ps, i)
    requires dataStr == Concat(ps[..i])
    requires lastOffset == Offset(ps, i)
    ensures IntToString(|ps|) + (metadataStr + Entry(ps, i)) == CountAndDirectoryUpTo(ps, i + 1)
    ensures dataStr + ps[i] == Concat(ps[..i + 1])
    ensures lastOffset + |ps[i]| == Offset(ps, i + 1)
  {
    assert IntToString(|ps|) + (metadataStr + Entry(ps, i)) == CountAndDirectoryUpTo(ps, i + 1) by {
      CountAndDirectoryNext(ps, i);
      AppendAssoc(IntToString(|ps|), metadataStr, Entry(ps, i));
    }
    ConcatSnoc(ps, i);
    OffsetNext(ps, i);
  }

  /** The accumulated third line and payload put together make the written file. */
  lemma {:induction false} WrittenFrom(ps: seq<string>, version: string, mode: string, metadataStr: string, dataStr: string)
    requires IntToString(|ps|) + metadataStr == CountAndDirectoryUpTo(ps, |ps|)
    requires dataStr == Concat(ps[..|ps|])
    ensures VersionStr(version) + ModeStr(mode) + IntToString(|ps|) + metadataStr + "\n" + dataStr
         == Written(ps, version, mode)
  {
    assert ps[..|ps|] == ps;
  }

  /** write_ppaf, returning the text it writes to `filename`. The `offsets` list grows to at
      most max(1, |partitions|) entries, entry k being 1 plus the length of the first k
      partitions. */
  method WritePpaf(partitions: seq<string>, version: string, mode: string) returns (file: string)
    ensures file == Written(partitions, version, mode)
  {
    var headerStr := VersionStr(version) + ModeStr(mode) + IntToString(|partitions|);
    var metadataStr := "";
    var dataStr := "";
    var offsets: seq<int> := [1];
    OffsetFirst(partitions);
    for i := 0 to |partitions|
      invariant |offsets| == if i < |partitions| then i + 1 else if |partitions| == 0 then 1 else |partitions|
      invariant OffsetsOf(partitions, offsets)
      invariant IntToString(|partitions|) + metadataStr == CountAndDirectoryUpTo(partitions, i)
      invariant dataStr == Concat(partitions[..i])
    {
      var partition := partitions[i];
      var size := |partition|;
      var checksum := Checksum(partition);
      var lastOffset := offsets[|offsets| - 1];
      WriteStep(partitions, i, metadataStr, dataStr, lastOffset);
      metadataStr := metadataStr + (" " + IntToString(lastOffset) + " " + IntToString(size) + " " + checksum);
      dataStr := dataStr + partition;
      if |partitions| > |offsets| {
        OffsetsGrow(partitions, offsets, i);
        offsets := offsets + [lastOffset + size];
      }
    }
    WrittenFrom(partitions, version, mode, metadataStr, dataStr);
    file := headerStr + metadataStr + "\n" + dataStr;
  }
}
