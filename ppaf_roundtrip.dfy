/** The four-line format end to end: what write_partitions writes, read back through
    read_partition, read_partitions and validate. */
module PpafRoundTrip {
  import opened Errors
  import opened Text
  import opened Decimal
  import opened TextFile
  import opened Utils
  import opened Layout
  import opened Tokens
  import opened PpafFormat
  import opened Ppaf

  /** The four metadata lines write_partitions writes, line feeds included. */
  function WrittenLines(version: string, mode: string, count: int, ps: seq<string>): seq<string> {
    [VersionLine(version), ModeLine(mode), PartsLine(count), Directory(ps) + "\n"]
  }

  /** Everything write_partitions writes before the payload. */
  function Header(version: string, mode: string, count: int, ps: seq<string>): string {
    VersionLine(version) + ModeLine(mode) + PartsLine(count) + Directory(ps) + "\n"
  }

  /** readline() on a line without a line feed inside. */
  lemma {:induction false} ReadLinesCons(a: string, b: string, k: nat)
    requires '\n' !in a && k > 0
    ensures ReadLines(a + "\n" + b, k) == [a + "\n"] + ReadLines(b, k - 1)
  {
    ReadLineOf(a, b);
  }

  /** The fourth line holds no line feed and splits back into the directory tokens. */
  lemma {:induction false} DirectoryLine(ps: seq<string>)
    ensures '\n' !in Directory(ps)
    ensures Split(Strip(Directory(ps) + "\n")) == DirectoryTokens(ps)
  {
    DirectoryTokensAreWords(ps);
    JoinNoNewline(DirectoryTokens(ps));
    SplitJoin(DirectoryTokens(ps));
    SplitStrip(Directory(ps) + "\n");
    assert Directory(ps) + "\n" == Directory(ps) + ['\n'] + "";
    SplitAround(Directory(ps), '\n', "");
  }

  /** The word of the parts line. */
  lemma {:induction false} PartsWord()
    ensures IsWord("parts")
  {
    LettersWord("parts");
  }

  /** The parts line strips to "parts <count>", starts with "parts" and splits into the
      word and the count. */
  lemma {:induction false} PartsLineReads(count: int)
    ensures '\n' !in "parts " + IntToString(count)
    ensures Strip(PartsLine(count)) == "parts " + IntToString(count)
    ensures StartsWith(Strip(PartsLine(count)), "parts")
    ensures Split(Strip(PartsLine(count))) == ["parts", IntToString(count)]
  {
    var n := IntToString(count);
    PartsWord();
    IntToStringIsWord(count);
    assert forall k :: 0 <= k < |n| ==> n[k] != '\n';
    StripLine("parts " + n, '\n');
    assert "parts " + n == "parts" + [' '] + n;
    SplitAround("parts", ' ', n);
    SplitWord("parts");
    SplitWord(n);
  }

  /** get_mode_line ends in exactly one line feed. */
  lemma {:induction false} StripModeLine(mode: string)
    requires |mode| > 0 && !IsSpace(mode[|mode| - 1])
    ensures Strip(ModeLine(mode)) == "mode " + mode
  {
    StripLine("mode " + mode, '\n');
  }

  /** Three lines without line feeds inside, read back by three readline() calls. */
  lemma {:induction false} ThreeLines(b: string, c: string, d: string, data: string)
    requires '\n' !in b && '\n' !in c && '\n' !in d
    ensures ReadLines(b + "\n" + (c + "\n" + (d + "\n" + data)), 3) == [b + "\n", c + "\n", d + "\n"]
  {
    assert ReadLines(d + "\n" + data, 1) == [d + "\n"] by {
      ReadLinesCons(d, data, 1);
    }
    assert ReadLines(c + "\n" + (d + "\n" + data), 2) == [c + "\n", d + "\n"] by {
      ReadLinesCons(c, d + "\n" + data, 2);
    }
    ReadLinesCons(b, c + "\n" + (d + "\n" + data), 3);
  }

  /** Four lines without line feeds inside, read back by four readline() calls. */
  lemma {:induction false} FourLines(a: string, b: string, c: string, d: string, data: string)
    requires '\n' !in a && '\n' !in b && '\n' !in c && '\n' !in d
    ensures ReadLines(a + "\n" + b + "\n" + c + "\n" + d + "\n" + data, 4) == [a + "\n", b + "\n", c + "\n", d + "\n"]
  {
    var rest1 := b + "\n" + (c + "\n" + (d + "\n" + data));
    assert a + "\n" + b + "\n" + c + "\n" + d + "\n" + data == a + "\n" + rest1;
    ThreeLines(b, c, d, data);
    ReadLinesCons(a, rest1, 4);
  }

  /** The written text is the four lines and then the payload, and loading its metadata
      gives back the four lines written. */
  lemma {:induction false} EncodedLines(version: string, mode: string, count: int, ps: seq<string>)
    requires '\n' !in version && '\n' !in mode
    ensures Encode(version, mode, count, ps) == Header(version, mode, count, ps) + Concat(ps)
    ensures ReadLines(Encode(version, mode, count, ps), 4) == WrittenLines(version, mode, count, ps)
  {
    var a, b, c, d := "PAFF " + version, "mode " + mode, "parts " + IntToString(count), Directory(ps);
    assert '\n' !in c by {
      PartsLineReads(count);
    }
    assert '\n' !in d by {
      DirectoryLine(ps);
    }
    assert Encode(version, mode, count, ps) == a + "\n" + b + "\n" + c + "\n" + d + "\n" + Concat(ps);
    FourLines(a, b, c, d, Concat(ps));
  }

  /** The written lines give the position of the payload, the directory and the count
      they were written with. */
  lemma {:induction false} WrittenMetadata(version: string, mode: string, count: int, ps: seq<string>)
    ensures SumLengths(WrittenLines(version, mode, count, ps)) == |Header(version, mode, count, ps)|
    ensures DirectoryOf(WrittenLines(version, mode, count, ps)) == Ok(DirectoryTokens(ps))
    ensures PartitionCount(Some(WrittenLines(version, mode, count, ps))) == Ok(count)
  {
    SumLengthsFour(VersionLine(version), ModeLine(mode), PartsLine(count), Directory(ps) + "\n");
    PartsLineReads(count);
    DirectoryLine(ps);
    IntAtString(["parts", IntToString(count)], 1, count);
  }

  /** Reading partition i of a file laid out as a header and the payload, with metadata
      whose lengths add up to the header's, gives back the partition. */
  lemma {:induction false} ReadLaidOut(file: string, metadata: seq<string>, header: string, ps: seq<string>,
                                       count: int, i: nat)
    requires file == header + Concat(ps)
    requires SumLengths(metadata) == |header|
    requires DirectoryOf(metadata) == Ok(DirectoryTokens(ps))
    requires PartitionCount(Some(metadata)) == Ok(count)
    requires i < |ps| && i < count
    ensures ReadPartition(file, metadata, i) == Ok(ps[i])
  {
    var parts := DirectoryTokens(ps);
    DirectoryTokensAt(ps, i);
    IntAtString(parts, 3 * i, Offset(ps, i));
    IntAtString(parts, 3 * i + 1, |ps[i]|);
    PartitionSlice(ps, header, i, SeekTarget(metadata, Offset(ps, i)));
    ReadPartitionOk(file, metadata, i, count, parts, Offset(ps, i), |ps[i]|, ps[i]);
  }

  /** demo_rw.py's read: loading the written file and reading partition i gives back the
      partition written, for every i below both the count written and the number of
      partitions. */
  lemma {:induction false} ReadWritten(version: string, mode: string, count: int, ps: seq<string>, i: nat)
    requires '\n' !in version && '\n' !in mode
    requires i < |ps| && i < count
    ensures var file := Encode(version, mode, count, ps);
      ReadPartition(file, ReadLines(file, 4), i) == Ok(ps[i])
  {
    EncodedLines(version, mode, count, ps);
    WrittenMetadata(version, mode, count, ps);
    ReadLaidOut(Encode(version, mode, count, ps), WrittenLines(version, mode, count, ps), Header(version, mode, count, ps),
                ps, count, i);
  }

  /** On the written file, read_partition refuses exactly the indices outside
      0..count-1, whatever the number of partitions. */
  lemma {:induction false} ReadWrittenRange(version: string, mode: string, count: int, ps: seq<string>, index: int)
    requires '\n' !in version && '\n' !in mode
    ensures var file := Encode(version, mode, count, ps);
      ReadPartition(file, ReadLines(file, 4), index) == Err(ValueError(IndexOutOfRange)) <==> index < 0 || index >= count
  {
    var file := Encode(version, mode, count, ps);
    EncodedLines(version, mode, count, ps);
    WrittenMetadata(version, mode, count, ps);
    ReadPartitionRange(file, WrittenLines(version, mode, count, ps), index, count);
  }

  /** An index the count admits but past the partitions written finds no offset token on
      the fourth line: an IndexError. */
  lemma {:induction false} ReadPastWritten(version: string, mode: string, count: int, ps: seq<string>, i: nat)
    requires '\n' !in version && '\n' !in mode
    requires |ps| <= i < count
    ensures var file := Encode(version, mode, count, ps);
      ReadPartition(file, ReadLines(file, 4), i) == Err(IndexError)
  {
    var file := Encode(version, mode, count, ps);
    EncodedLines(version, mode, count, ps);
    WrittenMetadata(version, mode, count, ps);
    ReadPartitionNoOffset(file, WrittenLines(version, mode, count, ps), i, count, DirectoryTokens(ps));
  }

  /** read_partitions() on the written file gives back the first `count` partitions
      written, so all of them when the count written is their number. */
  lemma {:induction false} ReadAllWritten(version: string, mode: string, count: int, ps: seq<string>)
    requires '\n' !in version && '\n' !in mode
    requires 0 <= count <= |ps|
    ensures var file := Encode(version, mode, count, ps);
      ReadPartitions(file, ReadLines(file, 4), None) == Ok(ps[..count])
  {
    var file := Encode(version, mode, count, ps);
    var lines := WrittenLines(version, mode, count, ps);
    EncodedLines(version, mode, count, ps);
    WrittenMetadata(version, mode, count, ps);
    ReadPartitionsDefault(file, lines, count);
    var rs := Reads(file, lines, Range(count));
    forall k | 0 <= k < count
      ensures rs[k] == Ok(ps[..count][k])
    {
      ReadWritten(version, mode, count, ps, k);
    }
    CollectAll(rs, ps[..count]);
  }

  /** With a count above the number of partitions written, read_partitions() fails with
      the IndexError of the first index past them. */
  lemma {:induction false} ReadAllPastWritten(version: string, mode: string, count: int, ps: seq<string>)
    requires '\n' !in version && '\n' !in mode
    requires |ps| < count
    ensures var file := Encode(version, mode, count, ps);
      ReadPartitions(file, ReadLines(file, 4), None) == Err(IndexError)
  {
    var file := Encode(version, mode, count, ps);
    var lines := WrittenLines(version, mode, count, ps);
    EncodedLines(version, mode, count, ps);
    WrittenMetadata(version, mode, count, ps);
    ReadPartitionsDefault(file, lines, count);
    var rs := Reads(file, lines, Range(count));
    forall k | 0 <= k < |ps|
      ensures rs[..|ps|][k] == Ok(ps[k])
    {
      ReadWritten(version, mode, count, ps, k);
    }
    CollectAll(rs[..|ps|], ps);
    ReadPastWritten(version, mode, count, ps, |ps|);
    CollectStops(rs, |ps|);
  }

  /** Every check of validate's loop passes on a payload laid out after a header. */
  lemma {:induction false} CheckLaidOut(header: string, ps: seq<string>, k: nat)
    requires k < |ps|
    ensures CheckAt(DirectoryTokens(ps), |header|, header + Concat(ps), k) == Ok(ps[k])
  {
    var parts := DirectoryTokens(ps);
    DirectoryTokensAt(ps, k);
    IntAtString(parts, 3 * k, Offset(ps, k));
    IntAtString(parts, 3 * k + 1, |ps[k]|);
    PartitionSlice(ps, header, k, |header| + Offset(ps, k) - 1);
    CheckAtOk(parts, |header|, header + Concat(ps), k, Offset(ps, k), |ps[k]|, ps[k]);
  }

  /** validate's loop passes over the first `count` partitions laid out after a header. */
  lemma {:induction false} AllLaidOutChecked(parts: seq<string>, start: int, file: string, header: string,
                                             ps: seq<string>, count: nat)
    requires parts == DirectoryTokens(ps) && start == |header| && file == header + Concat(ps)
    requires count <= |ps|
    ensures AllChecked(parts, start, file, count) == Ok(())
  {
    var rs := Checks(parts, start, file, count);
    forall k | 0 <= k < count
      ensures rs[k] == Ok(ps[..count][k])
    {
      CheckLaidOut(header, ps, k);
    }
    CollectAll(rs, ps[..count]);
  }

  /** validate passes on four lines that carry the version, the mode, a parts line with
      the count and the directory of a payload laid out after them. */
  lemma {:induction false} ValidateLaidOut(a: string, b: string, c: string, d: string, file: string, header: string,
                                           ps: seq<string>, version: string, mode: string, count: nat)
    requires Strip(a) == "PAFF " + version && Strip(b) == "mode " + mode
    requires StartsWith(Strip(c), "parts") && IntAt(Split(Strip(c)), 1) == Ok(count)
    requires Split(Strip(d)) == DirectoryTokens(ps)
    requires DataStartsAfter(a, b, c, d) == |header| && file == header + Concat(ps)
    requires count <= |ps|
    ensures Validate([a, b, c, d], file, version, mode) == Ok(())
  {
    assert CountedChecks(a, b, c, d, file) == AllChecked(Split(Strip(d)), DataStartsAfter(a, b, c, d), file, count) by {
      CountCheckHolds(a, b, c, d);
      CountedChecksIs(a, b, c, d, file, count);
    }
    AllLaidOutChecked(Split(Strip(d)), DataStartsAfter(a, b, c, d), file, header, ps, count);
    ValidateLinesIs(a, b, c, d, file, version, mode);
    ValidateFour(a, b, c, d, file, version, mode);
  }

  /** demo_rw.py's validate: the written file passes validation against the version and
      mode it was written with, when neither holds a line feed or ends in whitespace and
      the count written does not exceed the partitions written. */
  lemma {:induction false} ValidateWritten(version: string, mode: string, count: int, ps: seq<string>)
    requires PlainValue(version) && PlainValue(mode)
    requires 0 <= count <= |ps|
    ensures var file := Encode(version, mode, count, ps);
      Validate(ReadLines(file, 4), file, version, mode) == Ok(())
  {
    var file := Encode(version, mode, count, ps);
    var a, b, c, d := VersionLine(version), ModeLine(mode), PartsLine(count), Directory(ps) + "\n";
    assert Validate([a, b, c, d], file, version, mode) == Ok(()) by {
      EncodedLines(version, mode, count, ps);
      assert VersionLine(version) == VersionStr(version);
      StripVersionStr(version);
      StripModeLine(mode);
      PartsLineReads(count);
      DirectoryLine(ps);
      IntAtString(["parts", IntToString(count)], 1, count);
      ValidateLaidOut(a, b, c, d, file, Header(version, mode, count, ps), ps, version, mode, count);
    }
    EncodedLines(version, mode, count, ps);
  }

  /** validate and read_partition locate a partition at the same place: once validate
      passes, every index below the count reads, and what it reads has the checksum of
      the directory. */
  lemma {:induction false} ValidatedReads(metadata: seq<string>, file: string, version: string, mode: string, i: nat)
    requires Validate(metadata, file, version, mode) == Ok(())
    requires PartitionCount(Some(metadata)).Ok? && i < PartitionCount(Some(metadata)).value
    ensures ReadPartition(file, metadata, i).Ok?
    ensures DirectoryOf(metadata).Ok?
    ensures TokenAt(DirectoryOf(metadata).value, 3 * i + 2) == Ok(Checksum(ReadPartition(file, metadata, i).value))
  {
    ValidatePassesChecks(metadata, file, version, mode);
    var n := PartitionCount(Some(metadata)).value;
    var parts := Split(Strip(metadata[3]));
    assert DirectoryOf(metadata) == Ok(parts);
    AllCheckedAt(parts, SumLengths(metadata), file, n, i);
    CheckedRead(file, metadata, i, n, parts);
    CheckAtReads(parts, SumLengths(metadata), file, i);
  }

  /** The parts line write_partitions writes carries the count loaded before the write:
      a file loaded with count 0 and then written with one partition reads back with
      none, and still validates. */
  lemma {:induction false} StaleCountDropsPartitions(version: string, mode: string)
    requires PlainValue(version) && PlainValue(mode)
    ensures var file := Encode(version, mode, 0, ["A"]);
      && ReadPartitions(file, ReadLines(file, 4), None) == Ok([])
      && ReadPartitions(file, ReadLines(file, 4), None) != Ok(["A"])
      && Validate(ReadLines(file, 4), file, version, mode) == Ok(())
  {
    ReadAllWritten(version, mode, 0, ["A"]);
    ValidateWritten(version, mode, 0, ["A"]);
  }

  /** The text write_partitions evidently means to write: the parts line counts the
      partitions written. */
  function EncodeCounted(version: string, mode: string, ps: seq<string>): string {
    Encode(version, mode, |ps|, ps)
  }

  /** With the parts line counting the partitions, the file validates and reads back
      every partition written, in order. */
  lemma {:induction false} CountedRoundTrip(version: string, mode: string, ps: seq<string>)
    requires PlainValue(version) && PlainValue(mode)
    ensures var file := EncodeCounted(version, mode, ps);
      && Validate(ReadLines(file, 4), file, version, mode) == Ok(())
      && ReadPartitions(file, ReadLines(file, 4), None) == Ok(ps)
  {
    ReadAllWritten(version, mode, |ps|, ps);
    assert ps[..|ps|] == ps;
    ValidateWritten(version, mode, |ps|, ps);
  }

  /** demo_rw.py: one PAFFFile writes the partitions, then validates the file and reads
      them back, its metadata still the lines loaded when it was opened. When the file it
      opened is the one a write of the same partitions with a counted parts line left, the
      write puts back the same text, and validate and read_partitions both succeed. */
  method DemoReadWrite(file: PaffFile, partitions: seq<string>) returns (valid: Result<()>, read: Result<seq<string>>)
    requires PlainValue(file.version) && PlainValue(file.mode)
    requires file.content == EncodeCounted(file.version, file.mode, partitions)
    requires file.metadata == Some(ReadLines(file.content, 4))
    modifies file
    ensures file.content == old(file.content) && file.metadata == old(file.metadata)
    ensures valid == Ok(())
    ensures read == Ok(partitions)
  {
    CountedRoundTrip(file.version, file.mode, partitions);
    EncodedLines(file.version, file.mode, |partitions|, partitions);
    WrittenMetadata(file.version, file.mode, |partitions|, partitions);
    var written := file.WritePartitions(partitions);
    valid := file.Validate();
    read := file.ReadPartitions();
  }
}
