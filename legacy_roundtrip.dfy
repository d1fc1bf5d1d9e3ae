/** The three-line format end to end: validate_ppaf reads back what write_ppaf wrote. */
module LegacyRoundTrip {
  import opened Errors
  import opened Text
  import opened Decimal
  import opened TextFile
  import opened Utils
  import opened Layout
  import opened Tokens
  import opened Writer
  import opened Validator

  /** The three lines write_ppaf puts before the payload. */
  function WrittenHeader(ps: seq<string>, version: string, mode: string): string {
    VersionStr(version) + ModeStr(mode) + CountAndDirectory(ps) + "\n"
  }

  /** The tokens of the third line: the count, then the directory. */
  lemma {:induction false} CountAndDirectoryWords(ps: seq<string>)
    ensures forall k :: 0 <= k < |[IntToString(|ps|)] + DirectoryTokens(ps)| ==>
      IsWord(([IntToString(|ps|)] + DirectoryTokens(ps))[k])
  {
    IntToStringIsWord(|ps|);
    DirectoryTokensAreWords(ps);
  }

  /** The third line splits back into the count and the directory tokens, holds no line
      feed, and strips (with its line feed) back to itself. */
  lemma {:induction false} CountAndDirectoryLine(ps: seq<string>)
    ensures Split(CountAndDirectory(ps)) == [IntToString(|ps|)] + DirectoryTokens(ps)
    ensures '\n' !in CountAndDirectory(ps)
    ensures Strip(CountAndDirectory(ps) + "\n") == CountAndDirectory(ps)
  {
    var ts := [IntToString(|ps|)] + DirectoryTokens(ps);
    CountAndDirectoryWords(ps);
    SplitJoin(ts);
    JoinShape(ts);
    JoinNoNewline(ts);
    StripLine(CountAndDirectory(ps), '\n');
  }

  /** Three lines without line feeds read back, stripped, as the header. */
  lemma {:induction false} HeaderLinesOf(a: string, b: string, c: string, data: string)
    requires '\n' !in a && '\n' !in b && '\n' !in c
    ensures HeaderLines(a + "\n" + b + "\n" + c + "\n" + data) == (Strip(a + "\n"), Strip(b + "\n"), Strip(c + "\n"))
  {
    var rest2 := c + "\n" + data;
    var rest1 := b + "\n" + rest2;
    assert a + "\n" + b + "\n" + c + "\n" + data == a + "\n" + rest1;
    ReadLineOf(a, rest1);
    ReadLineOf(b, rest2);
    ReadLineOf(c, data);
  }

  /** validate_ppaf reads the three header lines write_ppaf wrote, stripped. */
  lemma {:induction false} WrittenHeaderLines(ps: seq<string>, version: string, mode: string)
    requires PlainValue(version) && PlainValue(mode)
    ensures HeaderLines(Written(ps, version, mode)) == ("PAFF " + version, "mode: " + mode, CountAndDirectory(ps))
  {
    var line1, line2, line3 := "PAFF " + version, "mode: " + mode, CountAndDirectory(ps);
    CountAndDirectoryLine(ps);
    assert Written(ps, version, mode) == line1 + "\n" + line2 + "\n" + line3 + "\n" + Concat(ps);
    HeaderLinesOf(line1, line2, line3, Concat(ps));
    StripVersionStr(version);
    StripModeStr(mode);
  }

  /** Every attempt validate_ppaf makes on the written directory succeeds with the partition
      that was written. */
  lemma {:induction false} WrittenPartition(ps: seq<string>, header: string, k: nat)
    requires k < |ps|
    ensures PartitionAt([IntToString(|ps|)] + DirectoryTokens(ps), |header|, header + Concat(ps), k) == Ok(ps[k])
  {
    var ts := [IntToString(|ps|)] + DirectoryTokens(ps);
    DirectoryTokensAt(ps, k);
    assert ts[3 * k + 1] == IntToString(Offset(ps, k));
    assert ts[3 * k + 2] == IntToString(|ps[k]|);
    assert ts[3 * k + 3] == Checksum(ps[k]);
    PartitionSlice(ps, header, k, Offset(ps, k) + |header| - 1);
    PartitionAtTriple(ts, |header|, header + Concat(ps), k, Offset(ps, k), ps[k]);
  }

  /** The sweep over the written directory returns the written partitions. */
  lemma {:induction false} WrittenSweep(ps: seq<string>, header: string)
    ensures Collect(Attempts([IntToString(|ps|)] + DirectoryTokens(ps), |header|, header + Concat(ps), |ps|)) == Ok(ps)
  {
    var rs := Attempts([IntToString(|ps|)] + DirectoryTokens(ps), |header|, header + Concat(ps), |ps|);
    forall k | 0 <= k < |ps|
      ensures rs[k] == Ok(ps[k])
    {
      WrittenPartition(ps, header, k);
    }
    CollectAll(rs, ps);
  }

  /** validate_ppaf returns the partitions laid out after a header whose lines, as it reads
      them, carry the version, the mode, and the count with the directory. */
  lemma {:induction false} ValidateLaidOut(file: string, version: string, mode: string, versionLine: string,
                                           modeLine: string, metadataLine: string, header: string, ps: seq<string>)
    requires HeaderLines(file) == (versionLine, modeLine, metadataLine)
    requires versionLine == Strip(VersionStr(version)) && modeLine == Strip(ModeStr(mode))
    requires Split(metadataLine) == [IntToString(|ps|)] + DirectoryTokens(ps)
    requires DataStart(versionLine, modeLine, metadataLine) == |header| && file == header + Concat(ps)
    ensures Validate(file, version, mode) == Ok(ps)
  {
    WrittenSweep(ps, header);
    IntAtString(Split(metadataLine), 0, |ps|);
    CheckedFromOk(versionLine, modeLine, metadataLine, file, version, mode, |ps|, ps);
    ValidateIs(file, version, mode, versionLine, modeLine, metadataLine);
  }

  /** demo.py's claim: validating what write_ppaf wrote gives back the partitions, for any
      partitions and any version and mode without a line feed or trailing whitespace. */
  lemma {:induction false} ValidateWritten(ps: seq<string>, version: string, mode: string)
    requires PlainValue(version) && PlainValue(mode)
    ensures Validate(Written(ps, version, mode), version, mode) == Ok(ps)
  {
    var header := WrittenHeader(ps, version, mode);
    assert Written(ps, version, mode) == header + Concat(ps);
    WrittenHeaderLines(ps, version, mode);
    CountAndDirectoryLine(ps);
    StripVersionStr(version);
    StripModeStr(mode);
    ValidateLaidOut(Written(ps, version, mode), version, mode, "PAFF " + version, "mode: " + mode,
                    CountAndDirectory(ps), header, ps);
  }
}
