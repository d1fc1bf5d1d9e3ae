/** validator.py: validate_ppaf, the reader and checker of the three-line format. */
module Validator {
  import opened Errors
  import opened Text
  import opened Decimal
  import opened TextFile
  import opened Utils
  import opened Tokens

  /** Partition `i` as validate_ppaf reads it: tokens 3i+1, 3i+2 and 3i+3 of the third line
      hold its offset, size and checksum; the offset counts from 1 after `start`, the length
      of the three stripped header lines plus three line feeds. */
  function PartitionAt(ts: seq<string>, start: int, file: string, i: nat): Result<string> {
    var offset :- IntAt(ts, 3 * i + 1);
    var size :- IntAt(ts, 3 * i + 2);
    var checksum :- TokenAt(ts, 3 * i + 3);
    var partition :- SeekRead(file, offset + start - 1, size);
    if Checksum(partition) == checksum then Ok(partition)
    else Err(AssertionError(ChecksumMismatch(i + 1)))
  }

  /** The attempts to read partitions 0, 1, ..., n-1, in index order. */
  function Attempts(ts: seq<string>, start: int, file: string, n: nat): (rs: seq<Result<string>>)
    ensures |rs| == n
  {
    seq(n, k requires 0 <= k < n => PartitionAt(ts, start, file, k))
  }

  /** The first three lines of the text, each stripped, as validate_ppaf reads them. */
  function HeaderLines(file: string): (string, string, string) {
    var (line1, rest1) := ReadLine(file);
    var (line2, rest2) := ReadLine(rest1);
    var (line3, _) := ReadLine(rest2);
    (Strip(line1), Strip(line2), Strip(line3))
  }

  /** data_starts_after: the three stripped lines with a line feed after each. */
  function DataStart(versionLine: string, modeLine: string, metadataLine: string): nat {
    |versionLine| + |modeLine| + |metadataLine| + 3
  }

  /** What validate_ppaf returns once it has read the stripped header lines: the version
      line and the mode line must equal the stripped formatter output, the first token of
      the third line is the partition count, and every partition's checksum must match. */
  function CheckedFrom(versionLine: string, modeLine: string, metadataLine: string, file: string,
                       version: string, mode: string): Result<seq<string>> {
    if versionLine != Strip(VersionStr(version)) then Err(AssertionError(NoMessage))
    else if modeLine != Strip(ModeStr(mode)) then Err(AssertionError(NoMessage))
    else
      var parts := Split(metadataLine);
      var nParts :- IntAt(parts, 0);
      Collect(Attempts(parts, DataStart(versionLine, modeLine, metadataLine), file, RangeCount(nParts)))
  }

  /** What validate_ppaf returns for a file's text. */
  function Validate(file: string, version: string, mode: string): Result<seq<string>> {
    var (versionLine, modeLine, metadataLine) := HeaderLines(file);
    CheckedFrom(versionLine, modeLine, metadataLine, file, version, mode)
  }

  /** A partition whose three tokens read, whose slice reads and whose checksum matches is
      read successfully. */
  lemma {:induction false} PartitionAtOk(ts: seq<string>, start: int, file: string, i: nat,
                      offset: int, size: int, partition: string)
    requires IntAt(ts, 3 * i + 1) == Ok(offset) && IntAt(ts, 3 * i + 2) == Ok(size)
    requires 3 * i + 3 < |ts| && ts[3 * i + 3] == Checksum(partition)
    requires SeekRead(file, offset + start - 1, size) == Ok(partition)
    ensures PartitionAt(ts, start, file, i) == Ok(partition)
  {
  }

  /** A triple written with str() and the checksum of a partition that sits at its offset
      reads back as that partition. */
  lemma {:induction false} PartitionAtTriple(ts: seq<string>, start: int, file: string, i: nat, offset: int, partition: string)
    requires 3 * i + 3 < |ts|
    requires ts[3 * i + 1] == IntToString(offset) && ts[3 * i + 2] == IntToString(|partition|)
    requires ts[3 * i + 3] == Checksum(partition)
    requires SeekRead(file, offset + start - 1, |partition|) == Ok(partition)
    ensures PartitionAt(ts, start, file, i) == Ok(partition)
  {
    IntAtString(ts, 3 * i + 1, offset);
    IntAtString(ts, 3 * i + 2, |partition|);
    PartitionAtOk(ts, start, file, i, offset, |partition|, partition);
  }

  /** Validate is CheckedFrom applied to the header lines. */
  lemma {:induction false} ValidateIs(file: string, version: string, mode: string, versionLine: string, modeLine: string, metadataLine: string)
    requires HeaderLines(file) == (versionLine, modeLine, metadataLine)
    ensures Validate(file, version, mode) == CheckedFrom(versionLine, modeLine, metadataLine, file, version, mode)
  {
  }

  /** Header lines that match, a count that reads, and a sweep that succeeds give the
      partitions of the sweep. */
  lemma {:induction false} CheckedFromOk(versionLine: string, modeLine: string, metadataLine: string, file: string,
                                         version: string, mode: string, n: nat, ps: seq<string>)
    requires versionLine == Strip(VersionStr(version)) && modeLine == Strip(ModeStr(mode))
    requires IntAt(Split(metadataLine), 0) == Ok(n)
    requires Collect(Attempts(Split(metadataLine), DataStart(versionLine, modeLine, metadataLine), file, n)) == Ok(ps)
    ensures CheckedFrom(versionLine, modeLine, metadataLine, file, version, mode) == Ok(ps)
  {
  }

  /** A partition fails only with the exception of one of its reads or with the checksum
      assertion naming partition i+1. */
  lemma {:induction false} PartitionAtFails(ts: seq<string>, start: int, file: string, i: nat)
    requires PartitionAt(ts, start, file, i).Err?
    ensures var e := PartitionAt(ts, start, file, i).error;
      ReadError(e) || e == AssertionError(ChecksumMismatch(i + 1))
  {
  }

  /** The sweep fails only with the exception of a read or with the checksum assertion of
      one of the partitions it reads, numbered from 1. */
  lemma {:induction false} SweepFails(ts: seq<string>, start: int, file: string, n: nat)
    requires Collect(Attempts(ts, start, file, n)).Err?
    ensures var e := Collect(Attempts(ts, start, file, n)).error;
      ReadError(e) || (e.AssertionError? && e.message.ChecksumMismatch? && 1 <= e.message.partition <= n)
  {
    var rs := Attempts(ts, start, file, n);
    CollectErr(rs);
    var k :| 0 <= k < |rs| && rs[k] == Err(Collect(rs).error) && forall j :: 0 <= j < k ==> rs[j].Ok?;
    assert rs[k] == PartitionAt(ts, start, file, k);
    PartitionAtFails(ts, start, file, k);
  }

  /** Once the header lines are read, the two bare header assertions are the only way to
      end with an assertion that carries no message: the count and the loop never raise it. */
  lemma {:induction false} CheckedFromHeaderFails(versionLine: string, modeLine: string, metadataLine: string,
                                                  file: string, version: string, mode: string)
    ensures CheckedFrom(versionLine, modeLine, metadataLine, file, version, mode) == Err(AssertionError(NoMessage))
      <==> versionLine != Strip(VersionStr(version)) || modeLine != Strip(ModeStr(mode))
  {
    if versionLine == Strip(VersionStr(version)) && modeLine == Strip(ModeStr(mode)) {
      var parts := Split(metadataLine);
      if IntAt(parts, 0).Ok? {
        var n := IntAt(parts, 0).value;
        var sweep := Collect(Attempts(parts, DataStart(versionLine, modeLine, metadataLine), file, RangeCount(n)));
        assert CheckedFrom(versionLine, modeLine, metadataLine, file, version, mode) == sweep;
        if sweep.Err? {
          SweepFails(parts, DataStart(versionLine, modeLine, metadataLine), file, RangeCount(n));
        }
      }
    }
  }

  /** validate_ppaf fails with one of its two bare header assertions exactly when the
      version line or the mode line it reads differs from the stripped formatter output. */
  lemma {:induction false} ValidateHeaderFails(file: string, version: string, mode: string)
    ensures var (versionLine, modeLine, _) := HeaderLines(file);
      Validate(file, version, mode) == Err(AssertionError(NoMessage))
      <==> versionLine != Strip(VersionStr(version)) || modeLine != Strip(ModeStr(mode))
  {
    var (versionLine, modeLine, metadataLine) := HeaderLines(file);
    ValidateIs(file, version, mode, versionLine, modeLine, metadataLine);
    CheckedFromHeaderFails(versionLine, modeLine, metadataLine, file, version, mode);
  }

  /** With the header matching, validate_ppaf fails with the exception of the first
      partition among those the count admits that fails. */
  lemma {:induction false} CheckedFromFirstFailure(versionLine: string, modeLine: string, metadataLine: string,
                                                   file: string, version: string, mode: string, n: int, i: nat)
    requires versionLine == Strip(VersionStr(version)) && modeLine == Strip(ModeStr(mode))
    requires IntAt(Split(metadataLine), 0) == Ok(n) && i < n
    requires forall j :: 0 <= j < i ==>
      PartitionAt(Split(metadataLine), DataStart(versionLine, modeLine, metadataLine), file, j).Ok?
    requires PartitionAt(Split(metadataLine), DataStart(versionLine, modeLine, metadataLine), file, i).Err?
    ensures CheckedFrom(versionLine, modeLine, metadataLine, file, version, mode)
         == Err(PartitionAt(Split(metadataLine), DataStart(versionLine, modeLine, metadataLine), file, i).error)
  {
    var parts := Split(metadataLine);
    var start := DataStart(versionLine, modeLine, metadataLine);
    var rs := Attempts(parts, start, file, RangeCount(n));
    assert forall j :: 0 <= j < i ==> rs[..i][j] == PartitionAt(parts, start, file, j);
    CollectOk(rs[..i]);
    assert rs[i] == PartitionAt(parts, start, file, i);
    CollectStops(rs, i);
  }

  /** One pass of validate_ppaf's loop: read partition i at its adjusted offset and check
      it against its checksum. The imperative body of PartitionAt. */
  method ReadCheckedPartition(metadataParts: seq<string>, dataStartsAfter: int, file: string, i: nat)
    returns (r: Result<string>)
    ensures r == PartitionAt(metadataParts, dataStartsAfter, file, i)
  {
    var offset :- IntAt(metadataParts, i * 3 + 1);
    offset := offset + dataStartsAfter - 1;
    var size :- IntAt(metadataParts, i * 3 + 2);
    var checksum :- TokenAt(metadataParts, i * 3 + 3);
    var partition :- SeekRead(file, offset, size);
    if Checksum(partition) != checksum {
      return Err(AssertionError(ChecksumMismatch(i + 1)));
    }
    return Ok(partition);
  }

  /** validate_ppaf's loop over the directory: partitions 0..nParts-1 (none when nParts is
      not positive) in index order; the first exception ends it. */
  method ReadCheckedPartitions(metadataParts: seq<string>, dataStartsAfter: int, file: string, nParts: int)
    returns (r: Result<seq<string>>)
    ensures r == Collect(Attempts(metadataParts, dataStartsAfter, file, RangeCount(nParts)))
  {
    ghost var attempts := Attempts(metadataParts, dataStartsAfter, file, RangeCount(nParts));
    var partitions: seq<string> := [];
    var i: nat := 0;
    while i < nParts
      invariant i <= |attempts|
      invariant Collect(attempts[..i]) == Ok(partitions)
      decreases nParts - i
    {
      CollectStops(attempts, i);
      var partition :- ReadCheckedPartition(metadataParts, dataStartsAfter, file, i);
      CollectNext(attempts, i);
      partitions := partitions + [partition];
      i := i + 1;
    }
    assert attempts[..i] == attempts;
    return Ok(partitions);
  }

  /** validate_ppaf after the three header lines are read: the two asserts, the count,
      then the loop. The imperative body of CheckedFrom. */
  method CheckPpaf(versionLine: string, modeLine: string, metadataLine: string, file: string,
                   version: string, mode: string) returns (r: Result<seq<string>>)
    ensures r == CheckedFrom(versionLine, modeLine, metadataLine, file, version, mode)
  {
    if versionLine != Strip(VersionStr(version)) {
      return Err(AssertionError(NoMessage));
    }
    if modeLine != Strip(ModeStr(mode)) {
      return Err(AssertionError(NoMessage));
    }
    var metadataParts := Split(metadataLine);
    var nParts :- IntAt(metadataParts, 0);
    var dataStartsAfter := DataStart(versionLine, modeLine, metadataLine);
    r := ReadCheckedPartitions(metadataParts, dataStartsAfter, file, nParts);
  }

  /** validate_ppaf on the text of `filename`. */
  method ValidatePpaf(file: string, version: string, mode: string) returns (r: Result<seq<string>>)
    ensures r == Validate(file, version, mode)
  {
    var (line1, rest1) := ReadLine(file);
    var (line2, rest2) := ReadLine(rest1);
    var (line3, _) := ReadLine(rest2);
    var versionLine, modeLine, metadataLine := Strip(line1), Strip(line2), Strip(line3);
    r := CheckPpaf(versionLine, modeLine, metadataLine, file, version, mode);
  }
}
