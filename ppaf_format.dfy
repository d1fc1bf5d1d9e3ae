/** ppaf.py: the four-line format of PAFFFile, as functions of the loaded metadata lines and
    of the file's text, and the two loops of the class (the writer and the validator)
      PAFF <version>\n  mode <mode>\n  parts <count>\n  <offset> <size> <checksum> ...\n  <payload> */
module PpafFormat {
  import opened Errors
  import opened Text
  import opened Decimal
  import opened TextFile
  import opened Utils
  import opened Layout
  import opened Tokens

  /** PAFFFile.DEFAULT_VERSION and PAFFFile.DEFAULT_MODE */
  const DefaultVersion: string := "1.0"
  const DefaultMode: string := "1"

  /** get_version_line */
  function VersionLine(version: string): string {
    "PAFF " + version + "\n"
  }

  /** get_mode_line: unlike the three-line format, no colon after "mode". */
  function ModeLine(mode: string): string {
    "mode " + mode + "\n"
  }

  /** get_partition_count_line, given the partition count. */
  function PartsLine(count: int): string {
    "parts " + IntToString(count) + "\n"
  }

  /** `not self._metadata`: nothing loaded yet (None), or an empty list. */
  predicate Unloaded(metadata: Option<seq<string>>) {
    metadata.None? || metadata.value == []
  }

  /** sum(map(len, lines)) */
  function SumLengths(lines: seq<string>): (n: nat)
    ensures lines == [] ==> n == 0
  {
    if lines == [] then 0 else SumLengths(lines[..|lines| - 1]) + |lines[|lines| - 1]|
  }

  /** sum(map(len, ...)) over four lines is the sum of their lengths. */
  lemma {:induction false} SumLengthsFour(a: string, b: string, c: string, d: string)
    ensures SumLengths([a, b, c, d]) == DataStartsAfter(a, b, c, d)
  {
    assert SumLengths([a]) == |a| by {
      assert [a][..0] == [];
    }
    assert SumLengths([a, b]) == |a| + |b| by {
      assert [a, b][..1] == [a];
    }
    assert SumLengths([a, b, c]) == |a| + |b| + |c| by {
      assert [a, b, c][..2] == [a, b];
    }
    assert [a, b, c, d][..3] == [a, b, c];
  }

  /** data_starts_after: the length of the four metadata lines, line feeds included. */
  function DataStartsAfter(versionLine: string, modeLine: string, partsLine: string, metadataLine: string): nat {
    |versionLine| + |modeLine| + |partsLine| + |metadataLine|
  }

  /** The property partition_count: 0 with nothing loaded, otherwise int() of the second token
      of the third line (an IndexError when either is missing). */
  function PartitionCount(metadata: Option<seq<string>>): (r: Result<int>)
    ensures Unloaded(metadata) ==> r == Ok(0)
    ensures !Unloaded(metadata) && |metadata.value| < 3 ==> r == Err(IndexError)
    ensures !Unloaded(metadata) && |metadata.value| >= 3 ==> r == IntAt(Split(Strip(metadata.value[2])), 1)
  {
    if Unloaded(metadata) then Ok(0)
    else
      var partsLine :- TokenAt(metadata.value, 2);
      IntAt(Split(Strip(partsLine)), 1)
  }

  /** The directory tokens of the fourth line: `self._metadata[3].strip().split()`. */
  function DirectoryOf(metadata: seq<string>): Result<seq<string>> {
    var metadataLine :- TokenAt(metadata, 3);
    Ok(Split(Strip(metadataLine)))
  }

  /** One entry of offsets_map: `int(parts[3i]): (int(parts[3i+1]), parts[3i+2])`, the key
      evaluated before the value. */
  function EntryAt(parts: seq<string>, i: nat): Result<(int, (int, string))> {
    var offset :- IntAt(parts, 3 * i);
    var size :- IntAt(parts, 3 * i + 1);
    var checksum :- TokenAt(parts, 3 * i + 2);
    Ok((offset, (size, checksum)))
  }

  /** The entries of triples 0, 1, ..., n-1, in index order. */
  function Entries(parts: seq<string>, n: nat): (rs: seq<Result<(int, (int, string))>>)
    ensures |rs| == n
  {
    seq(n, i requires 0 <= i < n => EntryAt(parts, i))
  }

  /** A dict built from key/value pairs in order: a later pair replaces an earlier one with
      the same key. */
  function ToMap<K, V>(es: seq<(K, V)>): map<K, V> {
    if es == [] then map[] else ToMap(es[..|es| - 1])[es[|es| - 1].0 := es[|es| - 1].1]
  }

  /** The keys of the dict are exactly the keys of the pairs, and each key maps to the value
      of the last pair that has it. */
  lemma {:induction false} ToMapSpec<K, V>(es: seq<(K, V)>)
    ensures forall i :: 0 <= i < |es| ==> es[i].0 in ToMap(es)
    ensures forall k :: k in ToMap(es) ==> exists i :: 0 <= i < |es| && es[i].0 == k
    ensures forall i :: 0 <= i < |es| && (forall j :: i < j < |es| ==> es[j].0 != es[i].0) ==>
      ToMap(es)[es[i].0] == es[i].1
  {
    if es != [] {
      var init := es[..|es| - 1];
      ToMapSpec(init);
      assert forall i :: 0 <= i < |init| ==> init[i] == es[i];
    }
  }

  /** The property offsets_map: {} with nothing loaded; otherwise the entries of the
      first partition_count triples of the fourth line (none for a negative count). */
  function OffsetsMap(metadata: Option<seq<string>>): (r: Result<map<int, (int, string)>>)
    ensures Unloaded(metadata) ==> r == Ok(map[])
  {
    if Unloaded(metadata) then Ok(map[])
    else
      var parts :- DirectoryOf(metadata.value);
      var count :- PartitionCount(metadata);
      var entries :- Collect(Entries(parts, RangeCount(count)));
      Ok(ToMap(entries))
  }

  /** Attempts at key/value pairs made in order succeed exactly when each does, and then
      the dict of their pairs has every key of an attempt, no other key, and for each key the
      value of the last attempt with that key. */
  lemma {:induction false} CollectToMap<K, V>(rs: seq<Result<(K, V)>>)
    ensures Collect(rs).Ok? <==> forall i :: 0 <= i < |rs| ==> rs[i].Ok?
    ensures Collect(rs).Ok? ==>
      var m := ToMap(Collect(rs).value);
      && (forall i :: 0 <= i < |rs| ==> rs[i].value.0 in m)
      && (forall k :: k in m ==> exists i :: 0 <= i < |rs| && rs[i].value.0 == k)
      && (forall i :: 0 <= i < |rs| && (forall j :: i < j < |rs| ==> rs[j].value.0 != rs[i].value.0) ==>
            m[rs[i].value.0] == rs[i].value.1)
  {
    CollectOk(rs);
    if Collect(rs).Ok? {
      var es := Collect(rs).value;
      ToMapSpec(es);
      assert forall i :: 0 <= i < |rs| ==> rs[i].value == es[i];
    }
  }

  /** offsets_map with metadata loaded and a count n that reads is the dict of the entries
      of range(n) (none for a negative n), or the exception of the first that fails. */
  lemma {:induction false} OffsetsMapIs(metadata: seq<string>, parts: seq<string>, n: int)
    requires metadata != []
    requires DirectoryOf(metadata) == Ok(parts)
    requires PartitionCount(Some(metadata)) == Ok(n)
    ensures var c := Collect(Entries(parts, RangeCount(n)));
      OffsetsMap(Some(metadata)) == if c.Ok? then Ok(ToMap(c.value)) else Err(c.error)
  {
  }

  /** offsets_map with metadata loaded: a map exactly when every triple of range(n) reads,
      holding the offset of each of them as a key, no other key, and for each key the size
      and checksum of the last triple with that offset; a negative count gives {}. */
  lemma {:induction false} OffsetsMapSpec(metadata: seq<string>, parts: seq<string>, n: int)
    requires metadata != []
    requires DirectoryOf(metadata) == Ok(parts)
    requires PartitionCount(Some(metadata)) == Ok(n)
    ensures n < 0 ==> OffsetsMap(Some(metadata)) == Ok(map[])
    ensures var count := RangeCount(n);
      var entries := Entries(parts, count);
      && (OffsetsMap(Some(metadata)).Ok? <==> forall i :: 0 <= i < count ==> entries[i].Ok?)
      && (OffsetsMap(Some(metadata)).Ok? ==>
            var m := OffsetsMap(Some(metadata)).value;
            && (forall i :: 0 <= i < count ==> entries[i].value.0 in m)
            && (forall k :: k in m ==> exists i :: 0 <= i < count && entries[i].value.0 == k)
            && (forall i :: 0 <= i < count && (forall j :: i < j < count ==> entries[j].value.0 != entries[i].value.0) ==>
                  m[entries[i].value.0] == entries[i].value.1))
  {
    OffsetsMapIs(metadata, parts, n);
    CollectToMap(Entries(parts, RangeCount(n)));
    if n < 0 {
      assert Entries(parts, RangeCount(n)) == [];
    }
  }

  /** With metadata loaded, a count that does not read makes offsets_map fail the same way. */
  lemma {:induction false} OffsetsMapCountFails(metadata: seq<string>)
    requires metadata != [] && DirectoryOf(metadata).Ok?
    requires PartitionCount(Some(metadata)).Err?
    ensures OffsetsMap(Some(metadata)) == Err(PartitionCount(Some(metadata)).error)
  {
  }

  /** data_start_offset + offset: the length of the metadata lines, minus 1, plus the
      offset. */
  function SeekTarget(metadata: seq<string>, offset: int): int {
    SumLengths(metadata) - 1 + offset
  }

  /** read_partition_async with metadata loaded: the index must lie in 0..partition_count-1
      (the count is read first, so its own exception comes first); tokens 3i and 3i+1 of the
      fourth line give the offset and size, and the read starts at the length of the four
      lines, minus 1, plus the offset. */
  function ReadPartition(file: string, metadata: seq<string>, index: int): Result<string> {
    var count :- PartitionCount(Some(metadata));
    if index >= count || index < 0 then Err(ValueError(IndexOutOfRange))
    else
      var parts :- DirectoryOf(metadata);
      var offset :- IntAt(parts, 3 * index);
      var size :- IntAt(parts, 3 * index + 1);
      SeekRead(file, SeekTarget(metadata, offset), size)
  }

  /** read_partition refuses exactly the indices outside 0..partition_count-1. */
  lemma {:induction false} ReadPartitionRange(file: string, metadata: seq<string>, index: int, count: int)
    requires PartitionCount(Some(metadata)) == Ok(count)
    ensures ReadPartition(file, metadata, index) == Err(ValueError(IndexOutOfRange)) <==> index < 0 || index >= count
  {
    if 0 <= index < count {
      var r := ReadPartition(file, metadata, index);
      assert r.Err? ==> r.error != ValueError(IndexOutOfRange) by {
        var parts := DirectoryOf(metadata);
        if parts.Ok? {
          var offset := IntAt(parts.value, 3 * index);
          if offset.Ok? && IntAt(parts.value, 3 * index + 1).Ok? {
            assert r == SeekRead(file, SeekTarget(metadata, offset.value), IntAt(parts.value, 3 * index + 1).value);
          }
        }
      }
    }
  }

  /** The partition read_partition returns: `size` characters from its position, fewer when
      the file ends first. */
  lemma {:induction false} ReadPartitionSlice(file: string, metadata: seq<string>, index: int,
                                              parts: seq<string>, offset: int, size: int)
    requires PartitionCount(Some(metadata)).Ok? && 0 <= index < PartitionCount(Some(metadata)).value
    requires DirectoryOf(metadata) == Ok(parts)
    requires IntAt(parts, 3 * index) == Ok(offset) && IntAt(parts, 3 * index + 1) == Ok(size)
    requires 0 <= SumLengths(metadata) - 1 + offset <= |file| && 0 <= size
    ensures ReadPartition(file, metadata, index).Ok?
    ensures var p := ReadPartition(file, metadata, index).value;
      && |p| == (if SumLengths(metadata) - 1 + offset + size <= |file| then size else |file| - (SumLengths(metadata) - 1 + offset))
      && p == file[SumLengths(metadata) - 1 + offset..SumLengths(metadata) - 1 + offset + |p|]
  {
  }

  /** A partition whose count, tokens and slice read is read successfully. */
  lemma {:induction false} ReadPartitionOk(file: string, metadata: seq<string>, index: nat, count: int,
                                           parts: seq<string>, offset: int, size: int, partition: string)
    requires PartitionCount(Some(metadata)) == Ok(count) && index < count
    requires DirectoryOf(metadata) == Ok(parts)
    requires IntAt(parts, 3 * index) == Ok(offset) && IntAt(parts, 3 * index + 1) == Ok(size)
    requires SeekRead(file, SeekTarget(metadata, offset), size) == Ok(partition)
    ensures ReadPartition(file, metadata, index) == Ok(partition)
  {
  }

  /** A partition whose offset token is missing or malformed fails with that token's
      exception. */
  lemma {:induction false} ReadPartitionNoOffset(file: string, metadata: seq<string>, index: nat, count: int,
                                                 parts: seq<string>)
    requires PartitionCount(Some(metadata)) == Ok(count) && index < count
    requires DirectoryOf(metadata) == Ok(parts) && IntAt(parts, 3 * index).Err?
    ensures ReadPartition(file, metadata, index) == Err(IntAt(parts, 3 * index).error)
  {
  }

  /** range(n) */
  function Range(n: int): (r: seq<int>)
    ensures |r| == RangeCount(n)
    ensures forall k :: 0 <= k < |r| ==> r[k] == k
  {
    seq(RangeCount(n), k requires 0 <= k => k)
  }

  /** The reads asyncio.gather runs, one per requested index, in the order requested. */
  function Reads(file: string, metadata: seq<string>, indices: seq<int>): (rs: seq<Result<string>>)
    ensures |rs| == |indices|
  {
    seq(|indices|, k requires 0 <= k < |indices| => ReadPartition(file, metadata, indices[k]))
  }

  /** read_partitions_async with metadata loaded: the indices asked for, or all of
      range(partition_count) when none are given. */
  function ReadPartitions(file: string, metadata: seq<string>, indices: Option<seq<int>>): Result<seq<string>> {
    if indices.Some? then Collect(Reads(file, metadata, indices.value))
    else
      var count :- PartitionCount(Some(metadata));
      Collect(Reads(file, metadata, Range(count)))
  }

  /** read_partitions returns one partition per requested index, the one read_partition
      returns for it, in the order requested; or the exception of the first read that
      fails. */
  lemma {:induction false} ReadPartitionsSpec(file: string, metadata: seq<string>, indices: seq<int>)
    ensures var r := ReadPartitions(file, metadata, Some(indices));
      var attempts := Reads(file, metadata, indices);
      && (r.Ok? <==> forall k :: 0 <= k < |indices| ==> attempts[k].Ok?)
      && (r.Ok? ==> |r.value| == |indices| && forall k :: 0 <= k < |indices| ==> attempts[k] == Ok(r.value[k]))
      && (r.Err? ==> exists k :: 0 <= k < |indices| && attempts[k] == Err(r.error) && forall j :: 0 <= j < k ==> attempts[j].Ok?)
  {
    CollectSpec(Reads(file, metadata, indices));
  }

  /** With no indices given, read_partitions reads partitions 0..partition_count-1. */
  lemma {:induction false} ReadPartitionsDefault(file: string, metadata: seq<string>, count: int)
    requires PartitionCount(Some(metadata)) == Ok(count)
    ensures ReadPartitions(file, metadata, None) == ReadPartitions(file, metadata, Some(Range(count)))
  {
  }

  /** One pass of validate_async's loop: tokens 3i, 3i+1 and 3i+2 of the fourth line give the
      offset, size and checksum; the read starts at the length of the four lines plus the
      offset minus 1, and the checksum must match, or the assertion names partition i+1. */
  function CheckAt(parts: seq<string>, dataStartsAfter: int, file: string, i: nat): Result<string> {
    var offset :- IntAt(parts, 3 * i);
    var size :- IntAt(parts, 3 * i + 1);
    var checksum :- TokenAt(parts, 3 * i + 2);
    var partition :- SeekRead(file, dataStartsAfter + offset - 1, size);
    if Checksum(partition) == checksum then Ok(partition)
    else Err(AssertionError(ChecksumMismatch(i + 1)))
  }

  /** A check whose tokens read, whose slice reads and whose checksum matches passes with
      that slice. */
  lemma {:induction false} CheckAtOk(parts: seq<string>, dataStartsAfter: int, file: string, i: nat,
                                     offset: int, size: int, partition: string)
    requires IntAt(parts, 3 * i) == Ok(offset) && IntAt(parts, 3 * i + 1) == Ok(size)
    requires TokenAt(parts, 3 * i + 2) == Ok(Checksum(partition))
    requires SeekRead(file, dataStartsAfter + offset - 1, size) == Ok(partition)
    ensures CheckAt(parts, dataStartsAfter, file, i) == Ok(partition)
  {
  }

  /** A check that passes read its offset and size, read its slice at the offset plus the
      start minus 1, and found the slice's checksum in the third token. */
  lemma {:induction false} CheckAtReads(parts: seq<string>, dataStartsAfter: int, file: string, i: nat)
    requires CheckAt(parts, dataStartsAfter, file, i).Ok?
    ensures IntAt(parts, 3 * i).Ok? && IntAt(parts, 3 * i + 1).Ok?
    ensures var partition := CheckAt(parts, dataStartsAfter, file, i).value;
      && TokenAt(parts, 3 * i + 2) == Ok(Checksum(partition))
      && SeekRead(file, dataStartsAfter + IntAt(parts, 3 * i).value - 1, IntAt(parts, 3 * i + 1).value) == Ok(partition)
  {
  }

  /** A check fails with the exception of one of its reads, or with the checksum assertion
      naming partition i+1. */
  lemma {:induction false} CheckAtFails(parts: seq<string>, dataStartsAfter: int, file: string, i: nat)
    requires CheckAt(parts, dataStartsAfter, file, i).Err?
    ensures var e := CheckAt(parts, dataStartsAfter, file, i).error;
      ReadError(e) || e == AssertionError(ChecksumMismatch(i + 1))
  {
  }

  /** The checks of partitions 0, 1, ..., n-1, in index order. */
  function Checks(parts: seq<string>, dataStartsAfter: int, file: string, n: nat): (rs: seq<Result<string>>)
    ensures |rs| == n
  {
    seq(n, i requires 0 <= i < n => CheckAt(parts, dataStartsAfter, file, i))
  }

  /** The loop of validate_async: nothing when every check passes, else the first exception. */
  function AllChecked(parts: seq<string>, dataStartsAfter: int, file: string, n: nat): Result<()> {
    var _ :- Collect(Checks(parts, dataStartsAfter, file, n));
    Ok(())
  }

  /** validate_async after the header asserts: the count taken from the parts line (and
      compared with partition_count), then the loop over the fourth line's triples, reading
      from the file at the total length of the four lines. */
  function CountedChecks(versionLine: string, modeLine: string, partsLine: string, metadataLine: string,
                         file: string): Result<()> {
    var nParts :- IntAt(Split(Strip(partsLine)), 1);
    var count :- PartitionCount(Some([versionLine, modeLine, partsLine, metadataLine]));
    if nParts != count then Err(AssertionError(PartitionCountMismatch))
    else
      AllChecked(Split(Strip(metadataLine)), DataStartsAfter(versionLine, modeLine, partsLine, metadataLine), file,
                 RangeCount(nParts))
  }

  /** validate_async once the four lines are unpacked: the three header asserts, then the
      count and the loop. */
  function ValidateLines(versionLine: string, modeLine: string, partsLine: string, metadataLine: string,
                         file: string, version: string, mode: string): Result<()> {
    if Strip(versionLine) != "PAFF " + version then Err(AssertionError(VersionMismatch))
    else if Strip(modeLine) != "mode " + mode then Err(AssertionError(ModeMismatch))
    else if !StartsWith(Strip(partsLine), "parts") then Err(AssertionError(PartsLineFormatError))
    else CountedChecks(versionLine, modeLine, partsLine, metadataLine, file)
  }

  /** With the three header lines accepted, validate is the count and the loop. */
  lemma {:induction false} ValidateLinesIs(versionLine: string, modeLine: string, partsLine: string, metadataLine: string,
                                           file: string, version: string, mode: string)
    requires Strip(versionLine) == "PAFF " + version && Strip(modeLine) == "mode " + mode
    requires StartsWith(Strip(partsLine), "parts")
    ensures ValidateLines(versionLine, modeLine, partsLine, metadataLine, file, version, mode)
         == CountedChecks(versionLine, modeLine, partsLine, metadataLine, file)
  {
  }

  /** validate_async with metadata loaded: unpacking needs exactly four lines. */
  function Validate(metadata: seq<string>, file: string, version: string, mode: string): Result<()> {
    if |metadata| < 4 then Err(ValueError(NotEnoughToUnpack(|metadata|)))
    else if |metadata| > 4 then Err(ValueError(TooManyToUnpack))
    else ValidateLines(metadata[0], metadata[1], metadata[2], metadata[3], file, version, mode)
  }

  /** validate on four lines unpacks them in order. */
  lemma {:induction false} ValidateFour(versionLine: string, modeLine: string, partsLine: string, metadataLine: string,
                                        file: string, version: string, mode: string)
    ensures Validate([versionLine, modeLine, partsLine, metadataLine], file, version, mode)
         == ValidateLines(versionLine, modeLine, partsLine, metadataLine, file, version, mode)
  {
  }

  /** The count comparison of validate_async always holds: partition_count reads the same
      token of the same line. */
  lemma {:induction false} CountCheckHolds(versionLine: string, modeLine: string, partsLine: string, metadataLine: string)
    ensures PartitionCount(Some([versionLine, modeLine, partsLine, metadataLine])) == IntAt(Split(Strip(partsLine)), 1)
  {
  }

  /** ... so validate never fails with "Partition count mismatch". */
  lemma {:induction false} NoCountMismatch(metadata: seq<string>, file: string, version: string, mode: string)
    ensures Validate(metadata, file, version, mode) != Err(AssertionError(PartitionCountMismatch))
  {
    if |metadata| == 4 && CountedChecks(metadata[0], metadata[1], metadata[2], metadata[3], file).Err? {
      CountedChecksFails(metadata[0], metadata[1], metadata[2], metadata[3], file);
    }
  }

  /** The count and the loop fail only with the exception of a read or with a checksum
      assertion. */
  lemma {:induction false} CountedChecksFails(versionLine: string, modeLine: string, partsLine: string, metadataLine: string,
                                              file: string)
    requires CountedChecks(versionLine, modeLine, partsLine, metadataLine, file).Err?
    ensures var e := CountedChecks(versionLine, modeLine, partsLine, metadataLine, file).error;
      ReadError(e) || (e.AssertionError? && e.message.ChecksumMismatch?)
  {
    CountCheckHolds(versionLine, modeLine, partsLine, metadataLine);
    if IntAt(Split(Strip(partsLine)), 1).Ok? {
      var n := IntAt(Split(Strip(partsLine)), 1).value;
      CountedChecksIs(versionLine, modeLine, partsLine, metadataLine, file, n);
      AllCheckedFails(Split(Strip(metadataLine)), DataStartsAfter(versionLine, modeLine, partsLine, metadataLine), file,
                      RangeCount(n));
    }
  }

  /** With the count read, the rest of validate is its loop. */
  lemma {:induction false} CountedChecksIs(versionLine: string, modeLine: string, partsLine: string, metadataLine: string,
                                           file: string, n: int)
    requires IntAt(Split(Strip(partsLine)), 1) == Ok(n)
    requires PartitionCount(Some([versionLine, modeLine, partsLine, metadataLine])) == Ok(n)
    ensures CountedChecks(versionLine, modeLine, partsLine, metadataLine, file)
         == AllChecked(Split(Strip(metadataLine)), DataStartsAfter(versionLine, modeLine, partsLine, metadataLine), file,
                       RangeCount(n))
  {
  }

  /** The loop fails only with the exception of a read or with the checksum assertion of one
      of the partitions it checks, numbered from 1. */
  lemma {:induction false} AllCheckedFails(parts: seq<string>, dataStartsAfter: int, file: string, n: nat)
    requires AllChecked(parts, dataStartsAfter, file, n).Err?
    ensures var e := AllChecked(parts, dataStartsAfter, file, n).error;
      ReadError(e) || (e.AssertionError? && e.message.ChecksumMismatch? && 1 <= e.message.partition <= n)
  {
    var rs := Checks(parts, dataStartsAfter, file, n);
    CollectErr(rs);
    var k :| 0 <= k < |rs| && rs[k] == Err(Collect(rs).error) && forall j :: 0 <= j < k ==> rs[j].Ok?;
    assert rs[k] == CheckAt(parts, dataStartsAfter, file, k);
    CheckAtFails(parts, dataStartsAfter, file, k);
  }

  /** The loop stops at the first check that fails, with that check's exception. */
  lemma {:induction false} AllCheckedFirstFailure(parts: seq<string>, dataStartsAfter: int, file: string, n: nat, i: nat)
    requires i < n
    requires forall j :: 0 <= j < i ==> CheckAt(parts, dataStartsAfter, file, j).Ok?
    requires CheckAt(parts, dataStartsAfter, file, i).Err?
    ensures AllChecked(parts, dataStartsAfter, file, n) == Err(CheckAt(parts, dataStartsAfter, file, i).error)
  {
    var rs := Checks(parts, dataStartsAfter, file, n);
    assert forall j :: 0 <= j < i ==> rs[..i][j] == CheckAt(parts, dataStartsAfter, file, j);
    CollectOk(rs[..i]);
    assert rs[i] == CheckAt(parts, dataStartsAfter, file, i);
    CollectStops(rs, i);
  }

  /** validate fails with one of the three header assertions exactly when the header is
      wrong: the count and the loop never raise them. */
  lemma {:induction false} ValidateHeaderFails(versionLine: string, modeLine: string, partsLine: string, metadataLine: string,
                                               file: string, version: string, mode: string)
    ensures var r := Validate([versionLine, modeLine, partsLine, metadataLine], file, version, mode);
      (r == Err(AssertionError(VersionMismatch)) || r == Err(AssertionError(ModeMismatch))
       || r == Err(AssertionError(PartsLineFormatError)))
      <==> !(Strip(versionLine) == "PAFF " + version && Strip(modeLine) == "mode " + mode
             && StartsWith(Strip(partsLine), "parts"))
  {
    ValidateFour(versionLine, modeLine, partsLine, metadataLine, file, version, mode);
    if Strip(versionLine) == "PAFF " + version && Strip(modeLine) == "mode " + mode
       && StartsWith(Strip(partsLine), "parts") {
      ValidateLinesIs(versionLine, modeLine, partsLine, metadataLine, file, version, mode);
      if CountedChecks(versionLine, modeLine, partsLine, metadataLine, file).Err? {
        CountedChecksFails(versionLine, modeLine, partsLine, metadataLine, file);
      }
    }
  }

  /** With the header right, validate fails with the exception of the first check that
      fails among those its count admits. */
  lemma {:induction false} ValidateFirstFailure(versionLine: string, modeLine: string, partsLine: string, metadataLine: string,
                                                file: string, version: string, mode: string, n: int, i: nat)
    requires Strip(versionLine) == "PAFF " + version && Strip(modeLine) == "mode " + mode
    requires StartsWith(Strip(partsLine), "parts") && IntAt(Split(Strip(partsLine)), 1) == Ok(n)
    requires i < n
    requires var start := DataStartsAfter(versionLine, modeLine, partsLine, metadataLine);
      && (forall j :: 0 <= j < i ==> CheckAt(Split(Strip(metadataLine)), start, file, j).Ok?)
      && CheckAt(Split(Strip(metadataLine)), start, file, i).Err?
    ensures Validate([versionLine, modeLine, partsLine, metadataLine], file, version, mode)
         == Err(CheckAt(Split(Strip(metadataLine)), DataStartsAfter(versionLine, modeLine, partsLine, metadataLine), file, i).error)
  {
    var parts := Split(Strip(metadataLine));
    var start := DataStartsAfter(versionLine, modeLine, partsLine, metadataLine);
    assert CountedChecks(versionLine, modeLine, partsLine, metadataLine, file) == AllChecked(parts, start, file, n) by {
      CountCheckHolds(versionLine, modeLine, partsLine, metadataLine);
      CountedChecksIs(versionLine, modeLine, partsLine, metadataLine, file, n);
    }
    AllCheckedFirstFailure(parts, start, file, n, i);
    ValidateLinesIs(versionLine, modeLine, partsLine, metadataLine, file, version, mode);
    ValidateFour(versionLine, modeLine, partsLine, metadataLine, file, version, mode);
  }

  /** The count and the loop pass only when the count reads and the loop passes over the
      partitions it admits. */
  lemma {:induction false} CountedPassesChecks(versionLine: string, modeLine: string, partsLine: string, metadataLine: string,
                                               file: string)
    requires CountedChecks(versionLine, modeLine, partsLine, metadataLine, file) == Ok(())
    ensures IntAt(Split(Strip(partsLine)), 1).Ok?
    ensures var n := IntAt(Split(Strip(partsLine)), 1).value;
      AllChecked(Split(Strip(metadataLine)), DataStartsAfter(versionLine, modeLine, partsLine, metadataLine), file,
                 RangeCount(n)) == Ok(())
  {
    CountCheckHolds(versionLine, modeLine, partsLine, metadataLine);
  }

  /** validate passes only on four lines whose count reads and whose loop passes over the
      partitions that count admits, reading from the file at the length of the four lines. */
  lemma {:induction false} ValidatePassesChecks(metadata: seq<string>, file: string, version: string, mode: string)
    requires Validate(metadata, file, version, mode) == Ok(())
    ensures |metadata| == 4 && PartitionCount(Some(metadata)).Ok?
    ensures var n := PartitionCount(Some(metadata)).value;
      AllChecked(Split(Strip(metadata[3])), SumLengths(metadata), file, RangeCount(n)) == Ok(())
  {
    var a, b, c, d := metadata[0], metadata[1], metadata[2], metadata[3];
    assert metadata == [a, b, c, d];
    assert CountedChecks(a, b, c, d, file) == Ok(()) by {
      ValidateFour(a, b, c, d, file, version, mode);
    }
    CountedPassesChecks(a, b, c, d, file);
    var n := IntAt(Split(Strip(c)), 1).value;
    SumLengthsFour(a, b, c, d);
    assert PartitionCount(Some(metadata)).value == n by {
      CountCheckHolds(a, b, c, d);
    }
  }

  /** When the loop passes, each of its checks passed. */
  lemma {:induction false} AllCheckedAt(parts: seq<string>, dataStartsAfter: int, file: string, n: nat, i: nat)
    requires AllChecked(parts, dataStartsAfter, file, n) == Ok(()) && i < n
    ensures CheckAt(parts, dataStartsAfter, file, i).Ok?
  {
    var rs := Checks(parts, dataStartsAfter, file, n);
    CollectOk(rs);
    assert rs[i] == CheckAt(parts, dataStartsAfter, file, i);
  }

  /** read_partition reads what validate's check of the same index read, when that check
      ran at the length of the four lines. */
  lemma {:induction false} CheckedRead(file: string, metadata: seq<string>, i: nat, n: int, parts: seq<string>)
    requires PartitionCount(Some(metadata)) == Ok(n) && i < n
    requires DirectoryOf(metadata) == Ok(parts)
    requires CheckAt(parts, SumLengths(metadata), file, i).Ok?
    ensures ReadPartition(file, metadata, i) == CheckAt(parts, SumLengths(metadata), file, i)
  {
    CheckAtReads(parts, SumLengths(metadata), file, i);
    ReadPartitionOk(file, metadata, i, n, parts, IntAt(parts, 3 * i).value, IntAt(parts, 3 * i + 1).value,
                    CheckAt(parts, SumLengths(metadata), file, i).value);
  }

  /** The fourth line: the directory tokens joined by single spaces, no leading space. */
  function Directory(ps: seq<string>): string {
    Join(DirectoryTokens(ps))
  }

  /** The text write_partitions_async puts in the file for a given partition count line. */
  function Encode(version: string, mode: string, count: int, ps: seq<string>): string {
    VersionLine(version) + ModeLine(mode) + PartsLine(count) + Directory(ps) + "\n" + Concat(ps)
  }

  /** What partition i adds to the fourth line: its triple, after a space unless it is the
      first. */
  function DirectoryEntry(ps: seq<string>, i: nat): string
    requires i < |ps|
  {
    (if i != 0 then " " else "") + IntToString(Offset(ps, i)) + " " + IntToString(|ps[i]|) + " " + Checksum(ps[i])
  }

  /** The fourth line grows by one entry per partition. */
  lemma {:induction false} DirectoryNext(ps: seq<string>, i: nat)
    requires i < |ps|
    ensures Directory(ps[..i + 1]) == Directory(ps[..i]) + DirectoryEntry(ps, i)
  {
    var head := DirectoryTokens(ps[..i]);
    DirectoryTokensSnoc(ps, i);
    JoinAppend3(head, IntToString(Offset(ps, i)), IntToString(|ps[i]|), Checksum(ps[i]));
    assert head == [] <==> i == 0;
  }

  /** One pass of write_partitions_async's loop keeps its accumulators in step with the
      layout. */
  lemma {:induction false} WriteStep(ps: seq<string>, i: nat, metadataStr: string, dataStr: string, lastOffset: int)
    requires i < |ps|
    requires metadataStr == Directory(ps[..i]) && dataStr == Concat(ps[..i])
    requires lastOffset == Offset(ps, i)
    ensures metadataStr + ((if i != 0 then " " else "") + IntToString(lastOffset) + " " + IntToString(|ps[i]|) + " " + Checksum(ps[i]))
         == Directory(ps[..i + 1])
    ensures dataStr + ps[i] == Concat(ps[..i + 1])
    ensures lastOffset + |ps[i]| == Offset(ps, i + 1)
  {
    DirectoryNext(ps, i);
    ConcatSnoc(ps, i);
    OffsetNext(ps, i);
  }

  /** The loop of write_partitions_async, returning the text it writes; `count` is the
      partition_count read for the parts line. The `offsets` list grows to at most
      max(1, |partitions|) entries, entry k being 1 plus the length of the first k
      partitions. */
  method WriteContent(version: string, mode: string, count: int, partitions: seq<string>) returns (content: string)
    ensures content == Encode(version, mode, count, partitions)
  {
    var headerStr := VersionLine(version) + ModeLine(mode) + PartsLine(count);
    var metadataStr := "";
    var dataStr := "";
    var offsets: seq<int> := [1];
    OffsetFirst(partitions);
    assert partitions[..0] == [];
    for i := 0 to |partitions|
      invariant |offsets| == if i < |partitions| then i + 1 else if |partitions| == 0 then 1 else |partitions|
      invariant OffsetsOf(partitions, offsets)
      invariant metadataStr == Directory(partitions[..i])
      invariant dataStr == Concat(partitions[..i])
    {
      var partition := partitions[i];
      var size := |partition|;
      var checksum := Checksum(partition);
      var lastOffset := offsets[|offsets| - 1];
      WriteStep(partitions, i, metadataStr, dataStr, lastOffset);
      metadataStr := metadataStr + ((if i != 0 then " " else "") + IntToString(lastOffset) + " " + IntToString(size) + " " + checksum);
      dataStr := dataStr + partition;
      if |partitions| > |offsets| {
        OffsetsGrow(partitions, offsets, i);
        offsets := offsets + [lastOffset + size];
      }
    }
    assert partitions[..|partitions|] == partitions;
    content := headerStr + metadataStr + "\n" + dataStr;
  }

  /** One pass of validate_async's loop; the imperative body of CheckAt. */
  method CheckPartition(parts: seq<string>, dataStartsAfter: int, file: string, i: nat) returns (r: Result<string>)
    ensures r == CheckAt(parts, dataStartsAfter, file, i)
  {
    var offset :- IntAt(parts, i * 3);
    var size :- IntAt(parts, i * 3 + 1);
    var checksum :- TokenAt(parts, i * 3 + 2);
    var partition :- SeekRead(file, dataStartsAfter + offset - 1, size);
    if Checksum(partition) != checksum {
      return Err(AssertionError(ChecksumMismatch(i + 1)));
    }
    return Ok(partition);
  }

  /** validate_async's loop over range(n_parts); the first exception ends it. */
  method CheckPartitions(parts: seq<string>, dataStartsAfter: int, file: string, nParts: int) returns (r: Result<()>)
    ensures r == AllChecked(parts, dataStartsAfter, file, RangeCount(nParts))
  {
    ghost var checks := Checks(parts, dataStartsAfter, file, RangeCount(nParts));
    ghost var partitions: seq<string> := [];
    var i: nat := 0;
    while i < nParts
      invariant i <= |checks|
      invariant Collect(checks[..i]) == Ok(partitions)
      decreases nParts - i
    {
      CollectStops(checks, i);
      var partition :- CheckPartition(parts, dataStartsAfter, file, i);
      CollectNext(checks, i);
      partitions := partitions + [partition];
      i := i + 1;
    }
    assert checks[..i] == checks;
    return Ok(());
  }

  /** validate_async after the header asserts; the imperative body of CountedChecks. */
  method CheckCounted(versionLine: string, modeLine: string, partsLine: string, metadataLine: string,
                      file: string) returns (r: Result<()>)
    ensures r == CountedChecks(versionLine, modeLine, partsLine, metadataLine, file)
  {
    var nParts :- IntAt(Split(Strip(partsLine)), 1);
    var count :- PartitionCount(Some([versionLine, modeLine, partsLine, metadataLine]));
    if nParts != count {
      return Err(AssertionError(PartitionCountMismatch));
    }
    var dataStartsAfter := DataStartsAfter(versionLine, modeLine, partsLine, metadataLine);
    var metadataParts := Split(Strip(metadataLine));
    r := CheckPartitions(metadataParts, dataStartsAfter, file, nParts);
    CountedChecksIs(versionLine, modeLine, partsLine, metadataLine, file, nParts);
  }

  /** validate_async after the unpacking; the imperative body of ValidateLines. */
  method CheckLines(versionLine: string, modeLine: string, partsLine: string, metadataLine: string,
                    file: string, version: string, mode: string) returns (r: Result<()>)
    ensures r == ValidateLines(versionLine, modeLine, partsLine, metadataLine, file, version, mode)
  {
    if Strip(versionLine) != "PAFF " + version {
      return Err(AssertionError(VersionMismatch));
    }
    if Strip(modeLine) != "mode " + mode {
      return Err(AssertionError(ModeMismatch));
    }
    if !StartsWith(Strip(partsLine), "parts") {
      return Err(AssertionError(PartsLineFormatError));
    }
    r := CheckCounted(versionLine, modeLine, partsLine, metadataLine, file);
  }

  /** validate_async with metadata loaded; the imperative body of Validate. */
  method ValidateLoaded(metadata: seq<string>, file: string, version: string, mode: string) returns (r: Result<()>)
    ensures r == Validate(metadata, file, version, mode)
  {
    if |metadata| < 4 {
      return Err(ValueError(NotEnoughToUnpack(|metadata|)));
    }
    if |metadata| > 4 {
      return Err(ValueError(TooManyToUnpack));
    }
    r := CheckLines(metadata[0], metadata[1], metadata[2], metadata[3], file, version, mode);
  }
}
