# PAFF: a partitioned text container, modelled in Dafny

PAFF stores a list of text partitions in one text file. A header names the format version and
the mode. A directory line holds one `offset size checksum` triple per partition. The
partitions follow, packed one after the other. The repository implements the format twice:

- **The three-line format** (`writer.py`, `validator.py`, `utils.py`). The header is
  `PAFF <version>\n`, then `mode: <mode>\n`, then one line holding the partition count followed
  by the triples, each triple after a space. `write_ppaf` builds it; `validate_ppaf` reads the
  header back, checks every partition's checksum and returns the partitions.
- **The four-line format** (`ppaf.py`, class `PAFFFile`). The header is `PAFF <version>\n`,
  then `mode <mode>\n` (no colon), then `parts <count>\n`, then the directory line with the
  triples joined by single spaces. The object loads the first four lines (`_metadata`) when it
  is opened and reads from them lazily. It offers the line getters, `partition_count`,
  `offsets_map`, `read_partition(s)`, `validate` and `write_partitions`.

Both writers number offsets from 1. Both readers seek to the length of the header lines plus
the offset minus 1, so the `- 1` cancels the 1-based offsets exactly. The model follows
writer.py:11 and ppaf.py:140-145.

The file on disk is a `string` (the field `content` of `Ppaf.PaffFile`, or a parameter). A
`readline()` is the prefix up to and including the first line feed (`TextFile.ReadLine`). A
`seek` followed by `read(size)` is a slice that may come back short at the end of the file
(`TextFile.SeekRead`). Python's exceptions and failed `assert`s are the `Err` case of
`Errors.Result`, with the message the source gives. `str()`, `int()`, `split()` and `strip()`
on Python's whitespace set are modelled in `Decimal` and `Text`.

Modules, in dependency order:

- `Errors`, `Messages`: failure outcomes, and `Collect`, the loop that stops at the first
  failure.
- `Text`, `Decimal`, `TextFile`, `Tokens`: the Python built-ins the format relies on.
- `Utils`: `utils.py`.
- `Layout`: the offset and directory arithmetic that both writers share.
- `Writer`, `Validator`, `LegacyRoundTrip`: the three-line format and its round trip.
- `PpafFormat`: the pure parts of `ppaf.py`, plus the writer's and the validator's loops as
  methods.
- `Ppaf`: the class `PaffFile` with its mutable `metadata` and `content`.
- `PpafRoundTrip`: the four-line format end to end.

`calculate_checksum` is a concrete stand-in for md5 (`Utils.Checksum`). It yields 32 lower-case
hexadecimal digits computed from the partition text alone. No proof looks inside it: the
proofs use only the shape of the digest, which is stated in its contract.

## Model

| member | source | states |
|---|---|---|
| Utils.VersionStr | utils.py:4-5 | definition of `get_version_str`: `"PAFF "`, the version and one line feed |
| Utils.ModeStr | utils.py:8-9 | definition of `get_mode_str`: `"mode: "` (with the colon), the mode and one line feed |
| Utils.PlainValue | utils.py:4-9 | the header values that survive a format-then-strip: no line feed, non-empty, last character not whitespace |
| Utils.Checksum | utils.py:12-13 | the checksum is a function of the partition text alone, written as 32 lower-case hexadecimal digits like an md5 hexdigest |
| Utils.ChecksumIsWord | utils.py:12-13 | a checksum is one whitespace-free token, so the readers' `split()` gives it back whole |
| Utils.StripVersionStr | utils.py:4-5 | `get_version_str(v).strip()` is `"PAFF " + v` when `v` is non-empty and does not end in whitespace, which the check at validator.py:11 relies on |
| Utils.StripModeStr | utils.py:8-9 | `get_mode_str(m).strip()` is `"mode: " + m` (with the colon) under the same condition, which the check at validator.py:12 relies on |
| Messages.Text | ppaf.py:99-120 | the text of each exception: the words of the asserts and raises of ppaf.py and validator.py, and of the built-ins |
| Messages.ChecksumMessageNames | validator.py:30-32 | the checksum message is "Checksum mismatch at partition " followed by `str(i + 1)`, and that number reads back as i + 1 |
| Decimal.NatToString | writer.py:16 | `str()` of a natural number: its decimal digits, most significant first, every character a digit |
| Decimal.IntToString | writer.py:8 | `str()` of an integer: a minus sign before the digits of a negative one |
| Decimal.ParseInt | validator.py:15 | `int()` of a token: an optional sign and ASCII decimal digits; anything else raises ValueError "invalid literal for int() with base 10" |
| Decimal.IntRoundTrip | validator.py:15 | `int(str(n)) == n` for every integer, negative ones included |
| Decimal.IntToStringIsWord | writer.py:16 | `str(n)` is a single whitespace-free token |
| Text.IsSpace | ppaf.py:99-110 | the whitespace set `str.strip()` and `str.split()` use: the ASCII controls tab to carriage return, the four separators, space, and the Unicode spaces |
| Text.Strip | ppaf.py:99-101 | `str.strip()`: leading and trailing whitespace removed |
| Text.Join | ppaf.py:142 | tokens joined by single spaces, with no leading or trailing space |
| Text.StartsWith | ppaf.py:101 | `str.startswith(p)`: the text begins with `p` |
| Text.Split | validator.py:14 | every token `split()` returns is non-empty and holds no whitespace |
| Text.SplitJoin | ppaf.py:142 | splitting tokens joined by single spaces gives the tokens back |
| Text.SplitStrip | ppaf.py:110 | `strip()` before `split()` changes nothing about the tokens |
| TextFile.ReadLines | ppaf.py:20-22 | `[await file.readline() for _ in range(k)]` from the start of the file: k lines, each through its line feed, empty ones past the end |
| TextFile.ReadLine | ppaf.py:22 | `readline()` splits the text into a prefix and a rest: the prefix ends in the first line feed, or is the whole text when there is none |
| TextFile.SeekRead | ppaf.py:71-72 | `seek(pos)` then `read(size)` fails exactly for a negative position; it returns at most `size` characters, taken from the text at `pos`, and exactly `size` of them when the file is long enough |
| Tokens.TokenAt | ppaf.py:51-53 | indexing a token list succeeds exactly inside the list, with that token; outside it raises IndexError |
| Tokens.IntAtString | validator.py:15 | a token written with `str(n)` reads back as `n` |
| Layout.DirectoryTokens | writer.py:13-19 | the directory lays out exactly three tokens per partition |
| Layout.OffsetFirst | writer.py:11 | the first offset is 1 |
| Layout.OffsetNext | writer.py:18-19 | each partition's offset is the previous offset plus the previous partition's length |
| Layout.OffsetsGrow | writer.py:18-19 | `offsets.append(offsets[-1] + size)` keeps entry k equal to 1 plus the lengths of the first k partitions |
| Layout.DirectoryTokensSnoc | ppaf.py:139-145 | each pass of the writers' loop adds exactly that partition's triple to the directory |
| Layout.DirectoryTokensAt | ppaf.py:140-142 | tokens 3i, 3i+1 and 3i+2 are `str(offset_i)`, `str(len(p_i))` and the checksum of partition i |
| Layout.DirectoryTokensAreWords | writer.py:16 | every directory token is one whitespace-free word |
| Layout.PartitionSlice | ppaf.py:68-72 | behind a header of any length, seeking to the header length plus offset_k minus 1 and reading size_k characters returns partition k |
| Writer.CountAndDirectory | writer.py:8-16 | the third line without its line feed: `str(len(partitions))`, then `" offset size checksum"` per partition |
| Writer.Written | writer.py:5-22 | the text `write_ppaf` writes, in closed form: version line, mode line, the third line, a line feed, then the partitions concatenated |
| Writer.WrittenEmpty | writer.py:8-22 | with no partitions the file is `"PAFF v\nmode: m\n0\n"` |
| Writer.CountAndDirectoryNext | writer.py:16 | each partition adds `" offset size checksum"`, with a leading space, to the third line |
| Writer.WriteStep | writer.py:13-19 | one pass of the loop keeps `metadata_str`, `data_str` and `offsets[-1]` in step with the layout of the first i partitions |
| Writer.WrittenFrom | writer.py:21-22 | the header, the accumulated triples, a line feed and the accumulated payload make the written text |
| Writer.WritePpaf | writer.py:5-22 | `write_ppaf` writes the version line, the mode line, the count and the triples, a line feed, then the partitions in order; its loop keeps the `offsets` list at no more than max(1, len(partitions)) entries, entry k being 1 plus the first k sizes |
| Validator.PartitionAt | validator.py:22-32 | one pass of the loop: int() of tokens 3i+1 and 3i+2, token 3i+3, seek to offset + data_starts_after - 1, read size, then the checksum assertion numbered i+1 |
| Validator.Attempts | validator.py:21 | the passes of `for i in range(n_parts)`, one per index, in index order |
| Validator.HeaderLines | validator.py:7-9 | three `readline()` calls from the start of the file, each stripped |
| Validator.DataStart | validator.py:16-18 | `data_starts_after`: the lengths of the three stripped lines plus 3 |
| Validator.CheckedFrom | validator.py:11-36 | `validate_ppaf` after the reads: the two bare asserts, `int()` of the first token, then the loop, which stops at the first exception |
| Validator.Validate | validator.py:5-36 | `validate_ppaf` on the text of the file |
| Validator.PartitionAtOk | validator.py:22-32 | partition i reads at tokens 3i+1, 3i+2 and 3i+3, at the payload start plus the offset minus 1, and succeeds when its checksum matches |
| Validator.PartitionAtTriple | validator.py:22-29 | a triple written with `str()` next to its partition's checksum reads back as that partition |
| Validator.ValidateIs | validator.py:7-9 | `validate_ppaf` works from the three stripped lines `readline()` returns |
| Validator.CheckedFromOk | validator.py:11-36 | with a matching header, a count that reads, and a sweep that succeeds, `validate_ppaf` returns the partitions of the sweep |
| Validator.PartitionAtFails | validator.py:22-32 | a partition fails only with the exception of a read, or with "Checksum mismatch at partition i+1" |
| Validator.SweepFails | validator.py:21-33 | the loop fails only with a read's exception, or with the checksum assertion of a partition numbered 1..n_parts |
| Validator.CheckedFromHeaderFails | validator.py:11-15 | once the lines are read, the result is the bare assertion error exactly when the version line or the mode line differs from the stripped formatter output |
| Validator.ValidateHeaderFails | validator.py:7-12 | `validate_ppaf` raises one of its two bare header assertions exactly when the version or mode line of the file is wrong |
| Validator.CheckedFromFirstFailure | validator.py:21-33 | with the header accepted, the first failing partition among the first n_parts decides the error, whatever follows it |
| Validator.ReadCheckedPartition | validator.py:22-32 | one pass of the loop: seek, read and checksum check of partition i |
| Validator.ReadCheckedPartitions | validator.py:20-33 | the loop reads partitions 0..n_parts-1 (none for a count below 1) in index order, appends each, and stops at the first exception |
| Validator.CheckPpaf | validator.py:11-36 | the two asserts, the count and the loop, from the stripped lines |
| Validator.ValidatePpaf | validator.py:5-36 | `validate_ppaf` on the text of the file |
| LegacyRoundTrip.CountAndDirectoryWords | writer.py:8-16 | every token of the written third line is a word |
| LegacyRoundTrip.CountAndDirectoryLine | validator.py:14 | the written third line splits back into the count and the directory tokens, holds no line feed, and strips back to itself |
| LegacyRoundTrip.HeaderLinesOf | validator.py:7-9 | three lines without line feeds are the three stripped lines the validator reads |
| LegacyRoundTrip.WrittenHeaderLines | validator.py:7-9 | the validator reads back `"PAFF " + v`, `"mode: " + m` and the count with the directory from what `write_ppaf` wrote |
| LegacyRoundTrip.WrittenPartition | validator.py:16-32 | on a written file, every attempt the loop makes returns the written partition |
| LegacyRoundTrip.WrittenSweep | validator.py:20-33 | on a written file, the loop returns all the written partitions, in order |
| LegacyRoundTrip.ValidateLaidOut | validator.py:5-36 | a file whose header lines carry the version, the mode, and the count with the directory of the partitions packed behind them validates to those partitions |
| LegacyRoundTrip.ValidateWritten | demo.py:5-8 | `validate_ppaf(write_ppaf(P, v, m))` returns P for every P and for every v and m without a line feed or trailing whitespace |
| PpafFormat.VersionLine | ppaf.py:38-39 | `get_version_line`: `"PAFF "`, the version and a line feed |
| PpafFormat.ModeLine | ppaf.py:41-42 | `get_mode_line`: `"mode "` (no colon), the mode and a line feed |
| PpafFormat.PartsLine | ppaf.py:44-45 | `get_partition_count_line` for a given count: `"parts "`, `str(count)` and a line feed |
| PpafFormat.DirectoryOf | ppaf.py:51 | `self._metadata[3].strip().split()`, or IndexError when there is no fourth line |
| PpafFormat.EntryAt | ppaf.py:53 | one dict entry: `int(parts[3i])` as the key, `(int(parts[3i+1]), parts[3i+2])` as the value, evaluated in that order |
| PpafFormat.Entries | ppaf.py:52-55 | the entries for `i in range(n)`, in index order |
| PpafFormat.ToMap | ppaf.py:52-55 | a dict built from pairs in order, a later pair overwriting an earlier one with the same key |
| PpafFormat.DataStartsAfter | ppaf.py:106 | `data_starts_after`: the total length of the four loaded lines, line feeds included |
| PpafFormat.SeekTarget | ppaf.py:68-71 | `data_start_offset + offset`: the four lines' total length minus 1, plus the offset |
| PpafFormat.ReadPartition | ppaf.py:57-72 | `read_partition_async` with metadata loaded: `partition_count`, the range check, `int()` of tokens 3i and 3i+1, then the seek and the read |
| PpafFormat.ReadPartitions | ppaf.py:77-85 | `read_partitions_async` with metadata loaded: the reads of the indices given, or of `range(partition_count)`, their results in order |
| PpafFormat.CheckAt | ppaf.py:112-120 | one pass of the validate loop: int() of tokens 3i and 3i+1, token 3i+2, seek to data_starts_after + offset - 1, read size, then the checksum assertion numbered i+1 |
| PpafFormat.AllChecked | ppaf.py:111-120 | the validate loop over `range(n)`, stopping at the first exception |
| PpafFormat.CountedChecks | ppaf.py:103-120 | `n_parts`, its comparison with `partition_count`, `data_starts_after`, then the loop |
| PpafFormat.ValidateLines | ppaf.py:99-120 | the three header asserts in order, then the count and the loop |
| PpafFormat.Validate | ppaf.py:93-120 | `validate_async` with metadata loaded: the unpacking into four lines (ValueError for any other number), then the rest |
| PpafFormat.PartitionCount | ppaf.py:32-36 | `partition_count` is 0 with nothing loaded; otherwise it is int() of the second token of the third line, or an IndexError when that line is missing |
| PpafFormat.SumLengthsFour | ppaf.py:106 | `sum(len(line) for line in ...)` over the four lines is the sum of their four lengths |
| PpafFormat.ToMapSpec | ppaf.py:52-55 | a dict built from pairs has every key of a pair and no other, and each key maps to the pair listed last with that key |
| PpafFormat.CollectToMap | ppaf.py:52-55 | the entries evaluated in order succeed exactly when each does, and then the dict has every key of an entry and, for each key, the value of the last entry with that key |
| PpafFormat.OffsetsMap | ppaf.py:49-50 | `offsets_map` is `{}` with nothing loaded |
| PpafFormat.OffsetsMapIs | ppaf.py:51-55 | with metadata loaded, `offsets_map` is the dict of the first `partition_count` entries, or the first exception among them |
| PpafFormat.OffsetsMapSpec | ppaf.py:47-55 | `offsets_map` succeeds exactly when every entry up to `partition_count` reads; it then maps `int(parts[3i])` to `(int(parts[3i+1]), parts[3i+2])`, and a later triple with the same offset overrides an earlier one |
| PpafFormat.OffsetsMapCountFails | ppaf.py:54 | an unreadable `partition_count` makes `offsets_map` raise that exception |
| PpafFormat.ReadPartitionRange | ppaf.py:61-62 | `read_partition` raises "Index out of range" exactly when index < 0 or index >= `partition_count` |
| PpafFormat.ReadPartitionSlice | ppaf.py:64-72 | within range and with a readable triple, the result is the text at the four lines' length - 1 + offset, `size` characters long, or shorter when the file ends first |
| PpafFormat.ReadPartitionOk | ppaf.py:64-72 | within range, the result is exactly what the seek to the four lines' length - 1 + offset and the read of `size` return |
| PpafFormat.ReadPartitionNoOffset | ppaf.py:65 | a missing or unreadable offset token makes `read_partition` raise that exception |
| PpafFormat.Range | ppaf.py:81-82 | `range(n)` yields 0..n-1, and nothing for n below 1 |
| PpafFormat.ReadPartitionsSpec | ppaf.py:83-85 | `read_partitions(indices)` returns one partition per index, in the order asked, each what `read_partition` returns for it; if any read fails, that is the first failure in index order |
| PpafFormat.ReadPartitionsDefault | ppaf.py:81-82 | without indices, `read_partitions` reads `range(partition_count)` |
| PpafFormat.CheckAtOk | ppaf.py:112-120 | a triple that reads, a read that succeeds and a checksum that matches make one pass of the validate loop succeed |
| PpafFormat.CheckAtReads | ppaf.py:112-120 | a pass that succeeds read both integers, read at data_starts_after + offset - 1, and found the checksum of what it read |
| PpafFormat.CheckAtFails | ppaf.py:112-120 | a pass fails only with a read's exception or with "Checksum mismatch at partition i+1" |
| PpafFormat.CountCheckHolds | ppaf.py:103-104 | `n_parts` and `partition_count` are computed from the same token, so the two agree |
| PpafFormat.NoCountMismatch | ppaf.py:104 | `validate` never fails with "Partition count mismatch" |
| PpafFormat.CountedChecksIs | ppaf.py:103-111 | after the header asserts, `validate` is the loop over `range(n_parts)` reading at the four lines' total length |
| PpafFormat.CountedChecksFails | ppaf.py:103-120 | after the header asserts, `validate` fails only with an exception of a read or with a checksum mismatch |
| PpafFormat.AllCheckedFails | ppaf.py:111-120 | the loop fails only with a read's exception or with the checksum assertion of a partition numbered 1..n |
| PpafFormat.AllCheckedFirstFailure | ppaf.py:111-120 | the first failing pass decides the error of the loop |
| PpafFormat.AllCheckedAt | ppaf.py:111-120 | a loop that succeeds passed for every partition below the count |
| PpafFormat.ValidateLinesIs | ppaf.py:99-104 | with the three header lines accepted, `validate` goes on to the count and the loop |
| PpafFormat.ValidateHeaderFails | ppaf.py:97-101 | `validate` fails with "Version mismatch", "Mode mismatch" or "Parts line format error" exactly when one of the three header lines is wrong |
| PpafFormat.ValidateFirstFailure | ppaf.py:93-120 | with the header accepted and a count that reads, `validate` fails with the error of the first partition that fails, numbered 1-based in the checksum message |
| PpafFormat.CountedPassesChecks | ppaf.py:103-120 | when the count and the loop succeed, the count read and every partition below it checked out |
| PpafFormat.ValidatePassesChecks | ppaf.py:97-120 | a successful `validate` had exactly four lines, a readable `partition_count`, and a passing check for every partition below it, at the four lines' total length |
| PpafFormat.CheckedRead | ppaf.py:68-72 | a partition that `validate` checked is what `read_partition` returns for it: both read from the same position |
| PpafFormat.Directory | ppaf.py:139-142 | the fourth line as the loop builds it: the directory tokens joined by single spaces |
| PpafFormat.DirectoryEntry | ppaf.py:142 | what partition i adds to `metadata_str`: a space unless i is 0, then offset, size and checksum |
| PpafFormat.Encode | ppaf.py:127-148 | the text `write_partitions_async` writes for a given count: the three header lines, the directory, a line feed, then the partitions |
| PpafFormat.DirectoryNext | ppaf.py:142 | the first triple is written without a leading space and every later one after exactly one space |
| PpafFormat.WriteStep | ppaf.py:139-145 | one pass of the writer's loop keeps `metadata_str`, `data_str` and `offsets[-1]` in step with the first i partitions |
| PpafFormat.WriteContent | ppaf.py:129-148 | the text written is the version, mode and parts lines, the directory, a line feed, then the partitions in order |
| PpafFormat.CheckPartition | ppaf.py:112-120 | one pass of the validate loop |
| PpafFormat.CheckPartitions | ppaf.py:111-120 | the validate loop over `range(n_parts)`, stopping at the first exception |
| PpafFormat.CheckCounted | ppaf.py:103-120 | the count assertion, `data_starts_after`, then the loop |
| PpafFormat.CheckLines | ppaf.py:99-120 | the three header asserts, then the count and the loop |
| PpafFormat.ValidateLoaded | ppaf.py:97-120 | the unpacking of the four lines, then `validate` proper |
| Ppaf.PaffFile.Loaded | ppaf.py:58-59 | the metadata the operations work from: the loaded lines, or a fresh load of four lines when `not self._metadata` |
| Ppaf.PaffFile.PartitionCount | ppaf.py:32-36 | the property `partition_count` of the object's current metadata |
| Ppaf.PaffFile.OffsetsMap | ppaf.py:47-55 | the property `offsets_map` of the object's current metadata |
| Ppaf.PaffFile.constructor | ppaf.py:11-18 | with a path given, the object keeps the path, version and mode, and loads the four lines at once |
| Ppaf.PaffFile.Open | ppaf.py:11-18 | `PAFFFile()` raises "file_path is required" exactly when the path is empty; otherwise it yields a new object with its metadata loaded |
| Ppaf.PaffFile.LoadMetadata | ppaf.py:20-22 | the metadata becomes the first four `readline()` results of the file, which is left unchanged |
| Ppaf.PaffFile.Enter | ppaf.py:165-167 | `__aenter__` reloads the metadata and returns the object itself |
| Ppaf.PaffFile.PartitionCountLine | ppaf.py:44-45 | `get_partition_count_line` is `"parts " + str(partition_count) + "\n"`, or the exception of `partition_count` |
| Ppaf.PaffFile.ReadPartition | ppaf.py:57-75 | the metadata is loaded when missing or empty, then the result is `read_partition` on it; the file is not changed |
| Ppaf.PaffFile.ReadPartitions | ppaf.py:77-88 | the metadata is loaded when missing or empty, then the result is `read_partitions` on it; the file is not changed |
| Ppaf.PaffFile.Validate | ppaf.py:93-125 | the metadata is loaded when missing or empty, then the result is `validate` on it; the file is not changed |
| Ppaf.PaffFile.WritePartitions | ppaf.py:127-151 | the file is replaced by the encoding with the `partition_count` loaded before the write, and the metadata stays as it was; an unreadable count raises before the file is touched |
| PpafRoundTrip.DirectoryLine | ppaf.py:110 | the written directory line has no line feed, and strips and splits back into the directory tokens |
| PpafRoundTrip.PartsLineReads | ppaf.py:36 | the written parts line strips to `"parts " + str(n)`, starts with "parts", and splits into `["parts", str(n)]` |
| PpafRoundTrip.StripModeLine | ppaf.py:41-42 | `get_mode_line(m).strip()` is `"mode " + m` when m is non-empty and does not end in whitespace |
| PpafRoundTrip.EncodedLines | ppaf.py:22 | the first four `readline()`s of a written file are the four written lines, when version and mode hold no line feed |
| PpafRoundTrip.WrittenMetadata | ppaf.py:36 | for the written lines, the four lengths add up to the header length, the directory is the written tokens, and `partition_count` is the count written |
| PpafRoundTrip.ReadLaidOut | ppaf.py:57-72 | behind a header whose four lines add up to its length, `read_partition(i)` returns the partition laid out at directory triple i |
| PpafRoundTrip.ReadWritten | ppaf.py:57-72 | on a written file, `read_partition(i)` returns partition i for every i below both the count written and the number of partitions |
| PpafRoundTrip.ReadWrittenRange | ppaf.py:61-62 | on a written file, `read_partition` raises "Index out of range" exactly outside 0..count-1 |
| PpafRoundTrip.ReadPastWritten | ppaf.py:65-67 | when the count written exceeds the partitions, an index past the partitions raises IndexError |
| PpafRoundTrip.ReadAllWritten | ppaf.py:81-85 | on a written file, `read_partitions()` returns the first `count` partitions |
| PpafRoundTrip.ReadAllPastWritten | ppaf.py:81-85 | when the count written exceeds the partitions, `read_partitions()` raises IndexError |
| PpafRoundTrip.CheckLaidOut | ppaf.py:112-120 | on a laid-out file, every pass of the validate loop returns the partition laid out there |
| PpafRoundTrip.AllLaidOutChecked | ppaf.py:111-120 | on a laid-out file, the validate loop passes for any count up to the number of partitions |
| PpafRoundTrip.ValidateLaidOut | ppaf.py:93-120 | four accepted lines over a laid-out payload validate |
| PpafRoundTrip.ValidateWritten | ppaf.py:93-148 | `validate` accepts what `write_partitions` wrote, for any count written up to the number of partitions |
| PpafRoundTrip.ValidatedReads | ppaf.py:106-120 | after a successful `validate`, every `read_partition(i)` below the count succeeds and returns text whose checksum is the directory's |
| PpafRoundTrip.StaleCountDropsPartitions | ppaf.py:132 | as written: a file loaded with "parts 0", then written with ["A"], validates and reads back as [] |
| PpafRoundTrip.EncodeCounted | ppaf.py:132 | the corrected encoding: the parts line carries `len(partitions)` |
| PpafRoundTrip.CountedRoundTrip | demo_rw.py:10-14 | written with the count of its partitions, a file validates and `read_partitions()` returns exactly the partitions |
| PpafRoundTrip.DemoReadWrite | demo_rw.py:9-14 | on an object over a file that already holds the partitions with their count, `validate()` succeeds and `read_partitions()` returns the partitions, leaving the file and its metadata unchanged |

## Left out

- test.py calls `fallocate` in the C library through ctypes. It is foreign code run at import,
  and nothing in the format uses it.
- `update_partition`, `add_partition` and `remove_partition` (ppaf.py:153-163) are empty
  stubs. They are not modelled.
- asyncio and aiofiles concurrency is left out. The reads run one after the other. The only
  promise of `asyncio.gather` that the model keeps is the order of its results. When several
  reads fail, the model reports the first failure in index order; `gather` reports the one
  that fails first in time.
- Real file I/O is left out: opening a missing file, text-mode newline translation and UTF-8
  bytes against characters. On a real disk, the round-trip lemmas (LegacyRoundTrip.ValidateWritten,
  PpafRoundTrip.ValidateWritten, PpafRoundTrip.CountedRoundTrip) therefore hold only for
  partitions that are ASCII and contain no `'\r'`. The reason is that `seek` counts bytes,
  not characters, and universal newlines turn `'\r'` into `'\n'` when the file is read.
  The file is a `string`, and only `'\n'` ends a line. The file path is only checked for
  emptiness; a `None` path is the empty path.
- md5 internals (RFC 1321) are left out. `Utils.Checksum` is a concrete stand-in, and no proof
  depends on its values beyond its stated shape.
- `int()` takes a sign and ASCII digits. Underscores between digits and non-ASCII digits are
  not modelled.
- The failed assertion's message is modelled as the text the source gives, without Python's
  traceback. The bare asserts of validator.py:11-12 carry no message.
- `print("File OK!")` (ppaf.py:122, validator.py:35), `__aexit__` and the synchronous
  `__enter__`/`__exit__` (ppaf.py:169-177) have no effect on the file and are not modelled.
- writer.py and validator.py import `VERSION` and `MODE` from ppaf.py, which defines only
  `PAFFFile.DEFAULT_VERSION` and `PAFFFile.DEFAULT_MODE`. The model takes version and mode as
  parameters, with the class defaults as `PpafFormat.DefaultVersion` and
  `PpafFormat.DefaultMode`.
- The `offsets` lists of both writers are local. The model proves their contents as loop
  invariants of `Writer.WritePpaf` and `PpafFormat.WriteContent`, but no method returns them.
- The demo scripts other than their asserts (timing, printing, file names) are not modelled.
- Utils.Checksum: states only the shape of an md5 hexdigest, not md5 itself.

## Findings

| source | as written | input that shows it | evidently intended | confidence | as-written member | corrected member |
|---|---|---|---|---|---|---|
| ppaf.py:132 (with ppaf.py:44-45) | `write_partitions` writes the `parts` count loaded before the write, not the number of partitions written | a file loaded with `parts 0`, then `write_partitions(["A"])`: the new file validates and `read_partitions()` returns `[]` | the count written is `len(partitions)`, so reading back returns the partitions written | not executed | PpafRoundTrip.StaleCountDropsPartitions | PpafRoundTrip.CountedRoundTrip |
