/** The text of each exception message, as Python prints it. */
module Messages {
  import opened Errors
  import opened Decimal

  /** str(exception) for each message: the exact words of the asserts and raises in ppaf.py
      and of the built-ins (int(), seek(), tuple unpacking), the last two without the
      offending value Python appends. */
  function Text(m: Message): string {
    match m
    case NoMessage => ""
    case InvalidLiteral => "invalid literal for int() with base 10"
    case NegativeSeek => "negative seek position"
    case IndexOutOfRange => "Index out of range"
    case FilePathRequired => "file_path is required"
    case NotEnoughToUnpack(got) => "not enough values to unpack (expected 4, got " + IntToString(got) + ")"
    case TooManyToUnpack => "too many values to unpack (expected 4)"
    case VersionMismatch => "Version mismatch"
    case ModeMismatch => "Mode mismatch"
    case PartsLineFormatError => "Parts line format error"
    case PartitionCountMismatch => "Partition count mismatch"
    case ChecksumMismatch(partition) => "Checksum mismatch at partition " + IntToString(partition)
  }

  /** The checksum assertion's message names partition i by its 1-based number: it is the
      fixed words followed by str(i + 1), and the number after the words reads back as i + 1. */
  lemma {:induction false} ChecksumMessageNames(i: nat)
    ensures var words := "Checksum mismatch at partition ";
      var text := Text(ChecksumMismatch(i + 1));
      |words| <= |text| && text[..|words|] == words && ParseInt(text[|words|..]) == Ok(i + 1)
  {
    var words := "Checksum mismatch at partition ";
    var text := Text(ChecksumMismatch(i + 1));
    assert text == words + IntToString(i + 1);
    assert text[|words|..] == IntToString(i + 1);
    IntRoundTrip(i + 1);
  }
}
