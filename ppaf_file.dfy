/** ppaf.py: the class PAFFFile, over a file whose text is held in the object. */
module Ppaf {
  import opened Errors
  import opened TextFile
  import opened PpafFormat

  /** A PAFF file: its path, the version and mode it is opened with, the metadata lines
      loaded from it (`_metadata`), and the text of the file on disk. */
  class PaffFile {
    const filePath: string
    const version: string
    const mode: string
    var metadata: Option<seq<string>>
    var content: string

    /** The metadata every read works from: the loaded lines, or the first four lines of the
        file when nothing (or an empty list) is loaded, as the lazy reload reads them. */
    function Loaded(): seq<string>
      reads this
    {
      if Unloaded(metadata) then ReadLines(content, 4) else metadata.value
    }

    /** __init__ with a file path given: the attributes are set and the metadata is loaded
        at once. */
    constructor (filePath: string, content: string, version: string, mode: string)
      requires filePath != ""
      ensures this.filePath == filePath && this.version == version && this.mode == mode
      ensures this.content == content
      ensures metadata == Some(ReadLines(content, 4))
    {
      this.filePath := filePath;
      this.version := version;
      this.mode := mode;
      this.content := content;
      metadata := None;
      new;
      LoadMetadata();
    }

    /** PAFFFile(file_path, version, mode): a ValueError without a path, otherwise an
        object with the metadata loaded. */
    static method Open(filePath: string, content: string, version: string := DefaultVersion, mode: string := DefaultMode)
      returns (r: Result<PaffFile>)
      ensures r.Err? <==> filePath == ""
      ensures r.Err? ==> r.error == ValueError(FilePathRequired)
      ensures r.Ok? ==> fresh(r.value)
      ensures r.Ok? ==> r.value.filePath == filePath && r.value.version == version && r.value.mode == mode
      ensures r.Ok? ==> r.value.content == content && r.value.metadata == Some(ReadLines(content, 4))
    {
      if filePath == "" {
        return Err(ValueError(FilePathRequired));
      }
      var file := new PaffFile(filePath, content, version, mode);
      return Ok(file);
    }

    /** _load_metadata_async: four readline() calls from the start of the file. */
    method LoadMetadata()
      modifies this
      ensures metadata == Some(ReadLines(content, 4))
      ensures content == old(content)
    {
      metadata := Some(ReadLines(content, 4));
    }

    /** __aenter__ loads the metadata and hands back the object. */
    method Enter() returns (file: PaffFile)
      modifies this
      ensures file == this
      ensures metadata == Some(ReadLines(content, 4)) && content == old(content)
    {
      LoadMetadata();
      return this;
    }

    /** The property partition_count, of the loaded metadata (0 when none is loaded). */
    function PartitionCount(): Result<int>
      reads this
    {
      PpafFormat.PartitionCount(metadata)
    }

    /** get_partition_count_line */
    function PartitionCountLine(): (r: Result<string>)
      reads this
      ensures r.Ok? <==> PartitionCount().Ok?
      ensures r.Ok? ==> r.value == PartsLine(PartitionCount().value)
      ensures r.Err? ==> r.error == PartitionCount().error
    {
      var count :- PartitionCount();
      Ok(PartsLine(count))
    }

    /** The property offsets_map, of the loaded metadata. */
    function OffsetsMap(): Result<map<int, (int, string)>>
      reads this
    {
      PpafFormat.OffsetsMap(metadata)
    }

    /** read_partition: loads the metadata when none is loaded, then reads the partition
        from the file. */
    method ReadPartition(index: int) returns (r: Result<string>)
      modifies this
      ensures metadata == Some(old(Loaded())) && content == old(content)
      ensures r == PpafFormat.ReadPartition(content, old(Loaded()), index)
    {
      if Unloaded(metadata) {
        LoadMetadata();
      }
      r := PpafFormat.ReadPartition(content, metadata.value, index);
    }

    /** read_partitions: loads the metadata when none is loaded, then reads the partitions
        asked for, all of them by default. */
    method ReadPartitions(indices: Option<seq<int>> := None) returns (r: Result<seq<string>>)
      modifies this
      ensures metadata == Some(old(Loaded())) && content == old(content)
      ensures r == PpafFormat.ReadPartitions(content, old(Loaded()), indices)
    {
      if Unloaded(metadata) {
        LoadMetadata();
      }
      r := PpafFormat.ReadPartitions(content, metadata.value, indices);
    }

    /** validate: loads the metadata when none is loaded, then checks the header and every
        partition's checksum. */
    method Validate() returns (r: Result<()>)
      modifies this
      ensures metadata == Some(old(Loaded())) && content == old(content)
      ensures r == PpafFormat.Validate(old(Loaded()), content, version, mode)
    {
      if Unloaded(metadata) {
        LoadMetadata();
      }
      r := ValidateLoaded(metadata.value, content, version, mode);
    }

    /** write_partitions: the parts line carries the partition_count of the loaded metadata
        (its exception leaves the file as it was); the file is replaced and the loaded
        metadata is left as it was. */
    method WritePartitions(partitions: seq<string>) returns (r: Result<()>)
      modifies this
      ensures metadata == old(metadata)
      ensures r.Ok? <==> old(PartitionCount()).Ok?
      ensures r.Err? ==> r.error == old(PartitionCount()).error && content == old(content)
      ensures r.Ok? ==> content == Encode(version, mode, old(PartitionCount()).value, partitions)
    {
      var count :- PartitionCount();
      content := WriteContent(version, mode, count, partitions);
      return Ok(());
    }
  }
}
