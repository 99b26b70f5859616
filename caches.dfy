/** The collaborators whose state the reader stack changes: the byte source it
    reads column chunks from and the two caches. Each cache is a plain map; the
    LRU eviction of the real caches is not modelled. */
module Caches {
  import opened Basics
  import opened Format

  /** `ChunkReader::get_read(start, length)` followed by `read_to_end`: exactly
      the bytes `[start, start + length)` of the source, or an error when the
      range passes the end of the source. */
  function ReadRange(source: seq<byte>, start: nat, length: nat): (r: Result<seq<byte>>)
    ensures r.Success? <==> start + length <= |source|
    ensures r.Success? ==> |r.value| == length && r.value == source[start..start + length]
    ensures r.Failure? ==> r.error == UnexpectedEof(start + length, |source|)
  {
    if start + length <= |source| then Success(source[start..start + length])
    else Failure(UnexpectedEof(start + length, |source|))
  }

  /** A byte source (a file or an in-memory buffer) that is shared by the file
      reader and every row-group reader it hands out. `readCount` counts the
      positioned reads made on it. */
  class ChunkReader {
    const bytes: seq<byte>
    ghost var readCount: nat

    constructor (bytes: seq<byte>)
      ensures this.bytes == bytes && readCount == 0
    {
      this.bytes := bytes;
      readCount := 0;
    }

    method GetRead(start: nat, length: nat) returns (r: Result<seq<byte>>)
      modifies this
      ensures r == ReadRange(bytes, start, length)
      ensures readCount == old(readCount) + 1
    {
      readCount := readCount + 1;
      if start + length <= |bytes| {
        r := Success(bytes[start..start + length]);
      } else {
        r := Failure(UnexpectedEof(start + length, |bytes|));
      }
    }
  }

  /** A cache: the metadata cache (file name to parsed metadata) and the data
      cache (`FormatPageDataKey` to raw column-chunk bytes) are both of this
      kind. */
  class Cache<V> {
    var entries: map<string, V>

    constructor ()
      ensures entries == map[]
    {
      entries := map[];
    }

    function Get(key: string): (r: Option<V>)
      reads this
      ensures r.Some? <==> key in entries
      ensures r.Some? ==> r.value == entries[key]
    {
      if key in entries then Some(entries[key]) else None
    }

    method Put(key: string, value: V)
      modifies this
      ensures entries == old(entries)[key := value]
    {
      entries := entries[key := value];
    }
  }
}
