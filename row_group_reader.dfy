/** `SerializedRowGroupReader`: resolves a column chunk's bytes through the
    optional data cache and builds the page reader over them. */
module RowGroupReader {
  import opened Basics
  import opened Format
  import opened CacheKey
  import opened Caches
  import opened PageReader

  /** The outcome of resolving one chunk: what the caller receives, the cache
      afterwards (absent when there is no cache) and how many reads of the byte
      source were made. */
  datatype ChunkResolution = ChunkResolution(
    result: Result<seq<byte>>,
    cache: Option<map<string, seq<byte>>>,
    sourceReads: nat)

  /** `get_file_chunk` on values. */
  function ResolveChunk(source: seq<byte>, name: string, cache: Option<map<string, seq<byte>>>,
                        colStart: nat, colLength: nat): (c: ChunkResolution)
    ensures cache.None? ==> c.cache.None? && c.sourceReads == 1
    ensures cache.Some? && FormatPageDataKey(name, colStart, colLength) in cache.value ==>
      && c == ChunkResolution(Success(cache.value[FormatPageDataKey(name, colStart, colLength)]), cache, 0)
    ensures cache.Some? && FormatPageDataKey(name, colStart, colLength) !in cache.value ==>
      && c.sourceReads == 1
      && c.result == ReadRange(source, colStart, colLength)
      && c.cache == if c.result.Success?
                    then Some(cache.value[FormatPageDataKey(name, colStart, colLength) := source[colStart..colStart + colLength]])
                    else cache
  {
    match cache
    case None => ChunkResolution(ReadRange(source, colStart, colLength), None, 1)
    case Some(entries) =>
      var key := FormatPageDataKey(name, colStart, colLength);
      if key in entries then ChunkResolution(Success(entries[key]), cache, 0)
      else
        match ReadRange(source, colStart, colLength)
        case Failure(e) => ChunkResolution(Failure(e), cache, 1)
        case Success(bytes) => ChunkResolution(Success(bytes), Some(entries[key := bytes]), 1)
  }

  /** Every entry the cache holds for file `name` is the byte range its key
      names, read from that file's source. */
  ghost predicate ChunkCacheCoherent(entries: map<string, seq<byte>>, name: string, source: seq<byte>) {
    forall colStart: nat, colLength: nat ::
      FormatPageDataKey(name, colStart, colLength) in entries ==>
        && colStart + colLength <= |source|
        && entries[FormatPageDataKey(name, colStart, colLength)] == source[colStart..colStart + colLength]
  }

  /** Caching is transparent: with no cache or a coherent one, the caller sees
      what a direct read of `[colStart, colStart + colLength)` gives. */
  lemma ResolveChunkIsDirectRead(source: seq<byte>, name: string, cache: Option<map<string, seq<byte>>>,
                                 colStart: nat, colLength: nat)
    requires cache.Some? ==> ChunkCacheCoherent(cache.value, name, source)
    ensures ResolveChunk(source, name, cache, colStart, colLength).result == ReadRange(source, colStart, colLength)
  {
    if cache.Some? && FormatPageDataKey(name, colStart, colLength) in cache.value {
      assert cache.value[FormatPageDataKey(name, colStart, colLength)] == source[colStart..colStart + colLength];
    }
  }

  /** Inserting a freshly read chunk keeps the cache coherent, also for the
      entries of every other range of the file: their keys differ. */
  lemma ResolveChunkKeepsCoherent(source: seq<byte>, name: string, entries: map<string, seq<byte>>,
                                  colStart: nat, colLength: nat)
    requires ChunkCacheCoherent(entries, name, source)
    ensures var c := ResolveChunk(source, name, Some(entries), colStart, colLength);
      c.cache.Some? && ChunkCacheCoherent(c.cache.value, name, source)
  {
    var key := FormatPageDataKey(name, colStart, colLength);
    var c := ResolveChunk(source, name, Some(entries), colStart, colLength);
    if key !in entries && c.result.Success? {
      var after := c.cache.value;
      forall s: nat, l: nat | FormatPageDataKey(name, s, l) in after
        ensures s + l <= |source| && after[FormatPageDataKey(name, s, l)] == source[s..s + l]
      {
        if FormatPageDataKey(name, s, l) == key {
          FormatPageDataKeyInjective(name, s, l, name, colStart, colLength);
        }
      }
    }
  }

  /** Column chunks are independent: resolving two of them through a coherent
      cache gives each the same bytes in either order. */
  lemma ResolveChunksInEitherOrder(source: seq<byte>, name: string, entries: map<string, seq<byte>>,
                                   start1: nat, length1: nat, start2: nat, length2: nat)
    requires ChunkCacheCoherent(entries, name, source)
    ensures var first1 := ResolveChunk(source, name, Some(entries), start1, length1);
      var then2 := ResolveChunk(source, name, first1.cache, start2, length2);
      var first2 := ResolveChunk(source, name, Some(entries), start2, length2);
      var then1 := ResolveChunk(source, name, first2.cache, start1, length1);
      && then2.result == first2.result
      && then1.result == first1.result
  {
    var first1 := ResolveChunk(source, name, Some(entries), start1, length1);
    var first2 := ResolveChunk(source, name, Some(entries), start2, length2);
    ResolveChunkKeepsCoherent(source, name, entries, start1, length1);
    ResolveChunkKeepsCoherent(source, name, entries, start2, length2);
    ResolveChunkIsDirectRead(source, name, Some(entries), start1, length1);
    ResolveChunkIsDirectRead(source, name, Some(entries), start2, length2);
    ResolveChunkIsDirectRead(source, name, first1.cache, start2, length2);
    ResolveChunkIsDirectRead(source, name, first2.cache, start1, length1);
  }

  class SerializedRowGroupReader {
    const chunkReader: ChunkReader
    const metadata: RowGroupMetaData
    const name: string
    const dataCache: Cache?<seq<byte>>
    const library: ParquetLibrary

    constructor (chunkReader: ChunkReader, metadata: RowGroupMetaData, name: string,
                 dataCache: Cache?<seq<byte>>, library: ParquetLibrary)
      ensures this.chunkReader == chunkReader && this.metadata == metadata && this.name == name
      ensures this.dataCache == dataCache && this.library == library
    {
      this.chunkReader := chunkReader;
      this.metadata := metadata;
      this.name := name;
      this.dataCache := dataCache;
      this.library := library;
    }

    /** `num_columns` */
    function NumColumns(): nat {
      |metadata.columns|
    }

    /** The data cache's entries, if there is a cache. */
    ghost function CacheView(): Option<map<string, seq<byte>>>
      reads dataCache
    {
      if dataCache == null then None else Some(dataCache.entries)
    }

    /** `get_data`: one read of exactly the requested range. */
    method GetData(colStart: nat, colLength: nat) returns (r: Result<seq<byte>>)
      modifies chunkReader
      ensures r == ReadRange(chunkReader.bytes, colStart, colLength)
      ensures chunkReader.readCount == old(chunkReader.readCount) + 1
    {
      r := chunkReader.GetRead(colStart, colLength);
    }

    /** `get_file_chunk` */
    method GetFileChunk(colStart: nat, colLength: nat) returns (r: Result<seq<byte>>)
      modifies chunkReader, dataCache
      ensures var c := ResolveChunk(chunkReader.bytes, name, old(CacheView()), colStart, colLength);
        && r == c.result
        && CacheView() == c.cache
        && chunkReader.readCount == old(chunkReader.readCount) + c.sourceReads
    {
      if dataCache != null {
        var key := FormatPageDataKey(name, colStart, colLength);
        var cached := dataCache.Get(key);
        if cached.Some? {
          return Success(cached.value);
        }
        var data := GetData(colStart, colLength);
        if data.Failure? {
          return data;
        }
        dataCache.Put(key, data.value);
        return Success(data.value);
      } else {
        r := GetData(colStart, colLength);
      }
    }

    /** `get_column_page_reader` */
    method GetColumnPageReader(i: nat) returns (r: Result<SerializedPageReader>)
      modifies chunkReader, dataCache
      ensures i >= NumColumns() ==>
        && r == Failure(IndexOutOfBounds(i, NumColumns()))
        && CacheView() == old(CacheView())
        && chunkReader.readCount == old(chunkReader.readCount)
      ensures i < NumColumns() ==>
        var col := metadata.columns[i];
        var c := ResolveChunk(chunkReader.bytes, name, old(CacheView()), col.colStart, col.colLength);
        var codec := library.createCodec(col.compression);
        && CacheView() == c.cache
        && chunkReader.readCount == old(chunkReader.readCount) + c.sourceReads
        && (c.result.Failure? ==> r == Failure(c.result.error))
        && (c.result.Success? && codec.Failure? ==> r == Failure(codec.error))
        && (c.result.Success? && codec.Success? ==>
              && r.Success? && fresh(r.value)
              && r.value.State() == ReaderState(c.result.value, 0)
              && r.value.Env() == ChunkEnv(codec.value, col.numValues, col.physicalType,
                                           library.readPageHeader, library.statisticsFromThrift))
    {
      if i >= |metadata.columns| {
        return Failure(IndexOutOfBounds(i, |metadata.columns|));
      }
      var col := metadata.columns[i];
      var fileChunk := GetFileChunk(col.colStart, col.colLength);
      if fileChunk.Failure? {
        return Failure(fileChunk.error);
      }
      r := SerializedPageReader.New(fileChunk.value, col.numValues, col.compression, col.physicalType,
                                    library.createCodec, library.readPageHeader,
                                    library.statisticsFromThrift);
    }
  }
}
