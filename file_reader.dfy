/** `CachableSerializedFileReader`: resolves the file metadata through the
    optional metadata cache, hands out row-group readers and filters the row
    groups it shows. */
module FileReader {
  import opened Basics
  import opened Format
  import opened Caches
  import opened RowGroupReader

  /** The outcome of resolving a file's metadata: the metadata or the parse
      error, the metadata cache afterwards (absent when there is no cache) and
      how many times the footer was parsed. */
  datatype MetaResolution = MetaResolution(
    result: Result<ParquetMetaData>,
    cache: Option<map<string, ParquetMetaData>>,
    parses: nat)

  /** The metadata part of `CachableSerializedFileReader::new` on values. */
  function ResolveMetadata(name: string, source: seq<byte>, parse: FooterParser,
                           cache: Option<map<string, ParquetMetaData>>): (m: MetaResolution)
    ensures cache.None? ==> m == MetaResolution(parse(source), None, 1)
    ensures cache.Some? && name in cache.value ==>
      m == MetaResolution(Success(cache.value[name]), cache, 0)
    ensures cache.Some? && name !in cache.value ==>
      && m.parses == 1
      && m.result == parse(source)
      && m.cache == if m.result.Success? then Some(cache.value[name := m.result.value]) else cache
  {
    match cache
    case None => MetaResolution(parse(source), None, 1)
    case Some(entries) =>
      if name in entries then MetaResolution(Success(entries[name]), cache, 0)
      else
        match parse(source)
        case Failure(e) => MetaResolution(Failure(e), cache, 1)
        case Success(metadata) => MetaResolution(Success(metadata), Some(entries[name := metadata]), 1)
  }

  /** Opening the same name a second time with the cache the first open left
      behind parses nothing, changes nothing and gives the same metadata: the
      footer is parsed at most once per cache and name. */
  lemma ResolveMetadataOnce(name: string, source: seq<byte>, source': seq<byte>, parse: FooterParser,
                            entries: map<string, ParquetMetaData>)
    requires ResolveMetadata(name, source, parse, Some(entries)).result.Success?
    ensures var first := ResolveMetadata(name, source, parse, Some(entries));
      var second := ResolveMetadata(name, source', parse, first.cache);
      && first.parses + second.parses <= 1
      && second.result == first.result
      && second.cache == first.cache
  {
  }

  /** A cache whose entry for `name`, if any, is the parse of that file's
      source makes no difference to the metadata seen, and stays so. */
  lemma ResolveMetadataTransparent(name: string, source: seq<byte>, parse: FooterParser,
                                   cache: Option<map<string, ParquetMetaData>>)
    requires cache.Some? && name in cache.value ==> parse(source) == Success(cache.value[name])
    ensures var m := ResolveMetadata(name, source, parse, cache);
      && m.result == parse(source)
      && (m.cache.Some? && name in m.cache.value ==> parse(source) == Success(m.cache.value[name]))
  {
  }

  /** The row groups kept by `filter_row_groups` among the first `n`, in their
      original order. */
  function FilterPrefix(rowGroups: seq<RowGroupMetaData>, keep: RowGroupPredicate, n: nat): seq<RowGroupMetaData>
    requires n <= |rowGroups|
  {
    if n == 0 then []
    else FilterPrefix(rowGroups, keep, n - 1)
         + if keep(rowGroups[n - 1], n - 1) then [rowGroups[n - 1]] else []
  }

  /** The row groups `filter_row_groups` keeps. A predicate that accepts every
      row group keeps the list as it is. */
  function FilterRowGroupsOf(rowGroups: seq<RowGroupMetaData>, keep: RowGroupPredicate): (r: seq<RowGroupMetaData>)
    ensures (forall i :: 0 <= i < |rowGroups| ==> keep(rowGroups[i], i)) ==> r == rowGroups
  {
    FilterPrefixKeepsAll(rowGroups, keep, |rowGroups|);
    FilterPrefix(rowGroups, keep, |rowGroups|)
  }

  /** A prefix whose every row group is accepted is kept whole. */
  lemma {:induction false} FilterPrefixKeepsAll(rowGroups: seq<RowGroupMetaData>, keep: RowGroupPredicate, n: nat)
    requires n <= |rowGroups|
    ensures (forall i :: 0 <= i < n ==> keep(rowGroups[i], i)) ==> FilterPrefix(rowGroups, keep, n) == rowGroups[..n]
  {
    if n > 0 {
      FilterPrefixKeepsAll(rowGroups, keep, n - 1);
      assert rowGroups[..n] == rowGroups[..n - 1] + [rowGroups[n - 1]];
    }
  }

  /** The original indices, among the first `n`, that the predicate accepts. */
  function KeptIndices(rowGroups: seq<RowGroupMetaData>, keep: RowGroupPredicate, n: nat): seq<nat>
    requires n <= |rowGroups|
  {
    if n == 0 then []
    else KeptIndices(rowGroups, keep, n - 1)
         + if keep(rowGroups[n - 1], n - 1) then [n - 1] else []
  }

  /** The indices kept are exactly those the predicate accepts. */
  lemma {:induction false} KeptIndicesExactly(rowGroups: seq<RowGroupMetaData>, keep: RowGroupPredicate, n: nat)
    requires n <= |rowGroups|
    ensures forall k :: 0 <= k < |KeptIndices(rowGroups, keep, n)| ==> KeptIndices(rowGroups, keep, n)[k] < n
    ensures forall i :: 0 <= i < n ==> (i in KeptIndices(rowGroups, keep, n) <==> keep(rowGroups[i], i))
  {
    if n > 0 {
      KeptIndicesExactly(rowGroups, keep, n - 1);
    }
  }

  /** The kept indices are in increasing order. */
  lemma {:induction false} KeptIndicesIncreasing(rowGroups: seq<RowGroupMetaData>, keep: RowGroupPredicate, n: nat)
    requires n <= |rowGroups|
    ensures forall k, k' :: 0 <= k < k' < |KeptIndices(rowGroups, keep, n)| ==>
      KeptIndices(rowGroups, keep, n)[k] < KeptIndices(rowGroups, keep, n)[k']
  {
    if n > 0 {
      KeptIndicesIncreasing(rowGroups, keep, n - 1);
      KeptIndicesExactly(rowGroups, keep, n - 1);
    }
  }

  /** The filtered list holds the row groups at the kept indices. */
  lemma {:induction false} FilterPrefixAtKeptIndices(rowGroups: seq<RowGroupMetaData>, keep: RowGroupPredicate, n: nat)
    requires n <= |rowGroups|
    ensures var kept, idx := FilterPrefix(rowGroups, keep, n), KeptIndices(rowGroups, keep, n);
      && |kept| == |idx|
      && forall k :: 0 <= k < |idx| ==> idx[k] < |rowGroups| && kept[k] == rowGroups[idx[k]]
  {
    if n > 0 {
      FilterPrefixAtKeptIndices(rowGroups, keep, n - 1);
      KeptIndicesExactly(rowGroups, keep, n - 1);
    }
  }

  /** `filter_row_groups` keeps exactly the row groups `i` with
      `keep(rowGroups[i], i)`, in their original order. */
  lemma FilterRowGroupsKeepsExactly(rowGroups: seq<RowGroupMetaData>, keep: RowGroupPredicate)
    ensures var kept, idx := FilterRowGroupsOf(rowGroups, keep), KeptIndices(rowGroups, keep, |rowGroups|);
      && |kept| == |idx|
      && (forall k :: 0 <= k < |idx| ==> idx[k] < |rowGroups| && kept[k] == rowGroups[idx[k]])
      && (forall k, k' :: 0 <= k < k' < |idx| ==> idx[k] < idx[k'])
      && (forall i :: 0 <= i < |rowGroups| ==> (i in idx <==> keep(rowGroups[i], i)))
  {
    FilterPrefixAtKeptIndices(rowGroups, keep, |rowGroups|);
    KeptIndicesIncreasing(rowGroups, keep, |rowGroups|);
    KeptIndicesExactly(rowGroups, keep, |rowGroups|);
  }

  /** An always-false predicate leaves no row group: no index is accepted, so
      none is kept. */
  lemma FilterNothingKept(rowGroups: seq<RowGroupMetaData>, keep: RowGroupPredicate)
    requires forall i :: 0 <= i < |rowGroups| ==> !keep(rowGroups[i], i)
    ensures FilterRowGroupsOf(rowGroups, keep) == []
  {
    FilterRowGroupsKeepsExactly(rowGroups, keep);
    var idx := KeptIndices(rowGroups, keep, |rowGroups|);
    assert forall x :: x !in idx;
    assert multiset(idx) == multiset{};
  }

  class CachableSerializedFileReader {
    const name: string
    const chunkReader: ChunkReader
    var metadata: ParquetMetaData
    const dataCache: Cache?<seq<byte>>
    const library: ParquetLibrary

    constructor (name: string, chunkReader: ChunkReader, metadata: ParquetMetaData,
                 dataCache: Cache?<seq<byte>>, library: ParquetLibrary)
      ensures this.name == name && this.chunkReader == chunkReader && this.metadata == metadata
      ensures this.dataCache == dataCache && this.library == library
    {
      this.name := name;
      this.chunkReader := chunkReader;
      this.metadata := metadata;
      this.dataCache := dataCache;
      this.library := library;
    }

    /** `CachableSerializedFileReader::new`; `parses` counts the footer parses. */
    static method New(name: string, chunkReader: ChunkReader, metaCache: Cache?<ParquetMetaData>,
                      dataCache: Cache?<seq<byte>>, library: ParquetLibrary)
      returns (r: Result<CachableSerializedFileReader>, ghost parses: nat)
      modifies metaCache
      ensures var m := ResolveMetadata(name, chunkReader.bytes, library.parseMetadata,
                                       if metaCache == null then None else Some(old(metaCache.entries)));
        && parses == m.parses
        && (metaCache != null ==> Some(metaCache.entries) == m.cache)
        && (m.result.Failure? ==> r == Failure(m.result.error))
        && (m.result.Success? ==>
              && r.Success? && fresh(r.value)
              && r.value.metadata == m.result.value
              && r.value.name == name && r.value.chunkReader == chunkReader
              && r.value.dataCache == dataCache && r.value.library == library)
    {
      var metadata: ParquetMetaData;
      parses := 0;
      if metaCache != null {
        var cached := metaCache.Get(name);
        if cached.Some? {
          metadata := cached.value;
        } else {
          var parsed := library.parseMetadata(chunkReader.bytes);
          parses := parses + 1;
          if parsed.Failure? {
            return Failure(parsed.error), parses;
          }
          metadata := parsed.value;
          metaCache.Put(name, metadata);
        }
      } else {
        var parsed := library.parseMetadata(chunkReader.bytes);
        parses := parses + 1;
        if parsed.Failure? {
          return Failure(parsed.error), parses;
        }
        metadata := parsed.value;
      }
      var reader := new CachableSerializedFileReader(name, chunkReader, metadata, dataCache, library);
      r := Success(reader);
    }

    /** `filter_row_groups`: keeps the row groups the predicate accepts, passing
        each its original index; the file-level metadata stays as it was. */
    method FilterRowGroups(keep: RowGroupPredicate)
      modifies this
      ensures metadata == ParquetMetaData(old(metadata.fileMetadata),
                                          FilterRowGroupsOf(old(metadata.rowGroups), keep))
    {
      var rowGroups := metadata.rowGroups;
      var filtered: seq<RowGroupMetaData> := [];
      for i := 0 to |rowGroups|
        invariant filtered == FilterPrefix(rowGroups, keep, i)
      {
        if keep(rowGroups[i], i) {
          filtered := filtered + [rowGroups[i]];
        }
      }
      metadata := ParquetMetaData(metadata.fileMetadata, filtered);
    }

    /** `metadata` */
    function Metadata(): ParquetMetaData
      reads this
    {
      metadata
    }

    /** `num_row_groups` */
    function NumRowGroups(): nat
      reads this
    {
      |metadata.rowGroups|
    }

    /** `get_row_group`: a reader over row group `i` that shares this reader's
        byte source and data cache. */
    method GetRowGroup(i: nat) returns (r: Result<SerializedRowGroupReader>)
      ensures i >= NumRowGroups() ==> r == Failure(IndexOutOfBounds(i, NumRowGroups()))
      ensures i < NumRowGroups() ==>
        && r.Success? && fresh(r.value)
        && r.value.metadata == metadata.rowGroups[i]
        && r.value.chunkReader == chunkReader && r.value.name == name
        && r.value.dataCache == dataCache && r.value.library == library
    {
      if i >= |metadata.rowGroups| {
        return Failure(IndexOutOfBounds(i, |metadata.rowGroups|));
      }
      var reader := new SerializedRowGroupReader(chunkReader, metadata.rowGroups[i], name, dataCache, library);
      r := Success(reader);
    }
  }

  /** After filtering with an always-false predicate a reader has no row groups. */
  method FilterAllRowGroups(reader: CachableSerializedFileReader)
    modifies reader
    ensures reader.NumRowGroups() == 0
    ensures reader.metadata.fileMetadata == old(reader.metadata.fileMetadata)
  {
    var nothing: RowGroupPredicate := (_, _) => false;
    reader.FilterRowGroups(nothing);
    FilterNothingKept(old(reader.metadata.rowGroups), nothing);
  }
}
