/** `SerializedPageReader`: the pull loop that turns the bytes of one column
    chunk into dictionary, data and data-v2 pages.

    The functions first give the meaning of one call to `get_next_page` on
    values (`NextPage`); the class then runs the loop imperatively and is
    proved to compute exactly that. */
module PageReader {
  import opened Basics
  import opened Format

  /** What stays fixed for one column chunk. */
  datatype ChunkEnv = ChunkEnv(
    decompressor: Option<Codec>,
    totalNumValues: int,
    physicalType: PhysicalType,
    readPageHeader: HeaderDecoder,
    statisticsFromThrift: StatisticsDecoder)

  /** What one call changes: the unread bytes of the chunk and the number of
      values seen so far. */
  datatype ReaderState = ReaderState(buf: seq<byte>, seenNumValues: int)

  /** The uncompressed level prefix of a page (its length in bytes, as the
      `usize` the source computes) and whether the rest may be decompressed. */
  datatype LevelPrefix = LevelPrefix(offset: nat, canDecompress: bool)

  /** One pass of the loop up to the dispatch on the page type: the header, the
      number of header bytes, the (possibly decompressed) page buffer and the
      bytes left after the page. */
  datatype Pass = Pass(header: PageHeader, headerLen: nat, buffer: seq<byte>, rest: seq<byte>)

  datatype Dispatched = Produced(page: Page, seenNumValues: int) | Skipped

  datatype Step = Step(result: Result<Option<Page>>, state: ReaderState)

  /** The prefix is taken from the presence of a v2 sub-header, whatever the
      declared page type: the two level lengths, and decompression unless the
      header says `is_compressed = false`. Without one the prefix is empty and
      decompression allowed. */
  function PrefixOf(h: PageHeader): (r: LevelPrefix)
    ensures h.dataPageHeaderV2.None? ==> r == LevelPrefix(0, true)
    ensures h.dataPageHeaderV2.Some? ==>
      var v2 := h.dataPageHeaderV2.value;
      && r.offset == AsUsize(v2.definitionLevelsByteLength + v2.repetitionLevelsByteLength)
      && (r.canDecompress <==> v2.isCompressed != Some(false))
  {
    match h.dataPageHeaderV2
    case Some(v2) =>
      LevelPrefix(AsUsize(v2.definitionLevelsByteLength + v2.repetitionLevelsByteLength),
                  v2.isCompressed.GetOr(true))
    case None => LevelPrefix(0, true)
  }

  /** The source subtracts the prefix from both declared sizes, each cast to
      `usize`; neither subtraction may go below zero. */
  predicate SizesFit(h: PageHeader) {
    var offset := PrefixOf(h).offset;
    offset <= AsUsize(h.compressedPageSize) && offset <= AsUsize(h.uncompressedPageSize)
  }

  /** Decompresses the payload after the level prefix and puts the prefix back
      in front of it. */
  function Decompress(decompressor: Option<Codec>, canDecompress: bool, offset: nat,
                      uncompressedLen: int, raw: seq<byte>): (r: Result<seq<byte>>)
    requires offset <= |raw|
    ensures decompressor.None? || !canDecompress ==> r == Success(raw)
    ensures decompressor.Some? && canDecompress ==>
      (r.Success? <==> decompressor.value(raw[offset..]).Success?
                       && |decompressor.value(raw[offset..]).value| == uncompressedLen)
    ensures decompressor.Some? && canDecompress && r.Success? ==>
      && |r.value| == offset + uncompressedLen
      && r.value[..offset] == raw[..offset]
      && decompressor.value(raw[offset..]) == Success(r.value[offset..])
    ensures decompressor.Some? && canDecompress && decompressor.value(raw[offset..]).Failure? ==>
      r == Failure(decompressor.value(raw[offset..]).error)
    ensures decompressor.Some? && canDecompress && decompressor.value(raw[offset..]).Success?
            && |decompressor.value(raw[offset..]).value| != uncompressedLen ==>
      r == Failure(DecompressedSizeMismatch(|decompressor.value(raw[offset..]).value|, uncompressedLen))
  {
    if decompressor.Some? && canDecompress then
      match decompressor.value(raw[offset..])
      case Failure(e) => Failure(e)
      case Success(out) =>
        if |out| != uncompressedLen then Failure(DecompressedSizeMismatch(|out|, uncompressedLen))
        else Success(raw[..offset] + out)
    else
      Success(raw)
  }

  /** The page bytes a decoded header announces: `compressed_page_size` as a
      `usize` (the level prefix included), decompressed after the prefix. */
  function PageBuffer(env: ChunkEnv, h: PageHeader, raw: seq<byte>): Result<seq<byte>>
    requires SizesFit(h) && |raw| == AsUsize(h.compressedPageSize)
  {
    var prefix := PrefixOf(h);
    Decompress(env.decompressor, prefix.canDecompress, prefix.offset,
               AsUsize(h.uncompressedPageSize) - prefix.offset, raw)
  }

  /** Reads one header and the page bytes that follow it, and decompresses them. */
  function ReadPass(env: ChunkEnv, buf: seq<byte>): (r: Result<Pass>)
    ensures env.readPageHeader(buf).Failure? ==> r == Failure(env.readPageHeader(buf).error)
    ensures env.readPageHeader(buf).Success? ==>
      var d := env.readPageHeader(buf).value;
      var h, size := d.header, AsUsize(d.header.compressedPageSize);
      && (!SizesFit(h) ==>
            r == Failure(MalformedPageSizes(PrefixOf(h).offset, h.compressedPageSize, h.uncompressedPageSize)))
      && (SizesFit(h) && |buf| < d.consumed + size ==>
            r == Failure(UnexpectedEof(size, |buf| - d.consumed)))
      && (SizesFit(h) && d.consumed + size <= |buf| ==>
            var raw := buf[d.consumed..d.consumed + size];
            && (r.Success? <==> PageBuffer(env, h, raw).Success?)
            && (r.Failure? ==> r.error == PageBuffer(env, h, raw).error)
            && (r.Success? ==> r.value == Pass(h, d.consumed, PageBuffer(env, h, raw).value,
                                               buf[d.consumed + size..])))
    ensures r.Success? ==> 1 <= r.value.headerLen && |r.value.rest| < |buf|
  {
    match env.readPageHeader(buf)
    case Failure(e) => Failure(e)
    case Success(d) =>
      var h := d.header;
      if !SizesFit(h) then
        Failure(MalformedPageSizes(PrefixOf(h).offset, h.compressedPageSize, h.uncompressedPageSize))
      else
        var size := AsUsize(h.compressedPageSize);
        if |buf| - d.consumed < size then
          Failure(UnexpectedEof(size, |buf| - d.consumed))
        else
          match PageBuffer(env, h, buf[d.consumed..d.consumed + size])
          case Failure(e) => Failure(e)
          case Success(buffer) => Success(Pass(h, d.consumed, buffer, buf[d.consumed + size..]))
  }

  /** A data-v2 page whose `is_compressed` flag is absent is treated as
      compressed: with a codec, its payload after the level prefix is the
      codec's output and the page buffer has exactly `uncompressed_page_size`
      bytes, the level prefix being kept as read. */
  lemma AbsentIsCompressedMeansCompressed(env: ChunkEnv, buf: seq<byte>)
    requires env.decompressor.Some?
    requires ReadPass(env, buf).Success?
    requires ReadPass(env, buf).value.header.dataPageHeaderV2.Some?
    requires ReadPass(env, buf).value.header.dataPageHeaderV2.value.isCompressed.None?
    ensures var p := ReadPass(env, buf).value;
      var offset := PrefixOf(p.header).offset;
      var raw := buf[p.headerLen..p.headerLen + AsUsize(p.header.compressedPageSize)];
      && offset <= |raw|
      && |p.buffer| == AsUsize(p.header.uncompressedPageSize)
      && p.buffer[..offset] == raw[..offset]
      && env.decompressor.value(raw[offset..]) == Success(p.buffer[offset..])
  {
  }

  /** Builds the typed page for a header; index pages (and every page type
      without a case of its own) are skipped. */
  function Dispatch(env: ChunkEnv, h: PageHeader, buffer: seq<byte>, seen: int): (r: Result<Dispatched>)
    ensures r == Success(Skipped) <==> h.pageType == IndexPage
    ensures r.Failure? <==>
      || (h.pageType == PageType.DictionaryPage && h.dictionaryPageHeader.None?)
      || (h.pageType == PageType.DataPage && h.dataPageHeader.None?)
      || (h.pageType == PageType.DataPageV2 && h.dataPageHeaderV2.None?)
    ensures r.Failure? ==> r.error == MissingSubHeader(h.pageType)
    ensures r.Success? && r.value.Produced? ==>
      var page := r.value.page;
      && page.buf == buffer
      && (h.pageType == PageType.DictionaryPage ==>
            var dict := h.dictionaryPageHeader.value;
            && page.DictionaryPage?
            && r.value.seenNumValues == seen
            && page.numValues == AsU32(dict.numValues)
            && page.encoding == dict.encoding
            && (page.isSorted <==> dict.isSorted == Some(true)))
      && (h.pageType == PageType.DataPage ==>
            var dp := h.dataPageHeader.value;
            && page.DataPage?
            && r.value.seenNumValues == seen + dp.numValues
            && page.numValues == AsU32(dp.numValues)
            && page.encoding == dp.encoding
            && page.defLevelEncoding == dp.definitionLevelEncoding
            && page.repLevelEncoding == dp.repetitionLevelEncoding
            && page.statistics == env.statisticsFromThrift(env.physicalType, dp.statistics))
      && (h.pageType == PageType.DataPageV2 ==>
            var v2 := h.dataPageHeaderV2.value;
            && page.DataPageV2?
            && r.value.seenNumValues == seen + v2.numValues
            && page.numValues == AsU32(v2.numValues)
            && page.encoding == v2.encoding
            && page.numNulls == AsU32(v2.numNulls)
            && page.numRows == AsU32(v2.numRows)
            && page.defLevelsByteLen == AsU32(v2.definitionLevelsByteLength)
            && page.repLevelsByteLen == AsU32(v2.repetitionLevelsByteLength)
            && (page.isCompressed <==> v2.isCompressed != Some(false))
            && page.statistics == env.statisticsFromThrift(env.physicalType, v2.statistics))
  {
    match h.pageType
    case DictionaryPage =>
      if h.dictionaryPageHeader.None? then Failure(MissingSubHeader(h.pageType))
      else
        var dict := h.dictionaryPageHeader.value;
        Success(Produced(
          Page.DictionaryPage(buffer, AsU32(dict.numValues), dict.encoding, dict.isSorted.GetOr(false)),
          seen))
    case DataPage =>
      if h.dataPageHeader.None? then Failure(MissingSubHeader(h.pageType))
      else
        var dp := h.dataPageHeader.value;
        Success(Produced(
          Page.DataPage(buffer, AsU32(dp.numValues), dp.encoding,
                        dp.definitionLevelEncoding, dp.repetitionLevelEncoding,
                        env.statisticsFromThrift(env.physicalType, dp.statistics)),
          seen + dp.numValues))
    case DataPageV2 =>
      if h.dataPageHeaderV2.None? then Failure(MissingSubHeader(h.pageType))
      else
        var v2 := h.dataPageHeaderV2.value;
        Success(Produced(
          Page.DataPageV2(buffer, AsU32(v2.numValues), v2.encoding, AsU32(v2.numNulls),
                          AsU32(v2.numRows), AsU32(v2.definitionLevelsByteLength),
                          AsU32(v2.repetitionLevelsByteLength), v2.isCompressed.GetOr(true),
                          env.statisticsFromThrift(env.physicalType, v2.statistics)),
          seen + v2.numValues))
    case IndexPage => Success(Skipped)
  }

  /** One call of `get_next_page`: the result and the state afterwards. After an
      error only `seenNumValues` is given meaning (it is unchanged); the reader
      is not to be used again. */
  function NextPage(env: ChunkEnv, st: ReaderState): (s: Step)
    ensures s.result.Success? && s.result.value.Some? ==> |s.state.buf| < |st.buf|
    decreases |st.buf|
  {
    if st.seenNumValues >= env.totalNumValues then Step(Success(None), st)
    else
      match ReadPass(env, st.buf)
      case Failure(e) => Step(Failure(e), st)
      case Success(p) =>
        match Dispatch(env, p.header, p.buffer, st.seenNumValues)
        case Failure(e) => Step(Failure(e), st)
        case Success(Skipped) => NextPage(env, ReaderState(p.rest, st.seenNumValues))
        case Success(Produced(page, seen)) => Step(Success(Some(page)), ReaderState(p.rest, seen))
  }

  /** A pass below the total whose header is a page the reader builds returns
      that page, with the stream after it and the count the dispatch gives. */
  lemma NextPageProduces(env: ChunkEnv, st: ReaderState)
    requires st.seenNumValues < env.totalNumValues
    requires ReadPass(env, st.buf).Success?
    requires var p := ReadPass(env, st.buf).value;
      Dispatch(env, p.header, p.buffer, st.seenNumValues).Success?
      && Dispatch(env, p.header, p.buffer, st.seenNumValues).value.Produced?
    ensures var p := ReadPass(env, st.buf).value;
      var d := Dispatch(env, p.header, p.buffer, st.seenNumValues).value;
      NextPage(env, st) == Step(Success(Some(d.page)), ReaderState(p.rest, d.seenNumValues))
  {
  }

  /** A well-formed data page is read: a header that decodes, whose sizes fit
      the stream and whose payload decompresses, yields the data page built
      from it, and the stream continues after its `compressed_page_size`
      bytes. */
  lemma WellFormedDataPageIsRead(env: ChunkEnv, st: ReaderState)
    requires st.seenNumValues < env.totalNumValues
    requires env.readPageHeader(st.buf).Success?
    requires var d := env.readPageHeader(st.buf).value;
      var size := AsUsize(d.header.compressedPageSize);
      && d.header.pageType == PageType.DataPage
      && d.header.dataPageHeader.Some?
      && SizesFit(d.header)
      && d.consumed + size <= |st.buf|
      && PageBuffer(env, d.header, st.buf[d.consumed..d.consumed + size]).Success?
    ensures var d := env.readPageHeader(st.buf).value;
      var size := AsUsize(d.header.compressedPageSize);
      var dp := d.header.dataPageHeader.value;
      var s := NextPage(env, st);
      && s.result.Success? && s.result.value.Some?
      && s.result.value.value.DataPage?
      && s.result.value.value.buf == PageBuffer(env, d.header, st.buf[d.consumed..d.consumed + size]).value
      && s.result.value.value.numValues == AsU32(dp.numValues)
      && s.state == ReaderState(st.buf[d.consumed + size..], st.seenNumValues + dp.numValues)
  {
    NextPageProduces(env, st);
  }

  /** `get_next_page` returns `None` exactly when, on entry, the values seen
      already reach the chunk's total: skipped pages never end the chunk, and
      running out of bytes is an error, not the end. */
  lemma {:induction false} NextPageNoneIffExhausted(env: ChunkEnv, st: ReaderState)
    ensures NextPage(env, st).result == Success(None) <==> st.seenNumValues >= env.totalNumValues
    decreases |st.buf|
  {
    if st.seenNumValues < env.totalNumValues {
      match ReadPass(env, st.buf)
      case Failure(_) =>
      case Success(p) =>
        match Dispatch(env, p.header, p.buffer, st.seenNumValues)
        case Failure(_) =>
        case Success(Skipped) => NextPageNoneIffExhausted(env, ReaderState(p.rest, st.seenNumValues));
        case Success(Produced(_, _)) =>
    }
  }

  /** The count a data page or data-v2 page adds fits the `u32` the page
      reports it in; other page types add nothing. */
  predicate HeaderCountsFit(h: PageHeader) {
    && (h.pageType == PageType.DataPage && h.dataPageHeader.Some? ==>
          0 <= h.dataPageHeader.value.numValues < U32_LIMIT)
    && (h.pageType == PageType.DataPageV2 && h.dataPageHeaderV2.Some? ==>
          0 <= h.dataPageHeaderV2.value.numValues < U32_LIMIT)
  }

  /** Every page the reader goes on to produce from `st`, until it reaches the
      total or stops with an error, has a count that fits. Bytes after that
      point are not looked at. */
  predicate ChunkCountsFit(env: ChunkEnv, st: ReaderState)
    decreases |st.buf|
  {
    st.seenNumValues >= env.totalNumValues ||
    match ReadPass(env, st.buf)
    case Failure(_) => true
    case Success(p) =>
      match Dispatch(env, p.header, p.buffer, st.seenNumValues)
      case Failure(_) => true
      case Success(Skipped) => ChunkCountsFit(env, ReaderState(p.rest, st.seenNumValues))
      case Success(Produced(_, seen)) =>
        HeaderCountsFit(p.header) && ChunkCountsFit(env, ReaderState(p.rest, seen))
  }

  /** The premise carries over to the state one call leaves. */
  lemma {:induction false} NextPageKeepsCountsFit(env: ChunkEnv, st: ReaderState)
    requires ChunkCountsFit(env, st)
    ensures ChunkCountsFit(env, NextPage(env, st).state)
    decreases |st.buf|
  {
    if st.seenNumValues < env.totalNumValues {
      match ReadPass(env, st.buf)
      case Failure(_) =>
      case Success(p) =>
        match Dispatch(env, p.header, p.buffer, st.seenNumValues)
        case Failure(_) =>
        case Success(Skipped) => NextPageKeepsCountsFit(env, ReaderState(p.rest, st.seenNumValues));
        case Success(Produced(_, _)) =>
    }
  }

  /** The values a page counts towards the chunk's total. */
  function ValuesIn(page: Page): nat {
    if page.DictionaryPage? then 0 else page.numValues
  }

  /** `seenNumValues` grows by exactly the values of the page returned: by
      nothing for a dictionary page, an error or the end of the chunk. In
      particular it never decreases. */
  lemma {:induction false} NextPageSeen(env: ChunkEnv, st: ReaderState)
    requires ChunkCountsFit(env, st)
    ensures var s := NextPage(env, st);
      s.state.seenNumValues
        == st.seenNumValues + if s.result.Success? && s.result.value.Some? then ValuesIn(s.result.value.value) else 0
    ensures NextPage(env, st).state.seenNumValues >= st.seenNumValues
    decreases |st.buf|
  {
    if st.seenNumValues < env.totalNumValues {
      match ReadPass(env, st.buf)
      case Failure(_) =>
      case Success(p) =>
        match Dispatch(env, p.header, p.buffer, st.seenNumValues)
        case Failure(_) =>
        case Success(Skipped) => NextPageSeen(env, ReaderState(p.rest, st.seenNumValues));
        case Success(Produced(_, _)) =>
    }
  }

  /** Pulling pages until the reader says "no more" (the `Iterator` view). */
  function ReadAll(env: ChunkEnv, st: ReaderState): Result<seq<Page>>
    decreases |st.buf|
  {
    var s := NextPage(env, st);
    match s.result
    case Failure(e) => Failure(e)
    case Success(None) => Success([])
    case Success(Some(page)) =>
      match ReadAll(env, s.state)
      case Failure(e) => Failure(e)
      case Success(pages) => Success([page] + pages)
  }

  function SumValues(pages: seq<Page>): nat {
    if pages == [] then 0 else ValuesIn(pages[0]) + SumValues(pages[1..])
  }

  lemma SumValuesOfPrefix(page: Page, rest: seq<Page>, k: nat)
    requires 0 < k <= |rest| + 1
    ensures SumValues(([page] + rest)[..k]) == ValuesIn(page) + SumValues(rest[..k - 1])
  {
    var pages := [page] + rest;
    assert pages[..k][0] == page;
    assert pages[..k][1..] == rest[..k - 1];
  }

  /** One step of `ReadAll`: a produced page is followed by the pages read
      from the state after it. */
  lemma ReadAllProduced(env: ChunkEnv, st: ReaderState, pages: seq<Page>)
    requires ReadAll(env, st) == Success(pages)
    requires NextPage(env, st).result.Success? && NextPage(env, st).result.value.Some?
    ensures pages != [] && pages[0] == NextPage(env, st).result.value.value
    ensures ReadAll(env, NextPage(env, st).state) == Success(pages[1..])
  {
  }

  /** Reading a chunk to its end yields pages whose value counts reach the
      chunk's total, and the reader stops at the first page that reaches it:
      every page was produced while fewer values than the total had been seen. */
  lemma {:induction false} ReadAllStopsAtTotal(env: ChunkEnv, st: ReaderState, pages: seq<Page>)
    requires ChunkCountsFit(env, st)
    requires ReadAll(env, st) == Success(pages)
    ensures st.seenNumValues + SumValues(pages) >= env.totalNumValues
    ensures forall k :: 0 <= k < |pages| ==> st.seenNumValues + SumValues(pages[..k]) < env.totalNumValues
    decreases |st.buf|
  {
    var s := NextPage(env, st);
    NextPageNoneIffExhausted(env, st);
    if s.result.Success? && s.result.value.Some? {
      var page := s.result.value.value;
      NextPageSeen(env, st);
      NextPageKeepsCountsFit(env, st);
      ReadAllProduced(env, st, pages);
      var rest := pages[1..];
      assert pages == [page] + rest;
      ReadAllStopsAtTotal(env, s.state, rest);
      forall k | 0 <= k < |pages|
        ensures st.seenNumValues + SumValues(pages[..k]) < env.totalNumValues
      {
        if k > 0 {
          SumValuesOfPrefix(page, rest, k);
        }
      }
    }
  }

  /** `Iterator::next`: `get_next_page().transpose()`. */
  function Transpose(r: Result<Option<Page>>): Option<Result<Page>> {
    match r
    case Success(None) => None
    case Success(Some(page)) => Some(Success(page))
    case Failure(e) => Some(Failure(e))
  }

  class SerializedPageReader {
    /** The unread bytes of exactly this column chunk. */
    var buf: seq<byte>
    /** Present only for a compressed chunk. */
    const decompressor: Option<Codec>
    var seenNumValues: int
    const totalNumValues: int
    const physicalType: PhysicalType
    const readPageHeader: HeaderDecoder
    const statisticsFromThrift: StatisticsDecoder

    constructor (buf: seq<byte>, totalNumValues: int, decompressor: Option<Codec>,
                 physicalType: PhysicalType, readPageHeader: HeaderDecoder,
                 statisticsFromThrift: StatisticsDecoder)
      ensures this.buf == buf && seenNumValues == 0
      ensures this.totalNumValues == totalNumValues && this.decompressor == decompressor
      ensures this.physicalType == physicalType && this.readPageHeader == readPageHeader
      ensures this.statisticsFromThrift == statisticsFromThrift
    {
      this.buf := buf;
      this.totalNumValues := totalNumValues;
      this.seenNumValues := 0;
      this.decompressor := decompressor;
      this.physicalType := physicalType;
      this.readPageHeader := readPageHeader;
      this.statisticsFromThrift := statisticsFromThrift;
    }

    /** `SerializedPageReader::new`: creating the codec may fail. */
    static method New(buf: seq<byte>, totalNumValues: int, compression: Compression,
                      physicalType: PhysicalType, createCodec: CodecFactory,
                      readPageHeader: HeaderDecoder, statisticsFromThrift: StatisticsDecoder)
      returns (r: Result<SerializedPageReader>)
      ensures r.Failure? <==> createCodec(compression).Failure?
      ensures r.Failure? ==> r.error == createCodec(compression).error
      ensures r.Success? ==>
        && fresh(r.value)
        && r.value.State() == ReaderState(buf, 0)
        && r.value.Env() == ChunkEnv(createCodec(compression).value, totalNumValues, physicalType,
                                     readPageHeader, statisticsFromThrift)
    {
      var codec := createCodec(compression);
      if codec.Failure? {
        return Failure(codec.error);
      }
      var reader := new SerializedPageReader(buf, totalNumValues, codec.value, physicalType,
                                             readPageHeader, statisticsFromThrift);
      return Success(reader);
    }

    function Env(): ChunkEnv {
      ChunkEnv(decompressor, totalNumValues, physicalType, readPageHeader, statisticsFromThrift)
    }

    function State(): ReaderState
      reads this
    {
      ReaderState(buf, seenNumValues)
    }

    /** The part of one loop pass before the dispatch on the page type: reads
        the header and the page bytes after it, and decompresses them. */
    method ReadPageBytes() returns (r: Result<Pass>)
      modifies this`buf
      ensures r == ReadPass(Env(), old(buf))
      ensures r.Success? ==> buf == r.value.rest
    {
      var decoded := readPageHeader(buf);
      if decoded.Failure? {
        return Failure(decoded.error);
      }
      var header := decoded.value.header;
      var headerLen := decoded.value.consumed;
      buf := buf[headerLen..];

      var offset: nat := 0;
      var canDecompress := true;
      if header.dataPageHeaderV2.Some? {
        var v2 := header.dataPageHeaderV2.value;
        offset := AsUsize(v2.definitionLevelsByteLength + v2.repetitionLevelsByteLength);
        canDecompress := v2.isCompressed.GetOr(true);
      }
      assert LevelPrefix(offset, canDecompress) == PrefixOf(header);
      var compressedSize, uncompressedSize := AsUsize(header.compressedPageSize), AsUsize(header.uncompressedPageSize);
      // the source subtracts the prefix from both sizes as unsigned integers
      if compressedSize < offset || uncompressedSize < offset {
        return Failure(MalformedPageSizes(offset, header.compressedPageSize, header.uncompressedPageSize));
      }
      var compressedLen := compressedSize - offset;
      var uncompressedLen := uncompressedSize - offset;
      // all the page's bytes are consumed, whether or not they are decompressed
      if |buf| < offset + compressedLen {
        return Failure(UnexpectedEof(offset + compressedLen, |buf|));
      }
      var buffer := buf[..offset + compressedLen];
      buf := buf[offset + compressedLen..];
      ghost var expected := PageBuffer(Env(), header, old(buf)[headerLen..headerLen + compressedSize]);
      assert old(buf)[headerLen..headerLen + compressedSize] == buffer;

      if decompressor.Some? && canDecompress {
        var decompressed := decompressor.value(buffer[offset..]);
        if decompressed.Failure? {
          return Failure(decompressed.error);
        }
        if |decompressed.value| != uncompressedLen {
          return Failure(DecompressedSizeMismatch(|decompressed.value|, uncompressedLen));
        }
        if offset == 0 {
          buffer := decompressed.value;
        } else {
          // keep the level prefix and append the decompressed payload
          buffer := buffer[..offset];
          buffer := buffer + decompressed.value;
        }
      }
      assert expected == Success(buffer);
      assert buf == old(buf)[headerLen + compressedSize..];
      r := Success(Pass(header, headerLen, buffer, buf));
    }

    /** `get_next_page` */
    method GetNextPage() returns (r: Result<Option<Page>>)
      modifies this
      ensures r == NextPage(Env(), old(State())).result
      ensures seenNumValues == NextPage(Env(), old(State())).state.seenNumValues
      ensures r.Success? ==> State() == NextPage(Env(), old(State())).state
    {
      while seenNumValues < totalNumValues
        invariant NextPage(Env(), State()) == NextPage(Env(), old(State()))
        decreases |buf|
      {
        var pass := ReadPageBytes();
        if pass.Failure? {
          return Failure(pass.error);
        }
        var header, buffer := pass.value.header, pass.value.buffer;

        match header.pageType {
          case DictionaryPage =>
            if header.dictionaryPageHeader.None? {
              return Failure(MissingSubHeader(header.pageType));
            }
            var dict := header.dictionaryPageHeader.value;
            var isSorted := dict.isSorted.GetOr(false);
            return Success(Some(Page.DictionaryPage(buffer, AsU32(dict.numValues), dict.encoding, isSorted)));
          case DataPage =>
            if header.dataPageHeader.None? {
              return Failure(MissingSubHeader(header.pageType));
            }
            var dp := header.dataPageHeader.value;
            seenNumValues := seenNumValues + dp.numValues;
            return Success(Some(Page.DataPage(
              buffer, AsU32(dp.numValues), dp.encoding,
              dp.definitionLevelEncoding, dp.repetitionLevelEncoding,
              statisticsFromThrift(physicalType, dp.statistics))));
          case DataPageV2 =>
            if header.dataPageHeaderV2.None? {
              return Failure(MissingSubHeader(header.pageType));
            }
            var v2 := header.dataPageHeaderV2.value;
            var isCompressed := v2.isCompressed.GetOr(true);
            seenNumValues := seenNumValues + v2.numValues;
            return Success(Some(Page.DataPageV2(
              buffer, AsU32(v2.numValues), v2.encoding, AsU32(v2.numNulls), AsU32(v2.numRows),
              AsU32(v2.definitionLevelsByteLength), AsU32(v2.repetitionLevelsByteLength),
              isCompressed, statisticsFromThrift(physicalType, v2.statistics))));
          case IndexPage =>
            // a page type without a case of its own: skip it and read the next one
        }
      }
      return Success(None);
    }

    /** `Iterator::next` */
    method Next() returns (r: Option<Result<Page>>)
      modifies this
      ensures r == Transpose(NextPage(Env(), old(State())).result)
      ensures seenNumValues == NextPage(Env(), old(State())).state.seenNumValues
      ensures r.None? || r.value.Success? ==> State() == NextPage(Env(), old(State())).state
    {
      var page := GetNextPage();
      r := Transpose(page);
    }
  }
}
