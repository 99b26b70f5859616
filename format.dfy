/** The Parquet structures the reader works on: the page header of the Parquet
    format (as the Thrift Compact Protocol decoder delivers it), the typed pages
    the reader produces, the parsed file metadata, the errors, and the types of
    the library routines the reader calls but that are not part of this model. */
module Format {
  import opened Basics

  // ---------------------------------------------------------------------
  // Enumerations of the Parquet format

  datatype PageType = DataPage | IndexPage | DictionaryPage | DataPageV2

  datatype Encoding =
    | Plain | PlainDictionary | Rle | BitPacked | DeltaBinaryPacked
    | DeltaLengthByteArray | DeltaByteArray | RleDictionary | ByteStreamSplit

  datatype Compression = Uncompressed | Snappy | Gzip | Lzo | Brotli | Lz4 | Zstd

  datatype PhysicalType =
    | Boolean | Int32 | Int64 | Int96 | Float | Double | ByteArray | FixedLenByteArray

  // ---------------------------------------------------------------------
  // The page header and its sub-headers. Integer fields are Thrift `i32`
  // values; they are kept as `int` so that a negative or oversized value
  // written in a file can be represented and rejected.

  /** Statistics exactly as encoded in a data page header. */
  datatype EncodedStatistics = EncodedStatistics(
    max: Option<seq<byte>>,
    min: Option<seq<byte>>,
    nullCount: Option<int>,
    distinctCount: Option<int>,
    maxValue: Option<seq<byte>>,
    minValue: Option<seq<byte>>)

  datatype DataPageHeader = DataPageHeader(
    numValues: int,
    encoding: Encoding,
    definitionLevelEncoding: Encoding,
    repetitionLevelEncoding: Encoding,
    statistics: Option<EncodedStatistics>)

  datatype DictionaryPageHeader = DictionaryPageHeader(
    numValues: int,
    encoding: Encoding,
    isSorted: Option<bool>)

  datatype DataPageHeaderV2 = DataPageHeaderV2(
    numValues: int,
    numNulls: int,
    numRows: int,
    encoding: Encoding,
    definitionLevelsByteLength: int,
    repetitionLevelsByteLength: int,
    isCompressed: Option<bool>,
    statistics: Option<EncodedStatistics>)

  datatype PageHeader = PageHeader(
    pageType: PageType,
    uncompressedPageSize: int,
    compressedPageSize: int,
    dataPageHeader: Option<DataPageHeader>,
    dictionaryPageHeader: Option<DictionaryPageHeader>,
    dataPageHeaderV2: Option<DataPageHeaderV2>)

  // ---------------------------------------------------------------------
  // Typed pages handed to the caller

  /** Decoded column statistics; stands for the statistics value of the
      Parquet library, which this model only passes along. */
  datatype Statistics = Statistics(
    physicalType: PhysicalType,
    min: Option<seq<byte>>,
    max: Option<seq<byte>>,
    nullCount: int,
    distinctCount: Option<int>)

  datatype Page =
    | DictionaryPage(buf: seq<byte>, numValues: nat, encoding: Encoding, isSorted: bool)
    | DataPage(
        buf: seq<byte>, numValues: nat, encoding: Encoding,
        defLevelEncoding: Encoding, repLevelEncoding: Encoding,
        statistics: Option<Statistics>)
    | DataPageV2(
        buf: seq<byte>, numValues: nat, encoding: Encoding,
        numNulls: nat, numRows: nat, defLevelsByteLen: nat, repLevelsByteLen: nat,
        isCompressed: bool, statistics: Option<Statistics>)

  // ---------------------------------------------------------------------
  // Parsed file metadata (immutable once parsed)

  datatype FileMetaData = FileMetaData(version: int, numRows: int, createdBy: Option<string>)

  /** One column chunk: its byte range `[colStart, colStart + colLength)` in the
      file, its value count, its compression and its physical type. */
  datatype ColumnChunkMetaData = ColumnChunkMetaData(
    colStart: nat,
    colLength: nat,
    numValues: int,
    compression: Compression,
    physicalType: PhysicalType)

  datatype RowGroupMetaData = RowGroupMetaData(
    columns: seq<ColumnChunkMetaData>,
    numRows: int,
    totalByteSize: int)

  datatype ParquetMetaData = ParquetMetaData(
    fileMetadata: FileMetaData,
    rowGroups: seq<RowGroupMetaData>)

  // ---------------------------------------------------------------------
  // Errors

  datatype Error =
    | ThriftError
    | FooterError
    | UnsupportedCompression(compression: Compression)
    | CodecError
    /** fewer bytes remain than a read asked for */
    | UnexpectedEof(wanted: nat, available: nat)
    /** the level prefix of a page does not fit in its declared sizes */
    | MalformedPageSizes(offset: int, compressedPageSize: int, uncompressedPageSize: int)
    /** "Actual decompressed size doesn't match the expected one" */
    | DecompressedSizeMismatch(actual: nat, expected: int)
    /** a page type whose sub-header is absent */
    | MissingSubHeader(pageType: PageType)
    | IndexOutOfBounds(index: nat, count: nat)

  datatype Result<+T> = Success(value: T) | Failure(error: Error)

  // ---------------------------------------------------------------------
  // Library routines the reader calls; they are parameters of the model.

  /** What the page-header decoder returns: the header and how many bytes of
      the stream it consumed. */
  datatype Decoded = Decoded(header: PageHeader, consumed: nat)

  predicate ConsumesInput(r: Result<Decoded>, s: seq<byte>) {
    r.Success? ==> 1 <= r.value.consumed <= |s|
  }

  /** `PageHeader::read_from_in_protocol` over a Thrift Compact Protocol
      stream: a successful decode consumes at least one byte (the struct's stop
      field) and no more bytes than the stream holds. */
  type HeaderDecoder = d: seq<byte> -> Result<Decoded> | forall s :: ConsumesInput(d(s), s)
    witness (s: seq<byte>) => Failure(ThriftError)

  /** `Codec::decompress`: the decompressed bytes of its input. */
  type Codec = seq<byte> -> Result<seq<byte>>

  /** `create_codec`: no codec for an uncompressed chunk, an error for an
      unsupported compression. */
  type CodecFactory = Compression -> Result<Option<Codec>>

  /** `footer::parse_metadata` over the whole byte source. */
  type FooterParser = seq<byte> -> Result<ParquetMetaData>

  /** `statistics::from_thrift` */
  type StatisticsDecoder = (PhysicalType, Option<EncodedStatistics>) -> Option<Statistics>

  /** The predicate of `filter_row_groups`: row-group metadata and its index
      in the unfiltered file. */
  type RowGroupPredicate = (RowGroupMetaData, nat) -> bool

  /** The library routines one file reader uses. */
  datatype ParquetLibrary = ParquetLibrary(
    parseMetadata: FooterParser,
    createCodec: CodecFactory,
    readPageHeader: HeaderDecoder,
    statisticsFromThrift: StatisticsDecoder)
}
