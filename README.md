# Caching Parquet column-chunk reader: a Dafny model

This project models the caching read path of CeresDB's Parquet component
(`components/parquet/src/serialized_reader.rs`). The path has three layers:

* **File reader** (`CachableSerializedFileReader`). It resolves the file's parsed
  metadata: a hit in the optional metadata cache is reused, and a miss parses
  the footer once and stores the result. It hands out row-group readers, and
  `filter_row_groups` rebuilds the row-group list from a predicate.
* **Row-group reader** (`SerializedRowGroupReader`). It resolves a column chunk's
  bytes `[col_start, col_start + col_length)`. With a data cache it uses the key
  `"{name}_{col_start}_{col_length}"`. A hit returns the cached bytes. A miss
  reads the range and inserts exactly those bytes. It then builds a page reader
  over the chunk.
* **Page reader** (`SerializedPageReader`). This is the pull loop of
  `get_next_page`. While `seen_num_values < total_num_values`, each pass does
  the following:
  - it reads a Parquet `PageHeader`;
  - for a header with a data-page-v2 sub-header, it computes the uncompressed
    level prefix and the `is_compressed` default;
  - it reads `compressed_page_size` bytes;
  - it decompresses the payload after the prefix, checks the decompressed size
    and puts the prefix back in front;
  - it builds a dictionary, data or data-v2 page, or skips any other page type.

Modules follow these layers:

* `Basics`: bytes, `Option`, and the `as u32` and `as usize` casts.
* `Format`: the page header, pages, metadata, errors and library-routine types.
* `CacheKey`: the data-cache key and its proofs.
* `Caches`: the byte source and the two caches, as classes.
* `PageReader`, `RowGroupReader`, `FileReader`: the three layers.

The parts that change state in place are
classes whose methods are proved equal to value-level specification
functions (`NextPage`, `ReadPass`, `ResolveChunk`, `ResolveMetadata`,
`FilterRowGroupsOf`). The lemmas state the properties of those functions.

Library code outside this file is passed in as function-valued parameters,
bundled in `Format.ParquetLibrary`:

* the Thrift Compact Protocol page-header decoder;
* `footer::parse_metadata`;
* `create_codec` and `Codec::decompress`;
* `statistics::from_thrift`.

The header decoder's type requires that a successful decode consumes at least
one byte and no more than the stream holds. This is what makes the loop
terminate across skipped pages.

Where the code departs from what a Parquet reader is meant to do, the model
follows the code:

* The loop condition is `seen_num_values < total_num_values`. A data page
  whose count overshoots the total still ends the chunk. So
  `ReadAllStopsAtTotal` proves "the counts reach at least the total, and every
  page was produced while below it". It does not prove exact equality.
* The declared sizes and the prefix are cast to `usize` (64 bits) as the code
  casts them, so a negative `i32` becomes a value near 2^64 (`AsUsize`). A
  negative `uncompressed_page_size` therefore passes the size checks, and with
  no codec the page is read as it is.

Each panic of the code becomes an error outcome instead. The model then does
not follow the code, which would abort the thread:

* `row_group(i)` and `column(i)` on an index that is out of range panic in the
  code. The model turns them into an `IndexOutOfBounds` error.
* The `assert!`s on a missing sub-header become a `MissingSubHeader` error.
* The unchecked subtractions of the prefix from the two cast sizes panic in a
  debug build and wrap in a release build. They become a `MalformedPageSizes`
  error exactly when a cast size is below the prefix.

## Model

| member | source | states |
|---|---|---|
| `Basics.AsU32` | components/parquet/src/serialized_reader.rs:346-378 | the `as u32` cast: result below 2^32, congruent to the input modulo 2^32, identity on values that fit |
| `Basics.AsUsize` | components/parquet/src/serialized_reader.rs:304-311 | the `as usize` cast of an `i32` on a 64-bit target: identity on non-negative values, `2^64 + x` on a negative `x` |
| `CacheKey.Decimal` | components/parquet/src/serialized_reader.rs:44 | `{}` formatting of an unsigned integer: at least one character, all decimal digits, no leading zero |
| `CacheKey.ParseDecimalOfDecimal` | components/parquet/src/serialized_reader.rs:44 | reading the decimal text of `n` gives back `n` |
| `CacheKey.FormatPageDataKey` | components/parquet/src/serialized_reader.rs:43-45 | the key starts with the name and a `_`; after the name only digits and `_` follow, and it ends in a digit |
| `CacheKey.SplitFormatPageDataKey` | components/parquet/src/serialized_reader.rs:43-45 | reading `name_start_length` from the right returns exactly `(name, start, length)`, for any name, including names that contain `_` |
| `CacheKey.FormatPageDataKeyInjective` | components/parquet/src/serialized_reader.rs:43-45 | equal keys come from equal (name, start, length) triples, so distinct ranges or files never share a cache entry |
| `Caches.ReadRange` | components/parquet/src/serialized_reader.rs:176-181 | a read succeeds exactly when the range lies inside the source and then returns exactly `length` bytes, `source[start..start+length]` |
| `Caches.ChunkReader.GetRead` | components/parquet/src/serialized_reader.rs:177 | a positioned read returns `ReadRange` of the source and counts one read |
| `Caches.Cache.Get` | components/parquet/src/serialized_reader.rs:86 | a lookup (metadata cache by name, data cache by key) finds a value exactly when the key is present, and returns the stored value |
| `Caches.Cache.Put` | components/parquet/src/serialized_reader.rs:90 | an insertion maps the key to the value and changes no other entry |
| `PageReader.PrefixOf` | components/parquet/src/serialized_reader.rs:300-308 | without a v2 sub-header the prefix is empty and decompression allowed. With one, the prefix is `(def_len + rep_len) as usize`, and decompression is allowed unless `is_compressed` is `Some(false)` |
| `PageReader.Decompress` | components/parquet/src/serialized_reader.rs:318-337 | with no codec or `can_decompress` false, the bytes are used as read. Otherwise it succeeds exactly when the codec succeeds on the bytes after the prefix with `uncompressed_len` bytes. The result is the unchanged prefix followed by the codec's output, `offset + uncompressed_len` bytes in all. A codec error is returned as it is, and an output of the wrong size is `DecompressedSizeMismatch(actual, expected)` |
| `PageReader.ReadPass` | components/parquet/src/serialized_reader.rs:292-337 | a header error is returned. A cast size below the prefix is `MalformedPageSizes`. A stream shorter than `compressed_page_size` after the header is `UnexpectedEof(wanted, available)`. Otherwise the pass succeeds exactly when the payload decompresses: the buffer is that result, and the stream continues right after the `compressed_page_size` page bytes |
| `PageReader.AbsentIsCompressedMeansCompressed` | components/parquet/src/serialized_reader.rs:303-337 | a v2 header without `is_compressed` is decompressed when there is a codec. The buffer then has exactly `uncompressed_page_size` bytes and keeps the level prefix as read |
| `PageReader.Dispatch` | components/parquet/src/serialized_reader.rs:339-386 | an index page is skipped, and it is the only page type skipped. A missing sub-header is exactly the error case. Every page carries the pass's buffer, `num_values as u32` and the header's encoding. A dictionary page leaves the count unchanged, and `is_sorted` holds only when the header says `Some(true)`. A data page adds the header's `num_values` and carries both level encodings and `from_thrift` of the statistics. A v2 page adds `num_values`, carries `num_nulls`, `num_rows` and the level lengths cast to `u32` and the statistics, and is compressed unless the header says `Some(false)` |
| `PageReader.NextPage` | components/parquet/src/serialized_reader.rs:289-391 | each call that returns a page consumes bytes of the chunk, so repeated pulls end |
| `PageReader.NextPageProduces` | components/parquet/src/serialized_reader.rs:291-386 | below the total, a pass that succeeds and dispatches to a page returns that page, with the stream after it and the dispatch's count |
| `PageReader.WellFormedDataPageIsRead` | components/parquet/src/serialized_reader.rs:291-386 | below the total, a data-page header that decodes, fits the stream and decompresses yields that data page with its buffer and `num_values as u32`. The stream continues after the page, and the count grows by `num_values` |
| `PageReader.NextPageNoneIffExhausted` | components/parquet/src/serialized_reader.rs:291-391 | `get_next_page` returns `Ok(None)` exactly when, on entry, `seen_num_values >= total_num_values`. Skipped pages never end a chunk, and running out of bytes is an error |
| `PageReader.NextPageSeen` | components/parquet/src/serialized_reader.rs:339-386 | `seen_num_values` grows by exactly the returned page's value count. A dictionary page, an error or the end adds nothing, so the count never decreases |
| `PageReader.NextPageKeepsCountsFit` | components/parquet/src/serialized_reader.rs:291-386 | if every page the reader goes on to produce has a count that fits, this still holds in the state one call leaves |
| `PageReader.ReadAllStopsAtTotal` | components/parquet/src/serialized_reader.rs:284-391 | draining the reader yields pages whose value counts reach the chunk total, and every page was produced while the running count was still below it |
| `PageReader.SerializedPageReader.constructor` | components/parquet/src/serialized_reader.rs:263-269 | a new reader holds the chunk's bytes and starts with `seen_num_values == 0` |
| `PageReader.SerializedPageReader.New` | components/parquet/src/serialized_reader.rs:256-271 | a codec-creation error is returned before any page is read. Otherwise the fresh reader has state `(chunk, 0)` and the created codec |
| `PageReader.SerializedPageReader.ReadPageBytes` | components/parquet/src/serialized_reader.rs:292-337 | the imperative pass (header read, prefix, length checks, `read_exact`, truncate/append) computes `ReadPass` and leaves the stream after the page |
| `PageReader.SerializedPageReader.GetNextPage` | components/parquet/src/serialized_reader.rs:289-391 | the `while` loop returns exactly `NextPage`'s result and leaves `seen_num_values` (and, on success, the stream) as `NextPage` says |
| `PageReader.SerializedPageReader.Next` | components/parquet/src/serialized_reader.rs:284-286 | `next` is the transposed result of one `get_next_page`. Unless it returns an error, the stream and the count are what `NextPage` leaves, so successive calls follow `ReadAll` |
| `RowGroupReader.ResolveChunk` | components/parquet/src/serialized_reader.rs:183-199 | with no cache, one read and no cache. On a hit, no read, the cache unchanged and the cached bytes. On a miss, one read; if it succeeded, exactly `source[start..start+length]` is inserted under the key, and a failed read leaves the cache as it was |
| `RowGroupReader.ResolveChunkIsDirectRead` | components/parquet/src/serialized_reader.rs:183-199 | with no cache or a coherent one (every entry of the file holds the range its key names), the caller sees exactly what a direct read of the range gives |
| `RowGroupReader.ResolveChunkKeepsCoherent` | components/parquet/src/serialized_reader.rs:183-199 | resolving a chunk keeps the cache coherent, because keys of distinct ranges differ |
| `RowGroupReader.ResolveChunksInEitherOrder` | components/parquet/src/serialized_reader.rs:426-445 | resolving two column chunks of a file in either order gives each the same bytes |
| `RowGroupReader.SerializedRowGroupReader.constructor` | components/parquet/src/serialized_reader.rs:162-174 | the reader shares the byte source and data cache it is given |
| `RowGroupReader.SerializedRowGroupReader.GetData` | components/parquet/src/serialized_reader.rs:176-181 | one read of exactly the range |
| `RowGroupReader.SerializedRowGroupReader.GetFileChunk` | components/parquet/src/serialized_reader.rs:183-199 | returns `ResolveChunk`'s bytes, leaves the cache as `ResolveChunk` says and makes exactly its number of source reads |
| `RowGroupReader.SerializedRowGroupReader.GetColumnPageReader` | components/parquet/src/serialized_reader.rs:212-228 | a column index out of range is an error with nothing read. Otherwise the chunk is resolved, then resolution and codec errors propagate. On success the fresh page reader starts at `(chunk bytes, 0)` with the column's value count, codec and physical type |
| `FileReader.ResolveMetadata` | components/parquet/src/serialized_reader.rs:85-95 | with no cache, the parsed footer (one parse). On a hit, the cached value with no parse and no insertion. On a miss, one parse; a success is stored under the name and returned, and a parse error propagates with no cache write |
| `FileReader.ResolveMetadataOnce` | components/parquet/src/serialized_reader.rs:85-92 | opening the same name again with the cache the first open left parses nothing, changes nothing and returns the same metadata, so the footer is parsed at most once per cache and name |
| `FileReader.ResolveMetadataTransparent` | components/parquet/src/serialized_reader.rs:85-95 | a cache whose entry for the name is that file's parsed footer gives the same metadata as parsing, and stays so |
| `FileReader.FilterRowGroupsOf` | components/parquet/src/serialized_reader.rs:108-119 | a predicate that accepts every row group keeps the list unchanged |
| `FileReader.FilterRowGroupsKeepsExactly` | components/parquet/src/serialized_reader.rs:108-119 | the filtered list is exactly the row groups `i` with `keep(rg_i, i)` (original indices), in increasing order of `i` |
| `FileReader.FilterNothingKept` | components/parquet/src/serialized_reader.rs:108-119 | a predicate that accepts no row group keeps none. This follows from `FilterRowGroupsKeepsExactly` |
| `FileReader.CachableSerializedFileReader.constructor` | components/parquet/src/serialized_reader.rs:98-103 | the reader holds its name, byte source, metadata and data cache |
| `FileReader.CachableSerializedFileReader.New` | components/parquet/src/serialized_reader.rs:78-104 | the cache and the parse count end as `ResolveMetadata` says. A parse error is returned. Otherwise a fresh reader with that metadata shares the byte source and data cache |
| `FileReader.CachableSerializedFileReader.FilterRowGroups` | components/parquet/src/serialized_reader.rs:108-119 | the `for` loop replaces the row groups with `FilterRowGroupsOf` of the old ones, and the file-level metadata is unchanged |
| `FileReader.CachableSerializedFileReader.GetRowGroup` | components/parquet/src/serialized_reader.rs:131-141 | an index out of range is an error. Otherwise a fresh row-group reader over that row group shares the name, byte source and data cache |
| `FileReader.FilterAllRowGroups` | components/parquet/src/serialized_reader.rs:722-736 | after filtering with an always-false predicate, `num_row_groups()` is 0 and the file metadata is unchanged |

The accessors `metadata`, `num_row_groups` and `num_columns` are the plain
functions `Metadata`, `NumRowGroups` and `NumColumns`. The following helpers are
also plain functions, without rows of their own:

* `PageReader.PageBuffer` (serialized_reader.rs:310-337): the decompression
  step of a pass. Its meaning is stated by `ReadPass` and `Decompress`.
* `PageReader.ReadAll` (serialized_reader.rs:507, 617): the drain loop by
  which the tests pull pages until `None`. `ReadAllStopsAtTotal` states its
  meaning.
* `PageReader.Transpose` (serialized_reader.rs:285): `.transpose()`.

## Left out

- Thrift Compact Protocol decoding of `PageHeader`, `footer::parse_metadata`, `create_codec`, `Codec::decompress` and `statistics::from_thrift` are library code. They are parameters (`ParquetLibrary`), and only the decoder's progress condition is assumed. The header's `crc` and `index_page_header` fields are not represented, because the reader never reads them.
- The column metadata's `byte_range()`, `num_values()`, `compression()` and physical type come from the Parquet library. They are plain fields of `ColumnChunkMetaData`. The file-level metadata and the statistics are stand-in records.
- `RowIter`, `IntoIterator`, `get_row_iter` and the page iterator over several row groups live in the external Parquet crate. `interpreters/src/factory.rs` is not part of this model: it is a dispatch over foreign types.
- LRU eviction and the thread safety of the caches are not modelled. Each cache is a plain map. `Arc` sharing, lifetimes and trait objects are modelled by object references that are shared.
- The byte source is one immutable byte sequence. Reading past its end is an error, and the `unwrap` on `read_to_end` in `get_data` cannot fail there.
- Integers are unbounded. The `i64` addition to `seen_num_values` and the `i32` sum of the two level lengths are not modelled with overflow. `usize` is 64 bits wide. A subtraction that would go below zero is a `MalformedPageSizes` error; the model does not wrap it as a release build does.
- A buffer of `offset + compressed_len` bytes of 2^63 or more makes the `vec!` allocation at line 313 panic; such a size comes from a negative `compressed_page_size`. The model reports `UnexpectedEof` when the stream is shorter than that, as `read_exact` would.
- With a codec, a negative `uncompressed_page_size` makes `uncompressed_len` at least 2^63, and `Vec::with_capacity` at line 320 panics. The model instead calls the codec. It reports the codec's error, or `DecompressedSizeMismatch` unless the output has exactly that length.
- After an error, the reader's stream position is not specified. The reader is not meant to be used again. Only the unchanged `seen_num_values` is stated.
- NextPageSeen: assumes that every data or data-v2 page the reader goes on to produce, until it reaches the total or stops with an error, has a count in `[0, 2^32)` (`ChunkCountsFit`). The assumption covers only the pages this reader actually returns. It does not cover bytes after the point where it stops, or the decoder on other input. The code adds the raw `i32` to `seen_num_values` but reports it cast to `u32`, so a negative count in a header would make the count decrease.
- ReadAllStopsAtTotal: makes the same assumption on the chunk's headers, for the same reason.
- The fixture-file tests (`alltypes_plain.parquet`, `datapage_v2.snappy.parquet`) depend on real files and codecs and are not modelled. The filtering test is `FilterAllRowGroups`.
