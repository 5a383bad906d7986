# botocore core logic in Dafny

This project models the self-contained sequential logic of botocore, the
low-level AWS SDK for Python, and proves properties of that model. It covers:

- **Request compression** (`botocore/compress.py`). The decision whether to
  compress a request body, the first-encoding-wins loop, and the token-wise
  merge of the `Content-Encoding` header. gzip is an uninterpreted
  constructor `Gzip(octets)`.
- **User-agent sanitiser** (`botocore/useragent.py`). The per-character
  replacement of characters outside the allow-list by `-`.
- **Loader** (`botocore/loaders.py`):
  - the map-backed `Cache` class;
  - the `cachable` memo key and its hit/miss rule;
  - `determine_latest` version selection in Python's string order;
  - `get_search_paths`;
  - the override order of `_get_data`;
  - the `get_data` and `get_service_model` entry points of a `Loader` whose
    file system is given as functions.
- **History recorder** (`botocore/history.py`). The recorder and its scopes
  are classes. Handlers are numeric ids. `record` appends every emission it
  attempts to a ghost-free log, marking whether the handler raised.
- **Shared-example serialiser** (`botocore/docs/sharedexample.py`). The
  builder and its path stack are classes. The mutually recursive `_visit*`
  methods are proved equal to rendering functions.
- **Documentation helpers** (`botocore/docs/utils.py`):
  - the type-name and default-literal tables;
  - the official service name;
  - the defaults of `DocumentedShape`;
  - `HideParamFromOperations`, with a section seen as its list of available
    subsection names.
- **Path splitting** (`botocore/resource_file_adapter.py`, `split_path`). It
  rests on a model of POSIX `os.path.split` and `os.path.join`.

Shared modules:

- `Wrappers` holds `Option` and `Result`.
- `Text` models the Python string methods used: `split`, `join`, `count`,
  `startswith`, `in`, `lower`, and `str` of a natural number.
- `Ordering` holds Python's `str` order and `sorted`. Dafny's own `<` on
  sequences is the proper-prefix relation, so the order is defined here.
- `PosixPath` models `os.path.split` and `os.path.join`.

All files are verified together; no file includes another.

## Model

| member | source | states |
|---|---|---|
| Compress.BodySize | botocore/compress.py:95-105 | an undeterminable body length counts as -1, a known one as itself |
| Compress.FirstEncoding | botocore/compress.py:31-45 | the chosen encoding is listed and has an encoder, and every earlier one has none; there is no choice exactly when no listed encoding has an encoder |
| Compress.FirstEncodingAt | botocore/compress.py:31-41 | the first index whose encoding has an encoder decides the choice |
| Compress.CompressionEnabled | botocore/compress.py:49-53 | reference definition of the guard of `_should_compress_request`: compression not disabled, signature not `v2`, and the operation has a `request_compression` setting; its properties are in NoCompressionWhenNotEnabled |
| Compress.ShouldCompressRequest | botocore/compress.py:48-65 | reference definition of `_should_compress_request`; its properties are in NoCompressionWhenNotEnabled, StreamingIgnoresSize, SizeThreshold and UnknownSizeNotCompressed |
| Compress.NoCompressionWhenNotEnabled | botocore/compress.py:49-53 | `disable_request_compression` set to True rules compression out, whatever the body size |
| Compress.StreamingIgnoresSize | botocore/compress.py:56-60 | for a streaming input the size does not matter; compression happens exactly when the stream lacks `requiresLength` |
| Compress.SizeThreshold | botocore/compress.py:61-64 | for a non-streaming input, compression happens exactly when the minimum size is at most the body size |
| Compress.UnknownSizeNotCompressed | botocore/compress.py:61-64 | a body of unknown size (-1) is compressed only if the minimum size is at most -1 |
| Compress.MergeContentEncodingTokens | botocore/compress.py:107-113 | after the merge the encoding is a comma-split token of the header; existing tokens are kept in order, the encoding is appended once only when missing, and other headers are untouched |
| Compress.MergeContentEncodingIdempotent | botocore/compress.py:107-113 | merging the same encoding a second time changes nothing |
| Compress.MergeIdentityGzip | botocore/compress.py:107-113 | an `identity` header becomes `identity,gzip` |
| Compress.MergeContentEncoding | botocore/compress.py:107-113 | reference definition of the header update of `_set_compression_header`; its properties are in MergeContentEncodingTokens and MergeContentEncodingIdempotent |
| Compress.Request.SetCompressionHeader | botocore/compress.py:107-113 | the headers become the merge of the old headers and the encoding; the body is untouched |
| Compress.GzipRoundTrip | botocore/compress.py:68-79 | the encoder compresses the right content for each body kind: a str's UTF-8 bytes, the bytes, or the stream's remaining bytes |
| Compress.GzipCompressBody | botocore/compress.py:68-79 | the body is replaced by gzip of its content, a stream being read from its position; a stream with seek and tell is put back at its old position, any other stream ends at its end |
| Compress.CompressRequest | botocore/compress.py:27-45 | when the decision allows compression and some encoding has an encoder, the body becomes gzip of its content and the header merge is applied; otherwise body and headers are unchanged; a seekable stream keeps its position |
| UserAgent.Sanitize | botocore/useragent.py:15-32 | the output has the input's length; allowed characters are copied and every other character becomes `-` |
| UserAgent.HashKeptIffAllowed | botocore/useragent.py:29 | `#` is kept exactly when `allow_hash` is true, else it becomes `-` |
| UserAgent.SanitizedAllowed | botocore/useragent.py:15-32 | every output character is allowed |
| UserAgent.SanitizeIdempotent | botocore/useragent.py:27-32 | sanitising twice equals sanitising once |
| UserAgent.SanitizeConcat | botocore/useragent.py:27-32 | sanitising works character by character and so distributes over concatenation |
| UserAgent.SanitizeFixedPoint | botocore/useragent.py:27-32 | a string of allowed characters is unchanged |
| UserAgent.SanitizeExample | botocore/useragent.py:27-32 | spaces and parentheses become `-` in a typical framework name |
| Loaders.Cache.constructor | botocore/loaders.py:42-45 | a new cache is empty |
| Loaders.Cache.Length | botocore/loaders.py:47-48 | the length is the number of distinct keys |
| Loaders.Cache.Contains | botocore/loaders.py:50-51 | membership is key membership in the data |
| Loaders.Cache.Get | botocore/loaders.py:53-54 | a present key gives its value, a missing one a KeyError |
| Loaders.Cache.Set | botocore/loaders.py:56-57 | the key now maps to the value, every other entry is unchanged, and the length grows only for a new key |
| Loaders.UpdateSize | botocore/loaders.py:47-57 | overwriting a key does not change the number of keys; adding a new key adds one |
| Loaders.Cache.Delete | botocore/loaders.py:59-65 | the key is gone and nothing else changes; deleting a missing key changes nothing |
| Loaders.Cache.Clear | botocore/loaders.py:67-68 | after clearing, the cache is empty |
| Loaders.MemoKey | botocore/loaders.py:92-101 | the loop builds the key of the memo rule |
| Loaders.KeyFor | botocore/loaders.py:92-101 | reference definition of the `cachable` key; its properties are in KeyForOrderIndependent, KeyWithoutKwargs and KeySuffixStep |
| Loaders.KeyLoop | botocore/loaders.py:97-101 | after the loop the key is the original key followed by `/name/value` for each name in turn |
| Loaders.KeySuffixStep | botocore/loaders.py:97-101 | one more name adds exactly its `/name/value` segment |
| Loaders.KeyForOrderIndependent | botocore/loaders.py:94-101 | two calls with the same keyword arguments passed in different orders get the same key |
| Loaders.SortedNamesStrict | botocore/loaders.py:97 | the names are visited in strictly increasing order, each passed keyword exactly once |
| Loaders.KeyWithoutKwargs | botocore/loaders.py:92-101 | without keyword arguments the key is the original key |
| Loaders.CachedCall | botocore/loaders.py:103-108 | on a hit the stored value is returned and the function is not called; on a miss the function is called once and its result stored under the key, unless it raised |
| Loaders.VersionNames | botocore/loaders.py:443-447 | the candidates of one directory are exactly its options with two `-` |
| Loaders.AllOptions | botocore/loaders.py:412-447 | the candidates are exactly the version-like options of all search paths |
| Loaders.BestMatch | botocore/loaders.py:456-477 | the match is a candidate that qualifies (any candidate without a pinned version, otherwise one at or below it) and is the greatest such; there is none exactly when no candidate qualifies |
| Loaders.BestMatchExact | botocore/loaders.py:467-471 | any pinned version that is a candidate is chosen itself |
| Loaders.GreatestIsBest | botocore/loaders.py:456-477 | a qualifying candidate above every other qualifying one is the match |
| Loaders.Latest | botocore/loaders.py:449-488 | `ApiVersionNotFound` for the data path and version is raised exactly when no candidate qualifies |
| Loaders.LatestFound | botocore/loaders.py:486-488 | a match gives the data path joined with the chosen version |
| Loaders.DetermineLatest | botocore/loaders.py:360-488 | the loops of `determine_latest` compute the specified selection, error included |
| Loaders.GatherOptions | botocore/loaders.py:408-447 | the nested loops collect exactly the candidate options |
| Loaders.ChooseVersion | botocore/loaders.py:456-484 | the scan of the options sorted in reverse finds the specified best match |
| Loaders.NoneQualifies | botocore/loaders.py:467-484 | when the scan finds nothing, no candidate qualifies |
| Loaders.FirstQualifyingIsBest | botocore/loaders.py:456-477 | in descending order, the first qualifying option is the greatest qualifying one |
| Loaders.GetSearchPaths | botocore/loaders.py:205-223 | the user paths come in the given order, each expanded, and the bundled data directory comes last |
| Loaders.LayeredLookup | botocore/loaders.py:259-274 | a key takes its value from the earliest search path whose file has it |
| Loaders.Layered | botocore/loaders.py:262-279 | reference definition of the reverse `update` over the loaded files; its properties are in LayeredLookup and LayeredDomain |
| Loaders.Loaded | botocore/loaders.py:251-279 | reference definition of the result of `_get_data`: the layered data, or `DataNotFoundError` when no file loads; its properties are in LoadedFirstWins and LoadedDomain |
| Loaders.LayeredDomain | botocore/loaders.py:259-274 | the merged keys are exactly those of the files that loaded |
| Loaders.Attempts | botocore/loaders.py:261-269 | one load attempt per search path, at the path joined with the data path and extension |
| Loaders.LoadData | botocore/loaders.py:251-279 | the reverse loop with `update` computes the layered data, or `DataNotFoundError` when no file loads |
| Loaders.LoadedFirstWins | botocore/loaders.py:259-279 | user paths earlier in the list override keys from later ones |
| Loaders.LoadedDomain | botocore/loaders.py:259-279 | the loaded keys are exactly those of the files found |
| Loaders.Loader.constructor | botocore/loaders.py:159-168 | the loader keeps its cache, search paths and file-system functions |
| Loaders.Loader.Listings | botocore/loaders.py:412-426 | one directory listing per search path, at the path joined with the data path |
| Loaders.Loader.ServiceModel | botocore/loaders.py:318-324 | when no version qualifies the result is `ApiVersionNotFound` for that data path and version, else the data of the chosen version is loaded |
| Loaders.Loader.ClearCache | botocore/loaders.py:170-175 | the shared cache becomes empty |
| Loaders.Loader.GetData | botocore/loaders.py:225-249 | the data path is the cache key: a hit returns the cached dictionary, a miss loads and stores it on success |
| Loaders.Loader.GetServiceModel | botocore/loaders.py:281-324 | cached under the data path plus the pinned version, else determined, loaded and stored on success |
| Loaders.ServiceModelKey | botocore/loaders.py:92-101 | the key is the data path, followed by `/api_version/<v>` when a version is pinned |
| LoadersExamples.RdsLatest | botocore/loaders.py:390-392 | with no pinned version the RDS example selects `aws/rds/2013-05-15` |
| LoadersExamples.RdsExact | botocore/loaders.py:394-396 | pinning `2013-02-12` selects exactly that version |
| LoadersExamples.RdsBestOlder | botocore/loaders.py:398-400 | pinning `2013-01-31` selects the closest older version, `2013-01-10` |
| LoadersExamples.RdsNotFound | botocore/loaders.py:402-405 | pinning `2010-05-16` raises `ApiVersionNotFound` |
| History.HistoryRecorderScope.constructor | botocore/history.py:138-140 | a new scope has no registered ids and no handlers |
| History.HistoryRecorderScope.RegisterClient | botocore/history.py:152-159 | the client's id is appended to the registered ids |
| History.HistoryRecorderScope.AddHandler | botocore/history.py:161-169 | the handler is appended to the scope's handlers |
| History.HistoryRecorder.constructor | botocore/history.py:45-48 | a new recorder is disabled, with no handlers and no scopes |
| History.HistoryRecorder.Enable | botocore/history.py:50-55 | the recorder is enabled and nothing else changes |
| History.HistoryRecorder.Disable | botocore/history.py:57-62 | the recorder is disabled and nothing else changes |
| History.HistoryRecorder.AddHandler | botocore/history.py:64-72 | the handler is appended to the global handlers |
| History.HistoryRecorder.AddScope | botocore/history.py:74-82 | the scope is appended to the scopes |
| History.ScopesForScopeIdMembers | botocore/history.py:124-128 | the scopes kept are exactly those whose registered ids contain the id |
| History.ScopesForScopeId | botocore/history.py:124-128 | reference definition of `_get_scopes_for_scope_id` on scope states; its properties are in ScopesForScopeIdMembers and ScopesForScopeIdAppend |
| History.Dispatch | botocore/history.py:106-113 | reference definition of the handlers `record` calls, in order; its properties are in DisabledDispatchesNothing, GlobalHandlersFirst, NoScopeIdOnlyGlobal and ScopedDispatchOrder |
| History.HistoryRecorder.GetScopesForScopeId | botocore/history.py:124-128 | the loop-free filter on the recorder's scope objects agrees with the filter on their states |
| History.HistoryRecorder.EmitEvent | botocore/history.py:115-122 | one emission is logged, whether or not the handler raised, and the recorder is otherwise unchanged |
| History.HistoryRecorder.EmitAll | botocore/history.py:107-108 | the log grows by one emission per handler of the sequence, in order, each with that handler's failure flag; the flag, handlers and scopes are unchanged |
| History.HistoryRecorder.EmitScoped | botocore/history.py:109-113 | the log grows by the emissions of every matching scope's handlers, scope by scope in order; the flag, handlers and scopes are unchanged |
| History.HistoryRecorder.Record | botocore/history.py:84-113 | the log grows by one emission per dispatched handler, in dispatch order, with the source defaulting to `BOTOCORE` |
| History.Emissions | botocore/history.py:107-122 | each dispatched handler gives one emission carrying the event, payload and source |
| History.DisabledDispatchesNothing | botocore/history.py:106 | a disabled recorder calls no handler |
| History.GlobalHandlersFirst | botocore/history.py:106-113 | the global handlers are called first, in the order they were added |
| History.NoScopeIdOnlyGlobal | botocore/history.py:109 | without a scope id no scoped handler is called |
| History.UnregisteredIdOnlyGlobal | botocore/history.py:109-128 | an id that no scope registered calls only the global handlers |
| History.ScopesForScopeIdAppend | botocore/history.py:124-128 | the filter keeps scope order |
| History.ScopedDispatchOrder | botocore/history.py:110-113 | a scope that registered the id has its handlers called after the global ones, between those of the matching scopes before and after it |
| History.ScopedHandlersAppend | botocore/history.py:111-113 | the scoped handlers of consecutive scope lists are concatenated in order |
| History.TwoScopesSameClient | botocore/history.py:110-113 | two scopes that registered the same client are both called, in the order they were added |
| History.OneMatchingScope | botocore/history.py:110-113 | a single matching scope is called once, after the global handlers |
| History.FailuresDoNotStopDispatch | botocore/history.py:115-122 | whether handlers raise never changes which handlers are called |
| History.RecordAfterDisable | botocore/history.py:106 | after enabling, disabling and adding a handler, `record` logs nothing |
| History.RecordScopedAndGlobal | botocore/history.py:84-113 | a scoped record reaches the global handler and then the scope's handler, with source `BOTOCORE` |
| History.GlobalHistory.GetGlobalHistoryRecorder | botocore/history.py:172-177 | the first call creates a fresh disabled recorder; later calls return the same instance |
| SharedExample.CommentKey | botocore/docs/sharedexample.py:78 | the key is the joined path with one leading `.` removed |
| SharedExample.ApplyComment | botocore/docs/sharedexample.py:77-82 | a present key gives `# ` plus its comment, anything else the empty string |
| SharedExample.CommentKeyExamples | botocore/docs/sharedexample.py:78 | `.Items`, `[0]`, `.Name` gives `Items[0].Name`; a path starting with an index keeps it |
| SharedExample.PathStack.Append | botocore/docs/sharedexample.py:43 | the segment is pushed onto the path |
| SharedExample.PathStack.Pop | botocore/docs/sharedexample.py:48 | the last segment is removed |
| SharedExample.SharedExampleBuilder.constructor | botocore/docs/sharedexample.py:16-20 | the builder keeps its parameters, operation name, comments and direction |
| SharedExample.SharedExampleBuilder.ExampleCode | botocore/docs/sharedexample.py:22-26 | an input example is the prefix followed by the call arguments; an output example ignores the prefix and renders by type |
| SharedExample.SharedExampleBuilder.Visit | botocore/docs/sharedexample.py:28-38 | dispatch to the parameter form, or by type: dict, list, quoted string, scalar as is; the path stack is restored |
| SharedExample.SharedExampleBuilder.VisitParam | botocore/docs/sharedexample.py:40-50 | the loop yields `(`, one `key=value, comment` line per entry in order, and `)` at the current indent; the path stack is restored |
| SharedExample.SharedExampleBuilder.VisitStruct | botocore/docs/sharedexample.py:53-63 | the same with `{`, `'key': value, comment` lines and `}` |
| SharedExample.SharedExampleBuilder.VisitList | botocore/docs/sharedexample.py:65-75 | the same with `[`, `value, comment` lines, `[i]` path segments and `]` |
| SharedExample.Render | botocore/docs/sharedexample.py:28-38 | reference definition of the text `_visit` writes for a value; its properties are in Brackets and NestedCloseIndent |
| SharedExample.RenderParam | botocore/docs/sharedexample.py:40-50 | reference definition of the text `_visit_params` writes; its properties are in Brackets and FlatParamLines |
| SharedExample.RenderStruct | botocore/docs/sharedexample.py:53-63 | reference definition of the text `_visit_dict` writes; its properties are in Brackets and FlatStructLines |
| SharedExample.RenderList | botocore/docs/sharedexample.py:65-75 | reference definition of the text `_visit_list` writes; its properties are in Brackets and FlatListLines |
| SharedExample.Brackets | botocore/docs/sharedexample.py:40-75 | each rendering opens with its bracket and ends with the matching closing bracket at the current indent |
| SharedExample.NestedCloseIndent | botocore/docs/sharedexample.py:40-63 | a nested dict or list closes exactly four spaces further in |
| SharedExample.FlatStructLines | botocore/docs/sharedexample.py:53-63 | a dict of one-line leaves splits at line breaks into the opening bracket, one line per entry in order, and the closing bracket |
| SharedExample.FlatParamLines | botocore/docs/sharedexample.py:40-50 | the same for the call arguments |
| SharedExample.FlatListLines | botocore/docs/sharedexample.py:65-75 | the same for a list |
| SharedExample.OneStringParam | botocore/docs/sharedexample.py:22-50 | one commented string parameter gives `prefix(`, the line `    key='value', # comment`, and `)` |
| SharedExample.BucketExample | botocore/docs/sharedexample.py:22-50 | the builder run on a one-bucket input produces that text |
| DocUtils.PyTypeName | botocore/docs/utils.py:16-34 | the seven listed model types get their Python names; every other name is returned unchanged |
| DocUtils.PyTypeNameIdempotent | botocore/docs/utils.py:26-34 | no Python name is itself renamed, so mapping twice equals mapping once |
| DocUtils.PyTypeNameExamples | botocore/docs/utils.py:19-22 | `list` stays `list` and `structure` becomes `dict` |
| DocUtils.PyDefault | botocore/docs/utils.py:37-60 | each of the ten listed types has its literal, every other type `...` |
| DocUtils.PyDefaultEllipsisIffUnknown | botocore/docs/utils.py:49-60 | the answer is `...` exactly for the types not in the table |
| DocUtils.CleanAbbreviation | botocore/docs/utils.py:69-73 | the cleaned abbreviation is never longer than the original, and a name starting with neither `Amazon` nor `AWS` is unchanged |
| DocUtils.CleanAbbreviationPrefixes | botocore/docs/utils.py:69-73 | a leading `Amazon` drops seven characters whatever the seventh is, then a leading `AWS` drops four: `Amazon AWS X` becomes `X`, `AWS X` becomes `X`, `Amazon` alone becomes empty |
| DocUtils.OfficialServiceName | botocore/docs/utils.py:63-76 | the name starts with the full name; without a full name the answer is None, or an error when a non-empty abbreviation has to be compared |
| DocUtils.OfficialNameSuffix | botocore/docs/utils.py:74-76 | for any metadata with a full name, whatever other keys it holds: ` (short)` is appended exactly when the cleaned abbreviation is non-empty and, ignoring ASCII case, not part of the full name; otherwise the result is the full name |
| DocUtils.OfficialNameWithoutAbbreviation | botocore/docs/utils.py:68-76 | for any metadata with a full name and no abbreviation, whatever other keys it holds, the official name is the full name |
| DocUtils.NewDocumentedShape | botocore/docs/utils.py:86-96 | missing metadata, members and required members become empty lists; given ones are kept |
| DocUtils.EventsPerOperation | botocore/docs/utils.py:148-156 | within a service, each operation name has its own params event and its own example event |
| DocUtils.ParamsEventIsNotExampleEvent | botocore/docs/utils.py:148-156 | no params event is an example event |
| DocUtils.HideParamFromOperations.constructor | botocore/docs/utils.py:137-156 | the params and example event sets hold exactly one event of each kind per operation name |
| DocUtils.Without | botocore/docs/utils.py:164-165 | deleting a section removes its name and keeps every other name |
| DocUtils.Target | botocore/docs/utils.py:158-162 | example events act on the `structure-value` subsection, params events on the section itself, and other events on nothing |
| DocUtils.DocSection.DeleteSection | botocore/docs/utils.py:164-165 | the name leaves the available sections |
| DocUtils.HideParamFromOperations.HideParam | botocore/docs/utils.py:158-165 | the parameter is removed from the targeted section only, and only if it is there; an event in neither set changes nothing |
| PosixPath.JoinRelative | botocore/loaders.py:486-488 | joining a relative component to a directory without a trailing slash puts exactly one `/` between them |
| ResourceFileAdapter.StringList.InsertFront | botocore/resource_file_adapter.py:53 | the tail is inserted at the front of the accumulator |
| ResourceFileAdapter.NonEmpty | botocore/resource_file_adapter.py:52-53 | no component is empty |
| ResourceFileAdapter.SplitPath | botocore/resource_file_adapter.py:48-56 | the result is the path's components in front of the accumulator's old items; a supplied accumulator is extended in place and returned, a missing one is a fresh list |
| ResourceFileAdapter.Components | botocore/resource_file_adapter.py:48-56 | reference definition of the components `split_path` finds, on a path where its recursion ends; its properties are in ComponentsAreSegments and ComponentsWellFormed |
| ResourceFileAdapter.HeadProgress | botocore/resource_file_adapter.py:54-56 | when the recursion continues, the head is shorter and again a path it stops on |
| ResourceFileAdapter.ComponentsAreSegments | botocore/resource_file_adapter.py:48-56 | the components are the non-empty fields of the path split at `/`, in left-to-right order |
| ResourceFileAdapter.ComponentsWellFormed | botocore/resource_file_adapter.py:51-55 | every component is non-empty and free of `/` |
| ResourceFileAdapter.SegmentsAllSlashes | botocore/resource_file_adapter.py:54-55 | a head made only of slashes contributes no component |
| ResourceFileAdapter.SplitPathAsWritten | botocore/resource_file_adapter.py:51-56 | reference definition of `split_path` as written, with fuel; its divergence is in SplitPathAsWrittenDiverges |
| ResourceFileAdapter.SplitPathFixed | botocore/resource_file_adapter.py:48-56 | reference definition of the corrected `split_path`; its properties are in SplitPathFixedSegments and SplitPathFixedAgrees |
| ResourceFileAdapter.SplitPathAsWrittenDiverges | botocore/resource_file_adapter.py:51-56 | on `//x` the recursion as written never finishes, whatever its depth |
| ResourceFileAdapter.SplitPathFixedSegments | botocore/resource_file_adapter.py:48-56 | the corrected recursion stops on every path and yields its non-empty fields |
| ResourceFileAdapter.SplitPathFixedAgrees | botocore/resource_file_adapter.py:48-56 | where the original recursion stops, the corrected one agrees with it |

## Left out

- The endpoint rule-set interpreter, the builtin resolver and the auth-scheme mapping: `botocore/endpoint_provider.py` and `botocore/regions.py` are not part of this model.
- gzip itself: the byte encoding and the `GzipFile` chunk loop of `_gzip_compress_fileobj` are an uninterpreted, injective constructor, so reading a stream in 8192-byte chunks is one read to the end.
- Compress.BodySize: `determine_content_length` lives in `botocore.utils`, which is not part of this model; its answer is a parameter (`None` for undeterminable).
- Compress: logging calls are left out.
- Compress.GzipCompressBody: a text stream, whose `read` gives `str` chunks that the source encodes as UTF-8, is modelled as a stream of its UTF-8 bytes.
- Loaders: globbing, `os.path.exists`/`isdir` and `open` with JSON decoding are left out. They become two function parameters of the `Loader` class: a directory listing per path, and a file loader returning `None` where `open` raises `IOError`.
- Loaders: a file that opens but is not valid JSON makes `json.load` raise `ValueError`, which `_get_data` does not catch; the file loader's `Option` cannot express that error, so the model does not have it.
- Loaders.GetSearchPaths: `session.get_variable('data_path')`, `os.path.expandvars` and `os.path.expanduser` are parameters of this standalone method, not of the `Loader` class.
- Loaders.Loader: the search paths are fixed when the loader is built. The source calls `get_search_paths()` on every `_get_data` and `determine_latest` call, so it re-reads the session's `data_path` each time; a change to that variable between calls is not modelled.
- Loaders.GatherOptions: the listing is taken to be already stripped of the extension and directory (`splitext`, `replace`, the leading separator); the string surgery on globbed paths is not modelled.
- Loaders.Cache: the thread-safety of the class-wide cache is not modelled; the cache is an object the loaders share by reference.
- Loaders.CachedCall: the key formatting uses the keyword values as strings; Python's `str.format` of non-string values is not modelled.
- Loaders.Loader.GetServiceModel: `apiVersion == None` stands for the keyword not being passed; a call passing `api_version=None` explicitly, which would put `/api_version/None` into the key, is not modelled.
- Loaders.GetSearchPaths: `os.pathsep` is taken to be `:` (POSIX).
- `list_available_services`, `JSONFileLoader` and the newer loader API that the tests exercise are not part of this model.
- History: handlers are ids and their `emit` is the log entry the recorder makes; a handler's failure is a predicate on the handler and event; the debug logging of a failure is left out.
- History.HistoryRecorder.Record: `source` is an `Option` whose `None` means the argument was omitted and gives `BOTOCORE`; an explicit `source=None`, which the source passes on to the handlers, is not modelled.
- History.GlobalHistory: Dafny has no mutable module globals, so `HISTORY_RECORDER` is a field of a `GlobalHistory` object.
- SharedExample: a dict is a sequence of entries in iteration order; a scalar is the text `%s` would give it; strings are quoted without escaping, as in the source; Python 2's `basestring` is read as "is a string".
- SharedExample.SharedExampleBuilder.ExampleCode: an input example whose parameters are not a dict is excluded by a precondition. `example_code` passes the constructor's `params` to `_visit` unchecked, and there the source raises AttributeError at `.items()`.
- SharedExample.SharedExampleBuilder.Visit: `is_param` on a non-dict is excluded by a precondition, where the source raises AttributeError at `.items()`.
- DocUtils.NewDocumentedShape: metadata, members and required members are lists of names; their contents are not interpreted.
- DocUtils.HideParamFromOperations.HideParam: a section is only its list of available subsection names and, optionally, its `structure-value` subsection; an example event on a section without one is excluded by a precondition, where the source raises a KeyError.
- `AutoPopulatedParam`, `HideUnusedShapeMember` and `AppendParamDocumentation` operate on a `DocumentStructure` that is not part of this model.
- The rest of `botocore/resource_file_adapter.py` (the path and OS adapters) is not part of this model.
- ResourceFileAdapter.SplitPath: it requires a path not starting with `//`, because the source's recursion does not end on such paths (see Findings).
- String case: `lower()` is modelled on ASCII letters only.

## Findings

| source | as written | input that shows it | evidently intended | confidence | as-written member | corrected member |
|---|---|---|---|---|---|---|
| botocore/resource_file_adapter.py:54-56 | the recursion stops only on a head of `''` or `'/'` | `split_path('//x')`: `os.path.split` returns the head `'//'` for `'//x'` and again for `'//'`, so the recursion never ends | stop on any head made only of slashes, giving `['x']` | not executed | ResourceFileAdapter.SplitPathAsWrittenDiverges | ResourceFileAdapter.SplitPathFixedSegments |
