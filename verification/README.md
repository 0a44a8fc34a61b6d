# EZSwiftExtensions URL core, modelled in Dafny

EZSwiftExtensions adds convenience members to Foundation's `URL`. This project
models the three parts of `Sources/NSURLExtensions.swift` that contain real
decision logic, and proves what they promise:

- `isSameWithURL(_:)`: a loose equivalence of two URLs. Identical URLs are the
  same. Otherwise schemes are compared ignoring case. Hosts get a `www.`
  prefix when they lack one, and are compared only when both are present.
  Paths are lower-cased and stripped of `/` at both ends. Ports must be equal.
  Queries are compared ignoring case.
- `queryParameters`: the URL's query items folded left to right into a
  dictionary. Assigning an item without a value removes the key.
- The result step of the two HEAD probes. `remoteSize` yields the response's
  expected content length, or `NSURLSessionTransferSizeUnknown` (-1) when
  there is no response. `supportsResume` yields true only for an HTTP
  response with status 206.

Files:

- `wrappers.dfy`: `Option`, standing for Swift optionals.
- `text.dfy`: `lowercased()` as ASCII case folding, and
  `trimmingCharacters(in: "/")`, with a uniqueness characterisation of the trim.
- `url_compare.dfy`: the `Url` component record, `IsSame`, and a reference
  definition `Equivalent` that `IsSame` is proved to decide exactly.
- `url_examples.dfy`: comparisons of concrete URLs.
- `query_params.dfy`: `QueryItem`, `Collect`, `QueryParameters`, and
  `LastIndex`, the "last item with this name" reference.
- `probe.dfy`: `Response`, `RemoteSize`, `SupportsResume`.

A URL is the record of the components Foundation extracts from it: `scheme`,
`host`, `port` and `query` are optional, and `path` is a string. Swift's
`self == url` becomes equality of these records. `IsSameIffEquivalent` shows
the identity short-circuit never changes the answer: identical URLs pass every
later check anyway. So using the record rather than the URL string does not
change the result.

Host letters are compared as written. `WWW.EXAMPLE.COM` lacks the lower-case
`www.` prefix, so it becomes `www.WWW.EXAMPLE.COM` and differs from
`www.example.com`. `UrlExamples.HostCaseIsSignificant` proves that
`http://example.com/path/` and `HTTP://WWW.EXAMPLE.COM/path` are not the same.

## Model

| member | source | states |
|---|---|---|
| Text.EqualIgnoringCaseIff | Sources/NSURLExtensions.swift:59 | comparing two lower-cased strings succeeds exactly when they have the same length and agree letter by letter up to case |
| Text.Lower | Sources/NSURLExtensions.swift:70 | `lowercased()` keeps the length and folds every character, each ASCII upper-case letter to its lower-case form |
| Text.LowerIdempotent | Sources/NSURLExtensions.swift:70 | lower-casing an already lower-cased string changes nothing |
| Text.LowerTrimCommute | Sources/NSURLExtensions.swift:70 | lower-casing then trimming `/` gives the same string as trimming then lower-casing |
| Text.TrimSlashes | Sources/NSURLExtensions.swift:69-70 | `trimmingCharacters(in: "/")` is never longer than its input and neither starts nor ends with `/` |
| Text.TrimSlashesIsSlice | Sources/NSURLExtensions.swift:69-70 | the trimmed path is a contiguous slice of the input with only `/` cut away on either side, and it neither starts nor ends with `/` |
| Text.TrimSlashesUnique | Sources/NSURLExtensions.swift:69-70 | any slice with only `/` outside it and no `/` at its own ends is exactly the trimmed result |
| Text.TrimSlashesIgnoresPadding | Sources/NSURLExtensions.swift:69-70 | any number of extra leading or trailing `/` leaves the trimmed result unchanged |
| Text.TrimSlashesKeepsClean | Sources/NSURLExtensions.swift:69-70 | a string with no `/` at either end is not changed by trimming, so interior slashes are kept |
| Text.TrimSlashesIdempotent | Sources/NSURLExtensions.swift:69-70 | trimming twice is the same as trimming once |
| UrlCompare.LowerOpt | Sources/NSURLExtensions.swift:59 | optional-chained `?.lowercased()`: an absent string stays absent, a present one stays present with the same length |
| UrlCompare.WithWww | Sources/NSURLExtensions.swift:63-64 | the normalised host always starts with `www.` (which hosts it identifies is stated by `WithWwwIff`) |
| UrlCompare.PathKey | Sources/NSURLExtensions.swift:70 | the compared path has no `/` at either end and equals the trimmed path lower-cased, so the order of the two steps does not matter |
| UrlCompare.IsSame | Sources/NSURLExtensions.swift:55-80 | two URLs judged the same have equal ports, and each has a scheme and a query exactly when the other has one |
| UrlCompare.IsSameIffEquivalent | Sources/NSURLExtensions.swift:55-80 | the comparison is true exactly when schemes match ignoring case, present hosts are www-aliases, trimmed paths match ignoring case, ports are equal and queries match ignoring case; the identity short-circuit never changes the answer |
| UrlCompare.IsSameReflexive | Sources/NSURLExtensions.swift:55-58 | every URL is the same as itself |
| UrlCompare.IsSameSymmetric | Sources/NSURLExtensions.swift:55-80 | swapping the two URLs never changes the answer, host-presence guard included |
| UrlCompare.SchemeMismatch | Sources/NSURLExtensions.swift:59-61 | schemes that differ ignoring case, or a scheme on one side only, make the URLs different |
| UrlCompare.WithWwwIff | Sources/NSURLExtensions.swift:63-65 | two hosts normalise to the same string exactly when they are equal or one is the other with `www.` in front of a host not already starting with `www.` |
| UrlCompare.WwwAlias | Sources/NSURLExtensions.swift:62-68 | a host `h` without the prefix and `www.` + `h` are treated as the same host |
| UrlCompare.HostMismatch | Sources/NSURLExtensions.swift:62-68 | two present hosts that are not www-aliases make the URLs different |
| UrlCompare.AbsentHostNeverDecides | Sources/NSURLExtensions.swift:62-68 | when one URL has no host, the other URL's host, present or absent, cannot change the answer |
| UrlCompare.PathCaseAndOuterSlashes | Sources/NSURLExtensions.swift:69-72 | paths differing only in letter case and in extra `/` at either end, added to either or both paths, compare equal |
| UrlCompare.PathMismatch | Sources/NSURLExtensions.swift:69-72 | paths whose trimmed forms differ beyond letter case make the URLs different |
| UrlCompare.InteriorSlashesMatter | Sources/NSURLExtensions.swift:69-72 | interior slashes are significant: paths `a/b` and `a//b` make the URLs different |
| UrlCompare.PortMismatch | Sources/NSURLExtensions.swift:73-75 | any port difference, including a port on one side only, makes the URLs different |
| UrlCompare.QueryMismatch | Sources/NSURLExtensions.swift:76-78 | queries that differ ignoring case, or a query on one side only, make the URLs different |
| UrlCompare.QueryCaseIgnored | Sources/NSURLExtensions.swift:76-78 | changing only the letter case of a query keeps two otherwise identical URLs the same |
| UrlExamples.WwwSchemeAndSlashIgnored | Sources/NSURLExtensions.swift:55-80 | `http://example.com/path/` and `HTTP://www.example.com/path` are the same |
| UrlExamples.HostCaseIsSignificant | Sources/NSURLExtensions.swift:62-68 | `http://example.com/path/` and `HTTP://WWW.EXAMPLE.COM/path` are not the same, because host letters are compared as written |
| UrlExamples.QueryExamples | Sources/NSURLExtensions.swift:76-78 | queries `x=1` and `X=1` match; no query against `x=1` does not |
| UrlExamples.PortExample | Sources/NSURLExtensions.swift:73-75 | ports 8080 and 9090 make otherwise equal URLs different |
| QueryParams.Assign | Sources/NSURLExtensions.swift:22 | a dictionary subscript assignment: a present value is stored under the item's name, an absent value removes that name, and every other key keeps its entry |
| QueryParams.Collect | Sources/NSURLExtensions.swift:20-23 | a name is a key exactly when its last item carries a value, and the key maps to that last value |
| QueryParams.QueryParameters | Sources/NSURLExtensions.swift:15-26 | the result is absent exactly when `URLComponents` yields no item list; otherwise every key is the name of some item |
| QueryParams.EmptyItemsGiveEmptyMap | Sources/NSURLExtensions.swift:15-26 | an empty item list (a URL ending in `?`) gives an empty dictionary, not an absent one |
| QueryParams.LastOccurrenceWins | Sources/NSURLExtensions.swift:21-23 | the last item with a name decides it whatever came earlier: its value is stored, or the key is removed if it has none |
| QueryParams.LaterValueOverrides | Sources/NSURLExtensions.swift:21-23 | of two items with the same name, the second one's value is kept |
| QueryParams.LaterNilRemoves | Sources/NSURLExtensions.swift:22 | an item without a value after one with a value removes the key |
| QueryParams.AppendTouchesOnlyItsName | Sources/NSURLExtensions.swift:21-23 | one more item changes no key other than its own name |
| Probe.RemoteSize | Sources/NSURLExtensions.swift:34 | the contract is the `??` itself: the response's expected content length when there is a response, -1 (`NSURLSessionTransferSizeUnknown`) when there is none |
| Probe.StatusCode | Sources/NSURLExtensions.swift:47 | the status code of an HTTP response, and -1 when the response is missing or is not an HTTP response |
| Probe.SizeUnknownIff | Sources/NSURLExtensions.swift:34 | the size is the unknown sentinel exactly when there is no response or the response declares no length, so a failed request looks like a missing length |
| Probe.SupportsResume | Sources/NSURLExtensions.swift:47-49 | resume is supported exactly when there is an HTTP response with status 206 |
| Probe.OtherStatusNoResume | Sources/NSURLExtensions.swift:47-49 | any other status, including 200 and the -1 used when there is no HTTP response, means no resume support |
| Probe.NonHttpNoResume | Sources/NSURLExtensions.swift:47 | a missing response, or one that is not an HTTP response, never reports resume support |

## Left out

- URL parsing (`URLComponents`, `URL.host`, `URL.path` and the rest) is Foundation's parser. The components, and the parsed list of query items, are inputs.
- Text.Lower: models `lowercased()` as ASCII case folding only; Unicode case mapping is not modelled.
- Swift compares `String`s by canonical equivalence, so a composed and a decomposed `é` are equal. The model compares strings as character sequences everywhere: the host `hasPrefix` and `!=` (lines 63-65), the path and query `!=` (lines 70 and 76), and the dictionary keys of `queryParameters` (line 22), where such two spellings are one Swift key but two keys here.
- Building the HEAD requests, the cache policy, the `Accept-Encoding` and `Range` headers, the timeout, `URLSession` and the re-dispatch of the completion handler onto a global queue are network I/O and concurrency. Only the mapping from the optional response to the result is modelled.
- The filesystem members `fileIsDirectory`, `fileModifiedDate`, `fileCreationDate`, `fileAccessDate`, `fileSizeValue`, `fileIsHidden`, `fileIsWritable` pass straight through to `resourceValues` and `setResourceValue`.
- The thumbnail members use `NSImage` or `UIImage` behind platform `#if` branches, and `skipBackupAttributeToItemAtURL` is a recursive walk over the filesystem that writes attributes. Both are filesystem I/O.
- `Sources/DoubleExtensions.swift` is floating-point rounding and number formatting.
