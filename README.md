# TelemetryWatch request-metrics middleware, in Dafny

TelemetryWatch is a small HTTP service whose one piece of real logic is the
metrics middleware in `src/middleware.rs`. Every request passes through it.
The middleware does four things:

- it raises the `active_connections` gauge before the inner handler runs and lowers it afterwards;
- it counts the request in `http_requests_total{method, endpoint, status}`;
- it records the latency in `http_request_duration_seconds{method, endpoint}`;
- it computes the `endpoint` label with `normalize_path`. On an API path, this
  function replaces an identifier-looking last segment by `:id`, so the number
  of label values stays bounded.

The project has three modules:

- `Decimal` (`decimal.dfy`) is the decimal text the middleware relies on.
  It models `str::parse::<u64>`, the numeric test of `normalize_path`, and
  `u16::to_string`, which renders the `status` label. The two are proved to
  round-trip in both directions: whatever `to_string` writes parses back, and
  whatever parses is an optional `+`, some zeros and the `to_string` text of
  its value.
- `PathNormalizer` (`path_normalizer.dfy`) is `normalize_path` as a pure
  function over `string`. It is built from `split('/')`, `join("/")` and the
  identifier test. Its properties are proved as lemmas: paths passed through
  unchanged, agreement with a text-level reference rule, pieces preserved,
  idempotence, and the boundary cases.
- `Middleware` (`middleware.dfy`) is the bookkeeping as a class `Metrics`
  over integer instruments. `Begin` is the part before `next.run(request).await`.
  `Finish` is the part after the handler completes. `Handle` is one completed
  request. The class invariant says four things:
  - the gauge equals the number of requests in flight;
  - every endpoint label is a fixed point of normalization;
  - every `status` label is the text of a `u16`, so the sum over the `u16`
    statuses reaches every counter series;
  - for every method and endpoint, the counter summed over all statuses equals
    the histogram's observation count. This holds between completed
    post-phases. In the source, the counter `inc` (`src/middleware.rs:44`) and
    the histogram `observe` (line 49) are two separate atomic operations, so a
    concurrent scrape that runs between them sees a counter sum one above the
    histogram count.

`str::len` counts UTF-8 bytes, so `Utf8Len` measures a path's length in the
bytes of its UTF-8 encoding, not in characters. A segment of six two-byte
characters is therefore longer than ten, just as it is in the source.
Splitting on `/` gives the same pieces on characters as on bytes.

`parse::<u64>` accepts an optional `+`, then one or more ASCII digits, with a
value of at most 18446744073709551615. Leading zeros are accepted, so `007`
parses to 7. It refuses `-`, the empty string and a lone `+`.

The intended behaviour of the middleware differs from the code in three
places. This model follows the code:

- The post-phase is meant to run on every exit path, as a scope guard, and a
  cancelled request is meant to be recorded with status 499. In
  `src/middleware.rs:28-52` the decrement and the recording are plain code
  after the `.await`, so a cancelled request skips them. In the model, only
  `Finish` records anything, and only a request that completes reaches it. A
  request that never finishes stays in `inFlight` and keeps the gauge raised.
  The invariant `activeConnections == |inFlight|` states exactly that.
- Normalization is meant to happen after the handler. The code calls it at
  line 22, before the gauge increment. `Begin` does the same. The label
  value does not depend on this choice.
- The endpoint label is meant never to contain a raw identifier. The code
  tests only the last piece, and only of an API path with more than three
  pieces (`src/middleware.rs:60-66`). So `/api/12345`, a non-API path such as
  `/users/12345`, and the middle piece of `/api/users/12345/orders` all reach
  the label unchanged. `NormalizeKeepsTopLevelApiPaths` and
  `NormalizeKeepsInnerIdentifier` state this.

## Model

| member | source | states |
|---|---|---|
| Decimal.ParseU64 | src/middleware.rs:66 | `parse::<u64>` succeeds only on a non-empty text whose first character is `+` or a digit, whose other characters are all digits, and which is not a lone `+`; its value never exceeds the largest `u64` |
| Decimal.ParseU64Shape | src/middleware.rs:66 | whatever `parse::<u64>` accepts is an optional `+`, then some zeros, then the `to_string` text of the value it returns |
| Decimal.ParseLeadingZeros | src/middleware.rs:66 | conversely, any number of zeros, with or without a leading `+`, followed by the decimal text of a value up to the largest `u64`, parses to that value |
| Decimal.ParseDigits | src/middleware.rs:66 | a non-empty run of digits whose value fits in a `u64`, with or without `+`, parses to its value |
| Decimal.ParseZeroPadded | src/middleware.rs:66 | `007` parses to 7 |
| Decimal.DigitsValueLeadingZeros | src/middleware.rs:66 | leading zeros do not change the value of a run of digits |
| Decimal.DigitsShape | src/middleware.rs:66 | every non-empty run of digits is some number of zeros, which the lemma returns, followed by the decimal text of its value |
| Decimal.DecimalStringOfDigits | src/middleware.rs:42 | a run of digits without a leading zero is the `to_string` text of its value |
| Decimal.DecimalString | src/middleware.rs:42 | `to_string` of a status gives a non-empty run of digits without a leading zero |
| Decimal.DigitsValueOfDecimalString | src/middleware.rs:42 | reading back the digits of `to_string(n)` gives `n` |
| Decimal.ParseDecimalString | src/middleware.rs:66 | every value up to the largest `u64` written in decimal, with or without `+`, parses back to itself |
| Decimal.ParseAboveU64Max | src/middleware.rs:66 | decimal text of a value above the largest `u64` does not parse, however many digits it has |
| Decimal.DecimalStringInjective | src/middleware.rs:42 | two numbers have the same decimal text if and only if they are equal |
| PathNormalizer.Utf8Len | src/middleware.rs:66 | `len()` in UTF-8 bytes lies between the character count and four times it |
| PathNormalizer.Utf8LenAscii | src/middleware.rs:66 | on ASCII text, `len()` equals the character count |
| PathNormalizer.Normalize | src/middleware.rs:57-75 | only a path starting with `/api/` can be rewritten; every other path, which lines 60 and 74 return as it is, is its own label |
| PathNormalizer.NormalizeReference | src/middleware.rs:60-74 | the rule stated on the text likewise rewrites only paths starting with `/api/` |
| PathNormalizer.IsIdentifier | src/middleware.rs:66 | the empty piece is never an identifier, and any piece of more than ten characters is one by its length, whether or not it parses: `99999999999999999999`, which overflows `u64`, is an identifier |
| PathNormalizer.Join | src/middleware.rs:68 | `join("/")` puts a separator between each two pieces, so the text has at least `|parts| - 1` characters, one per separator; its inverse is stated by `JoinSplit` and `SplitJoin` |
| PathNormalizer.Split | src/middleware.rs:62 | `split('/')` gives at least one piece, and no piece contains a slash |
| PathNormalizer.SplitCount | src/middleware.rs:62-63 | a path has exactly one more piece than it has slashes |
| PathNormalizer.JoinSplit | src/middleware.rs:62 | joining the pieces of a path with `/` gives back the path |
| PathNormalizer.SplitJoin | src/middleware.rs:68 | splitting the `/`-join of slash-free pieces gives back those pieces |
| PathNormalizer.SplitCons | src/middleware.rs:62 | a slash-free piece, then `/`, then the rest splits into that piece followed by the pieces of the rest |
| PathNormalizer.SplitNoSlash | src/middleware.rs:62 | a text without a slash splits into itself alone |
| PathNormalizer.JoinSnoc | src/middleware.rs:68-69 | joining pieces with one more piece at the end appends `/` and that piece |
| PathNormalizer.ApiPrefixPieces | src/middleware.rs:60 | a path starts with `/api/` if and only if it has at least three pieces, the first empty and the second `api` |
| PathNormalizer.LastSlash | src/middleware.rs:65 | the index of the last slash: a slash, with none after it |
| PathNormalizer.LastSlashOf | src/middleware.rs:65 | in a text made of `a`, a slash and a slash-free `b`, the last slash sits at the length of `a`; the text before it is `a` and the text after it is `b` |
| PathNormalizer.SplitLast | src/middleware.rs:68 | a path with at least two pieces is the join of all its pieces but the last, then `/`, then the last piece |
| PathNormalizer.LastSlashSplits | src/middleware.rs:65-68 | the last slash divides the path into the join of the leading pieces and the last piece |
| PathNormalizer.NormalizeFewSlashes | src/middleware.rs:62-63 | a path with at most two slashes, that is at most three pieces, is returned unchanged |
| PathNormalizer.NormalizeMatchesReference | src/middleware.rs:57-75 | `normalize_path` equals the rule stated on the text. An API path with at least three slashes whose text after the last slash parses as `u64` or is longer than ten bytes becomes the text before the last slash followed by `/:id`. Every other path is returned unchanged |
| PathNormalizer.RewriteChangesPath | src/middleware.rs:63-70 | when the rewrite applies, the label's pieces are the input's pieces with the last one replaced by `:id`, and the label differs from the path |
| PathNormalizer.SplitRewritten | src/middleware.rs:68-69 | the pieces of a rewritten path are the input's pieces with the last one replaced by `:id` |
| PathNormalizer.NormalizeKeepsPieces | src/middleware.rs:62-70 | normalization keeps the number of pieces and every piece except the last. The last piece is kept or becomes `:id`. The path changes if and only if it is an API path with more than three pieces whose last piece is an identifier |
| PathNormalizer.PlaceholderIsNotIdentifier | src/middleware.rs:69 | `:id` neither parses as `u64` nor is longer than ten bytes |
| PathNormalizer.NormalizedLastPieceNotIdentifier | src/middleware.rs:65-70 | for an API path with more than three pieces, the last piece of the label is not an identifier |
| PathNormalizer.NormalizeIdempotent | src/middleware.rs:57-75 | normalizing a label again changes nothing |
| PathNormalizer.NormalizeKeepsApiPrefix | src/middleware.rs:60-69 | the label starts with `/api/` if and only if the path does |
| PathNormalizer.NormalizeJoin | src/middleware.rs:62-70 | on an API path given by its pieces, more than three of them: if the last piece is an identifier, the result is the join of the other pieces followed by `/:id`; otherwise the path is returned unchanged |
| PathNormalizer.NormalizeKeepsTopLevelApiPaths | src/middleware.rs:60-63 | `/api/` followed by any slash-free piece, an identifier included, is returned unchanged |
| PathNormalizer.NormalizeKeepsInnerIdentifier | src/middleware.rs:62-74 | `/api/users/12345/orders` is returned unchanged although its middle piece `12345` is an identifier |
| PathNormalizer.NormalizeRewritesIdentifier | src/middleware.rs:62-70 | an API path given by at least three slash-free pieces, the first empty and the second `api`, followed by `/` and a slash-free identifier, becomes those pieces joined, then `/:id` |
| PathNormalizer.NormalizeRewritesNumericId | src/middleware.rs:59-70 | `/api/v1/users/12345` becomes `/api/v1/users/:id` |
| PathNormalizer.NormalizeRewritesLongId | src/middleware.rs:66-70 | `/api/v1/users/abcdefghijk` becomes `/api/v1/users/:id` |
| PathNormalizer.NumericSegments | src/middleware.rs:66 | `12345` and `0` are identifiers because they parse as `u64` |
| PathNormalizer.LongSegment | src/middleware.rs:66 | `abcdefghijk`, eleven bytes, is an identifier |
| PathNormalizer.ShortSegments | src/middleware.rs:66 | `bob` and the empty piece after a trailing slash are not identifiers |
| PathNormalizer.NormalizeKeepsShortSegment | src/middleware.rs:66-74 | `/api/v1/users/bob` is returned unchanged |
| PathNormalizer.NormalizeKeepsTrailingSlash | src/middleware.rs:66-74 | `/api/v1/users/` is returned unchanged |
| PathNormalizer.NormalizeKeepsShortApiPaths | src/middleware.rs:62-63 | `/api/` and `/api/v1`, which have three pieces, are returned unchanged |
| Middleware.StatusLabel | src/middleware.rs:42 | the `status` label is a non-empty run of digits without a leading zero, and it parses back to the status |
| Middleware.RecordKeepsStatusesU16 | src/middleware.rs:37-44 | after a counter increment at the `to_string` of a `u16`, every `status` label is still the text of a `u16` |
| Middleware.StatusLabelInjective | src/middleware.rs:42 | two status codes get the same `status` label if and only if they are the same code |
| Middleware.Inc | src/middleware.rs:37-49 | `with_label_values(..).inc()` creates the child series if it is missing, so a missing child reads as zero through `Count` and afterwards as one; it raises that child by one, and every other series is unchanged |
| Middleware.StatusTotalEmpty | src/middleware.rs:37-44 | with no counter series, every status total is zero |
| Middleware.StatusTotalInc | src/middleware.rs:37-44 | one counter increment at `{m, e, s}` raises the status total of `{m, e}` by one, and leaves the total of every other method and endpoint unchanged |
| Middleware.RecordKeepsCountsAgree | src/middleware.rs:37-49 | one counter increment plus one histogram observation at the same method and endpoint keeps, for every method and endpoint, the counter summed over statuses equal to the histogram count |
| Middleware.Metrics.constructor | src/metrics.rs:17-62 | fresh instruments have the gauge at zero, no series and the invariant |
| Middleware.Metrics.Begin | src/middleware.rs:17-25 | the label is `normalize_path(path)`; the gauge goes up by one; the request joins the in-flight set; the counter and histogram are unchanged |
| Middleware.Metrics.Finish | src/middleware.rs:28-52 | after the handler completes, the counter at exactly `{method, endpoint, status}` goes up by one. So does the histogram count at exactly `{method, endpoint}`. The gauge goes down by one and the request leaves the in-flight set. The invariant is kept |
| Middleware.Metrics.Handle | src/middleware.rs:12-55 | one completed request leaves the gauge where it was. Exactly one counter series, `{method, normalize_path(path), status}`, moves, by one. Exactly one histogram series, `{method, normalize_path(path)}`, moves, by one |

## Left out

- Latency: `Instant::now`, `elapsed().as_secs_f64()` and the histogram's buckets and sum are clock-based floating point. Only the histogram's observation count is modelled.
- Metrics.activeConnections: the gauge is an `f64` in the source. It is modelled as an integer, which is exact for the small counts involved.
- Concurrency and cancellation: the `.await` on the inner handler and the interleaving of requests are not modelled as such. `Begin` and `Finish` are atomic steps and may be interleaved in any order across requests. Within `Finish`, the counter increment and the histogram observation are one step, so the moment between them, which a concurrent scrape can observe, is not modelled. A cancelled request never reaches `Finish`, so nothing is recorded for it.
- The inner handler: its response status is the `status` parameter of `Finish` and `Handle`. The response itself passes through the middleware untouched and is not modelled.
- `src/metrics.rs`: instrument registration, duplicate-name rejection and the Prometheus text encoding of `gather` belong to the `prometheus` library, whose source is not part of this model. The database instruments are not written by the middleware.
- `src/api.rs` and `src/main.rs`: the routes, the handlers, the database health check, configuration and server start-up are not part of this model.
- Label values are compared as text. The `method` label is the method's string as given. The path is the raw request-URI path of `src/middleware.rs:19,22`, still percent-encoded and without the query. It is taken as given: `/api/v1/users/%31%32%33` keeps its nine-byte last piece.
- Middleware.Inc: the counter children of `http_requests_total` (an `IntCounterVec`, `src/metrics.rs:9`) and the histogram's observation counts are `u64` in the source. They are modelled as unbounded `nat`, so wrap-around after 2^64 increments is not modelled.
