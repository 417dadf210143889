# download-simulator, modelled in Dafny

The download simulator is a small HTTP test server. Its stateless endpoints
make random bytes under controlled conditions so that a client's download
handling can be exercised:

- `/api/download` streams 1 MiB chunks under a fixed `Content-Length`. It can
  stop early at an `abortAfter` boundary.
- `/api/download-no-length` streams whole chunks and declares no length.
- `/api/redirect-download` answers with a chain of 302 redirects that ends in
  one block of data.
- `/api/download-4xx` answers with whatever status code the caller names.
- `/healthcheck` is the liveness probe.

Each handler is modelled as a function or a method. The three download
handlers take the request's query parameters (`Query.Args`, a map from name
to string) and return an `Http.Outcome`. An outcome is either a response
(status, the headers the handler sets, a body) or `ValueErrorRaised`, which
stands for an uncaught `ValueError` from Python's `int()`. `Status.Simulate4xx`
takes the query parameters and returns an `Http.Response` directly, because
the handler catches that error itself. `Health.Healthcheck` takes nothing and
returns an `Http.Response`.

A streamed body is modelled as the sequence of the lengths of the pieces the
generator yields. The two generator loops are methods with `while` loops.
Each is proved equal to a specification function, and the properties are
proved about that function.

`Decimal` models `int()` and `str()` on integers, and proves that they
round-trip. This is what lets the model show three things:

- the declared `Content-Length` is the number of bytes promised;
- the `Location` of each redirect carries the next hop's parameters;
- the simulated error message names its status.

The query-string reader `Query.UrlArgs` is what a client uses to turn a
`Location` back into parameters.

Modules:

- `Wrappers`: `Option`.
- `Decimal`: the `int()` and `str()` subset.
- `Query`: request parameters and query strings.
- `Http`: response shapes and body length.
- `Download`, `Redirect`, `Status`, `Health`: the handlers.

None of the handlers checks `size`, `abortAfter`, `redirects` or `code` for
sign. The model follows the code: negative values go through Python's slice
clamping, and `os.urandom` raises on a negative length.

## Model

| member | source | states |
|---|---|---|
| Decimal.ParseShow | backend/main.py:68 | Reading back with `int()` a number written out by `str()` gives the same integer, negative numbers included. This is what makes the redirect URL and the Content-Length header carry their values exactly. |
| Decimal.ParseRejectsForeign | backend/main.py:83-87 | `ParseInt`, the modelled `int()` grammar, rejects a string with a character that is not a digit, other than a leading sign. |
| Query.IntArgShow | backend/main.py:16-17 | A parameter whose text is an integer written out by `Show` reads back as that integer, whatever the default. |
| Query.UrlArgsOfTwo | backend/main.py:68 | The query string `?k1=v1&k2=v2` of a URL reads back as the map {k1: v1, k2: v2} when the path has no `?`, the keys have no `=`, and neither keys nor values have `&`. |
| Download.Stream | backend/main.py:24-33 | The generator's loop yields exactly `StreamPieces(size, abortAfter)`. Its byte counter ends at max(0, min(size, abortAfter)) MiB, which is the sum of the pieces. |
| Download.StreamTotal | backend/main.py:26-32 | The stream delivers max(0, min(size, abortAfter)) MiB in total. |
| Download.StreamShape | backend/main.py:26-32 | Every piece is at most one chunk, and all pieces but the last are whole chunks. The number of pieces is 0 when size ≤ 0, otherwise size, or max(abortAfter, 0) + 1 when the abort boundary comes first. A cut-off last piece is empty. |
| Download.BasicDownload | backend/main.py:15-40 | Raises exactly when `size`, or `abortAfter` (whose default is `size`), is not an integer. Otherwise it answers 200 with Accept-Ranges, Content-Disposition `file.bin` and Content-Length size × MiB, and its body is the stream's pieces. |
| Download.CompleteDownload | backend/main.py:17-39 | Without `abortAfter`, a download of size ≥ 0 delivers exactly the bytes its Content-Length header declares. |
| Download.TruncatedDownload | backend/main.py:20-39 | With 0 ≤ abortAfter < size, the body stops at abortAfter MiB. That is short of the Content-Length, which still declares size MiB. |
| Download.Generate | backend/main.py:48-51 | The loop yields max(size, 0) pieces, each a full chunk, for max(size, 0) MiB in total. |
| Download.DownloadNoLength | backend/main.py:44-58 | Raises exactly when `size` is not an integer. Otherwise it answers 200 with only the `file-no-length.bin` Content-Disposition and no Content-Length, and its body is max(size, 0) full chunks. |
| Redirect.PayloadBody | backend/main.py:71-72 | For size ≥ 0 the final body is a single piece of size MiB. For size < 0, `os.urandom` raises before any byte is sent. |
| Redirect.RedirectDownload | backend/main.py:62-77 | Raises exactly when `redirects` or `size` is not an integer. Otherwise the status is 302 exactly when redirects > 0. A 302's Location asks for redirects − 1 and the same size; otherwise the answer is the 200 payload with Content-Disposition `redirected_file.bin`. With no parameters it is the 10 MiB payload. |
| Redirect.LocationNamesRequest | backend/main.py:67-69 | A client reading the query of a redirect's Location gets exactly the parameters `redirects` and `size`, and they parse back to the integers written. |
| Redirect.RedirectStep | backend/main.py:67-69 | With redirects > 0, a client that follows Locations sees a 302 naming redirects − 1, then whatever the request for redirects − 1 gives. |
| Redirect.ExpectedChainShape | backend/main.py:62-77 | The expected chain from n redirects has n + 1 responses. The i-th is a 302 asking for n − 1 − i redirects with the size unchanged, and the last is the payload. |
| Redirect.ChainReachesPayload | backend/main.py:62-77 | Starting at n ≥ 0 redirects, following every Location gives exactly the expected chain: n redirects with the count falling by one each hop, then one 200 payload, `PayloadBody(size)`: size MiB for size ≥ 0, and an empty body that raises for size < 0. |
| Status.Simulate4xx | backend/main.py:81-87 | If `code` (default 401) is not an integer, the answer is 400 "Invalid code". Otherwise it answers with that code as the status, unchecked, and the message "Simulated HTTP {code} error". |
| Status.MessageNamesStatus | backend/main.py:84 | The number inside the message parses back to the status it came with. |
| Status.AnyCodeIsEchoed | backend/main.py:83-85 | Any integer written as a decimal comes back as the status, with no range check. |
| Status.DefaultIs401 | backend/main.py:83-85 | With no `code` parameter the answer is 401 "Simulated HTTP 401 error". |
| Status.NonIntegerCode | backend/main.py:83-87 | A code that `ParseInt`, the modelled grammar, rejects because of a character that is not a digit (other than a leading sign) is answered with 400 "Invalid code". |
| Health.Healthcheck | backend/main.py:10-12 | The probe answers 200 with the JSON object {"status": "ok"}. |

## Left out

- Flask's routing, CORS, and the `mimetype`/Content-Type header are not modelled. Only the headers each handler sets itself are.
- The bytes of `os.urandom` are not modelled; a body is the lengths of its pieces.
- `time.sleep` pacing between chunks is not modelled; no clock is modelled.
- The `print` logging in the redirect handler is not modelled; it has no effect on the response.
- Generator laziness is not modelled: a body is the whole sequence the generator yields, run to its end. A client disconnecting mid-stream is not modelled.
- What Flask does with an uncaught `ValueError` (a 500 page) is not modelled; the model stops at `ValueErrorRaised`.
- Flask's checks on the status code that `simulate_4xx` returns are not modelled, nor the page that `redirect()` writes for a 302. That page is `RedirectPage(url)`.
- Decimal.ParseInt: models `int()` only on an optional sign followed by ASCII digits. Surrounding whitespace, `_` separators and non-ASCII digits, which Python also accepts, are left out.
- Decimal.ParseInt / Decimal.Show: do not model CPython's limit on decimal conversion, 4300 digits by default in 3.11 and later and in the 3.10.7, 3.9.14 and 3.8.14 security releases. Past it, `int()` of the text and `str()` of the integer raise `ValueError`. The model parses and writes integers of any length. So a `size` or `redirects` too long to parse, or a Content-Length too long to write, is served by the model where the server raises. A `code` too long to parse is echoed by the model where the server answers 400 "Invalid code".
- Status.AnyCodeIsEchoed: holds in the server only for codes of at most 4300 digits, for the reason given in the line above.
- Decimal.ParseShow: holds in the server only for integers of at most 4300 digits, for the same reason.
- Query.UrlArgs: splits the query on `&` and `=` without percent-decoding. The redirect URLs that the server writes need none.
- Redirect.FollowRedirects: the client is modelled as sending, for each 302, the request that `LocationNamesRequest` proves the Location names. The parameters are not re-read from the response inside the recursion. Redirect limits on the client side are not modelled.
