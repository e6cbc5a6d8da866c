# File listing of the bucket gateway

This project models the file-listing endpoint `GET /api/files` of a Next.js
gateway in front of a Google Cloud Storage bucket. The handler enumerates the
bucket, keeps the objects whose name contains the `search` query parameter
ignoring case, fetches the metadata of every kept object concurrently, and
returns the `page`-th window of ten records together with `totalPages`, the
number of ten-record pages the matches fill. Any failure of the storage calls
turns the whole response into a 500 error with the body
`{ error: "Error fetching files" }`.

The model is pure, as the handler is a chain of `filter`, `map`, `Math.ceil`
and `slice` expressions:

- `text.dfy` (module `Text`): lower-casing (`Lower`, `LowerString`), the
  substring scan `Includes` with its reference definition `OccursAt`, and the
  search predicate `Matches`.
- `paging.dfy` (module `Paging`): `PAGE_SIZE = 10`, the page count
  `TotalPages`, JavaScript's `slice` for non-negative bounds (`Slice`), one
  page (`Page`) and the concatenation of pages `1..k` (`Pages`).
- `files_route.dfy` (module `FilesRoute`): the bucket as input data
  (`BucketFile`, with the outcome of its own metadata fetch), the filter, the
  all-or-nothing metadata fetch `FetchMetadata`, the handler `Get`, and the
  properties of the handler.

The storage calls are inputs: the result of `bucket.getFiles()` is an
`Option<seq<BucketFile>>` (`None` when the call rejects), and each
`BucketFile` carries `Some(metadata)` or `None` for its own `getMetadata()`
call. The query parameters are `Option` values, `None` standing for a missing
or empty parameter.

## Model

| member | source | states |
|---|---|---|
| `Text.Includes` | src/app/api/files/route.ts:15 | `includes` as a left-to-right scan; `Text.IncludesIffOccurs` states that it finds the term exactly when it occurs in the string |
| `Text.Matches` | src/app/api/files/route.ts:15 | the search predicate `name.toLowerCase().includes(search.toLowerCase())`; `Text.MatchesIgnoresCase` and `Text.MatchesEmptySearch` state its properties |
| `Text.Lower` | src/app/api/files/route.ts:15 | the result is never an upper-case letter, and a character is left unchanged exactly when it is not one |
| `Text.LowerString` | src/app/api/files/route.ts:15 | `toLowerCase` keeps the length and lower-cases every character in place; no upper-case letter remains |
| `Text.LowerStringIdempotent` | src/app/api/files/route.ts:15 | lower-casing an already lower-cased string changes nothing |
| `Text.IncludesIffOccurs` | src/app/api/files/route.ts:15 | the left-to-right `includes` scan returns true exactly when the term occurs at some position of the string (both directions) |
| `Text.MatchesIgnoresCase` | src/app/api/files/route.ts:15 | a name matches exactly when the lower-cased term occurs in the lower-cased name, and lower-casing the name or the term first never changes the answer |
| `Text.MatchesEmptySearch` | src/app/api/files/route.ts:9-15 | the empty search term matches every name |
| `Paging.TotalPages` | src/app/api/files/route.ts:25 | the page count is 0 exactly when nothing matches, and otherwise the least `n` with `(n-1)*10 < count <= n*10`, i.e. `ceil(count / 10)` |
| `Paging.Slice` | src/app/api/files/route.ts:26-29 | `slice(start, end)` has length `min(end, len) - start` (0 when the window is empty or starts past the end) and its `i`-th item is item `start + i` of the input |
| `Paging.Page` | src/app/api/files/route.ts:26-29 | page `p >= 1` has at most 10 items, exactly the items at indices `[(p-1)*10, min(p*10, len))` |
| `Paging.PageBeyondEnd` | src/app/api/files/route.ts:25-29 | a page number past `totalPages` yields an empty page |
| `Paging.PageWithinRange` | src/app/api/files/route.ts:25-29 | pages `1..totalPages` are non-empty, every page before the last is full, the last holds the remainder |
| `Paging.Pages` | src/app/api/files/route.ts:26-29 | pages `1..k` concatenated in order; `Paging.PagesArePrefix` and `Paging.PagesReassemble` state what they add up to |
| `Paging.PagesArePrefix` | src/app/api/files/route.ts:26-29 | pages `1..k` concatenated are the first `min(10k, len)` items |
| `Paging.PagesReassemble` | src/app/api/files/route.ts:25-29 | pages `1..totalPages` concatenated reproduce the sequence exactly |
| `Paging.PageOfIndex` | src/app/api/files/route.ts:26-29 | position `j` of page `p` is item `(p-1)*10 + j`, and that is item `i` only for `p = i/10 + 1`, `j = i % 10`: no two pages share an item |
| `Paging.IndexOnSomePage` | src/app/api/files/route.ts:25-29 | every item `i` appears on page `i/10 + 1`, which lies within `1..totalPages` |
| `Paging.TwentyThreeItems` | src/app/api/files/route.ts:25-29 | with 23 matches: 3 pages, page 1 has 10 items, page 3 has 3, page 4 is empty |
| `FilesRoute.PageNumber` | src/app/api/files/route.ts:8 | the requested page is at least 1, and is 1 when the `page` parameter is absent or empty |
| `FilesRoute.SearchTerm` | src/app/api/files/route.ts:9 | the search term is empty when the `search` parameter is absent or empty |
| `FilesRoute.Filter` | src/app/api/files/route.ts:14-15 | the bucket's files whose name contains the term ignoring case; `FilesRoute.FilterSound`, `FilesRoute.FilterComplete`, `FilesRoute.FilterAppend` state its properties |
| `FilesRoute.ToRecord` | src/app/api/files/route.ts:16-22 | the response entry built from one file's name and fetched metadata; `FilesRoute.FetchMetadata` states what the entries hold |
| `FilesRoute.Get` | src/app/api/files/route.ts:6-42 | a listing never has more than 10 files, and the error response is the 500 `"Error fetching files"` body; `FilesRoute.GetFails`, `FilesRoute.GetSound`, `FilesRoute.GetPageBounds` and `FilesRoute.GetPagesReassemble` state the rest |
| `FilesRoute.FetchMetadata` | src/app/api/files/route.ts:14-23 | the joined fetches succeed exactly when every file's fetch succeeds, and then give one record per file, in the same order, with that file's name, update time and size |
| `FilesRoute.FilterAppend` | src/app/api/files/route.ts:14-15 | filtering distributes over concatenation, so it keeps the bucket's enumeration order |
| `FilesRoute.FilterSound` | src/app/api/files/route.ts:14-15 | every kept file was in the bucket and its name matches the search term ignoring case |
| `FilesRoute.FilterComplete` | src/app/api/files/route.ts:14-15 | every bucket file whose name matches the search term ignoring case is kept |
| `FilesRoute.FilterEmptySearch` | src/app/api/files/route.ts:9-15 | the empty search term keeps every file, in order |
| `FilesRoute.FilterIdempotent` | src/app/api/files/route.ts:14-15 | filtering twice with the same term is filtering once |
| `FilesRoute.GetFails` | src/app/api/files/route.ts:11-41 | the response is the 500 error exactly when listing the bucket fails or the metadata fetch of some matching file fails |
| `FilesRoute.GetSound` | src/app/api/files/route.ts:12-29 | every record on a returned page matches the search term ignoring case and carries the name and metadata of a file of the bucket |
| `FilesRoute.GetPageBounds` | src/app/api/files/route.ts:25-29 | a returned page has at most 10 records, `totalPages` is `ceil(matches / 10)`, and a page past `totalPages` is empty and reports the same `totalPages` as page 1 |
| `FilesRoute.CollectedIsPages` | src/app/api/files/route.ts:25-29 | against one unchanged bucket, requesting pages `1..k` one call at a time returns pages `1..k` of the matching records |
| `FilesRoute.GetPagesReassemble` | src/app/api/files/route.ts:25-29 | against one unchanged bucket, requesting pages `1..totalPages` one call at a time returns every matching record exactly once, in bucket order |
| `FilesRoute.GetPageDefault` | src/app/api/files/route.ts:8 | for every search term and bucket, an absent `page` parameter gives the same response as page 1 |
| `FilesRoute.GetSearchDefault` | src/app/api/files/route.ts:9 | for every page and bucket, an absent `search` parameter gives the same response as the empty term |
| `FilesRoute.GetDefaults` | src/app/api/files/route.ts:8-15 | with neither parameter and every metadata fetch succeeding, the handler returns page 1 of every file of the bucket, with `totalPages` covering the whole bucket |

## Left out

- `Text.Lower`: maps only the ASCII letters A-Z; JavaScript's `toLowerCase` applies the full Unicode case mapping.
- `Text.LowerString`: keeps the length and maps character by character; full-Unicode `toLowerCase` can change the length (`"İ"` becomes two code points) and maps some characters by context.
- Parsing of the query string: `parseInt` of the `page` parameter is not modelled. `page` is an integer of at least 1; JavaScript's behaviour for 0, negative numbers or `NaN` (a `slice` counted from the end, or an empty page) is not captured.
- The record's `size` is the number the metadata reports; `parseInt(String(metadata.size) || "0", 10)` is not modelled, and neither is the `NaN` it yields for a missing size.
- `Paging.TotalPages`: computed on unbounded integers; `Math.ceil` over floating-point division agrees with it for every count below 2^53.
- `Promise.all` runs the metadata fetches concurrently; the model joins them in order and fails when any one fails, which is what the join returns. Concurrency and timing are not modelled.
- The storage library (`bucket.getFiles()`, `file.getMetadata()`) is an input, as described above; which error it raised is not modelled, only that the handler answers with the 500 error. The `console.error` log is left out.
- Consistency between calls: every request lists the bucket and fetches metadata anew, so files added or removed between the requests for two pages can shift records across a page boundary and be returned twice or skipped. `FilesRoute.CollectedIsPages` and `FilesRoute.GetPagesReassemble` hold only for one unchanged bucket.
- The HTTP plumbing of `NextRequest` and `NextResponse.json` is left out; a response is the `Response` datatype.
- The upload-session manager and the API-key authorizer: their implementation (the `useFileUploader` hook and the key store) is not part of this model.
- The React components (file uploader, previews, login form, API-key card, theme switch, files page) are presentation and are not modelled.
