# Link-to-note resolver: a Dafny model

The program reads a text, extracts every `http(s)://` link, and for each link
finds the posting account on a federated note service (`blahaj.zone`). It
fetches that account's whole note history page by page and logs the canonical
URL `https://blahaj.zone/notes/<id>` of every note whose stored URL contains
the link.

This project models the logic of `main.go`:

- **Pagination** (`getUserNotes`). The number of page requests is the
  ceiling of `notesCount / 100`. Each request has a limit, and every request
  after the first carries a `sinceId` cursor. The method `GetUserNotes` keeps
  the source's running `passes` counter and appends records one at a time. It
  is proved equal to the specification `Fetch`. `Fetch` is written with the
  closed-form limit `Limit` and the cursor "ID of the last note delivered so
  far". The listing endpoint is a script of responses: the i-th request sent
  receives the i-th response.
- **Wire**: the JSON text of a listing request, as the source builds it and
  as it should be.
- **Handles**: the account name. It is field 1 of the link's path split on
  `/`, with one leading `@` cut off.
- **Correlation**: the loop over the fetched notes. It uses substring
  containment (`strings.Contains(note.URL, link)`). It logs one canonical URL
  per match and overwrites `id` on each match.
- **Lookup** (`getUserID`) and **Pipeline** (the per-link loop of `main`).
  These tie the parts together with fail-fast handling: a panic or
  `log.Fatal` ends the run.

Behaviour pinned down as `main.go` has it:

- The correlation does not stop at the first match. `id` ends as the
  **last** matching note's ID, or stays the account ID if nothing matches.
- The containment runs one way: the stored note URL must contain the
  extracted link.
- After the first page of a multi-page fetch, `passes` is 100. After the
  second page, `passes` equals `notesCount`. So page 1 asks for
  `notesCount - 100` notes, which can exceed the page size, and every later
  page asks for 0.
- A multi-page fetch whose first page comes back empty reads
  `noteList[len-1]` of an empty list and panics. The model's status for this
  is `Panicked`.
- `main.go` has no per-run cache: every link fetches its account again. It
  writes no output file either; the log is its only output.
- A failed page returns the notes gathered so far, and `main` discards them
  through `log.Fatal`.

## Model

| member | source | states |
|---|---|---|
| Pagination.Fetch | main.go:77-117 | definition: the whole fetch for one account, started at page 0 with no notes and no requests. Its properties are the `FetchShape` row and the `Fetch…` rows below; `GetUserNotes` is proved equal to it |
| Pagination.FetchFrom | main.go:84-116 | definition: the loop from page i on. The page count ends it as complete. An empty list past page 0 is the panic of line 98. Otherwise it sends one request (account, `Limit`, last note's ID) and then either stops with the transport error or appends the page's records and goes on. `FetchShape` (through its inductive helper) carries its properties |
| Pagination.Limit | main.go:88-100 | definition: the limit of request i in closed form (notesCount for a single page; 100, notesCount-100, then 0). `RequestedAfterFirstPage` and `LimitsAddUp` tie it to the source's `passes` counter |
| Pagination.PageCount | main.go:81-84 | the number of page requests is the ceiling of notesCount/100: (pages-1)*100 < notesCount <= pages*100; zero when the count is not positive |
| Pagination.RequestedAfterFirstPage | main.go:90-100 | in a multi-page fetch, the running `passes` total is 100 after page 0 and equals notesCount after every later page |
| Pagination.LimitsAddUp | main.go:88-100 | the limits sent over a whole fetch add up to notesCount |
| Pagination.FetchShape | main.go:77-117 | covers every fetch: at most ceil(n/100) requests. Request j is (userId, Limit(n, j), ID of the last note delivered by pages before j), and every request after the first has a cursor. The fetch completes exactly when no page fails and no empty-first-page panic is due, returning all records in order. On failure it returns the earlier pages' records with the error. On the panic, exactly one request was sent |
| Pagination.FetchNothingWithoutNotes | main.go:81-84 | a count <= 0 sends no request and returns an empty list |
| Pagination.FetchSinglePage | main.go:88-91 | 1..100 notes: exactly one request, with limit = notesCount and no sinceId; the result is that page's records or that page's error |
| Pagination.FetchMultiPage | main.go:92-100 | more than 100 notes: request 0 has limit 100 and no cursor. Request 1 has limit notesCount-100. Every later request has limit 0. Each request j > 0 has as sinceId the ID of the last note delivered by pages 0..j-1, and that list is non-empty |
| Pagination.FetchCompleteConcatenates | main.go:107-116 | when every page due succeeds and no panic is due: status complete, ceil(n/100) requests, and the result is the in-order concatenation of all pages' records |
| Pagination.FetchStopsAtFailure | main.go:102-105 | a transport failure on page k: the fetch returns that error and the records of pages 0..k-1 unchanged, and sends no request after page k |
| Pagination.FetchPanicsOnEmptyFirstPage | main.go:96-98 | several pages due and an empty first page: one request (limit 100, no cursor) was sent, then the unguarded `noteList[len-1]` panics |
| Pagination.GetUserNotes | main.go:77-117 | the loop, with its `passes` counter and record-by-record append, returns exactly the notes, requests and status of `Fetch` |
| Wire.BodyAsWritten | main.go:89-99 | definition: the request text exactly as lines 89, 93 and 99 concatenate it. `FirstPageBodyWellFormed` compares it with `Body`, and `CursorBodyQuotesOdd`, `OddQuotesNoObject` and `CursorBodyExample` exhibit the defect at line 99 |
| Wire.Body | main.go:89-99 | definition: the corrected text, the JSON rendering of the request's fields (the cursor only when there is one). `BodyQuotesEven` and `FirstPageBodyWellFormed` carry its properties |
| Wire.NatToDecimal | main.go:89 | the digits `fmt.Sprint` gives a non-negative count: at least one, all decimal digits, one digit exactly below 10, and no leading zero (`0` starts the text only for zero); `DecimalRoundTrip` reads them back |
| Wire.DecimalRoundTrip | main.go:89 | the decimal text `fmt.Sprint` gives a count reads back as that count |
| Wire.FirstPageBodyWellFormed | main.go:89-93 | the bodies built without a cursor are exactly the JSON rendering of the request |
| Wire.CursorBodyQuotesOdd | main.go:99 | for an account ID and cursor without `"`, the body built with a cursor has 11 double quotes, an odd number, because of the stray quote after the limit |
| Wire.OddQuotesNoObject | main.go:99 | a text with an odd number of quotes is not the rendering of any flat JSON object whose keys and strings hold no quote |
| Wire.BodyQuotesEven | main.go:99 | the corrected body of any request, with or without a cursor, has an even number of quotes |
| Wire.CursorBodyExample | main.go:99 | userId 9abc, limit 50, sinceId 9xyz gives `{"userId": "9abc", "limit": 50", "sinceId": "9xyz"}` |
| Handles.Username | main.go:40-41 | definition: field 1 of the path split on `/`, with `CutPrefix` of `@`; None where line 40's index panics. `UsernameDefined`, `UsernameOfPath`, `UsernameHasNoSlash` and `UsernameExamples` carry its properties |
| Handles.Split | main.go:40 | `strings.Split`: at least one field, and no field contains the separator |
| Handles.SplitCount | main.go:40 | there is one more field than there are separators |
| Handles.JoinSplit | main.go:40 | joining the fields with the separator gives back the string |
| Handles.SplitJoin | main.go:40 | splitting a join of separator-free fields gives back the fields |
| Handles.CutPrefix | main.go:41 | `strings.CutPrefix`: reports whether the prefix is there; if so the result is the rest of the string after it, otherwise the string unchanged |
| Handles.UsernameDefined | main.go:40 | indexing the split at 1 succeeds exactly when the path contains `/`; otherwise the program panics |
| Handles.UsernameOfPath | main.go:40-41 | for a path `before/segment[/...]` the name is the segment between the first and second `/`, with at most one leading `@` removed |
| Handles.UsernameHasNoSlash | main.go:40-41 | the name never contains `/` |
| Handles.UsernameExamples | main.go:40-41 | `/@alice/109876` gives `alice`, `/@@bob` gives `@bob`, and the empty path panics |
| Correlation.Contains | main.go:54 | `strings.Contains` is true exactly when the needle occurs at some position of the haystack |
| Correlation.ContainmentDirection | main.go:54 | the note URL must contain the link: a note URL extending the link matches, and a link longer than the note URL never matches |
| Correlation.ContainmentExample | main.go:54 | stored `.../notes/abc?x=1` matches link `.../notes/abc`, and not the other way round |
| Correlation.Matching | main.go:52-54 | the matches are notes of the list whose URL contains the link, and every such note is among them |
| Correlation.MatchingAppend | main.go:52-58 | matching distributes over concatenation: nothing is dropped, reordered or deduplicated |
| Correlation.FinalIdWithoutMatch | main.go:52-59 | with no matching note, `id` keeps the account ID |
| Correlation.FinalIdIsLastMatch | main.go:52-59 | `id` ends as the ID of the last matching note by position, whatever matched before it |
| Correlation.FinalId | main.go:52-59 | definition: the ID of the last matching note, or the account ID when there is none. `FinalIdWithoutMatch` and `FinalIdIsLastMatch` carry its properties, and `Correlate` is proved to end with it |
| Correlation.Correlate | main.go:52-59 | the loop logs the canonical URL `https://blahaj.zone/notes/<id>` of every matching note, in order, and leaves `id` as `FinalId` |
| Lookup.GetUserId | main.go:63-75 | a transport failure is passed on as an error; a missing `id` reads as "" and a missing `notesCount` as 0, never as an error |
| Pipeline.ProcessLink | main.go:40-59 | definition: one pass of the per-link loop. The name is extracted, the account looked up, its notes fetched and correlated; each panic or `log.Fatal` is a `Stop`. `ReportOfLink` carries its properties, and `Run` is proved against it |
| Pipeline.ReportOfLink | main.go:33-59 | a processed link's report looks up the name from the link's path and the link's host. It logs, in order, the canonical URLs of the notes among all fetched pages whose URL contains the link |
| Pipeline.Run | main.go:33-60 | links are processed in order, one report each. The run stops at the first link whose name extraction panics, whose lookup or fetch fails, or whose fetch panics; that link gets no report and no later link is processed |

## Left out

- Reading `input.txt` (main.go:25-29) is left out. So is the regular-expression
  link extraction with `url.Parse` (main.go:31-39). The model takes each link's
  matched text, host and path as inputs (`Pipeline.Link`).
- Logging (`log.Printf`, `log.Fatal`) is I/O. The logged values are the
  fields of `Pipeline.Report`. A `log.Fatal` or panic becomes a `Pipeline.Stop`.
- `postAPI` and the HTTP client (main.go:119-139) are network I/O. They are
  replaced by decoded answers: `Lookup.LookupResponse` and a script of
  `Api.PageResponse` per link.
- Pagination.GetUserNotes: requires a response script at least as long as
  the number of pages. This is a condition on the stand-in for the network,
  not on the program's callers.
- `gjson` decoding (main.go:71-72, 107-112) is a foreign library. Records
  arrive as `(id, url)` pairs. How `gjson` converts values of other JSON
  types is not modelled.
- `time.Sleep` (main.go:85) has no effect on the logic.
- `math.Ceil(float64(n) / 100.0)` is modelled as exact integer ceiling. The
  two agree for every count up to 2^53. `int64` width is not modelled: counts
  are unbounded integers.
- The lookup body text (main.go:65) is left out. The model keeps only its two
  fields (`Lookup.LookupRequest`).
- Wire.BodyQuotesEven, Wire.CursorBodyQuotesOdd: quoting and escaping of
  identifiers that contain `"` are not modelled. Both quote counts assume an
  account ID and cursor without `"`.
- Strings: Go strings are byte sequences, while the model's `string` is a
  sequence of characters. `u.Path` is percent-decoded, so it can hold bytes
  that are not valid UTF-8 (for example `%C3`), and the model cannot
  represent such a path. On valid UTF-8, `strings.Split` on `/`,
  `strings.CutPrefix` of `@` and `strings.Contains` give the same result on
  bytes as on characters. `/` and `@` are single bytes that never occur
  inside a multi-byte character, and a byte-level match of valid UTF-8 text
  always starts and ends on character boundaries.
- The remote service's reaction to a limit of 0, a limit above 100, or a
  malformed body is not modelled.

## Findings

| source | as written | input that shows it | evidently intended | confidence | as-written member | corrected member |
|---|---|---|---|---|---|---|
| main.go:99 | the request body puts `"` right after the limit number: `"limit": ` + limit + `", "sinceId": "` | userId `9abc`, limit `50`, sinceId `9xyz` gives `{"userId": "9abc", "limit": 50", "sinceId": "9xyz"}`, with 11 quotes | `{"userId": "9abc", "limit": 50, "sinceId": "9xyz"}`, the JSON rendering of the request's three fields | high; not executed | Wire.CursorBodyQuotesOdd | Wire.BodyQuotesEven |

The as-written text is `Wire.BodyAsWritten`. Its odd quote count, together
with `Wire.OddQuotesNoObject`, shows it is not any flat JSON object.
`Wire.CursorBodyExample` gives a concrete instance. The corrected text is
`Wire.Body`, the JSON rendering of the request. `Wire.BodyQuotesEven` proves
its quote count is even, and `Wire.FirstPageBodyWellFormed` shows it matches
the first-page bodies, which line 89 and line 93 build correctly. The rest of
the model uses structured `Api.Request` records, and `Wire.Body` gives their
wire form.
