# Keyword search over a remote directory — Dafny model

The system is a single HTTP endpoint, `POST /search`. It takes a `keyword`, lists one
fixed directory of a remote repository and keeps the names of `.json` files. It then
fetches those files one at a time, in listing order. The reply names the first file
whose text contains the keyword. This project models that decision and proves what it
promises. The remote service is abstracted away:

- the listing request's answer is a value `Listing`: a status and a body, or a thrown error;
- fetching is a given function from file name to `Content`: `Absent` (the request failed
  and `null` came back), `NonString` (for instance a body the client parsed into an object)
  or `Text(s)`.

Modules:

- `Wrappers`: `Option`.
- `Listing`: the `listFiles` filter. It keeps entries of kind `"file"` whose name ends in
  `".json"`, in order. Every failure collapses to the empty sequence.
- `Search`: the keyword test, the literal substring search (`includes`), the scan as a
  specification function (`Handle`, `Scan`, `FirstMatch`) and the handler as an imperative
  method with a fetch trace (`HandleSearch`).
- `Http`: the status codes and JSON bodies of the replies. `FromReply` is the inverse of
  `ToReply`.

One edge case follows the code closely. Fetched content that is the empty string is
falsy at app.js:65, so it is skipped like absent or non-string content.

## Model

| member | source | states |
|---|---|---|
| `Listing.JsonFileNames` | app.js:36 | the filtered names are no more than the entries, and every kept name ends in ".json" |
| `Listing.JsonIndices` | app.js:36 | reference description of the kept entries: exactly the positions of file entries named "*.json", strictly increasing |
| `Listing.JsonFileNamesExact` | app.js:36 | the k-th kept name is the name of the k-th json-file entry: exactly the right names, in original relative order |
| `Listing.InJsonFileNames` | app.js:36 | a name is kept if and only if some entry of kind "file" ending in ".json" carries it |
| `Listing.JsonFileNamesAppend` | app.js:36 | filtering a concatenation of listings is the concatenation of the filtered parts (order is preserved) |
| `Listing.ListFiles` | app.js:31-45 | only a 200 answer whose body is an array yields names (the filter of its entries); a thrown request, another status or a non-array body yields the empty sequence, never an error |
| `Search.Includes` | app.js:66 | true if and only if the keyword occurs in the text at some position, as a literal case-sensitive substring |
| `Search.FirstMatch` | app.js:62-75 | the index of the first listed file whose content is non-empty text containing the keyword; every earlier file does not match; the length of the listing when none matches |
| `Search.Scan` | app.js:62-77 | the scan returns Found for the file at the first position whose content passes `Readable` (non-empty text, the test at line 65) and contains the keyword, with exactly its fetched text, and NotFound when no listed file does |
| `Search.Handle` | app.js:50-77 | BadRequest exactly when `HasKeyword` fails (the `!keyword` test); with a keyword, ListFail exactly when the filtered listing (`ListFiles`, keeping `IsJsonFile` entries) is empty; otherwise Found for the file at `FirstMatch`, or NotFound when no file matches; the three cases exclude each other, so each is an if-and-only-if |
| `Search.HandleFoundIsFirstMatch` | app.js:62-71 | a Found outcome has a keyword; its name is in the filtered listing; its content is exactly the fetched non-empty text and contains the keyword; every file listed before it is absent, not text, or lacks the keyword |
| `Search.HandleFoundIsListed` | app.js:31-70 | the found file is the name of an entry of kind "file" ending in ".json" in a 200 listing answer |
| `Search.FoundAtFirstMatch` | app.js:62-75 | conversely, absent or non-string content never aborts the scan: if the file at index i matches and none before it does, the outcome is Found for that file |
| `Search.HandleNotFoundIffNoMatch` | app.js:62-77 | with a keyword, the outcome is NotFound exactly when the listing is non-empty and no listed file has text containing the keyword |
| `Search.HandleSearch` | app.js:49-78 | the handler loop computes `Handle`; the listing is requested only when the keyword is present; the files fetched are a prefix of the listing in listing order; their number is the match index + 1 on Found, the listing length on NotFound, and zero on BadRequest or ListFail |
| `Http.ToReply` | app.js:52-77 | the status is 200 exactly for Found; every reply decodes back to its outcome, so distinct outcomes give distinct replies (400 "Keyword is required", 500 "Could not retrieve file list from GitHub.", 200 "Keyword found in <name>" with the content, 404 "Keyword not found in any files.") |
| `Http.FoundReply` | app.js:62-70 | a 200 reply has message "Keyword found in " + name, the name is listed, and `fileContent` is exactly that file's fetched text, which contains the keyword |

## Left out

- The generic failure reply (app.js:79-81, status 500 "An error occurred during the search."): with the modelled inputs nothing inside the `try` can throw, so no outcome reaches it.
- Express setup, body parsing, routing and the listening port (app.js:1-5, 12-13, 86-88): framework plumbing.
- The HTTP requests themselves, URL construction, the `Accept` header and the fixed owner, repository and directory (app.js:7-10, 16-28, 33): replaced by the `Listing` value and the `fetch` function.
- Whether the HTTP client parses a raw `.json` body into an object: library behaviour; the fetch function may return `NonString` instead.
- Error logging (`console.error`, `console.warn`): side effects with no behaviour to state.
- `async`/`await` and concurrent requests: each scan is sequential, so it is modelled as a loop and a recursive function.
- JavaScript truthiness beyond strings: the keyword is `Option<string>`. A missing or empty keyword is rejected. Non-string keyword values are not modelled.
- Strings are Dafny strings, sequences of Unicode scalar values, while `includes` (app.js:66) and `endsWith` (app.js:36) work on UTF-16 code units. On well-formed text the two agree: a well-formed keyword cannot start matching inside a surrogate pair, and ".json" is ASCII. A keyword or content holding a lone surrogate (which a JSON escape such as `"\ud800"` can produce) cannot be represented in the model.
- Listing entries whose `name` is not a string would throw inside the filter. Entries are modelled with string names and kinds only.
- The `!fileList` test at app.js:58: `listFiles` always returns an array, so only the emptiness test is modelled.
