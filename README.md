# A model of the reg-cdn file server's request handling

`server.go` is a small HTTP content-delivery server. Uploads go to `/upload`. An upload is stored
either under its sanitized file name in `files/unversioned/` (the latest copy, which a re-upload
overwrites) or under the lower-case hex SHA-256 of its bytes in `files/versioned/` (content
addressed). Versioned files are served back by `/files/versioned/{hash}/{fileName}`.

This project models the part of the server that decides things. The Dafny modules are:

- `Sanitizer` (`sanitizer.dfy`) is the filename sanitizer: three `strings.ReplaceAll` calls and `filepath.Clean`. Clean is taken on separator-free strings only, where it changes nothing except `""`, which becomes `"."`.
- `ApiKeys` (`apikeys.dfy`) has `strings.Split`/`strings.Join` on `;` and `checkApiKey`, written as a loop with an early return. The allow-list is a parameter.
- `Hex` (`hex.dfy`) has `hex.EncodeToString` (two lower-case digits per byte) with a decoder as its inverse. The 32-byte digest is supplied by a caller-given function.
- `Http` (`http.dfy`) is the part of `net/http` the handlers drive: a `ResponseWriter` class whose header map is edited step by step. The first `WriteHeader` call fixes the header the client receives; later header edits are not sent.
- `Cdn` (`cdn.dfy`) holds the store: a map from (subtree, name) to bytes. It also holds `Upload` and `Retrieve`, the two handlers written as decision tables, and the class `Server`. `Server.HandleUpload` and `Server.HandleVersioned` follow `handleUpload` and `handleVersioned` statement by statement. They are proved to leave exactly the store and response that the decision tables give.
- `CdnProperties` (`properties.dfy`) proves the properties:
  - the order of the checks, and that nothing is written before authorization;
  - the CORS headers on every response;
  - the outcome of both upload modes;
  - idempotence and overwriting;
  - the upload-then-download round trip;
  - well-formed store keys.

Decisions the source leaves implicit:

- SHA-256 is the `Server`'s constant `sum256: Bytes -> Digest`. The handlers and lemmas work for any such function, and injectivity is never assumed.
- The I/O steps are a `Faults` value chosen by the environment, with three parts:
  - buffering the part into memory fails (versioned mode only);
  - `os.Create` fails;
  - the copy stops after `n` bytes. `os.Create` has already truncated the file, so the file then holds the first `n` bytes of the payload.
- `os.Create` on `files/unversioned/.` or `files/unversioned/..` names a directory, so it always fails. The sanitizer passes `"."` and `".."` through, and turns `""` into `"."`. So in unversioned mode the display names `""`, `"."` and `".."` always get a 500 with the store unchanged (`SanitizedDirectoryNames` with `FaultsAdvertiseNoLink`, stated together in `DirectoryNameUploads`). In versioned mode these names are stored under the hash like any other, and the link ends in the sanitized name. On retrieval, the hash `""`, `"."` or `".."` likewise names a directory, so `os.ReadFile` fails and the answer is 404.
- A read error other than "no such file" is the `readFails` parameter of `Retrieve`. The handler answers 404 for every read error.
- The `{hash}` route variable never holds a `/`, because the route pattern matches one path segment. `Retrieve` takes this as its precondition `RoutedByMux`.
- Two details of the code that shape the results:
  - The fallback to the part's filename (server.go:126-129) happens before sanitizing, so a display name that sanitizes to `.` is never replaced.
  - In versioned mode the anchor text is the hash rather than the display name, because `ffName` is reassigned at server.go:161.

## Model

| member | source | states |
|---|---|---|
| `Sanitizer.ReplaceAll` | server.go:144-146 | the result has the input's length, and each character equal to `from` becomes `to` while the others stay in place |
| `Sanitizer.CleanElement` | server.go:147 | `filepath.Clean` of a separator-free string returns it unchanged, except that the empty string becomes `"."`; the result is never empty and has no `/` |
| `Sanitizer.Sanitize` | server.go:142-147 | the result is never empty and has no space, `/` or `\`; empty input gives `"."`; other input keeps its length, with each space, `/` and `\` replaced by `_` and every other character in place |
| `Sanitizer.SanitizeFixedPoints` | server.go:142-147 | a name is left unchanged by the sanitizer iff it is non-empty and has no space, `/` or `\` |
| `Sanitizer.SanitizeIdempotent` | server.go:142-147 | sanitizing twice gives the same as sanitizing once |
| `Sanitizer.SanitizeTraversal` | server.go:142-147 | `../../etc/passwd` becomes the single element `.._.._etc_passwd` |
| `Sanitizer.SanitizeKeepsDots` | server.go:142-147 | `..` and `.` pass through unchanged: the sanitizer removes separators, not relative names |
| `ApiKeys.Split` | server.go:72 | `strings.Split(s, ";")` gives at least one piece, and no piece contains `;` |
| `ApiKeys.JoinSplit` | server.go:72 | joining the pieces with `;` gives back the allow-list |
| `ApiKeys.SplitJoin` | server.go:72 | splitting a `;`-join of `;`-free pieces gives back exactly those pieces |
| `ApiKeys.CheckApiKey` | server.go:71-79 | the loop returns true iff the key equals one of the `;`-separated pieces of the allow-list |
| `ApiKeys.AuthorizedJoin` | server.go:71-79 | for an allow-list `k1;...;kn` of `;`-free keys, a key passes iff it is one of the ki |
| `ApiKeys.SemicolonKeyRejected` | server.go:71-79 | a key containing `;` never passes, whatever the allow-list |
| `ApiKeys.UnsetAllowList` | server.go:72 | an empty allow-list splits into `[""]`, so it admits the empty key and nothing else |
| `Hex.Encode` | server.go:158 | the encoding has two characters per byte, all lower-case hex digits |
| `Hex.Decode` | server.go:158 | the proof partner of the encoding at line 158, which has no decoder in the source: a successful decoding has half as many bytes as the string has characters |
| `Hex.DecodeEncode` | server.go:158 | decoding the encoding of a byte sequence gives it back |
| `Hex.EncodeDecode` | server.go:158 | encoding a successful decoding gives back the string |
| `Hex.EncodeInjective` | server.go:157-158 | two digests have the same hex name iff they are equal |
| `Hex.HashName` | server.go:157-158 | the name of a SHA-256 digest is 64 lower-case hex digits |
| `Http.Cors` | server.go:89-91 | the three cross-origin headers with their exact values, and no other header |
| `Http.Added` | server.go:99 | `Header.Add` appends the value under the key and leaves other keys alone |
| `Http.Decimal` | server.go:64 | `fmt.Sprint` of a length is a non-empty string of decimal digits that denotes the length |
| `Http.ResponseWriter.Set` | server.go:62-65 | `w.Header().Set` replaces the values under one key and leaves the status, the already fixed header and the body alone, so a call after the status is written is not sent (also used at server.go:32-34, 89-91 and 186) |
| `Http.ResponseWriter.Add` | server.go:99 | `w.Header().Add` appends a value under one key, keeps every other key, and leaves the status, the fixed header and the body alone |
| `Http.ResponseWriter.WriteHeader` | server.go:61-65 | for a final (non-1xx) status, the first call writes the status and fixes the header the client receives; later calls change nothing |
| `Http.ResponseWriter.Write` | server.go:67 | `w.Write` appends the payload to the body; with no status written yet it first writes 200 and fixes the current header, otherwise the status and fixed header stay as they were (also used at server.go:101 and 188) |
| `Cdn.Copied` | server.go:167 | an interrupted copy leaves a prefix of the payload; an uninterrupted one leaves all of it |
| `Cdn.Server.HandleUpload` | server.go:87-190 | sets the CORS headers, goes through the method, file, key and authorization checks in order, then writes; the resulting store and response are those of the decision table `Upload` |
| `Cdn.Server.SaveUpload` | server.go:142-188 | sanitizes the name; buffers, hashes and writes `versioned/<hash>`, or writes `unversioned/<name>`; then answers 500 or shows the link, as the table `Save` gives |
| `Cdn.Server.HandleVersioned` | server.go:30-69 | the client receives the response `Retrieve` gives; after a successful read, the writer's header holds the download headers, assigned after the status line |
| `CdnProperties.UploadRejections` | server.go:93-140 | OPTIONS gives 200 and an empty body, GET gives 200 with `Content-Type: text/html` added to the CORS header and the upload page, another non-POST gives 405, a missing file gives 400, an empty key gives 400, and a key not on the list gives 401; every rejection leaves the store unchanged |
| `CdnProperties.NoWriteBeforeAuthorization` | server.go:105-140 | a changed store implies a POST with a file part and a non-empty key that the allow-list admits |
| `CdnProperties.EmptyKeyNeverAuthorizes` | server.go:131-135 | the empty key would pass an unset allow-list, but the empty-key guard answers 400 with the store unchanged |
| `CdnProperties.UploadSendsCors` | server.go:89-91 | every upload response, error responses included, carries the three CORS headers |
| `CdnProperties.RetrieveSendsCors` | server.go:32-34 | every retrieval response, error responses included, carries the three CORS headers |
| `CdnProperties.ModeAndName` | server.go:121-129 | versioned mode holds iff the `versioned` field is exactly `on`; the display name is the `fileName` field, or the part's filename when that field is empty |
| `CdnProperties.SanitizedDirectoryNames` | server.go:142-147 | the sanitized name is `""`, `.` or `..` exactly when the display name is `""`, `.` or `..` |
| `CdnProperties.DirectoryNameUploads` | server.go:142-184 | an authorized unversioned upload whose display name is `""`, `.` or `..` answers 500 with an empty body and leaves the store unchanged; a versioned one with no failing I/O answers 200 with the payload stored under its hash |
| `CdnProperties.UnversionedSuccess` | server.go:149-188 | status 200; `unversioned/<sanitized name>` holds the payload and every other entry is unchanged; the link is `/files/latest/<name>` and the anchor text is the name |
| `CdnProperties.VersionedSuccess` | server.go:151-171 | status 200; `versioned/<hash>` holds the payload and every other entry is unchanged; the link is `/files/versioned/<hash>/<name>` and the anchor text is the hash |
| `CdnProperties.FaultsAdvertiseNoLink` | server.go:153-183 | a failed buffering, create or copy step answers 500 with an empty body |
| `CdnProperties.LinkOnlyOnSuccess` | server.go:186-188 | a link appears only in a 200 response to an authorized upload whose I/O all succeeded |
| `CdnProperties.SaveIdempotent` | server.go:151-184 | repeating the write phase on its own result leaves the same store and the same response |
| `CdnProperties.UploadIdempotent` | server.go:151-184 | repeating any upload request with the same I/O outcomes leaves the same store and gets the same response |
| `CdnProperties.SameBytesTwoNames` | server.go:157-161 | identical bytes uploaded versioned under two names give the same store, and the responses differ iff the sanitized names differ |
| `CdnProperties.UnversionedOverwrite` | server.go:173-183 | a second unversioned upload under the same sanitized name leaves only the second payload at that path |
| `CdnProperties.UploadThenRetrieve` | server.go:54-67 | after a versioned upload of P, downloading the hash of P under any file name returns 200 with body exactly P |
| `CdnProperties.RetrieveOutcomes` | server.go:36-67 | the status is always 200, 400 or 404; OPTIONS gives a bare 200 (the CORS header and an empty body); a missing route variable gives a bare 400; a read error, a missing file or a hash naming a directory gives a bare 404; otherwise the answer is 200 with exactly the stored bytes; the fileName segment does not affect the answer |
| `CdnProperties.SaveKeepsStoreWellFormed` | server.go:142-184 | the write phase only creates `versioned/` names of 64 lower-case hex digits and `unversioned/` names that are sanitized and not `.` or `..` |
| `CdnProperties.UploadKeepsStoreWellFormed` | server.go:87-190 | an upload keeps every store key well formed, so no stored name contains a separator |
| `CdnProperties.UploadKeepsContentAddressed` | server.go:151-171 | when no copy is interrupted, every versioned file stays named by the hash of its contents |
| `CdnProperties.InterruptedCopyTruncatesVersion` | server.go:159-170 | a versioned re-upload whose copy stops after n bytes answers 500 and leaves only the first n bytes under the hash |
| `CdnProperties.RetrieveOmitsDisposition` | server.go:61-65 | as written, a successful download sends no Content-Disposition header |
| `CdnProperties.RetrieveIntendedNamesDownload` | server.go:61-65 | with the headers set before the status line, a successful download carries `attachment; filename=<URL name>`, the CORS headers and a Content-Length equal to the body's size, and the same body |

## Left out

- SHA-256 (FIPS 180-4) is not computed. It is the parameter `sum256`, any function from bytes to 32-byte digests.
- gorilla/mux routing is left out. The model keeps only the presence or absence of the route variables, and the fact that `{hash}` holds no `/`. The route method lists (server.go:206, 208) mean that a PUT, say, never reaches `handleUpload`: mux answers it with its own 405, which has no CORS headers. So the 405 branch of `Cdn.Upload` and `CdnProperties.UploadSendsCors` describe the handler function, not the routed server.
- Paths follow Unix rules. On Windows `filepath.Clean("c:")` is `"c:."`, so `Sanitizer.CleanElement` would not hold there.
- `http.FileServer` on `/files/latest/` (server.go:205) is left out. It is library code, so the unversioned store is modelled as written but not as served.
- Go strings are byte sequences; the model's strings are sequences of Unicode characters. So "keeps its length" in `Sanitizer.Sanitize` counts characters, not bytes, and a name that is not valid UTF-8 cannot be written down. No outcome of the core depends on this, because the three replaced characters are ASCII.
- Left out as process plumbing: the index page route, `main`, `getCurrentDirectoryAbsolute`, the port and environment handling, and the logging and proxy middleware.
- Multipart parsing and its 1 GiB limit (server.go:114) are left out. The request arrives with its `file` part present or absent and its form field values, and the parse error that the source ignores is not modelled. Since Go 1.17, mime/multipart passes a part's filename through `filepath.Base`, and a part without a filename becomes a form value, so `handler.Filename` is never `""`. `FilePart.filename` is unconstrained, which over-approximates this. So the display name `""` in `CdnProperties.DirectoryNameUploads`, and in the note on directory names near the top of this file, is reachable only in the model.
- The embedded HTML pages and the `Sprintf` template (server.go:81-85, 188) are opaque. The body is `UploadForm` or `Confirmation(href, text)`.
- Headers that net/http adds by itself are not modelled: Date, a sniffed Content-Type, a computed Content-Length. Header key canonicalization is not modelled either, since every key the code uses is already canonical.
- The `go runtime.GC()` hint (server.go:110-112) is left out, because it does not affect the response or the store.
- Concurrency is left out. Each request runs alone against the store, so two concurrent writes to the same path are not modelled.
- `Retrieve`: read errors other than a missing file or a directory are one boolean, `readFails`, and the cause of the error is not modelled.

## Findings

| source | as written | input that shows it | evidently intended | confidence | as-written member | corrected member |
|---|---|---|---|---|---|---|
| server.go:61-65 | the download headers are set after `w.WriteHeader(http.StatusOK)`, so net/http never sends Content-Disposition or Content-Transfer-Encoding; Content-Type and Content-Length reach the client only as the values net/http derives by itself (a sniffed type, a computed length for a small body) | GET `/files/versioned/<stored hash>/report.pdf`: the response has status 200 and the stored bytes but no `Content-Disposition: attachment; filename=report.pdf` | set the headers before `WriteHeader`, so the download is offered under the URL's file name | high (not executed) | `CdnProperties.RetrieveOmitsDisposition` (about `Cdn.Retrieve`) | `CdnProperties.RetrieveIntendedNamesDownload` (about `Cdn.RetrieveIntended`) |
