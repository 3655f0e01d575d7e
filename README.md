# DownloadResource, modelled in Dafny

The repository downloads the resource behind a URL and describes it. Each URL gets a
`DownloadResource` object whose constructor runs a fixed pipeline:

1. strip the URL and resolve its redirects with HEAD requests;
2. fetch it with a GET, mapping a failed request to a status of False and a message;
3. derive filenames from the URL and from the `Content-Disposition` header;
4. write the body to a fresh file named by a UUID, creating the directory first if needed;
5. read the file's ExifTool metadata and discard an HTML page unless HTML is wanted;
6. take an MD5 digest of the file;
7. add the file's extension to its name.

A later `change_filename` call renames the file.

There are two variants, and the model has one module for each:

- **`DownloaderLight`** models the first class of `downloader_light_modified.py` (lines 39-455).
  Its results live in the object's fields. `__init__` also reads `Content-Length` and
  `Content-MD5` and checks the file's size against `Content-Length`. The class has
  `output_as_dictionary`.
- **`Downloader`** models `downloader.py`. Here the URL reached is rebuilt without its
  parameters, query and fragment. Most results go into `record`, the row of the database
  table, which is modelled as a plain value updated after each step. Attributes are deleted
  with `del`. `change_filename` is a module-level function.

Both classes are Dafny classes with field-granular `modifies` and `reads` frames. The
constructor sets the fields as `__init__` does before its first call. `Run` is the rest of
`__init__`. It is proved against a predicate over the final state:

- `Concluded`, `Processed` and `Stored` in `Downloader`;
- `Processed` and `Stored` in `DownloaderLight`.

Each pipeline step is a method specified the same way, so the whole run is proved
step by step.

The outside world is handled like this:

- **Network.** A `Network` object holds a `Server` (the HEAD and GET outcomes for every
  request) and records each request sent in `sent`.
- **File system.** A `FileSystem` object holds a map from path to bytes and a set of
  directories.
- **Inputs passed as parameters.** The clock, the UUID, ExifTool's metadata
  (`exif: seq<byte> -> Metadata`) and MD5 (`md5Of: seq<byte> -> string`).
- **Exceptions.** An exception the code does not catch ends the pipeline. It is returned as
  `raised: Option<PyError>`, and every such exception is modelled rather than excluded by a
  precondition:
  - `int()` of a bad `Content-Length`;
  - `os.makedirs("")`;
  - `.lower()` on a non-string extension;
  - the undefined `message` and `download_dir`;
  - deleted or never-set attributes;
  - `os.rename` and `open` on missing files or on directories.

The helper modules model the library functions used:

| Module | Models |
|---|---|
| `Py` | None, attributes, dynamic values, exceptions |
| `PyStr` | `str.strip`, `rstrip`, `lower`, `str(int)` and `int(str)` |
| `Paths` | `posixpath.join`, `os.path.split`, `pathlib` `name`, `ntpath.basename` |
| `Urls` | `urlsplit`, `urlparse`, `urlunparse` |
| `Disposition` | the `Content-Disposition` regular expression with `re.search` |
| `Files` | the file system |
| `Http` | requests, responses and failure messages |
| `Exif` | metadata lookup and the two MD5 read loops |
| `Resource` | the constants and the extension naming both variants share |

Three points where the code does less or more than a reader may expect:

- `rstrip("/")` removes every trailing slash, not just one;
- `change_filename` in `downloader_light_modified.py` prefers the header name, then the URL
  name, then the custom name;
- the light variant sends a second HEAD whenever the redirect history is non-empty, whether
  or not it holds a 302.

## Model

| member | source | states |
|---|---|---|
| PyStr.LStripRemovesPrefix | downloader_light_modified.py:216 | `lstrip` leaves a suffix of the input; every character removed is in the class, and the first one kept is not. |
| PyStr.RStripRemovesSuffix | downloader_light_modified.py:216 | `rstrip` leaves a prefix of the input; every character removed is in the class, and the last one kept is not. |
| PyStr.StripTrimmed | downloader_light_modified.py:216 | A string with no whitespace at either end is its own `strip()`. |
| PyStr.StripUrl | downloader_light_modified.py:216 | The URL after `strip().rstrip("/")` does not start with whitespace and does not end with '/'. |
| PyStr.StripUrlRemovesAllSlashes | downloader_light_modified.py:216 | A trimmed URL followed by any number of slashes strips back to exactly that URL: `rstrip("/")` removes all of them. |
| PyStr.RStripDroppedSuffix | downloader_light_modified.py:216 | `rstrip` removes exactly a trailing run of the class, and nothing before it. |
| PyStr.LowerLetters | downloader_light_modified.py:369 | `lower()` maps each of 'A'-'Z' to its lower-case letter and keeps every other character, so no upper-case letter is left. |
| PyStr.LowerIdempotent | downloader_light_modified.py:369 | Lowering twice is lowering once. |
| PyStr.NatToDecimalDigits | downloader_light_modified.py:255 | `str(n)` of a natural number is a non-empty string of digits. |
| PyStr.DecimalRoundTrip | downloader_light_modified.py:255 | The digits of `str(n)` denote `n`. |
| PyStr.ParseInt | downloader_light_modified.py:290 | `int()` succeeds exactly when the stripped text is one or more digits, optionally after a single '+' or '-'. |
| PyStr.ParsedIntIsDecimal | downloader_light_modified.py:290 | Any text `int()` accepts is, once stripped, a sign, some '0's and `str(abs(v))`, the sign being '-' whenever `v` is negative. |
| PyStr.ParseIntOfDecimal | downloader_light_modified.py:290 | `int(str(i)) == i` for every integer. |
| PyStr.DecimalInjective | downloader_light_modified.py:255 | Different status codes give different decimal texts. |
| PyStr.IndexWhere | downloader.py:192 | The first index in the class, or the length: every earlier character is outside the class. |
| PyStr.LastIndexWhere | downloader.py:327 | The last index in the class, or -1: every later character is outside the class. |
| Paths.Tail | downloader.py:226 | `os.path.split(p)[-1]` has no '/', is a suffix of `p`, and is preceded by '/' when it is shorter than `p`. |
| Paths.TailEmpty | downloader_light_modified.py:271 | The last component is empty exactly when the path is empty or ends in '/'. |
| Paths.TailOfJoin | downloader_light_modified.py:306 | A name without '/' joined onto any directory is the last component of the result. |
| Paths.PathName | downloader_light_modified.py:373 | `Path(p).name` holds no '/'. |
| Paths.PathNameOfJoin | downloader_light_modified.py:373 | A non-empty name without '/' joined onto a directory is the `name` of the joined path. |
| Paths.NtBasename | downloader.py:327 | `ntpath.basename` (as in Python 3.12, with its UNC drive `//server/share`) holds neither '/' nor '\\'. |
| Paths.NtBasenameIsSuffix | downloader.py:327 | `ntpath.basename(p)` is a suffix of `p`. |
| Paths.NtBasenameOfJoin | downloader.py:327 | A non-empty name without '/', '\\' or ':' joined onto a directory that does not start with two separators (nor is a lone '\\') is the `ntpath.basename` of the joined path. |
| Paths.NtBasenameOnUncServer | downloader.py:327 | Any name without '/' or '\\' joined onto a bare UNC server such as `//server` has an empty `ntpath.basename`: the joined path is all drive. |
| Urls.UrlSplit | downloader.py:192 | `urlsplit` gives a lower-case scheme and a network location free of '/', '?' and '#'; the path has no '?' or '#', and the query has no '#'. |
| Urls.UrlParse | downloader.py:192 | `urlparse` keeps the scheme, network location, query and fragment of `urlsplit`, and its path is a prefix of `urlsplit`'s path. |
| Urls.DropQueryAndFragment | downloader.py:192-195 | The URL rebuilt from scheme, network location and path holds neither '?' nor '#'. |
| Urls.DropQueryOfAbsolute | downloader.py:192-195 | Rebuilding `scheme://host/path` followed by a query or fragment gives exactly `scheme://host/path`. |
| Urls.SchemeOfAbsolute | downloader.py:192 | A lower-case scheme starting with a letter is split off at its ':'. |
| Urls.NetlocOfAbsolute | downloader.py:192 | After "//", the network location runs up to the first '/', '?' or '#'. |
| Disposition.LastQuote | downloader_light_modified.py:277 | The greedy `.*` ends at the last '"' before a line break, and no later '"' qualifies. |
| Disposition.SearchFromFindsFirstMatch | downloader_light_modified.py:278 | `re.search` reports no match exactly when there is none, and otherwise the leftmost match extended as far as possible. |
| Disposition.FilenameFromHeaderMatches | downloader_light_modified.py:277-280 | `m.group(1)` is present exactly when the pattern matches somewhere, and it is the first greedy match. |
| Disposition.QuotedFilename | downloader_light_modified.py:277-280 | A header whose only '"' characters are those around `filename="name"` yields `name`. |
| Files.ConcatSnoc | downloader_light_modified.py:309-310 | Writing one more chunk appends its bytes to the file. |
| Files.ConcatEmpty | downloader_light_modified.py:358-362 | The written file is empty exactly when every chunk is. |
| Files.FileSystem.MakeDirs | downloader_light_modified.py:303-304 | `os.makedirs` of "" raises FileNotFoundError and of an existing path FileExistsError; otherwise the path becomes a directory. |
| Files.FileSystem.Create | downloader_light_modified.py:308 | `open(p, "wb")` raises IsADirectoryError on a directory, and otherwise leaves `p` empty and every other file as it was. |
| Files.FileSystem.Append | downloader_light_modified.py:310 | `f.write(chunk)` appends the chunk to that file only. |
| Files.FileSystem.Remove | downloader_light_modified.py:326 | `os.remove` raises FileNotFoundError on a missing file and removes the file otherwise. |
| Files.FileSystem.Rename | downloader_light_modified.py:371 | `os.rename` raises FileNotFoundError on a missing source, then NotADirectoryError for a target ending in '/', then IsADirectoryError for a directory target, and otherwise moves the contents. |
| Files.WriteChunks | downloader_light_modified.py:308-310 | The write loop leaves the file holding the chunks' bytes in order, and no other file changes. |
| Files.Moved | downloader_light_modified.py:371 | After a rename the target holds the source's contents, the source is gone unless it is the target, and every other file stays as it was. |
| Files.MovedBack | downloader_light_modified.py:371 | A rename onto a fresh name, followed by the rename back, restores the file system. |
| Files.RemovedFresh | downloader_light_modified.py:326 | Writing a fresh file and removing it, as the HTML discard does, restores the file system. |
| Files.MovedFresh | downloader_light_modified.py:371 | Writing a fresh file and renaming it is writing the same contents under the new name only. |
| Files.DirsAfter | downloader.py:248 | `download_file` adds at most the download directory to the directories, and adds it whenever no file is in its place. |
| Http.Network.Head | downloader_light_modified.py:222 | A HEAD returns the server's answer, and is appended to the requests sent. |
| Http.Network.Get | downloader_light_modified.py:241-243 | A GET returns the server's answer, and is appended to the requests sent. |
| Http.StatusReadBack | downloader_light_modified.py:251-255 | The status of an HTTP error is read back by `int()` from the text after "HTTPError: " in its message. |
| Http.FailureMessageInjective | downloader_light_modified.py:251-264 | Distinct failures leave distinct messages, so the message tells which failure happened. |
| Http.LastRedirectCookies | downloader_light_modified.py:225-230 | The cookies are None exactly when the history has no 302. |
| Http.LastRedirectCookiesAreLast | downloader_light_modified.py:225-230 | When present, the cookies are those of the last 302 in the history. |
| Http.Fetch | downloader_light_modified.py:241-249 | The GET succeeds exactly when a response arrived with a status below 400 or from 600 up; otherwise the failure is an HTTP error with that status, or the request error that occurred. |
| Exif.DigestInLoop | downloader_light_modified.py:358-362 | The light variant's digest, taken inside the 4096-byte read loop, is the MD5 of the whole file, and stays None for an empty file. |
| Exif.DigestAfterLoop | downloader.py:314-318 | The digest taken after the read loop is the MD5 of the whole file, including an empty one. |
| Resource.ExtendedNameEndsInLowerExt | downloader_light_modified.py:369 | After `name` and the '.' comes `ext.lower()`: no upper-case letter, and every character of the extension that is not upper case kept in place. |
| Resource.ExtendedNameIsPathName | downloader_light_modified.py:366-373 | When neither part holds a '/', the `Path(...).name` of the new path is `<name>.<lower-case extension>`. |
| Resource.ExtendedNameIsNtBasename | downloader.py:324-327 | When neither part holds '/', '\\' or ':' and the directory does not start with two separators, the `ntpath.basename` of the new path is `<name>.<lower-case extension>`. |
| Resource.ParsedDispositionMeaning | downloader.py:234-240 | The header is unparsed exactly when absent; it parses to None exactly when no `filename="..."` lies on one line; otherwise it gives the text of the leftmost, longest match. |
| Resource.ParsedQuotedDisposition | downloader_light_modified.py:276-280 | A header `...filename="name"` with no other '"' parses to `name`. |
| DownloaderLight.ResolveLight | downloader_light_modified.py:216-264 | The first request is a HEAD of the stripped URL. Success means a GET response below 400 or from 600 up. A URL is reached exactly when the last request was not a HEAD. |
| DownloaderLight.SecondHeadIffRedirected | downloader_light_modified.py:225-232 | A second HEAD is sent exactly when the first succeeded with a non-empty redirect history. |
| DownloaderLight.LaterRequestsUseLastRedirectCookies | downloader_light_modified.py:227-243 | Every request after the first carries the cookies of the last 302 in the history (None without one), and the GET targets the URL reached. |
| DownloaderLight.ResolvedIsLastHeadUrl | downloader_light_modified.py:232-234 | `url_final` is the URL of the last HEAD response. |
| DownloaderLight.UrlFilenameIsLastSegment | downloader_light_modified.py:270-271 | `filename_from_url` holds no '/', ends the URL's path, and is empty exactly when the path is empty or ends in '/'. |
| DownloaderLight.SizeMismatchOfInts | downloader_light_modified.py:130-134 | The size check fails exactly when both sizes are known, both are non-zero, and they differ. |
| DownloaderLight.ChosenIsCandidate | downloader_light_modified.py:406-413 | `new_filename` ends as its previous value, the header name, the URL name or a non-empty custom name, and as nothing else. |
| DownloaderLight.UrlBeforeCustomName | downloader_light_modified.py:406-413 | With only the URL flag set, the custom name, the header name and the previous value make no difference. |
| DownloaderLight.PreviousKeptWithoutChoice | downloader_light_modified.py:406-413 | Without a flag, `new_filename` keeps its previous value exactly when the custom name is None or empty, or already held. |
| DownloaderLight.HeadersTakePriority | downloader_light_modified.py:406-413 | With the header flag set, the URL flag and the custom name make no difference. |
| DownloaderLight.KeptName | downloader_light_modified.py:366-373 | A kept file with a string extension ends as `dir/<uuid>.<lower-case extension>`, holding the body, when neither part has a '/'. |
| DownloaderLight.DictionaryDeterminesFields | downloader_light_modified.py:183-201 | Two objects with the same dictionary agree on all sixteen reported fields. |
| DownloaderLight.DownloadResource.constructor | downloader_light_modified.py:73-94 | The fields start as `__init__` sets them: the URL, directory and HTML flag as given, and everything else None, False or unset. |
| DownloaderLight.DownloadResource.GetRealDownloadUrl | downloader_light_modified.py:203-264 | The requests sent, and then `url_final`, `datetime`, `r`, the status and the message, are exactly what `ResolveLight` of the stripped URL gives, and nothing else changes. |
| DownloaderLight.DownloadResource.ResolveStripped | downloader_light_modified.py:219-264 | The same, from the stripped URL, through the loop that keeps the last 302's cookies. |
| DownloaderLight.DownloadResource.GetOriginalFilenameFromUrl | downloader_light_modified.py:270-271 | `filename_from_url` is the last segment of the final URL's path. |
| DownloaderLight.DownloadResource.GetOriginalFilenameFromRequestHeaders | downloader_light_modified.py:276-283 | A parsed header sets `filename_from_headers`. A present but unmatched header sets the failure message and nothing else. An absent header changes nothing. A missing `r` raises. |
| DownloaderLight.DownloadResource.GetOriginalSizeFromHeaders | downloader_light_modified.py:289-290 | `size_original` becomes `int(Content-Length)` when the header is present, and a non-numeric value raises ValueError. |
| DownloaderLight.DownloadResource.GetOriginalMd5CheckFromHeaders | downloader_light_modified.py:295-296 | `md5_original` becomes the `Content-MD5` value as given. |
| DownloaderLight.DownloadResource.DownloadFile | downloader_light_modified.py:303-311 | The directory is created if absent, `dir/uuid` holds the body's bytes in order, and no other file changes. The status becomes True. A None or empty directory raises before anything is written. |
| DownloaderLight.DownloadResource.GetFileMetadata | downloader_light_modified.py:317-362 | An unwanted HTML page is removed: status False, its message, and directory, filename and filepath None. Otherwise the type and size come from ExifTool. An ExifTool error sets "Unknown filetype", or the literal text "{message} ; Unknown filetype" when a message already exists. The MD5 is set unless the file is empty. |
| DownloaderLight.DownloadResource.AddFileExtension | downloader_light_modified.py:366-373 | With a known extension the file moves to `dir/<filename>.<lower ext>` and `filename` becomes its last part. Each exception comes in Python's evaluation order. Without an extension nothing changes. |
| DownloaderLight.DownloadResource.ChangeFilename | downloader_light_modified.py:405-440 | Nothing happens without a download. Otherwise `new_filename` is chosen as `ChosenFilename` says and persists across calls, never having been set raises AttributeError, None changes nothing, and the rest is as `MoveUnlessTaken` says. |
| DownloaderLight.DownloadResource.MoveUnlessTaken | downloader_light_modified.py:420-436 | If something exists at the target, including a directory written with a trailing '/', only `exists` becomes True. Otherwise the file moves there with `os.rename`'s exceptions, and `filename`, `filepath` and `renamed` record it. |
| DownloaderLight.DownloadResource.Run | downloader_light_modified.py:100-148 | The requests sent are `ResolveLight`'s. A failed request leaves status False, the failure's message, `url_final`, `datetime` and `r` as resolved, and the files, directories and every later field untouched. Otherwise `url_final` and `r` are the response's and the rest is as `Processed`, `HeadersRead`, `Stored` and `Extended` state, each exception included: ValueError for the length, FileNotFoundError for an empty directory, AttributeError for a non-string extension, and `os.rename`'s NotADirectoryError and IsADirectoryError, each with the state it leaves. |
| DownloaderLight.DownloadResource.AfterFetch | downloader_light_modified.py:103-138 | After a failed request nothing changes: no file, no directory and no field set by a later step. After a successful one the state, and which exception escapes, are as `Processed` states. |
| DownloaderLight.DownloadResource.Process | downloader_light_modified.py:106-138 | After a successful GET: `filename_from_url` from the final URL; `filename_from_headers`, `size_original` and `md5_original` from the headers; ValueError for a non-numeric `Content-Length`, with no file or directory made; the later steps and their exceptions as `Stored` states. |
| DownloaderLight.DownloadResource.ReadAndStore | downloader_light_modified.py:108-138 | From the header readers on, the fields, files and directories end as `HeadersRead` states, for every exception as well as without one. |
| DownloaderLight.DownloadResource.Store | downloader_light_modified.py:111-138 | An empty directory raises FileNotFoundError with nothing changed. Otherwise the directory is made if absent and stays. An HTML page is then discarded with "Target was webpage - deleted": only its file is removed. Any other file has ExifTool's type and size, the ExifTool-error message and the MD5 of a non-empty body, and is extended as `Extended` states. |
| DownloaderLight.DownloadResource.Keep | downloader_light_modified.py:115-138 | Exactly one outcome: AttributeError for an extension neither None nor a string, NotADirectoryError for a new path ending in '/', IsADirectoryError when a directory is there, each leaving `dir/uuid` with the body and status True; or no exception, with the file under `dir/<uuid>.<lower ext>` (or `dir/uuid` without an extension), `filename` its last part, and the status the size check's. |
| DownloaderLight.DownloadResource.ReadHeaders | downloader_light_modified.py:108-110 | The three header readers: `filename_from_headers` is the parsed name, an unparsed `Content-Disposition` sets its message, only a non-numeric `Content-Length` raises, `size_original` is `int()` of it, and `md5_original` the `Content-MD5` value, each unchanged when its header is absent. |
| DownloaderLight.DownloadResource.Inspect | downloader_light_modified.py:111-112 | An empty directory raises FileNotFoundError and changes nothing. Otherwise nothing raises and the directory is made if absent; then either a discarded page, with status False, "Target was webpage - deleted" and only the page's file removed again (a directory made stays); or `dir/uuid` holding the body, status True, ExifTool's type and size, the ExifTool-error message, and the MD5 of a non-empty body. |
| DownloaderLight.DownloadResource.Examine | downloader_light_modified.py:112 | `get_file_metadata()` on the file just written: nothing raises; a discarded page leaves the files exactly as before the write, with status False, "Target was webpage - deleted" and no directory, filename or path; any other file stays at its path with ExifTool's type and size, the ExifTool-error message and the MD5 of a non-empty body. |
| DownloaderLight.DownloadResource.CheckSize | downloader_light_modified.py:130-138 | The status stays True unless the ExifTool size and `Content-Length` are both known, non-zero and different. |
| DownloaderLight.DownloadResource.OutputAsDictionary | downloader_light_modified.py:183-201 | The dictionary has exactly the sixteen documented keys, each holding its field's value, with None for an unset one. |
| Downloader.ResolveFull | downloader.py:183-217 | The requests are exactly one HEAD of the stripped URL and, when it succeeds, one GET of the URL reached rebuilt by `clean`. `url_resolved` is the HEAD's URL. Success means a response below 400 or from 600 up. |
| Downloader.SingleHeadWithoutCookies | downloader.py:186-206 | There is one HEAD, at most one GET after it, and no request carries cookies. |
| Downloader.FetchedUrlIsClean | downloader.py:192-206 | The URL fetched is the URL reached without its query and fragment, and it holds no '?' or '#'. |
| Downloader.DownloadResource.constructor | downloader.py:124-134 | The fields start as `__init__` sets them, and the record is a fresh row holding only `url_original`. |
| Downloader.DownloadResource.GetRealDownloadUrl | downloader.py:179-221 | The requests sent, `url_resolved`, `url_final` (the rebuilt URL), `r`, the status and the message are what `ResolveFull` gives. The record mirrors the URLs, the time, the status and the message. |
| Downloader.DownloadResource.ResolveStripped | downloader.py:186-221 | The same, from the stripped URL, with `clean` rebuilding the URL reached. |
| Downloader.DownloadResource.GetOriginalFilenameFromUrl | downloader.py:226-227 | `record.filename_from_url` is the text after the last '/' of the whole `url_final`, and a None `url_final` raises. |
| Downloader.DownloadResource.GetOriginalFilenameFromRequestHeaders | downloader.py:234-242 | A parsed header goes to `record.filename_from_headers`. An unmatched one sets the message on both the object and the record. A missing `r` raises. |
| Downloader.DownloadResource.DownloadFile | downloader.py:248-261 | The directory is created if absent and `dir/uuid` holds the body's bytes. The status becomes True, and the record gets the status, filename, directory and path. A deleted or empty directory raises before anything is written. |
| Downloader.DownloadResource.GetFileMetadata | downloader.py:268-318 | A missing file raises. An unwanted HTML page is discarded as `Discarded` says. Any other file is described as `Described` says, and nothing else changes. |
| Downloader.DownloadResource.DiscardWebpage | downloader.py:275-290 | The file is removed, and the status is False with its message on object and record. The record's directory, filename and path are None, and the three attributes are deleted. |
| Downloader.DownloadResource.Describe | downloader.py:292-318 | An ExifTool error with no message sets "Unknown filetype", and with a message raises NameError. Otherwise the type comes from ExifTool. The record gets the type columns only when there is no MIME type, and always the MD5 of the whole file. |
| Downloader.DownloadResource.AddFileExtension | downloader.py:323-331 | With a known extension the file moves to `dir/<filename>.<lower ext>`, and `filename` (the `ntpath.basename` of the new path, empty under a bare UNC server) and the record mirror the new path. Every exception of the code comes in its order. None changes nothing. |
| Downloader.DownloadResource.Run | downloader.py:136-173 | The requests, `url_resolved` and `url_final` follow `ResolveFull`. A failure leaves no file, status False and the failure's message, with the record mirroring them. A success ends as `Processed` states. With no exception `r` and `collect_html` are deleted. |
| Downloader.DownloadResource.Resolve | downloader.py:136 | `get_real_download_url()` from the initial state ends as `Fetched` states: on failure the record is the fresh row plus the URLs, time, status and message; on success the response is kept and nothing else is set. |
| Downloader.DownloadResource.Conclude | downloader.py:139-173 | After resolution: clean-up only on failure, otherwise the steps and the clean-up, ending as `Concluded` states. |
| Downloader.DownloadResource.Finish | downloader.py:139-173 | After a successful GET the steps end as `Processed` states, and with no exception `r` and `collect_html` are deleted. |
| Downloader.DownloadResource.Process | downloader.py:141-148 | The record holds the URL filename and the parsed header name, and the remaining steps end as `Stored` states. |
| Downloader.DownloadResource.Store | downloader.py:143-148 | An empty directory raises FileNotFoundError, and NameError happens exactly on an ExifTool error after a header message. Otherwise either a discarded page, or the file kept with its type, its MD5 and its extension as `Kept` states. |
| Downloader.DownloadResource.Extend | downloader.py:147-148 | `add_file_extension()` on a kept file ends as `Stored` states. |
| Downloader.DownloadResource.Inspect | downloader.py:143-144 | Download then metadata: nothing written for an empty directory; otherwise the directory made and the file examined as `Examined` states. |
| Downloader.DownloadResource.Download | downloader.py:143 | `download_file()` raises exactly for an empty directory, and otherwise leaves the body in the fresh file `dir/uuid` with status True, as `Written` states. |
| Downloader.DownloadResource.Examine | downloader.py:144 | `get_file_metadata()` on the fresh file: a discarded page restores the file system; otherwise the file stays with its type and MD5, as `Examined` states. |
| Downloader.DownloadResource.Keep | downloader.py:148 | `add_file_extension()` on the fresh file ends as `Kept` states: moved to `<uuid>.<lower ext>` unless a directory is there, or AttributeError for a non-string extension. |
| Downloader.DownloadResource.Cleanup | downloader.py:170-172 | `r` is deleted if present, then `collect_html`, whose absence raises AttributeError. |
| Downloader.StatusIsSet | downloader.py:139-167 | When no exception escaped `__init__`, the status is True or False, never None. |
| Downloader.KeptName | downloader.py:323-331 | A file renamed with a string extension is `dir/<uuid>.<lower ext>` with the body when neither part holds '/', '\\' or ':' and the directory does not start with two separators. |
| Downloader.KeptNameOnUncServer | downloader.py:323-331 | Under a bare UNC server directory such as `//server`, the renamed file is still `dir/<uuid>.<lower ext>`, but `filename` becomes the empty string. |
| Downloader.ChangeFilename | downloader.py:350-393 | Without a download nothing happens. Either flag raises AttributeError, because the object never holds those names. None changes nothing, unless `filename` was deleted, which makes the warning raise AttributeError. A name is handled as `Renamed` states. |
| Downloader.MoveUnlessTaken | downloader.py:383-391 | The file moves to `directory/name` when nothing exists there, counting a directory written with a trailing '/', and `filename`, `filepath` and `renamed` record it. When something is there the warning raises, with AttributeError if `filename` was deleted and NameError on `download_dir` otherwise. |

## Left out

- HTTP transport is not modelled: sessions, timeouts, proxies, `verify=False` and the
  User-Agent header. The server is a pair of outcome functions, so `proxies` is not a field.
  `del self.proxies` (downloader.py:173) is not modelled, because it cannot fail.
- ExifTool is a function from the file's bytes to its metadata, and MD5 is a function from
  bytes to a digest. The jhove check (downloader_light_modified.py:443-455) is not modelled.
- The database layer is not modelled: `Resources`, `create_table` and `save()`.
  `record` is a value of one row.
- `uuid.uuid4()` and `datetime.now()` are parameters. The UUID is required to be fresh in
  the download directory, non-empty and free of '/'.
- Logging, `print`, `pprint` and `time.sleep` have no effect on state and are not modelled.
- `output_as_file`, `download_from_list`, the demo blocks and the duplicated class at
  downloader_light_modified.py:457-823 are not modelled.
- `str.isspace` and `str.lower` are modelled only on the characters listed in `PyStr`.
  `lower` changes only the ASCII letters.
- Header names are looked up in lower case, standing in for the case-insensitive
  dictionary of `requests`.
- `urlsplit` omits the removal of tab and newline characters and the checks on IPv6 hosts
  and ports.
- Paths are compared as written; there is no normalisation and no parent-directory
  structure. The one exception is `os.path.exists` on a path with trailing slashes, which
  holds when the path without them is a directory (or is the root). `os.makedirs` records
  the directory as written. ExifTool on a missing file is modelled as FileNotFoundError.
- PyStr.ParseInt: it does not accept '_' between digits or non-ASCII decimal digits, both of
  which Python's `int()` accepts. Such a `Content-Length` is modelled as raising ValueError.
- The chunks of the response body are an input. The chunk size of 100000 and the
  4096-byte reads cannot change the bytes written or hashed, and are not modelled.
- `custom_name` is taken as a string or None. The light variant's empty-bytes filename for a
  missing final URL is modelled as the empty string.
- DownloaderLight.DownloadResource.constructor: it takes the directory as a string. With
  None, `download_file` would raise TypeError; `DownloadFile` models that case, but a run
  from the constructor never reaches it.
- DownloaderLight.DownloadResource.Run takes the URL filename as `urlName`, a function
  required to equal `UrlFilename`. Likewise Downloader.DownloadResource.Run takes the
  stripping and the rebuilding of the URL as `strip` and `clean`, which must equal
  `StripUrl` and `DropQueryAndFragment`. This keeps URL parsing out of the pipeline's
  proofs and loses no behaviour.
- Files.DirsAfter: it states only bounds on the directories. When a
  file already sits at the directory's path, `os.path.exists` holds and no directory is
  made. Without a parent-directory structure, the model still lets the file be written
  under that path.
