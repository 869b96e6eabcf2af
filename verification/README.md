# Image downloader — a Dafny model

The image downloader is a small interactive command-line program. It asks for
the URL of an image and downloads it over HTTP into the `Fetched_Images`
directory, naming the file after the URL. It then asks whether to fetch
another. This project models three parts of it and proves properties of each:

- **File naming** (`filename.dfy`, module `FilenameResolver`). `extract_filename_from_url` keeps the
  final segment of the decoded URL path when that segment is non-empty and
  contains a `.`. Otherwise it generates `image_<seconds>.jpg`. Then comes the
  `os.path.join` that places the name in the download directory.
- **One download** (`fetch.dfy`, module `Fetch`). `download_image` is modelled
  as a method over an oracle exchange. The exchange is either an exception
  raised by `requests.get`, or a response with:
  - a status;
  - a content type;
  - the body chunks;
  - an optional exception raised while streaming the body.

  The model decides what the source decides:
  - which `except` clause reports a failure (Python's first match over the clause order and the exception classes);
  - which statuses abort before a file is opened;
  - the sub-message for 404, 403 and 5xx;
  - whether the advisory content-type warning is printed;
  - which bytes the chunk loop writes, including the partial file left by a mid-stream error.
- **The session loop** (`session.dfy`, module `Session`). `main`'s
  `while True` loop is modelled as a state machine, with:
  - `Step` for one input line;
  - `Run` and `Requests` for a sequence of lines;
  - `RunSession`, a loop method shaped like `main` and proved equal to `Run`/`Requests`.

  Whether a download succeeds is an oracle bit carried with each input.

`text.dfy` (module `Text`) holds the Python string operations the code relies
on: `strip()` with Python's whitespace set, `lower()`, `startswith()` and
`str(n)`. `wrappers.dfy` holds `Option`.

## Model

| member | source | states |
|---|---|---|
| Text.Strip | imgdownloader.py:146 | the result neither starts nor ends with whitespace, and it is a slice of the input with nothing but whitespace on either side |
| Text.StripIdempotent | imgdownloader.py:146 | stripping an already-stripped line changes nothing |
| Text.StripUnpadded | imgdownloader.py:146 | a string without leading or trailing whitespace is its own stripped form |
| Text.AsciiLower | imgdownloader.py:149 | lower-casing keeps the length, turns each capital `A`-`Z` into its small letter and changes no other character |
| Text.AsciiLowerIdempotent | imgdownloader.py:149 | lower-casing an already lower-cased string changes nothing |
| Text.DecimalString | imgdownloader.py:36-37 | `str(n)` is a non-empty run of digits with no leading zero |
| Text.ParseDecimalString | imgdownloader.py:36-37 | reading back the decimal rendering of the timestamp gives the timestamp |
| Text.DecimalStringOfParse | imgdownloader.py:36-37 | a digit string with no leading zero is `str` of the number it denotes, so `str(n)` is the only such spelling of `n` |
| FilenameResolver.Basename | imgdownloader.py:31 | the base name has no `/`; it is a suffix of the path, and either the whole path or what follows a `/` |
| FilenameResolver.BasenameAfterSlash | imgdownloader.py:31 | the base name of `dir/name` is `name` when `name` has no `/` |
| FilenameResolver.GeneratedName | imgdownloader.py:36-37 | the fallback name has the shape `image_<digits>.jpg` with no leading zero in the digits, carries exactly the timestamp it was made from, has a `.` and no `/` |
| FilenameResolver.GeneratedShape | imgdownloader.py:37 | any digit run with no leading zero, put between `image_` and `.jpg`, gives a name of the generated shape that carries those digits |
| FilenameResolver.GeneratedNameIsUnique | imgdownloader.py:36-37 | a name of the generated shape that carries a timestamp is the name generated for that timestamp: exactly `image_<str(timestamp)>.jpg` |
| FilenameResolver.ExtractFilename | imgdownloader.py:20-49 | the name is always non-empty with a `.` and no `/`; a final segment with a `.` is kept as it is; an empty or extension-less segment, or a parse failure, gives the generated name for the clock reading (which `GeneratedNameIsUnique` makes exactly `image_<str(timestamp)>.jpg`) |
| FilenameResolver.KeptNameIsFinalSegment | imgdownloader.py:31-42 | a kept name is the tail of the decoded path, preceded by `/` unless it is the whole path |
| FilenameResolver.Join | imgdownloader.py:78 | an absolute name is the whole path; otherwise the path is the directory, then one `/` exactly when the directory is non-empty and does not end in `/` (nothing otherwise), then the name |
| FilenameResolver.ResolvedPathInDirectory | imgdownloader.py:77-78 | in a plain directory the file path is `directory/filename`, and its base name gives the file name back |
| FilenameResolver.DotSegmentIsKept | imgdownloader.py:31-34 | every path ending in `/.` or `/..` passes the extension test and yields that segment as the file name |
| Fetch.Catches | imgdownloader.py:93-120 | definition: which exceptions each `except` clause catches, following the `requests` class hierarchy; its consequences are `Fetch.ClassifyTable` |
| Fetch.Reported | imgdownloader.py:93-122 | definition: the failure each clause reports for an exception it catches (the HTTP clause keeps the status) |
| Fetch.FirstCatching | imgdownloader.py:93-122 | the chosen clause catches the exception and no earlier clause does; none is chosen only if no clause catches it |
| Fetch.Classify | imgdownloader.py:93-122 | some clause always catches, so no exception escapes `download_image`; the failure is what the first catching clause reports |
| Fetch.ClassifyTable | imgdownloader.py:93-122 | the full exception-to-failure table: a connect timeout counts as a timeout; SSL and proxy errors count as connection failures; other `requests` errors count as request failures, never file errors; a plain `OSError` counts as a file error |
| Fetch.RaisesForStatus | imgdownloader.py:69 | definition: `raise_for_status` raises for statuses 400 to 599; used by `Fetch.DownloadImage` and `Fetch.HttpDetailOfAbortingStatus` |
| Fetch.HttpDetailOf | imgdownloader.py:103-108 | definition: the detail line the HTTP clause prints; its cases are `Fetch.HttpDetailOfAbortingStatus` |
| Fetch.HttpDetailOfAbortingStatus | imgdownloader.py:101-109 | for an aborting status: "not found" iff 404, "forbidden" iff 403, "server error" iff 5xx, and no detail line for any other 4xx |
| Fetch.IsImageContentType | imgdownloader.py:72-73 | definition: the header, lower-cased, starts with `image/`, and a missing header reads as empty; see `Fetch.ImageContentTypeIgnoresCase` |
| Fetch.ImageContentTypeIgnoresCase | imgdownloader.py:72-73 | the content-type test gives the same answer for a header and its lower-case form, and a missing header is never an image |
| Fetch.ConcatSize | imgdownloader.py:84-89 | the file is as many bytes long as the chunks together |
| Fetch.SkippingEmptyChunksKeepsContents | imgdownloader.py:85-86 | skipping empty chunks does not change the bytes written |
| Fetch.WriteChunks | imgdownloader.py:82-86 | the file holds the chunks concatenated in order, and one write is made per non-empty chunk |
| Fetch.DownloadImage | imgdownloader.py:52-122 | see the list below this table |
| Fetch.SavedInImageDirectory | imgdownloader.py:77-78 | with the directory `create_fetched_images_directory` returns, every file lands directly in `Fetched_Images` as `Fetched_Images/<name>` |
| Fetch.NulInNameIsUnexpected | imgdownloader.py:28-34 | a kept final segment with a NUL (from `%00`) puts a NUL in the target path, which `open` rejects, so the download fails as an unexpected error |
| Session.IsQuitCommand | imgdownloader.py:149 | definition: the lower-cased URL is `quit`, `exit`, `q` or empty; see `Session.QuitCommandIgnoresCase`, `Session.NotQuitCommand` and `Session.UpperCaseQuitQuits` |
| Session.QuitCommandIgnoresCase | imgdownloader.py:149 | a line and its lower-case form are quit commands alike |
| Session.IsWebUrl | imgdownloader.py:156 | definition: the URL starts with `http://` or `https://`, case-sensitively; see `Session.UpperCaseSchemeRejected` and `Session.FtpUrlRejected` |
| Session.IsAffirmative | imgdownloader.py:166-167 | definition: the stripped, lower-cased answer is `y` or `yes`; see `Session.RetryAnswerDecides` |
| Session.Step | imgdownloader.py:146-176 | an interrupt always ends the loop and nothing revives it; the y/n question follows only a URL line at the prompt and records that download's outcome; an answer never leads to another question |
| Session.Requested | imgdownloader.py:156-161 | a transition downloads at most one URL, and one exactly when it moves on to the y/n question |
| Session.Run | imgdownloader.py:142-183 | definition: the phase after a sequence of inputs; see `Session.RunOneMore`, `Session.RunAppend` and `Session.TerminatedIsFinal` |
| Session.Requests | imgdownloader.py:142-183 | definition: the URLs downloaded over a sequence of inputs, in order; see `Session.RequestsAreValidated` |
| Session.RunOneMore | imgdownloader.py:142-183 | one more input advances the run by one `Step` and adds that step's download |
| Session.RunAppend | imgdownloader.py:142-183 | running two stretches of input in turn is running them together, for the phase and for the downloads |
| Session.TerminatedIsFinal | imgdownloader.py:153 | after the loop exits, no input changes the phase or causes a download |
| Session.RestAfterTermination | imgdownloader.py:153 | inputs after termination change neither the outcome nor the downloads |
| Session.SessionOutcome | imgdownloader.py:142-183 | stopping early after termination gives the outcome of the whole input, and every download it made was a validated URL |
| Session.RequestsAreValidated | imgdownloader.py:146-161 | every URL handed to `download_image` is stripped, is not a quit command, and starts with `http://` or `https://` |
| Session.QuitEndsSession | imgdownloader.py:149-153 | a quit command at the prompt ends the session, with no download, whatever follows |
| Session.UpperCaseQuitQuits | imgdownloader.py:149-153 | `QUIT` quits, because the quit check ignores case |
| Session.NotQuitCommand | imgdownloader.py:149 | a line of five or more characters is not a quit command |
| Session.InvalidUrlReprompts | imgdownloader.py:155-158 | a line that is neither a quit command nor a web URL returns to the prompt without a download |
| Session.UpperCaseSchemeRejected | imgdownloader.py:149-158 | `HTTP://...` is rejected and re-prompted, because the scheme check is case-sensitive |
| Session.FtpUrlRejected | imgdownloader.py:155-158 | an `ftp://` URL is rejected and re-prompted without a download |
| Session.RetryAnswerDecides | imgdownloader.py:163-176 | after an attempt, the session returns to the prompt iff the answer is `y`/`yes` (any case, stripped) and ends otherwise; the outcome of the attempt makes no difference; answering makes no download |
| Session.UrlTurn | imgdownloader.py:146-161 | reading a URL line at the prompt advances the run by exactly that line's step |
| Session.AnswerTurn | imgdownloader.py:163-176 | reading the y/n answer advances the run by exactly that answer's step |
| Session.RunSession | imgdownloader.py:142-183 | the loop reaches the phase `Run` defines and makes exactly the downloads `Requests` defines; it stops reading only once terminated, and then right after the input that ended it; every URL it downloads was validated and is stripped |

What `Fetch.DownloadImage` ensures:

- The call succeeds iff three things hold: the response arrived with a status `raise_for_status` accepts, the file opened, and the body streamed without error. The content type plays no part.
- A failure is always the classified exception. An aborting status is reported as an HTTP failure with that status.
- Opening the file fails in two ways. A target path with a NUL makes `open` raise `ValueError`, which only the catch-all clause catches: an unexpected error. A file system that refuses the file raises `OSError`: a file error.
- The content-type warning is printed iff an accepted response has no `image/` type.
- A file exists iff the file for an accepted response was opened for writing. Its path is `Join(directory, filename)`, which is `directory/filename` for a plain directory.
- The file holds exactly the delivered chunks, even when streaming failed part way.

## Left out

- Console output is not modelled: every `print`, the emoji banners and the text of the error messages. Only the decisions behind them are modelled: the failure kind, the HTTP detail line and the content-type warning.
- `create_fetched_images_directory` is modelled only by the name it returns, the constant `Fetch.ImageDirectory`, because `os.makedirs` is file-system I/O. `Fetch.SavedInImageDirectory` states where downloads land in it.
- `os.path.getsize` is not modelled. After a successful download it equals the length of the written contents, which `Fetch.ConcatSize` states.
- `urlparse` and `unquote` are library calls. The model takes the decoded path they produce as a parameter, with `None` standing for a raised exception.
- `time.time()` is a parameter (a non-negative whole number of seconds, already truncated by `int`).
- `requests.get` and the network are an oracle (`Fetch.Exchange`). The request headers, the `User-Agent`, the 30-second timeout, `stream=True` and the 8192-byte chunk size are not modelled.
- RaisesForStatus: the rule that `raise_for_status` raises for exactly the statuses 400 to 599 is `requests`' behaviour, which is not part of this model. It is stated as a definition. A description of the program as "rejecting non-2xx responses" would be wider: a 1xx or 3xx final status does not raise.
- The `requests` exception hierarchy is `requests`' own and is not part of this model. It is stated in `Fetch.Catches` as one constructor per exception class that matters. In particular, `RequestException` is an `OSError`, and `ConnectTimeout` is both a `Timeout` and a `ConnectionError`.
- Text.AsciiLower: lower-cases only `A`-`Z`, not the full Unicode `str.lower()`. This is exact for every comparison the program makes. The only non-ASCII character that lowers into ASCII letters is KELVIN SIGN (to `k`), and no keyword contains a `k`. `U+0130` lowers to `i` followed by a combining dot, which never completes a keyword.
- The catch-all `except Exception` in `main` is not modelled, nor are its EOF and input errors. On end of input, `input()` raises `EOFError`, which that clause catches, so the original loops forever. The model instead stops when the inputs run out.
- `KeyboardInterrupt` is modelled only at input boundaries (`Session.Input.Interrupt`). An interrupt during a download is not modelled.
- The session does not call `Fetch.DownloadImage`. Each input carries the download outcome as an oracle bit, so the session model is independent of the network.
- Fetch.DownloadImage: a write that fails part way (disk full) is not modelled. Among file errors, only the failure to open the file is modelled: a NUL in the path, or an oracle bit for a file system that refuses. An exception while streaming the body is modelled, and it leaves the partial file.
