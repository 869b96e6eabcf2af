/**
  One download attempt (`download_image`): the HTTP exchange and the file
  system are oracles, given as parameters; the model decides what the source
  decides from them. That is which `except` clause reports a failure, which
  HTTP statuses abort before anything is written, whether the content type
  draws a warning, and which bytes the streaming loop writes to the file.
 */
module Fetch {
  import opened Wrappers
  import opened Text
  import opened FilenameResolver

  type byte = b: int | 0 <= b < 256

  /** The directory `create_fetched_images_directory` makes and every download writes into. */
  const ImageDirectory: string := "Fetched_Images"

  /**
    The exceptions a download can raise. The first ten are the `requests`
    library's, all subclasses of its `RequestException`, itself a subclass
    of `OSError`. `ConnectTimeout` is both a `Timeout` and a `ConnectionError`.
   */
  datatype PyException =
    | ConnectTimeout
    | ReadTimeout
    | ConnectionError
    | SSLError
    | ProxyError
    | HTTPError(status: int)
    | TooManyRedirects
    | InvalidURL
    | ChunkedEncodingError
    | ContentDecodingError
    | OSError            // a file-system error outside `requests`: permission denied, disk full, ...
    | OtherException     // any other `Exception`

  predicate IsRequestException(e: PyException) {
    !e.OSError? && !e.OtherException?
  }

  /** The `except` clauses of `download_image`, in the order they are tried. */
  datatype Handler = OnTimeout | OnConnectionError | OnHTTPError | OnRequestException | OnOSError | OnException

  const DownloadHandlers: seq<Handler> :=
    [OnTimeout, OnConnectionError, OnHTTPError, OnRequestException, OnOSError, OnException]

  /** `isinstance(e, C)` for the class `C` a clause names. */
  predicate Catches(h: Handler, e: PyException) {
    match h
    case OnTimeout => e.ConnectTimeout? || e.ReadTimeout?
    case OnConnectionError => e.ConnectionError? || e.SSLError? || e.ProxyError? || e.ConnectTimeout?
    case OnHTTPError => e.HTTPError?
    case OnRequestException => IsRequestException(e)
    case OnOSError => IsRequestException(e) || e.OSError?
    case OnException => true
  }

  /** Python's choice of handler: the first clause, in order, that catches `e`. */
  function FirstCatching(handlers: seq<Handler>, e: PyException): (i: Option<nat>)
    ensures i.Some? ==> i.value < |handlers| && Catches(handlers[i.value], e)
    ensures i.Some? ==> forall j :: 0 <= j < i.value ==> !Catches(handlers[j], e)
    ensures i.None? ==> forall j :: 0 <= j < |handlers| ==> !Catches(handlers[j], e)
  {
    if handlers == [] then None
    else if Catches(handlers[0], e) then Some(0)
    else
      match FirstCatching(handlers[1..], e)
      case None => None
      case Some(k) => Some(k + 1)
  }

  /** The failure kinds the clauses report; every one of them makes `download_image` return false. */
  datatype ErrorKind = TimedOut | ConnectionFailed | HttpFailed(status: int) | RequestFailed | FileNotSaved | Unexpected

  /** What each clause reports about the exception it caught. */
  function Reported(h: Handler, e: PyException): ErrorKind
    requires Catches(h, e)
  {
    match h
    case OnTimeout => TimedOut
    case OnConnectionError => ConnectionFailed
    case OnHTTPError => HttpFailed(e.status)
    case OnRequestException => RequestFailed
    case OnOSError => FileNotSaved
    case OnException => Unexpected
  }

  /**
    The failure kind a raised exception is reported as, found the way Python
    finds it. Some clause always catches: nothing escapes `download_image`.
    What that amounts to for each exception is `ClassifyTable`.
   */
  function Classify(e: PyException): (k: ErrorKind)
    ensures FirstCatching(DownloadHandlers, e).Some?
    ensures k == Reported(DownloadHandlers[FirstCatching(DownloadHandlers, e).value], e)
  {
    assert Catches(DownloadHandlers[5], e);
    Reported(DownloadHandlers[FirstCatching(DownloadHandlers, e).value], e)
  }

  /**
    The table the clause order produces. A connect timeout is reported as a
    timeout (its `Timeout` clause comes first); every `requests` error with no
    clause of its own is a request failure, never a file-system one, although
    `RequestException` is an `OSError`.
   */
  lemma ClassifyTable(e: PyException)
    ensures Classify(e) == match e
      case ConnectTimeout | ReadTimeout => TimedOut
      case ConnectionError | SSLError | ProxyError => ConnectionFailed
      case HTTPError(s) => HttpFailed(s)
      case TooManyRedirects | InvalidURL | ChunkedEncodingError | ContentDecodingError => RequestFailed
      case OSError => FileNotSaved
      case OtherException => Unexpected
  {
    var hs := DownloadHandlers;
    var h1 := [OnConnectionError, OnHTTPError, OnRequestException, OnOSError, OnException];
    var h2 := [OnHTTPError, OnRequestException, OnOSError, OnException];
    var h3 := [OnRequestException, OnOSError, OnException];
    var h4 := [OnOSError, OnException];
    assert hs[1..] == h1 && h1[1..] == h2 && h2[1..] == h3 && h3[1..] == h4 && h4[1..] == [OnException];
    match e
    case ConnectTimeout | ReadTimeout =>
      assert FirstCatching(hs, e) == Some(0);
    case ConnectionError | SSLError | ProxyError =>
      assert FirstCatching(h1, e) == Some(0);
    case HTTPError(_) =>
      assert FirstCatching(h2, e) == Some(0);
      assert FirstCatching(h1, e) == Some(1);
    case TooManyRedirects | InvalidURL | ChunkedEncodingError | ContentDecodingError =>
      assert FirstCatching(h3, e) == Some(0);
      assert FirstCatching(h2, e) == Some(1);
      assert FirstCatching(h1, e) == Some(2);
    case OSError =>
      assert FirstCatching(h4, e) == Some(0);
      assert FirstCatching(h3, e) == Some(1);
      assert FirstCatching(h2, e) == Some(2);
      assert FirstCatching(h1, e) == Some(3);
    case OtherException =>
      assert FirstCatching([OnException], e) == Some(0);
      assert FirstCatching(h4, e) == Some(1);
      assert FirstCatching(h3, e) == Some(2);
      assert FirstCatching(h2, e) == Some(3);
      assert FirstCatching(h1, e) == Some(4);
  }

  /** `raise_for_status()` raises `HTTPError` for a client (4xx) or server (5xx) status. */
  predicate RaisesForStatus(status: int) {
    400 <= status < 600
  }

  /** The extra line the HTTP clause prints under its error message. */
  datatype HttpDetail = NotFound | Forbidden | ServerError | NoDetail

  function HttpDetailOf(status: int): HttpDetail {
    if status == 404 then NotFound
    else if status == 403 then Forbidden
    else if status >= 500 then ServerError
    else NoDetail
  }

  /**
    For the statuses that abort a download: 404 reads "not found", 403
    "forbidden", every 5xx "server error", and any other 4xx gets no extra line.
   */
  lemma HttpDetailOfAbortingStatus(status: int)
    requires RaisesForStatus(status)
    ensures HttpDetailOf(status) == NotFound <==> status == 404
    ensures HttpDetailOf(status) == Forbidden <==> status == 403
    ensures HttpDetailOf(status) == ServerError <==> 500 <= status
    ensures HttpDetailOf(status) == NoDetail <==> status < 500 && status != 403 && status != 404
  {
  }

  /** The declared content type, lower-cased, starts with `image/` (a missing header reads as empty). */
  predicate IsImageContentType(contentType: Option<string>) {
    match contentType
    case None => false
    case Some(t) => StartsWith(AsciiLower(t), "image/")
  }

  /**
    The content-type test ignores case, and a missing header counts as not
    an image: `IMAGE/PNG` passes as `image/png` does.
   */
  lemma ImageContentTypeIgnoresCase(t: string)
    ensures IsImageContentType(Some(t)) <==> IsImageContentType(Some(AsciiLower(t)))
    ensures !IsImageContentType(None)
  {
    AsciiLowerIdempotent(t);
  }

  /** The file contents the chunks make: their concatenation, in order. */
  function Concat(chunks: seq<seq<byte>>): seq<byte> {
    if chunks == [] then [] else Concat(chunks[..|chunks| - 1]) + chunks[|chunks| - 1]
  }

  /** The number of bytes the response body carries. */
  function TotalSize(chunks: seq<seq<byte>>): nat {
    if chunks == [] then 0 else TotalSize(chunks[..|chunks| - 1]) + |chunks[|chunks| - 1]|
  }

  /** The chunks the write loop hands to `f.write`: the non-empty ones, in order. */
  function NonEmpty(chunks: seq<seq<byte>>): seq<seq<byte>> {
    if chunks == [] then []
    else if chunks[|chunks| - 1] == [] then NonEmpty(chunks[..|chunks| - 1])
    else NonEmpty(chunks[..|chunks| - 1]) + [chunks[|chunks| - 1]]
  }

  /** A body of N bytes makes a file of exactly N bytes. */
  lemma {:induction false} ConcatSize(chunks: seq<seq<byte>>)
    ensures |Concat(chunks)| == TotalSize(chunks)
  {
    if chunks != [] {
      ConcatSize(chunks[..|chunks| - 1]);
    }
  }

  /** Skipping empty chunks changes nothing in what is written. */
  lemma {:induction false} SkippingEmptyChunksKeepsContents(chunks: seq<seq<byte>>)
    ensures Concat(NonEmpty(chunks)) == Concat(chunks)
  {
    if chunks != [] {
      var init, last := chunks[..|chunks| - 1], chunks[|chunks| - 1];
      SkippingEmptyChunksKeepsContents(init);
      if last != [] {
        var ne := NonEmpty(init) + [last];
        assert ne[..|ne| - 1] == NonEmpty(init);
      }
    }
  }

  /**
    The write loop of `download_image`: every non-empty chunk is written to the
    freshly truncated file, in order. Returns the file's contents and the
    number of `write` calls made.
   */
  method WriteChunks(chunks: seq<seq<byte>>) returns (contents: seq<byte>, writes: nat)
    ensures contents == Concat(chunks) && |contents| == TotalSize(chunks)
    ensures writes == |NonEmpty(chunks)|
  {
    contents, writes := [], 0;
    for i := 0 to |chunks|
      invariant contents == Concat(chunks[..i])
      invariant writes == |NonEmpty(chunks[..i])|
    {
      var chunk := chunks[i];
      assert chunks[..i + 1][..i] == chunks[..i];
      if chunk != [] {
        contents := contents + chunk;
        writes := writes + 1;
      }
    }
    assert chunks[..|chunks|] == chunks;
    ConcatSize(chunks);
  }

  /** The HTTP exchange, as the network gave it. */
  datatype Exchange =
      /** `requests.get` raised before any response. */
    | GetRaised(error: PyException)
      /**
        A response arrived: its status, its `Content-Type` header if any, the
        body chunks delivered, and the exception, if any, that reading the
        body raised after them.
       */
    | Received(status: int, contentType: Option<string>, chunks: seq<seq<byte>>, streamError: Option<PyException>)

  /** Where `download_image` writes: the resolved file name joined to the directory. */
  function TargetPath(directory: string, decodedPath: Option<string>, timestamp: nat): string {
    Join(directory, ExtractFilename(decodedPath, timestamp))
  }

  /**
    The directory `main` passes has no trailing `/`, so every download of the
    program lands directly in `Fetched_Images`, under the resolved name.
   */
  lemma SavedInImageDirectory(decodedPath: Option<string>, timestamp: nat)
    ensures var name := ExtractFilename(decodedPath, timestamp);
      && TargetPath(ImageDirectory, decodedPath, timestamp) == ImageDirectory + "/" + name
      && Basename(TargetPath(ImageDirectory, decodedPath, timestamp)) == name
  {
    ResolvedPathInDirectory(ImageDirectory, decodedPath, timestamp);
  }

  /** A file left on disk: where, and with which bytes. */
  datatype SavedFile = SavedFile(path: string, contents: seq<byte>)

  /**
    What one attempt amounts to: the boolean `download_image` returns, the
    failure reported (if any), whether the content-type warning was printed,
    and the file the attempt left behind (if any).
   */
  datatype Report = Report(succeeded: bool, failure: Option<ErrorKind>, contentWarning: bool, file: Option<SavedFile>)

  /**
    `download_image(url, directory)`. `decodedPath` is the URL's decoded path
    (`None` if parsing raised), `exchange` the network's answer, `openRefused`
    whether the file system refuses to open the file for writing (permission,
    a directory of that name, ...), `timestamp` the clock. Before the file
    system is asked, `open` raises `ValueError` (not an `OSError`) for a path
    with an embedded NUL, which `unquote` produces from `%00`.
   */
  method DownloadImage(directory: string, decodedPath: Option<string>, exchange: Exchange, openRefused: bool, timestamp: nat)
    returns (r: Report)
    // Only a complete write with no exception succeeds; the content type plays no part.
    ensures r.succeeded <==> exchange.Received? && !RaisesForStatus(exchange.status)
                             && '\0' !in TargetPath(directory, decodedPath, timestamp) && !openRefused
                             && exchange.streamError.None?
    ensures r.succeeded <==> r.failure.None?
    // Every failure is the classified exception.
    ensures exchange.GetRaised? ==> r.failure == Some(Classify(exchange.error)) && r.file.None?
    ensures exchange.Received? && RaisesForStatus(exchange.status)
            ==> r.failure == Some(HttpFailed(exchange.status)) && r.file.None?
    ensures exchange.Received? && !RaisesForStatus(exchange.status) && '\0' in TargetPath(directory, decodedPath, timestamp)
            ==> r.failure == Some(Unexpected) && r.file.None?
    ensures exchange.Received? && !RaisesForStatus(exchange.status) && '\0' !in TargetPath(directory, decodedPath, timestamp)
            && openRefused
            ==> r.failure == Some(FileNotSaved) && r.file.None?
    ensures exchange.Received? && !RaisesForStatus(exchange.status) && '\0' !in TargetPath(directory, decodedPath, timestamp)
            && !openRefused && exchange.streamError.Some?
            ==> r.failure == Some(Classify(exchange.streamError.value))
    // The warning is advisory: it is printed for an accepted response without an image type.
    ensures r.contentWarning <==> exchange.Received? && !RaisesForStatus(exchange.status) && !IsImageContentType(exchange.contentType)
    // Once the file is opened it holds exactly the chunks delivered, whether or not reading went on to fail.
    ensures r.file.Some? <==> exchange.Received? && !RaisesForStatus(exchange.status)
                              && '\0' !in TargetPath(directory, decodedPath, timestamp) && !openRefused
    ensures r.file.Some? ==> r.file.value.path == TargetPath(directory, decodedPath, timestamp)
    ensures r.file.Some? && directory != [] && directory[|directory| - 1] != '/'
            ==> r.file.value.path == directory + "/" + ExtractFilename(decodedPath, timestamp)
    ensures r.file.Some? ==> r.file.value.contents == Concat(exchange.chunks)
    ensures r.file.Some? ==> |r.file.value.contents| == TotalSize(exchange.chunks)
  {
    match exchange
    case GetRaised(e) =>
      r := Report(false, Some(Classify(e)), false, None);
    case Received(status, contentType, chunks, streamError) =>
      if RaisesForStatus(status) {
        ClassifyTable(HTTPError(status));
        r := Report(false, Some(Classify(HTTPError(status))), false, None);
        return;
      }
      var warn := !IsImageContentType(contentType);
      var filename := ExtractFilename(decodedPath, timestamp);
      var path := Join(directory, filename);
      assert path == TargetPath(directory, decodedPath, timestamp);
      if directory != [] && directory[|directory| - 1] != '/' {
        ResolvedPathInDirectory(directory, decodedPath, timestamp);
      }
      if '\0' in path {
        ClassifyTable(OtherException);
        r := Report(false, Some(Classify(OtherException)), warn, None);
        return;
      }
      if openRefused {
        ClassifyTable(OSError);
        r := Report(false, Some(Classify(OSError)), warn, None);
        return;
      }
      var contents, _ := WriteChunks(chunks);
      match streamError
      case Some(e) =>
        r := Report(false, Some(Classify(e)), warn, Some(SavedFile(path, contents)));
      case None =>
        r := Report(true, None, warn, Some(SavedFile(path, contents)));
  }

  /** A character of a suffix is a character of the whole. */
  lemma InSuffix(s: string, from: nat, c: char)
    requires from <= |s| && c in s[from..]
    ensures c in s
  {
    var k :| 0 <= k < |s[from..]| && s[from..][k] == c;
    assert s[from + k] == c;
  }

  /**
    A `%00` in the final segment is decoded to NUL and kept in the name, so
    an accepted response ends in an unexpected error and leaves no file.
   */
  lemma NulInNameIsUnexpected(directory: string, decodedPath: Option<string>, timestamp: nat)
    requires decodedPath.Some? && '.' in Basename(decodedPath.value) && '\0' in Basename(decodedPath.value)
    ensures '\0' in TargetPath(directory, decodedPath, timestamp)
  {
    var name := Basename(decodedPath.value);
    assert ExtractFilename(decodedPath, timestamp) == name;
    var path := Join(directory, name);
    InSuffix(path, |path| - |name|, '\0');
  }
}
