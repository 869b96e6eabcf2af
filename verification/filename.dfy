/**
  How the downloader names the file it saves (`extract_filename_from_url`):
  the final segment of the URL's percent-decoded path when that segment is
  non-empty and has a `.`, otherwise `image_<seconds since the epoch>.jpg`.
  Parsing the URL and percent-decoding its path are library calls; the model
  starts from their result, `None` standing for the case where they raise.
 */
module FilenameResolver {
  import opened Wrappers
  import opened Text

  /**
    `os.path.basename(path)`: everything after the last `/`. It is the longest
    suffix of `path` without a `/`: either the whole path or the part after a `/`.
   */
  function Basename(path: string): (name: string)
    ensures '/' !in name
    ensures |name| <= |path| && name == path[|path| - |name|..]
    ensures |name| == |path| || path[|path| - |name| - 1] == '/'
  {
    if |path| == 0 || path[|path| - 1] == '/' then
      ""
    else
      var init := Basename(path[..|path| - 1]);
      assert path[..|path| - 1][|path| - 1 - |init|..] == path[|path| - 1 - |init|..|path| - 1];
      init + [path[|path| - 1]]
  }

  /** The segment after a final `/` is exactly what follows it. */
  lemma {:induction false} BasenameAfterSlash(dir: string, name: string)
    requires '/' !in name
    ensures Basename(dir + "/" + name) == name
  {
    if name == [] {
      assert (dir + "/" + name)[|dir + "/" + name| - 1] == '/';
    } else {
      var init := name[..|name| - 1];
      assert (dir + "/" + name)[..|dir + "/" + name| - 1] == dir + "/" + init;
      BasenameAfterSlash(dir, init);
      assert init + [name[|name| - 1]] == name;
    }
  }

  /** The shape `image_<decimal digits>.jpg` of a generated file name, the digits written as `str` writes them. */
  predicate IsGeneratedName(name: string) {
    && |name| > 10
    && name[..6] == "image_"
    && name[|name| - 4..] == ".jpg"
    && AllDigits(name[6..|name| - 4])
    && (name[6] == '0' ==> |name| == 11)
  }

  /** The timestamp a generated file name carries. */
  function TimestampOf(name: string): nat
    requires IsGeneratedName(name)
  {
    ParseDecimal(name[6..|name| - 4])
  }

  /**
    The fallback name `image_<timestamp>.jpg`. It has the generated shape and
    carries the timestamp it was made from; it is a plain name with an extension.
   */
  function GeneratedName(timestamp: nat): (name: string)
    ensures IsGeneratedName(name) && TimestampOf(name) == timestamp
    ensures '.' in name && '/' !in name
  {
    var digits := DecimalString(timestamp);
    GeneratedShape(digits);
    ParseDecimalString(timestamp);
    "image_" + digits + ".jpg"
  }

  /** Any canonical run of digits between `image_` and `.jpg` makes a generated name that carries it. */
  lemma GeneratedShape(digits: string)
    requires IsCanonicalDecimal(digits)
    ensures var name := "image_" + digits + ".jpg";
      && IsGeneratedName(name) && name[6..|name| - 4] == digits
      && '.' in name && '/' !in name
  {
    var name := "image_" + digits + ".jpg";
    assert name[..6] == "image_";
    assert name[|name| - 4..] == ".jpg";
    assert name[6..|name| - 4] == digits;
    assert name[|name| - 4] == '.';
    assert forall i :: 0 <= i < |digits| ==> name[6 + i] == digits[i];
  }

  /** The generated shape pins the name down: for each timestamp there is exactly one generated name. */
  lemma GeneratedNameIsUnique(name: string, timestamp: nat)
    requires IsGeneratedName(name) && TimestampOf(name) == timestamp
    ensures name == GeneratedName(timestamp)
  {
    var digits := name[6..|name| - 4];
    assert digits[0] == name[6];
    DecimalStringOfParse(digits);
    assert name == "image_" + digits + ".jpg";
  }

  /**
    `extract_filename_from_url`, given the decoded URL path (`None` when
    parsing raised) and the clock reading. Whatever the input, the name is
    non-empty, has a `.` and has no `/`. A final segment with a `.` is kept
    as it is; in every other case the name is the generated one.
   */
  function ExtractFilename(decodedPath: Option<string>, timestamp: nat): (filename: string)
    ensures filename != [] && '.' in filename && '/' !in filename
    ensures decodedPath.Some? && Basename(decodedPath.value) != [] && '.' in Basename(decodedPath.value)
            ==> filename == Basename(decodedPath.value)
    ensures decodedPath.None? || Basename(decodedPath.value) == [] || '.' !in Basename(decodedPath.value)
            ==> IsGeneratedName(filename) && TimestampOf(filename) == timestamp
  {
    match decodedPath
    case None => GeneratedName(timestamp)
    case Some(path) =>
      var candidate := Basename(path);
      if candidate == [] || '.' !in candidate then GeneratedName(timestamp) else candidate
  }

  /**
    A kept name is the path's final segment: the path is some prefix, ending
    in `/` unless it is empty, followed by the name.
   */
  lemma KeptNameIsFinalSegment(path: string, timestamp: nat)
    requires '.' in Basename(path)
    ensures var name := ExtractFilename(Some(path), timestamp);
      && name == path[|path| - |name|..]
      && (|name| == |path| || path[|path| - |name| - 1] == '/')
  {
    assert ExtractFilename(Some(path), timestamp) == Basename(path);
  }

  /**
    `os.path.join(directory, filename)`: a name starting with `/` replaces the
    directory; otherwise a `/` separates the two unless the directory is empty
    or already ends with one.
   */
  function Join(directory: string, name: string): (path: string)
    ensures StartsWith(name, "/") ==> path == name
    ensures |name| <= |path| && name == path[|path| - |name|..]
    ensures !StartsWith(name, "/") ==> StartsWith(path, directory) && |directory| + |name| <= |path| <= |directory| + |name| + 1
    // Between the two lies one `/` exactly when the directory needs it, and nothing otherwise.
    ensures !StartsWith(name, "/")
            ==> (|path| == |directory| + |name| + 1 <==> directory != [] && directory[|directory| - 1] != '/')
    ensures !StartsWith(name, "/") && |path| == |directory| + |name| + 1 ==> path[|directory|] == '/'
  {
    if StartsWith(name, "/") then name
    else if directory == [] || directory[|directory| - 1] == '/' then directory + name
    else directory + "/" + name
  }

  /**
    A resolved file name lands directly inside a non-empty directory whose
    name has no trailing `/`: the path is `directory/filename`, and its
    final segment gives the file name back.
   */
  lemma {:induction false} ResolvedPathInDirectory(directory: string, decodedPath: Option<string>, timestamp: nat)
    requires directory != [] && directory[|directory| - 1] != '/'
    ensures var name := ExtractFilename(decodedPath, timestamp);
      && Join(directory, name) == directory + "/" + name
      && Basename(Join(directory, name)) == name
  {
    var name := ExtractFilename(decodedPath, timestamp);
    assert name[0] in name;
    BasenameAfterSlash(directory, name);
  }

  /**
    `.` and `..` pass the extension test: a path ending in `/.` or `/..`
    yields that segment itself as the file name.
   */
  lemma DotSegmentIsKept(dir: string, segment: string, timestamp: nat)
    requires segment == "." || segment == ".."
    ensures ExtractFilename(Some(dir + "/" + segment), timestamp) == segment
  {
    BasenameAfterSlash(dir, segment);
    assert segment[0] == '.';
  }
}
