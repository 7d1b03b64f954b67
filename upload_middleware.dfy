/** The upload middleware: the image filter multer applies to every incoming
    file, the configured limits, and the error handler that turns upload
    failures into 400 responses. */
module UploadMiddleware {
  import opened Wrappers
  import opened Http
  import opened JsStrings

  /** 10 MiB, the per-file size limit. */
  const MAX_FILE_SIZE: nat := 10 * 1024 * 1024
  /** The form field of a single-file upload. */
  const SINGLE_FIELD := "image"
  /** The form field and the most files of a multi-file upload. */
  const MULTIPLE_FIELD := "images"
  const MAX_FILES: nat := 10

  /** The alternatives of the `jpeg|jpg|png|gif|webp` pattern. */
  const ALLOWED_TYPES: seq<string> := ["jpeg", "jpg", "png", "gif", "webp"]

  const FILTER_ERROR := "Only image files are allowed!"
  const LIMIT_FILE_SIZE := "LIMIT_FILE_SIZE"
  const LIMIT_FILE_COUNT := "LIMIT_FILE_COUNT"

  // ---------------------------------------------------------------------------
  // path.extname (POSIX)

  /** `p` without its trailing slashes. */
  function StripTrailingSlashes(p: string): (r: string)
    ensures |r| <= |p| && r == p[..|r|]
    ensures forall i :: |r| <= i < |p| ==> p[i] == '/'
    ensures r == [] || r[|r| - 1] != '/'
  {
    if p != [] && p[|p| - 1] == '/' then StripTrailingSlashes(p[..|p| - 1]) else p
  }

  /** Index of the last occurrence of `c` in `s`, if any. */
  function LastIndexOf(s: string, c: char): (r: Option<nat>)
    ensures r.None? <==> c !in s
    ensures r.Some? ==> r.value < |s| && s[r.value] == c
    ensures r.Some? ==> forall i :: r.value < i < |s| ==> s[i] != c
  {
    if s == [] then None
    else if s[|s| - 1] == c then Some(|s| - 1)
    else LastIndexOf(s[..|s| - 1], c)
  }

  /** The last path segment, after trailing slashes are dropped. */
  function Basename(p: string): (r: string)
    ensures '/' !in r
  {
    var q := StripTrailingSlashes(p);
    match LastIndexOf(q, '/')
    case None => q
    case Some(k) => q[k + 1..]
  }

  /** `path.extname(p)`: from the last dot of the last segment to its end, or
      the empty string when that segment has no dot, starts with its only
      dot-led part (a dot file such as `.png`), or is `..`. */
  function Extname(p: string): (r: string)
    ensures r != [] ==> r[0] == '.' && '.' !in r[1..]
    ensures r != [] ==> |r| < |Basename(p)| && r == Basename(p)[|Basename(p)| - |r|..]
  {
    var b := Basename(p);
    match LastIndexOf(b, '.')
    case None => []
    case Some(k) =>
      if k == 0 || b == ".." then []
      else
        assert forall j :: 0 <= j < |b| - k - 1 ==> b[k..][1..][j] == b[k + 1 + j];
        b[k..]
  }

  /** The last occurrence of `c` is the one before a tail that lacks it. */
  lemma {:induction false} LastIndexOfBeforeTail(s: string, c: char, t: string)
    requires c !in t
    ensures LastIndexOf(s + [c] + t, c) == Some(|s|)
  {
    if t == [] {
      assert s + [c] + t == s + [c];
    } else {
      var u := s + [c] + t;
      assert u[|u| - 1] == t[|t| - 1];
      assert u[..|u| - 1] == s + [c] + t[..|t| - 1];
      LastIndexOfBeforeTail(s, c, t[..|t| - 1]);
    }
  }

  /** A single-segment name `stem.ext` has extension `.ext`, unless it is `..`. */
  lemma ExtnameOfName(stem: string, ext: string)
    requires stem != [] && '/' !in stem
    requires ext != [] && '/' !in ext && '.' !in ext
    ensures Extname(stem + "." + ext) == "." + ext
  {
    var name := stem + "." + ext;
    assert name[|name| - 1] == ext[|ext| - 1];
    assert StripTrailingSlashes(name) == name;
    assert '/' !in name by {
      forall i | 0 <= i < |name| ensures name[i] != '/' {
        if i < |stem| { assert name[i] == stem[i]; }
        else if i > |stem| { assert name[i] == ext[i - |stem| - 1]; }
      }
    }
    assert Basename(name) == name;
    LastIndexOfBeforeTail(stem, '.', ext);
    assert name[|stem|..] == "." + ext;
  }

  /** A dot file `.ext` has no extension. */
  lemma ExtnameOfDotFile(ext: string)
    requires ext != [] && '/' !in ext && '.' !in ext
    ensures Extname("." + ext) == []
  {
    var name := "." + ext;
    assert name[|name| - 1] == ext[|ext| - 1];
    assert StripTrailingSlashes(name) == name;
    assert '/' !in name by {
      forall i | 0 <= i < |name| ensures name[i] != '/' {
        if i > 0 { assert name[i] == ext[i - 1]; }
      }
    }
    assert Basename(name) == name;
    LastIndexOfBeforeTail([], '.', ext);
    assert [] + ['.'] + ext == name;
  }

  // ---------------------------------------------------------------------------
  // The file filter

  /** `allowedTypes.test(s)`: one of the alternatives occurs somewhere in `s`. */
  predicate AllowedTest(s: string) {
    exists t :: t in ALLOWED_TYPES && Contains(s, t)
  }

  lemma AllowedAt(s: string, t: string, i: int)
    requires t in ALLOWED_TYPES && OccursAt(s, t, i)
    ensures AllowedTest(s)
  {
  }

  datatype FilterVerdict = Accept | Reject(error: string)

  /** `fileFilter`: the extension is lower-cased before it is tested, the MIME
      type is tested as sent. */
  function FileFilter(originalname: string, mimetype: string): (r: FilterVerdict)
    ensures r.Accept? <==> AllowedTest(mimetype) && AllowedTest(Lower(Extname(originalname)))
    ensures r.Reject? ==> r.error == FILTER_ERROR
  {
    if AllowedTest(mimetype) && AllowedTest(Lower(Extname(originalname))) then Accept
    else Reject(FILTER_ERROR)
  }

  /** A name without an extension is refused whatever the MIME type says. */
  lemma NoExtensionRejected(originalname: string, mimetype: string)
    requires Extname(originalname) == []
    ensures FileFilter(originalname, mimetype) == Reject(FILTER_ERROR)
  {
    forall t | t in ALLOWED_TYPES ensures !Contains(Lower([]), t) {
      NotContainsLonger(Lower([]), t);
    }
  }

  /** A string with no lower-case image-type letter passes no alternative. */
  lemma NotAllowed(s: string)
    requires 'j' !in s && 'p' !in s && 'f' !in s && 'w' !in s
    ensures !AllowedTest(s)
  {
    NotContainsMissingChar(s, "jpeg", 0);
    NotContainsMissingChar(s, "jpg", 0);
    NotContainsMissingChar(s, "png", 0);
    NotContainsMissingChar(s, "gif", 2);
    NotContainsMissingChar(s, "webp", 0);
  }

  /** The extension test ignores case: two names that differ only in the
      case of their extension get the same verdict. */
  lemma ExtensionCaseIgnored(stem: string, ext1: string, ext2: string, mimetype: string)
    requires stem != [] && '/' !in stem
    requires ext1 != [] && '/' !in ext1 && '.' !in ext1
    requires ext2 != [] && '/' !in ext2 && '.' !in ext2
    requires Lower(ext1) == Lower(ext2)
    ensures FileFilter(stem + "." + ext1, mimetype) == FileFilter(stem + "." + ext2, mimetype)
  {
    ExtnameOfName(stem, ext1);
    ExtnameOfName(stem, ext2);
    LowerDotExt(ext1);
    LowerDotExt(ext2);
  }

  lemma LowerDotExt(ext: string)
    ensures Lower("." + ext) == "." + Lower(ext)
  {
    var a, b := Lower("." + ext), "." + Lower(ext);
    assert |a| == |b|;
    forall i | 0 <= i < |a| ensures a[i] == b[i] {
      if i > 0 {
        assert ("." + ext)[i] == ext[i - 1];
      }
    }
  }

  /** An upper-case MIME type is refused, since it is tested as sent. */
  lemma UpperCaseMimeTypeRejected()
    ensures FileFilter("photo.png", "image/PNG") == Reject(FILTER_ERROR)
  {
    NotAllowed("image/PNG");
  }

  /** A dot file named like an extension has no extension and is refused. */
  lemma DotFileRejected()
    ensures FileFilter(".png", "image/png") == Reject(FILTER_ERROR)
  {
    ExtnameOfDotFile("png");
    assert "." + "png" == ".png";
    NoExtensionRejected(".png", "image/png");
  }

  /** The test is unanchored: any extension in which an image type occurs
      passes, `.webpage` or `.pngx` as well as `.png`. */
  lemma ExtensionContainingTypeAccepted(stem: string, ext: string, t: string, k: int, mimetype: string)
    requires stem != [] && '/' !in stem
    requires ext != [] && '/' !in ext && '.' !in ext
    requires t in ALLOWED_TYPES && OccursAt(Lower(ext), t, k)
    requires AllowedTest(mimetype)
    ensures FileFilter(stem + "." + ext, mimetype) == Accept
  {
    ExtnameOfName(stem, ext);
    LowerDotExt(ext);
    OccursAfterPrefix(".", Lower(ext), t, k);
    AllowedAt("." + Lower(ext), t, k + 1);
  }

  // ---------------------------------------------------------------------------
  // handleUploadError

  /** What reaches the error handler: a multer error with its code, or any
      other error, of which only the message is read. */
  datatype UploadError =
    | MulterError(code: string, message: string)
    | PlainError(message: string)

  datatype UploadErrorBody = UploadErrorBody(error: string, message: string)

  /** Either the handler answers, or it passes the error on to `next`. */
  datatype Handling =
    | Answered(response: Response<UploadErrorBody>)
    | Forwarded(error: UploadError)

  const FILE_TOO_LARGE := UploadErrorBody("File too large", "File size must be less than 10MB")
  const TOO_MANY_FILES := UploadErrorBody("Too many files", "Maximum 10 files allowed")
  const INVALID_FILE_TYPE := UploadErrorBody("Invalid file type", "Only image files (jpeg, jpg, png, gif, webp) are allowed")

  /** The multer limit codes the handler answers itself. */
  predicate IsHandledLimit(e: UploadError) {
    e.MulterError? && (e.code == LIMIT_FILE_SIZE || e.code == LIMIT_FILE_COUNT)
  }

  /** `handleUploadError`: the two limit codes first, then the filter's message,
      everything else forwarded unchanged. */
  function HandleUploadError(e: UploadError): (r: Handling)
    ensures r.Answered? <==> IsHandledLimit(e) || e.message == FILTER_ERROR
    ensures r.Answered? ==> r.response.status == BAD_REQUEST
    ensures r.Forwarded? ==> r.error == e
    ensures e.MulterError? && e.code == LIMIT_FILE_SIZE ==> r == Answered(Response(BAD_REQUEST, FILE_TOO_LARGE))
    ensures e.MulterError? && e.code == LIMIT_FILE_COUNT ==> r == Answered(Response(BAD_REQUEST, TOO_MANY_FILES))
    ensures !IsHandledLimit(e) && e.message == FILTER_ERROR ==> r == Answered(Response(BAD_REQUEST, INVALID_FILE_TYPE))
  {
    if e.MulterError? && e.code == LIMIT_FILE_SIZE then
      Answered(Response(BAD_REQUEST, FILE_TOO_LARGE))
    else if e.MulterError? && e.code == LIMIT_FILE_COUNT then
      Answered(Response(BAD_REQUEST, TOO_MANY_FILES))
    else if e.message == FILTER_ERROR then
      Answered(Response(BAD_REQUEST, INVALID_FILE_TYPE))
    else
      Forwarded(e)
  }

  /** A file the filter refuses ends as a 400 "Invalid file type" answer. */
  lemma FilterRejectionAnswered(originalname: string, mimetype: string)
    requires FileFilter(originalname, mimetype).Reject?
    ensures HandleUploadError(PlainError(FileFilter(originalname, mimetype).error))
      == Answered(Response(BAD_REQUEST, INVALID_FILE_TYPE))
  {
  }

  /** Any error that is neither a handled limit nor the filter's is forwarded. */
  lemma OtherErrorsForwarded(e: UploadError)
    requires !IsHandledLimit(e) && e.message != FILTER_ERROR
    ensures HandleUploadError(e) == Forwarded(e)
  {
  }
}
