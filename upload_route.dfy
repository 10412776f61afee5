/**
 * The production upload endpoint (frontend/src/app/api/upload/route.ts):
 * `POST /api/upload` checks that a file was sent, normalises its name,
 * checks its type and then its size against the 25 MB constraint set, and
 * saves it under the normalised name.
 *
 * Node's POSIX `path.extname` and `path.basename(p, ext)` are modelled by
 * their documented behaviour on the last path component; writing the file
 * is a parameter that says whether the save failed.
 */
module UploadRoute {
  import opened Wrappers
  import opened Strings
  import opened UploadConstraints

  const Mib: int := 1024 * 1024

  /** `FILE_CONSTRAINTS` of a front end's `types/audio.ts`. */
  datatype FileConstraints = FileConstraints(maxSize: int, acceptedTypes: seq<string>, acceptedExtensions: seq<string>)

  /** The production constraint set (frontend/src/types/audio.ts): 25 MB, MP3 or WAV. */
  const FileLimits: FileConstraints :=
    FileConstraints(25 * Mib, ["audio/mpeg", "audio/wav", "audio/mp3"], [".mp3", ".wav"])

  /**
   * What `request.formData()` yields: a failure, the form's optional `file`
   * entry when it is a file, or a `file` entry sent as a text field, which
   * `formData.get` returns as a string.
   */
  datatype Form = Unreadable | Form(file: Option<FileInfo>) | TextEntry(value: string)

  /** The JSON responses of the upload routes. */
  datatype Response =
    | MissingFile
    | InvalidType(accepted: seq<string>)
    | FileTooLarge(error: string, maxSize: int, fileSize: int)
    | Accepted(name: string, size: int, mimeType: string, message: string, processingEndpoint: string)
    | UploadError

  function StatusCode(r: Response): int
  {
    match r
    case Accepted(_, _, _, _, _) => 200
    case UploadError => 500
    case _ => 400
  }

  function Code(r: Response): Option<string>
  {
    match r
    case MissingFile => Some("MISSING_FILE")
    case InvalidType(_) => Some("INVALID_TYPE")
    case FileTooLarge(_, _, _) => Some("FILE_TOO_LARGE")
    case Accepted(_, _, _, _, _) => None
    case UploadError => Some("UPLOAD_ERROR")
  }

  /** Only a successful upload answers 200; every refusal carries a code. */
  lemma StatusMatchesCode(r: Response)
    ensures StatusCode(r) == 200 <==> Code(r).None?
    ensures StatusCode(r) == 500 <==> Code(r) == Some("UPLOAD_ERROR")
  {
  }

  /** The size refusal's message; the limit is a whole number of MB. */
  function TooLargeMessage(maxSize: int): string
  {
    "File too large. Maximum size is " + IntToString(maxSize / Mib) + "MB"
  }

  // ---------------------------------------------------------------------------
  // Node's POSIX path.extname / path.basename
  // ---------------------------------------------------------------------------

  /** The path without its trailing slashes. */
  function TrimTrailingSlashes(p: string): (r: string)
    ensures |r| <= |p| && r == p[..|r|]
    ensures r == [] || r[|r| - 1] != '/'
    ensures forall k :: |r| <= k < |p| ==> p[k] == '/'
    decreases |p|
  {
    if p != [] && p[|p| - 1] == '/' then TrimTrailingSlashes(p[..|p| - 1]) else p
  }

  /** The last path component, ignoring trailing slashes. */
  function LastComponent(p: string): (c: string)
    ensures '/' !in c
    ensures EndsWith(TrimTrailingSlashes(p), c)
  {
    var t := TrimTrailingSlashes(p);
    match LastIndexOf(t, '/')
    case None => t
    case Some(i) => t[i + 1..]
  }

  /**
   * `path.extname`: the last component from its last `.` on, or empty when
   * it has no dot, when that dot starts the component, or when the
   * component is `..`.
   */
  function ExtName(p: string): (e: string)
    ensures e != [] ==> e[0] == '.' && '.' !in e[1..]
    ensures e != [] ==> |e| < |LastComponent(p)| && EndsWith(LastComponent(p), e)
  {
    var c := LastComponent(p);
    match LastIndexOf(c, '.')
    case None => ""
    case Some(d) =>
      if d == 0 || c == ".." then "" else
        DotSuffix(c, d);
        c[d..]
  }

  lemma DotSuffix(c: string, d: nat)
    requires d < |c| && c[d] == '.' && '.' !in c[d + 1..]
    ensures c[d..][0] == '.' && '.' !in c[d..][1..] && EndsWith(c, c[d..])
  {
    assert c[d..][1..] == c[d + 1..];
  }

  /** `path.basename(p, path.extname(p))`: the last component without its extension. */
  function BaseWithoutExt(p: string): (b: string)
    ensures b + ExtName(p) == LastComponent(p)
    ensures ExtName(p) != [] ==> b != []
  {
    var c := LastComponent(p);
    var e := ExtName(p);
    DropSuffix(c, e);
    c[..|c| - |e|]
  }

  lemma DropSuffix(c: string, e: string)
    requires e == [] || (|e| < |c| && EndsWith(c, e))
    ensures |e| <= |c| && c[..|c| - |e|] + e == c
    ensures e != [] ==> c[..|c| - |e|] != []
  {
    if e == [] {
      assert c[..|c|] == c;
    } else {
      assert c[|c| - |e|..] == e;
      assert c[..|c| - |e|] + c[|c| - |e|..] == c;
    }
  }

  /** A slash-free name splits at its only dot, provided something precedes it. */
  lemma ExtNameOfSimple(stem: string, ext: string)
    requires '/' !in stem && '.' !in stem && '/' !in ext
    requires ext != [] ==> stem != [] && ext[0] == '.' && '.' !in ext[1..]
    ensures ExtName(stem + ext) == ext
    ensures BaseWithoutExt(stem + ext) == stem
  {
    var p := stem + ext;
    assert '/' !in p by {
      forall k | 0 <= k < |p| ensures p[k] != '/' {
        if k < |stem| { assert p[k] == stem[k]; } else { assert p[k] == ext[k - |stem|]; }
      }
    }
    assert TrimTrailingSlashes(p) == p;
    assert LastComponent(p) == p;
    if ext == [] {
      assert p == stem;
    } else {
      assert p[|stem|] == '.';
      assert p[|stem| + 1..] == ext[1..];
      LastIndexOfAt(p, '.', |stem|);
      assert p[0] == stem[0];
      assert p[|stem|..] == ext;
    }
  }

  /** A name without slashes is its own last component. */
  lemma LastComponentOfPlainName(p: string)
    requires '/' !in p
    ensures LastComponent(p) == p
  {
    if p != [] {
      assert p[|p| - 1] in p;
    }
  }

  // ---------------------------------------------------------------------------
  // safeName
  // ---------------------------------------------------------------------------

  predicate IsAsciiAlnum(c: char)
  {
    'a' <= c <= 'z' || 'A' <= c <= 'Z' || '0' <= c <= '9'
  }

  /** The characters a normalised stem is made of: `[a-z0-9_]`. */
  predicate IsSafeChar(c: char)
  {
    'a' <= c <= 'z' || '0' <= c <= '9' || c == '_'
  }

  /**
   * `/[^a-z0-9]/gi` replaced by `_`: the pattern works on UTF-16 code units,
   * so a character outside the Basic Multilingual Plane becomes two `_`.
   */
  function SanitizeChar(c: char): string
  {
    if IsAsciiAlnum(c) then [c] else if c as int > 0xFFFF then "__" else "_"
  }

  function Sanitize(s: string): (r: string)
    ensures |r| >= |s|
    ensures forall i :: 0 <= i < |r| ==> IsAsciiAlnum(r[i]) || r[i] == '_'
  {
    if s == [] then [] else SanitizeChar(s[0]) + Sanitize(s[1..])
  }

  /** Sanitising changes nothing exactly on strings already made of letters, digits and `_`. */
  lemma {:induction false} SanitizeFixedPoints(s: string)
    ensures Sanitize(s) == s <==> forall i :: 0 <= i < |s| ==> IsAsciiAlnum(s[i]) || s[i] == '_'
  {
    if s != [] && forall i :: 0 <= i < |s| ==> IsAsciiAlnum(s[i]) || s[i] == '_' {
      assert forall i :: 0 <= i < |s[1..]| ==> IsAsciiAlnum(s[1..][i]) || s[1..][i] == '_' by {
        forall i | 0 <= i < |s[1..]| ensures IsAsciiAlnum(s[1..][i]) || s[1..][i] == '_' {
          assert s[1..][i] == s[i + 1];
        }
      }
      SanitizeFixedPoints(s[1..]);
      assert [s[0]] + s[1..] == s;
    }
  }

  lemma LowerOfSafe(s: string)
    requires forall i :: 0 <= i < |s| ==> IsSafeChar(s[i])
    ensures Lower(s) == s
  {
    var l := Lower(s);
    forall i | 0 <= i < |s| ensures l[i] == s[i] {
      assert IsSafeChar(s[i]);
    }
  }

  /** The normalised stem: sanitised, then lower-cased. */
  function SafeStem(raw: string): (r: string)
    ensures |r| >= |BaseWithoutExt(raw)|
    ensures forall i :: 0 <= i < |r| ==> IsSafeChar(r[i])
  {
    Lower(Sanitize(BaseWithoutExt(raw)))
  }

  /** `safeName`: the normalised stem followed by the original extension, unchanged. */
  function SafeName(raw: string): (r: string)
    ensures EndsWith(r, ExtName(raw))
    ensures forall i :: 0 <= i < |r| - |ExtName(raw)| ==> IsSafeChar(r[i])
  {
    var s := SafeStem(raw);
    assert (s + ExtName(raw))[|s|..] == ExtName(raw);
    s + ExtName(raw)
  }

  /** The stored name has the same extension as the uploaded one. */
  lemma SafeNameKeepsExtension(raw: string)
    ensures ExtName(SafeName(raw)) == ExtName(raw)
    ensures BaseWithoutExt(SafeName(raw)) == SafeStem(raw)
  {
    var s := SafeStem(raw);
    var e := ExtName(raw);
    var c := LastComponent(raw);
    assert '/' !in s && '.' !in s by {
      forall k | 0 <= k < |s| ensures s[k] != '/' && s[k] != '.' {
        assert IsSafeChar(s[k]);
      }
    }
    assert '/' !in e by {
      forall k | 0 <= k < |e| ensures e[k] != '/' {
        assert e[k] == c[|c| - |e| + k];
      }
    }
    ExtNameOfSimple(s, e);
  }

  /** Normalising a normalised name changes nothing. */
  lemma SafeNameIdempotent(raw: string)
    ensures SafeName(SafeName(raw)) == SafeName(raw)
  {
    var s := SafeStem(raw);
    var n := SafeName(raw);
    SafeNameKeepsExtension(raw);
    NormalisedStemIsStable(s);
    assert BaseWithoutExt(n) == s;
    assert SafeStem(n) == s;
  }

  /** A stem made of `[a-z0-9_]` survives sanitising and lower-casing. */
  lemma NormalisedStemIsStable(s: string)
    requires forall i :: 0 <= i < |s| ==> IsSafeChar(s[i])
    ensures Lower(Sanitize(s)) == s
  {
    assert forall i :: 0 <= i < |s| ==> IsAsciiAlnum(s[i]) || s[i] == '_' by {
      forall i | 0 <= i < |s| ensures IsAsciiAlnum(s[i]) || s[i] == '_' {
        assert IsSafeChar(s[i]);
      }
    }
    SanitizeFixedPoints(s);
    LowerOfSafe(s);
  }

  /** A plain lower-case name such as `song.mp3` is stored under its own name. */
  lemma SafeNameOfCleanName(raw: string)
    requires '/' !in raw
    requires forall i :: 0 <= i < |BaseWithoutExt(raw)| ==> IsSafeChar(BaseWithoutExt(raw)[i])
    ensures SafeName(raw) == raw
  {
    var b := BaseWithoutExt(raw);
    LastComponentOfPlainName(raw);
    NormalisedStemIsStable(b);
  }

  // ---------------------------------------------------------------------------
  // POST /api/upload
  // ---------------------------------------------------------------------------

  /**
   * The validation chain shared by both upload routes: missing file, then
   * type (judged on the original name), then size; `None` lets the file through.
   */
  function Refusal(form: Form, limits: FileConstraints): (r: Option<Response>)
    ensures r.None? <==> form.Form? && form.file.Some?
                         && IsValidType(form.file.value, limits.acceptedTypes, limits.acceptedExtensions)
                         && form.file.value.size <= limits.maxSize
    ensures r.Some? ==> StatusCode(r.value) != 200
    ensures form.Form? && form.file.None? ==> r == Some(MissingFile)
    ensures form.TextEntry? && form.value == "" ==> r == Some(MissingFile)
    ensures form.TextEntry? && form.value != "" ==> r == Some(UploadError)
    ensures form.Form? && form.file.Some?
            && !IsValidType(form.file.value, limits.acceptedTypes, limits.acceptedExtensions) ==>
              r == Some(InvalidType(limits.acceptedExtensions))
    ensures form.Form? && form.file.Some?
            && IsValidType(form.file.value, limits.acceptedTypes, limits.acceptedExtensions)
            && form.file.value.size > limits.maxSize ==>
              r == Some(FileTooLarge(TooLargeMessage(limits.maxSize), limits.maxSize, form.file.value.size))
  {
    match form
    case Unreadable => Some(UploadError)
    case Form(None) => Some(MissingFile)
    case TextEntry(v) =>
      // An empty string is falsy; any other string has no `name`, and the
      // first use of it throws into the 500 handler.
      if v == "" then Some(MissingFile) else Some(UploadError)
    case Form(Some(file)) =>
      if !IsValidType(file, limits.acceptedTypes, limits.acceptedExtensions) then
        Some(InvalidType(limits.acceptedExtensions))
      else if file.size > limits.maxSize then
        Some(FileTooLarge(TooLargeMessage(limits.maxSize), limits.maxSize, file.size))
      else None
  }

  const SavedMessage: string := "File uploaded and saved successfully."

  /**
   * `POST`: a refusal from the validation chain, a 500 when saving fails,
   * or the stored file's normalised name with the original size and type.
   */
  function Post(form: Form, saveFails: bool): (r: Response)
    ensures form.Unreadable? ==> r == UploadError
    ensures form.TextEntry? && form.value == "" ==> r == MissingFile
    ensures form.TextEntry? && form.value != "" ==> r == UploadError
    ensures r.Accepted? <==> Refusal(form, FileLimits).None? && !saveFails
    ensures r.Accepted? ==> && r.name == SafeName(form.file.value.name)
                            && r.size == form.file.value.size <= 25 * Mib
                            && r.mimeType == form.file.value.mimeType
                            && r.message == SavedMessage
                            && r.processingEndpoint == "/api/separate"
    ensures Refusal(form, FileLimits).None? && saveFails ==> r == UploadError
  {
    match Refusal(form, FileLimits)
    case Some(refused) => refused
    case None =>
      if saveFails then UploadError
      else
        var file := form.file.value;
        Accepted(SafeName(file.name), file.size, file.mimeType, SavedMessage, "/api/separate")
  }

  /** The route lets a file through exactly when the client-side check with the same limits does. */
  lemma RouteAgreesWithClient(file: FileInfo)
    ensures Refusal(Form(Some(file)), FileLimits).None?
            <==> ValidateFile(file, Constraints(25 * Mib, 25, FileLimits.acceptedTypes, FileLimits.acceptedExtensions)).None?
  {
  }

  /** A wrong-type file is refused for its type, however large it is. */
  lemma TypeBeforeSize(file: FileInfo)
    requires file.mimeType !in FileLimits.acceptedTypes
    requires !EndsWith(Lower(file.name), ".mp3") && !EndsWith(Lower(file.name), ".wav")
    ensures Post(Form(Some(file)), false) == InvalidType([".mp3", ".wav"])
  {
  }

  /** A file of exactly 25 MB passes; one byte more is refused with both sizes echoed. */
  lemma SizeLimitBoundary(file: FileInfo)
    requires IsValidType(file, FileLimits.acceptedTypes, FileLimits.acceptedExtensions)
    ensures file.size == 25 * Mib ==> Post(Form(Some(file)), false).Accepted?
    ensures file.size == 25 * Mib + 1 ==>
              Post(Form(Some(file)), false) == FileTooLarge(TooLargeMessage(25 * Mib), 25 * Mib, file.size)
  {
  }

  /** The size refusal names the 25 MB limit. */
  lemma TooLargeMessageNamesLimit()
    ensures TooLargeMessage(FileLimits.maxSize) == "File too large. Maximum size is 25MB"
  {
    assert FileLimits.maxSize / Mib == 25;
    assert IntToString(25) == "25";
  }
}
