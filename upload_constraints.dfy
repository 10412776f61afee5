/**
 * Client-side upload validation (frontend/src/lib/upload-constraints.ts):
 * a file is accepted when its MIME type or its lower-cased name's ending
 * is on the accepted lists, and when it is not larger than the limit; the
 * type is judged before the size. The type test is shared with both
 * upload routes.
 */
module UploadConstraints {
  import opened Wrappers
  import opened Strings

  /** `UploadConstraints` as the back end serves them. */
  datatype Constraints = Constraints(maxFileSize: int, maxFileSizeMb: int,
                                     acceptedTypes: seq<string>, acceptedExtensions: seq<string>)

  /** The parts of a browser `File` the validators look at. */
  datatype FileInfo = FileInfo(name: string, size: int, mimeType: string)

  /** `acceptedTypes.includes(file.type) || acceptedExtensions.some(ext => file.name.toLowerCase().endsWith(ext))`. */
  predicate IsValidType(file: FileInfo, acceptedTypes: seq<string>, acceptedExtensions: seq<string>)
  {
    file.mimeType in acceptedTypes
    || exists i :: 0 <= i < |acceptedExtensions| && EndsWith(Lower(file.name), acceptedExtensions[i])
  }

  /** The message for a rejected type: the extensions joined by ", ", upper-cased. */
  function TypeMessage(acceptedExtensions: seq<string>): string
  {
    "Only " + Upper(Join(acceptedExtensions, ", ")) + " files supported"
  }

  /** The message for an oversized file. */
  function SizeMessage(maxFileSizeMb: int): string
  {
    "Max file size is " + IntToString(maxFileSizeMb) + "MB"
  }

  /**
   * `validateFile`: `None` for an acceptable file, else the first failing
   * check's message, the type check coming first.
   */
  function ValidateFile(file: FileInfo, c: Constraints): (r: Option<string>)
    ensures r.None? <==> IsValidType(file, c.acceptedTypes, c.acceptedExtensions) && file.size <= c.maxFileSize
    ensures !IsValidType(file, c.acceptedTypes, c.acceptedExtensions) ==> r == Some(TypeMessage(c.acceptedExtensions))
    ensures IsValidType(file, c.acceptedTypes, c.acceptedExtensions) && file.size > c.maxFileSize ==>
              r == Some(SizeMessage(c.maxFileSizeMb))
  {
    if !IsValidType(file, c.acceptedTypes, c.acceptedExtensions) then Some(TypeMessage(c.acceptedExtensions))
    else if file.size > c.maxFileSize then Some(SizeMessage(c.maxFileSizeMb))
    else None
  }

  /** The two messages never coincide, so a caller can tell which check failed. */
  lemma MessagesDiffer(exts: seq<string>, mb: int)
    ensures TypeMessage(exts) != SizeMessage(mb)
  {
    assert TypeMessage(exts)[0] == 'O' && SizeMessage(mb)[0] == 'M';
  }

  /** A file exactly at the limit passes the size check. */
  lemma LimitIsInclusive(file: FileInfo, c: Constraints)
    requires IsValidType(file, c.acceptedTypes, c.acceptedExtensions) && file.size == c.maxFileSize
    ensures ValidateFile(file, c).None?
  {
  }

  /** The name test ignores ASCII case: `SONG.MP3` is accepted wherever `song.mp3` is. */
  lemma ExtensionCaseInsensitive(file: FileInfo, other: string, types: seq<string>, exts: seq<string>)
    requires Lower(other) == Lower(file.name)
    ensures IsValidType(file, types, exts) <==> IsValidType(file.(name := other), types, exts)
  {
  }
}
