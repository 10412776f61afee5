/**
 * The first upload endpoint (src/app/api/upload/route.ts): the same
 * missing-file, type and size checks as the production route, against the
 * 10 MB constraint set of src/types/audio.ts; it stores nothing and echoes
 * the file's own name.
 */
module UploadRouteMvp {
  import opened Wrappers
  import opened Strings
  import opened UploadConstraints
  import opened UploadRoute

  /** The first constraint set: 10 MB, MP3 or WAV. */
  const MvpLimits: FileConstraints :=
    FileConstraints(10 * Mib, ["audio/mpeg", "audio/wav", "audio/mp3"], [".mp3", ".wav"])

  const ValidatedMessage: string := "File validated successfully. Ready for processing."

  /** `POST`: a refusal from the validation chain, or the file's name, size and type unchanged. */
  function PostMvp(form: Form): (r: Response)
    ensures form.Unreadable? ==> r == UploadError
    ensures form.TextEntry? && form.value == "" ==> r == MissingFile
    ensures form.TextEntry? && form.value != "" ==> r == UploadError
    ensures r.Accepted? <==> Refusal(form, MvpLimits).None?
    ensures r.Accepted? ==> && r.name == form.file.value.name
                            && r.size == form.file.value.size <= 10 * Mib
                            && r.mimeType == form.file.value.mimeType
                            && r.message == ValidatedMessage
                            && r.processingEndpoint == "/api/separate"
    ensures !r.Accepted? ==> r != UploadError ==> StatusCode(r) == 400
  {
    match Refusal(form, MvpLimits)
    case Some(refused) => refused
    case None =>
      var file := form.file.value;
      Accepted(file.name, file.size, file.mimeType, ValidatedMessage, "/api/separate")
  }

  /** A file the first route accepts is accepted by the production route too, when saving works. */
  lemma MvpAcceptanceCarriesOver(form: Form)
    requires PostMvp(form).Accepted?
    ensures Post(form, false).Accepted?
    ensures Post(form, false).size == PostMvp(form).size
  {
  }

  /** Between 10 MB and 25 MB the two routes disagree: only the production one accepts. */
  lemma RoutesDisagreeBetweenLimits(file: FileInfo)
    requires IsValidType(file, MvpLimits.acceptedTypes, MvpLimits.acceptedExtensions)
    requires 10 * Mib < file.size <= 25 * Mib
    ensures PostMvp(Form(Some(file))) == FileTooLarge(TooLargeMessage(10 * Mib), 10 * Mib, file.size)
    ensures Post(Form(Some(file)), false).Accepted?
  {
  }

  /** The size refusal names the 10 MB limit. */
  lemma MvpTooLargeMessage()
    ensures TooLargeMessage(MvpLimits.maxSize) == "File too large. Maximum size is 10MB"
  {
    assert MvpLimits.maxSize / Mib == 10;
    assert IntToString(10) == "10";
  }
}
