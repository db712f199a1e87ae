/** The dialog that sets or removes the custom logo printed on the generated documents: an
    image of at most 5 MB is chosen, uploaded, or the current custom logo is removed. */
module LogoUpload {
  import opened Common
  import opened RosterPreview

  /** 5 MB, the largest logo the dialog takes. */
  const MaxLogoBytes: nat := 5 * 1024 * 1024

  const TooLargeError: string := "File size must be less than 5MB"
  const NoFileError: string := "Please select a file to upload"
  const UploadFailedError: string := "Failed to upload logo"
  const DeleteFailedError: string := "Failed to delete logo"

  /** A file the size check lets through. */
  predicate SizeAllowed(f: File) {
    f.size <= MaxLogoBytes
  }

  lemma SizeLimit()
    ensures MaxLogoBytes == 5242880
    ensures SizeAllowed(File("logo.png", 5242880)) && !SizeAllowed(File("logo.png", 5242881))
  {
  }

  /** The upload button is enabled: a file is chosen and nothing is in flight. */
  predicate UploadEnabled(selectedFile: Option<File>, uploading: bool, deleting: bool) {
    selectedFile.Some? && !uploading && !deleting
  }

  /** The remove button is shown only while a custom logo is in place. */
  predicate DeleteShown(currentLogo: Option<CustomLogo>) {
    currentLogo.Some? && currentLogo.value.uploaded
  }

  /** A session without a custom logo offers no remove button. */
  lemma DefaultLogoNotRemovable()
    ensures !DeleteShown(None) && !DeleteShown(Some(NoLogo))
  {
  }

  /** What an upload sends. */
  datatype LogoRequest = LogoRequest(sessionId: string, file: File)

  class LogoUploadModal {
    const sessionId: string
    var selectedFile: Option<File>
    var uploading: bool
    var deleting: bool
    var error: Option<string>

    /** A chosen file is within the size limit, and nothing is in flight between events. */
    predicate Valid()
      reads this
    {
      (selectedFile.Some? ==> SizeAllowed(selectedFile.value)) && !uploading && !deleting
    }

    constructor (sessionId: string)
      ensures this.sessionId == sessionId
      ensures selectedFile == None && error == None && Valid()
    {
      this.sessionId := sessionId;
      selectedFile := None;
      uploading := false;
      deleting := false;
      error := None;
    }

    /** The drop zone's handler: a file above the limit is refused with a message and the
        earlier choice is kept; otherwise it is chosen and the message cleared. */
    method OnDrop(accepted: seq<File>)
      requires Valid()
      modifies this`selectedFile, this`error
      ensures Valid()
      ensures |accepted| > 0 && !SizeAllowed(accepted[0]) ==>
        selectedFile == old(selectedFile) && error == Some(TooLargeError)
      ensures |accepted| > 0 && SizeAllowed(accepted[0]) ==>
        selectedFile == Some(accepted[0]) && error == None
      ensures |accepted| == 0 ==> selectedFile == old(selectedFile) && error == old(error)
    {
      if |accepted| > 0 {
        var file := accepted[0];
        if file.size > MaxLogoBytes {
          error := Some(TooLargeError);
          return;
        }
        selectedFile := Some(file);
        error := None;
      }
    }

    /** `handleUpload`: without a file the message is shown and nothing is sent; otherwise
        (exactly when the upload button is enabled) the file is uploaded, and a success
        clears the choice while a failure keeps it and shows the service's message. */
    method HandleUpload(outcome: Result<()>) returns (request: Option<LogoRequest>)
      requires Valid()
      modifies this`selectedFile, this`uploading, this`error
      ensures Valid()
      ensures request.Some? <==> UploadEnabled(old(selectedFile), old(uploading), old(deleting))
      ensures request.None? ==> error == Some(NoFileError) && selectedFile == None
      ensures request.Some? ==> request.value == LogoRequest(sessionId, old(selectedFile).value)
      ensures request.Some? && outcome.Ok? ==> selectedFile == None && error == None
      ensures request.Some? && outcome.Err? ==>
        selectedFile == old(selectedFile) && error == Some(ErrorText(outcome.error, UploadFailedError))
    {
      if selectedFile.None? {
        error := Some(NoFileError);
        return None;
      }
      uploading := true;
      error := None;
      request := Some(LogoRequest(sessionId, selectedFile.value));
      match outcome {
        case Ok(_) =>
          selectedFile := None;
        case Err(e) =>
          error := Some(ErrorText(e, UploadFailedError));
      }
      uploading := false;
    }

    /** `handleDelete`: the removal is always sent; the chosen file is untouched. */
    method HandleDelete(outcome: Result<()>) returns (request: string)
      requires Valid()
      modifies this`deleting, this`error
      ensures Valid()
      ensures request == sessionId
      ensures outcome.Ok? ==> error == None
      ensures outcome.Err? ==> error == Some(ErrorText(outcome.error, DeleteFailedError))
    {
      deleting := true;
      error := None;
      request := sessionId;
      if outcome.Err? {
        error := Some(ErrorText(outcome.error, DeleteFailedError));
      }
      deleting := false;
    }

    /** `handleClose`: the choice and the message are cleared. */
    method HandleClose()
      requires Valid()
      modifies this`selectedFile, this`error
      ensures Valid()
      ensures selectedFile == None && error == None
    {
      selectedFile := None;
      error := None;
    }
  }
}
