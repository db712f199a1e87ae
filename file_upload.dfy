/** The first step of the workflow: a roster file from the drop zone, the promotion cycle
    and the promotion year, checked in that order before the parent's upload handler runs. */
module FileUpload {
  import opened Common
  import opened Text

  /** The cycles the cycle selector offers. */
  const PromotionCycles: seq<string> := ["A1C", "SRA", "SSG", "TSG", "MSG", "SMS", "CMS"]

  const MinYear: int := 2000
  const MaxYear: int := 2100

  const NoFileError: string := "Please select a file to upload"
  const NoCycleError: string := "Please select a promotion cycle"
  const BadYearError: string := "Please enter a valid year"
  const UploadFailedError: string := "Upload failed"

  /** A year the form accepts: a number (not NaN, not 0) from 2000 to 2100 inclusive. */
  predicate ValidYear(year: Option<int>) {
    year.Some? && year.value != 0 && MinYear <= year.value <= MaxYear
  }

  /** The checks of `handleSubmit`, in their order: the file, then the cycle, then the
      year; None lets the upload through. */
  function CheckUpload(file: Option<File>, cycle: string, year: Option<int>): (e: Option<string>)
    ensures e.None? <==> file.Some? && cycle != "" && ValidYear(year)
    ensures file.None? ==> e == Some(NoFileError)
    ensures file.Some? && cycle == "" ==> e == Some(NoCycleError)
    ensures file.Some? && cycle != "" && !ValidYear(year) ==> e == Some(BadYearError)
  {
    if file.None? then Some(NoFileError)
    else if cycle == "" then Some(NoCycleError)
    else if !ValidYear(year) then Some(BadYearError)
    else None
  }

  /** The year bounds are inclusive and nothing outside them passes. */
  lemma YearBounds(y: int)
    ensures ValidYear(Some(y)) <==> 2000 <= y <= 2100
    ensures !ValidYear(None)
  {
  }

  /** Every cycle the selector offers passes the cycle check. */
  lemma OfferedCyclesPass(file: File, cycle: string, year: Option<int>)
    requires cycle in PromotionCycles
    ensures CheckUpload(Some(file), cycle, year) != Some(NoCycleError)
    ensures CheckUpload(Some(file), cycle, year).None? <==> ValidYear(year)
  {
  }

  /** The submit button is enabled: a file and a cycle are chosen and no upload runs. */
  predicate SubmitEnabled(uploading: bool, file: Option<File>, cycle: string) {
    !uploading && file.Some? && cycle != ""
  }

  /** Through the enabled button only the year can still be refused. */
  lemma EnabledLeavesOnlyYear(file: Option<File>, cycle: string, year: Option<int>)
    requires SubmitEnabled(false, file, cycle)
    ensures CheckUpload(file, cycle, year).None? <==> ValidYear(year)
    ensures CheckUpload(file, cycle, year).Some? ==> CheckUpload(file, cycle, year) == Some(BadYearError)
  {
  }

  /** A year typed as its digits is accepted exactly when it lies in the bounds (for the
      integers a JavaScript number holds exactly). */
  lemma TypedYearChecked(y: int)
    requires SafeInteger(y)
    ensures ValidYear(ParseInt(IntToString(y))) <==> 2000 <= y <= 2100
  {
    ParseIntRoundTrip(y, "");
    assert IntToString(y) + "" == IntToString(y);
  }

  /** What the form hands to the parent's upload handler. */
  datatype UploadCall = UploadCall(file: File, cycle: string, year: int)

  class FileUploadForm {
    var selectedFile: Option<File>
    var cycle: string
    var year: Option<int>
    var uploading: bool
    var error: Option<string>

    /** A fresh form: no file, no cycle, and this year (the clock is the parameter). */
    constructor (currentYear: int)
      ensures selectedFile == None && cycle == "" && year == Some(currentYear)
      ensures !uploading && error == None
    {
      selectedFile := None;
      cycle := "";
      year := Some(currentYear);
      uploading := false;
      error := None;
    }

    /** The drop zone's handler: the first accepted file is chosen and the message cleared;
        an empty drop changes nothing. */
    method OnDrop(accepted: seq<File>)
      modifies this`selectedFile, this`error
      ensures |accepted| > 0 ==> selectedFile == Some(accepted[0]) && error == None
      ensures |accepted| == 0 ==> selectedFile == old(selectedFile) && error == old(error)
    {
      if |accepted| > 0 {
        selectedFile := Some(accepted[0]);
        error := None;
      }
    }

    method SetCycle(c: string)
      modifies this`cycle
      ensures cycle == c
    {
      cycle := c;
    }

    method SetYear(raw: string)
      modifies this`year
      ensures year == ParseInt(raw)
    {
      year := ParseInt(raw);
    }

    /** `handleSubmit`: a failed check shows its message and calls nothing; otherwise the
        parent's handler is called with the file, the cycle and the year, and its failure
        is shown. */
    method HandleSubmit(outcome: Result<()>) returns (call: Option<UploadCall>)
      requires !uploading
      modifies this`uploading, this`error
      ensures !uploading
      ensures call.Some? <==> CheckUpload(selectedFile, cycle, year).None?
      ensures call.None? ==> error == CheckUpload(selectedFile, cycle, year)
      ensures call.Some? ==> call.value == UploadCall(selectedFile.value, cycle, year.value)
      ensures call.Some? && outcome.Ok? ==> error == None
      ensures call.Some? && outcome.Err? ==> error == Some(ErrorText(outcome.error, UploadFailedError))
    {
      if selectedFile.None? {
        error := Some(NoFileError);
        return None;
      }
      if cycle == "" {
        error := Some(NoCycleError);
        return None;
      }
      if !ValidYear(year) {
        error := Some(BadYearError);
        return None;
      }
      uploading := true;
      error := None;
      call := Some(UploadCall(selectedFile.value, cycle, year.value));
      if outcome.Err? {
        error := Some(ErrorText(outcome.error, UploadFailedError));
      }
      uploading := false;
    }
  }
}
