/** The four-step workflow that owns the session: upload a roster, review it, enter the
    senior raters, download the generated document. The kind of MEL (initial or final)
    alone chooses the upload and generation endpoints and names the downloaded file. */
module Workflow {
  import opened Common
  import opened Roster
  import opened PascodeForm

  datatype MelKind = Initial | Final

  /** The kind as the client spells it. */
  function KindName(k: MelKind): (s: string)
    ensures |s| >= 1
  {
    match k
    case Initial => "initial"
    case Final => "final"
  }

  /** The remote operations the workflow calls. */
  datatype Endpoint = UploadInitialMel | UploadFinalMel | SubmitInitialPascodes | SubmitFinalPascodes

  function Path(e: Endpoint): string {
    match e
    case UploadInitialMel => "/api/upload/initial-mel"
    case UploadFinalMel => "/api/upload/final-mel"
    case SubmitInitialPascodes => "/api/initial-mel/submit/pascode-info"
    case SubmitFinalPascodes => "/api/final-mel/submit/pascode-info"
  }

  /** The upload endpoint of a kind. */
  function UploadEndpoint(k: MelKind): (e: Endpoint)
    ensures e == UploadInitialMel || e == UploadFinalMel
  {
    if k == Initial then UploadInitialMel else UploadFinalMel
  }

  /** The generation endpoint of a kind. */
  function SubmitEndpoint(k: MelKind): (e: Endpoint)
    ensures e == SubmitInitialPascodes || e == SubmitFinalPascodes
  {
    if k == Initial then SubmitInitialPascodes else SubmitFinalPascodes
  }

  /** Each kind talks to its own endpoints. */
  lemma EndpointsFollowKind(k1: MelKind, k2: MelKind)
    ensures UploadEndpoint(k1) == UploadEndpoint(k2) <==> k1 == k2
    ensures SubmitEndpoint(k1) == SubmitEndpoint(k2) <==> k1 == k2
    ensures UploadEndpoint(k1) != SubmitEndpoint(k2)
  {
  }

  // ---------------------------------------------------------------- the download name

  const MelInfix: string := "_mel_"
  const PdfSuffix: string := ".pdf"

  /** `${melType}_mel_${session_id}.pdf` */
  function DownloadFilename(k: MelKind, sessionId: string): (name: string)
    ensures |name| == |KindName(k)| + 5 + |sessionId| + 4
  {
    KindName(k) + MelInfix + sessionId + PdfSuffix
  }

  /** Reads a download name back: the kind and the session id it names. */
  function ParseFilename(name: string): Option<(MelKind, string)> {
    var asInitial := ParseFilenameAs(name, Initial);
    if asInitial.Some? then asInitial else ParseFilenameAs(name, Final)
  }

  function ParseFilenameAs(name: string, k: MelKind): Option<(MelKind, string)> {
    var prefix := KindName(k) + MelInfix;
    if |prefix| + |PdfSuffix| <= |name| && name[..|prefix|] == prefix && name[|name| - |PdfSuffix|..] == PdfSuffix
    then Some((k, name[|prefix|..|name| - |PdfSuffix|]))
    else None
  }

  /** Reading a download name back gives the kind and the session id it was made from. */
  lemma FilenameRoundTrip(k: MelKind, sessionId: string)
    ensures ParseFilename(DownloadFilename(k, sessionId)) == Some((k, sessionId))
  {
    var name := DownloadFilename(k, sessionId);
    var prefix := KindName(k) + MelInfix;
    assert name == prefix + sessionId + PdfSuffix;
    assert name[..|prefix|] == prefix;
    assert name[|name| - |PdfSuffix|..] == PdfSuffix;
    assert name[|prefix|..|name| - |PdfSuffix|] == sessionId;
    if k == Final {
      assert name[0] == 'f';
      assert ParseFilenameAs(name, Initial) == None by {
        assert (KindName(Initial) + MelInfix)[0] == 'i';
      }
    }
  }

  /** Two downloads get the same name only for the same kind and the same session. */
  lemma FilenameInjective(k1: MelKind, s1: string, k2: MelKind, s2: string)
    requires DownloadFilename(k1, s1) == DownloadFilename(k2, s2)
    ensures k1 == k2 && s1 == s2
  {
    FilenameRoundTrip(k1, s1);
    FilenameRoundTrip(k2, s2);
  }

  // ---------------------------------------------------------------- the controller

  /** The generated document, as the generation endpoint returns it. */
  datatype Pdf = Pdf(bytes: seq<bv8>)

  datatype UploadRequest = UploadRequest(endpoint: Endpoint, file: File, cycle: string, year: int)

  datatype SubmitRequest = SubmitRequest(endpoint: Endpoint, sessionId: string, pascodeInfo: map<string, SeniorRater>)

  /** The steps: 0 upload, 1 review, 2 senior raters, 3 download. */
  const StepCount: nat := 4

  class MelWorkflow {
    var activeStep: nat
    var sessionData: Option<Session>
    var pdfBlob: Option<Pdf>
    var melType: MelKind

    /** The upload step holds nothing; every later step holds a session; a document exists
        exactly on the download step. */
    predicate Valid()
      reads this
    {
      && activeStep < StepCount
      && (activeStep == 0 ==> sessionData.None? && pdfBlob.None?)
      && (activeStep >= 1 ==> sessionData.Some?)
      && (pdfBlob.Some? <==> activeStep == 3)
    }

    constructor ()
      ensures Valid()
      ensures activeStep == 0 && sessionData == None && pdfBlob == None && melType == Initial
    {
      activeStep := 0;
      sessionData := None;
      pdfBlob := None;
      melType := Initial;
    }

    /** `handleFileUpload`, run on the upload step: the kind's upload endpoint is called;
        its response, extended with the cycle and year, becomes the session and the review
        step opens; a failure is passed back to the form and nothing changes. */
    method HandleFileUpload(file: File, cycle: string, year: int, response: Result<UploadResponse>)
      returns (request: UploadRequest, failure: Option<ServiceError>)
      requires Valid() && activeStep == 0
      modifies this`activeStep, this`sessionData
      ensures Valid()
      ensures request == UploadRequest(UploadEndpoint(melType), file, cycle, year)
      ensures response.Ok? ==>
        && sessionData == Some(Session(response.value, cycle, year))
        && activeStep == 1 && failure == None
      ensures response.Err? ==>
        && sessionData == old(sessionData) && activeStep == old(activeStep)
        && failure == Some(response.error)
    {
      request := UploadRequest(UploadEndpoint(melType), file, cycle, year);
      match response {
        case Ok(data) =>
          sessionData := Some(Session(data, cycle, year));
          activeStep := 1;
          failure := None;
        case Err(e) =>
          failure := Some(e);
      }
    }

    /** Continue from the review step: the senior-rater step opens. */
    method HandleContinueToSeniorRater()
      requires Valid() && activeStep == 1
      modifies this`activeStep
      ensures Valid()
      ensures activeStep == 2
    {
      activeStep := 2;
    }

    /** `handlePascodeSubmit`, run on the senior-rater step: the kind's generation endpoint
        is called; the document it returns is kept and the download step opens; a failure
        is passed back to the form and nothing changes. */
    method HandlePascodeSubmit(sessionId: string, pascodeInfo: map<string, SeniorRater>, response: Result<Pdf>)
      returns (request: SubmitRequest, failure: Option<ServiceError>)
      requires Valid() && activeStep == 2
      modifies this`activeStep, this`pdfBlob
      ensures Valid()
      ensures request == SubmitRequest(SubmitEndpoint(melType), sessionId, pascodeInfo)
      ensures response.Ok? ==> pdfBlob == Some(response.value) && activeStep == 3 && failure == None
      ensures response.Err? ==>
        && pdfBlob == old(pdfBlob) && activeStep == old(activeStep)
        && failure == Some(response.error)
    {
      request := SubmitRequest(SubmitEndpoint(melType), sessionId, pascodeInfo);
      match response {
        case Ok(blob) =>
          pdfBlob := Some(blob);
          activeStep := 3;
          failure := None;
        case Err(e) =>
          failure := Some(e);
      }
    }

    /** `handleDownload`: with a document, the name it is saved under; without one, nothing. */
    method HandleDownload() returns (download: Option<(Pdf, string)>)
      requires Valid()
      ensures download.Some? <==> pdfBlob.Some?
      ensures download.Some? ==>
        download.value == (pdfBlob.value, DownloadFilename(melType, sessionData.value.response.sessionId))
    {
      if pdfBlob.Some? {
        download := Some((pdfBlob.value, DownloadFilename(melType, sessionData.value.response.sessionId)));
      } else {
        download := None;
      }
    }

    /** `handleReset`: back to the upload step with no session and no document; the kind stays. */
    method HandleReset()
      modifies this`activeStep, this`sessionData, this`pdfBlob
      ensures Valid()
      ensures activeStep == 0 && sessionData == None && pdfBlob == None
    {
      activeStep := 0;
      sessionData := None;
      pdfBlob := None;
    }

    /** Switching the kind discards the whole session. */
    method HandleMelTypeChange(k: MelKind)
      modifies this`melType, this`activeStep, this`sessionData, this`pdfBlob
      ensures Valid()
      ensures melType == k && activeStep == 0 && sessionData == None && pdfBlob == None
    {
      melType := k;
      HandleReset();
    }
  }

  /** The records of a senior-rater form in which every PASCODE has been given `rater`. */
  function FilledRecords(pascodes: seq<string>, rater: SeniorRater): (info: map<string, SeniorRater>)
    ensures info.Keys == set p | p in pascodes
    ensures forall p :: p in info ==> info[p] == rater
  {
    map p | p in pascodes :: rater
  }

  /** The user types `rater` into the four fields of each PASCODE's tab, one tab after
      another, through the form's change handler. */
  method FillPascodes(form: PascodeFormState, pascodes: seq<string>, rater: SeniorRater)
    requires form.pascodeInfo.Keys == set p | p in pascodes
    modifies form`pascodeInfo
    ensures form.pascodeInfo == FilledRecords(pascodes, rater)
  {
    var i := 0;
    while i < |pascodes|
      invariant 0 <= i <= |pascodes|
      invariant form.pascodeInfo.Keys == set p | p in pascodes
      invariant forall p :: p in pascodes[..i] ==> form.pascodeInfo[p] == rater
    {
      var p := pascodes[i];
      form.HandlePascodeChange(p, Srid, rater.srid);
      form.HandlePascodeChange(p, Name, rater.name);
      form.HandlePascodeChange(p, Rank, rater.rank);
      form.HandlePascodeChange(p, Title, rater.title);
      assert form.pascodeInfo[p] == rater;
      assert pascodes[..i + 1] == pascodes[..i] + [p];
      i := i + 1;
    }
    assert pascodes[..i] == pascodes;
  }

  /** One pass through the workflow for a kind: the upload succeeds, the review is
      confirmed, every PASCODE's senior rater (and the small-unit rater when the roster
      needs one) is filled in, which opens the submit button, and the document is generated
      and downloaded. Both calls go to the kind's endpoints, the generation call carries the
      session's id and the payload of the filled records, and the download is named after
      the kind and the session. */
  method CompletedRun(k: MelKind, file: File, cycle: string, year: int, response: UploadResponse,
                      rater: SeniorRater, smallUnit: SeniorRater, pdf: Pdf)
    returns (upload: UploadRequest, submit: SubmitRequest, download: Option<(Pdf, string)>)
    requires Complete(rater) && Complete(smallUnit)
    ensures upload == UploadRequest(UploadEndpoint(k), file, cycle, year)
    ensures submit.endpoint == SubmitEndpoint(k) && submit.sessionId == response.sessionId
    ensures
      var info := FilledRecords(response.pascodes.GetOr([]), rater);
      var su := if response.seniorRaterNeeded then smallUnit else Blank;
      && SubmitEnabled(false, info, su, response.seniorRaterNeeded)
      && submit.pascodeInfo == SubmitPayload(info, su, response.seniorRaterNeeded)
    ensures download == Some((pdf, DownloadFilename(k, response.sessionId)))
  {
    var w := new MelWorkflow();
    w.HandleMelTypeChange(k);
    var failure;
    upload, failure := w.HandleFileUpload(file, cycle, year, Ok(response));
    w.HandleContinueToSeniorRater();
    var form := new PascodeFormState(w.sessionData.value);
    form.Seed();
    var pascodes := response.pascodes.GetOr([]);
    assert form.pascodeInfo.Keys == set p | p in pascodes;
    FillPascodes(form, pascodes, rater);
    if response.seniorRaterNeeded {
      form.HandleSmallUnitChange(Srid, smallUnit.srid);
      form.HandleSmallUnitChange(Name, smallUnit.name);
      form.HandleSmallUnitChange(Rank, smallUnit.rank);
      form.HandleSmallUnitChange(Title, smallUnit.title);
      assert form.smallUnitSR == smallUnit;
    }
    assert form.IsValid();
    var sessionId, payload := form.HandleSubmit(Ok(()));
    submit, failure := w.HandlePascodeSubmit(sessionId, payload, Ok(pdf));
    download := w.HandleDownload();
  }
}
