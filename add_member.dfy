/** The dialog that adds a member to the roster by hand: a form seeded from the promotion
    cycle, a category chosen among the four editable buckets, a mandatory reason, and a
    save that validates before it calls the service and resets the form once it succeeds. */
module AddMember {
  import opened Common
  import opened Roster
  import FileUpload

  /** The buckets a member can be added to; the small-unit bucket is not offered. */
  const AddCategories: seq<Category> := [Eligible, Ineligible, Discrepancy, Btz]

  /** The grades the grade selector offers. */
  const Grades: seq<string> := ["AB", "AMN", "A1C", "SRA", "SSG", "TSG", "MSG", "SMS", "CMS"]

  /** The text fields that must be non-empty before the dialog calls the service. */
  const RequiredFields: seq<string> := ["FULL_NAME", "DOR", "TAFMSD", "PAFSC", "ASSIGNED_PAS", "ASSIGNED_PAS_CLEARTEXT"]

  /** The text fields of a fresh form. */
  const FormFields: set<string> := {
    "FULL_NAME", "GRADE", "SSAN", "DOR", "TAFMSD", "DATE_ARRIVED_STATION", "PAFSC", "DAFSC",
    "ASSIGNED_PAS", "ASSIGNED_PAS_CLEARTEXT", "REENL_ELIG_STATUS" }

  const MissingFieldsError: string := "Please fill in all required fields"
  const MissingReasonError: string := "Please provide a reason for adding this member"
  const AddFailedError: string := "Failed to add member"

  lemma SmallUnitNotOffered()
    ensures SmallUnit !in AddCategories
    ensures forall c :: c in AddCategories <==> c != SmallUnit
  {
  }

  /** A fresh form: every text field blank except the grade, which is the cycle being
      reviewed (SSG when there is none), and the reenlistment code, which is 1A; UIF_CODE 0. */
  function DefaultForm(cycle: string): (f: MemberData)
    ensures f.fields.Keys == FormFields
    ensures f.fields["GRADE"] == OrElse(cycle, "SSG") && f.fields["REENL_ELIG_STATUS"] == "1A"
    ensures forall k :: k in f.fields && k != "GRADE" && k != "REENL_ELIG_STATUS" ==> f.fields[k] == ""
    ensures f.uifCode == Code(0)
  {
    MemberData(
      map[
        "FULL_NAME" := "", "GRADE" := OrElse(cycle, "SSG"), "SSAN" := "", "DOR" := "",
        "TAFMSD" := "", "DATE_ARRIVED_STATION" := "", "PAFSC" := "", "DAFSC" := "",
        "ASSIGNED_PAS" := "", "ASSIGNED_PAS_CLEARTEXT" := "", "REENL_ELIG_STATUS" := "1A"],
      Code(0))
  }

  /** The grade a fresh form starts with is one the grade selector offers, as long as the
      cycle is one the upload form offers (or none was chosen): every promotion cycle is a
      grade. */
  lemma DefaultGradeOffered(cycle: string)
    requires cycle == "" || cycle in FileUpload.PromotionCycles
    ensures DefaultForm(cycle).fields["GRADE"] in Grades
  {
  }

  predicate HasRequiredFields(form: MemberData) {
    forall k :: k in RequiredFields ==> FieldOr(form.fields, k, "") != ""
  }

  /** The message the save button's checks produce, in the order they are made: missing
      required fields first, then a missing reason; None when the service is called. */
  function ValidationError(form: MemberData, reason: string): (e: Option<string>)
    ensures e == None <==> HasRequiredFields(form) && reason != ""
    ensures e == Some(MissingFieldsError) <==> !HasRequiredFields(form)
    ensures e == Some(MissingReasonError) <==> HasRequiredFields(form) && reason == ""
  {
    if !HasRequiredFields(form) then Some(MissingFieldsError)
    else if reason == "" then Some(MissingReasonError)
    else None
  }

  /** A fresh form cannot be saved: its name is blank. */
  lemma DefaultFormRejected(cycle: string, reason: string)
    ensures ValidationError(DefaultForm(cycle), reason) == Some(MissingFieldsError)
  {
    assert FieldOr(DefaultForm(cycle).fields, RequiredFields[0], "") == "";
  }

  /** Fields ks[i] := vs[i], in order, as successive calls of the change handler leave them. */
  function Fill(form: MemberData, ks: seq<string>, vs: seq<string>): MemberData
    requires |ks| == |vs|
    decreases |ks|
  {
    if ks == [] then form else Fill(WithField(form, ks[0], vs[0]), ks[1..], vs[1..])
  }

  lemma {:induction false} FillSets(form: MemberData, ks: seq<string>, vs: seq<string>)
    requires |ks| == |vs|
    ensures forall k :: k in Fill(form, ks, vs).fields <==> k in form.fields || k in ks
    ensures forall k :: k in form.fields && k !in ks ==> Fill(form, ks, vs).fields[k] == form.fields[k]
    ensures (forall i :: 0 <= i < |vs| ==> vs[i] != "") ==>
      forall k :: k in ks ==> Fill(form, ks, vs).fields[k] != ""
    decreases |ks|
  {
    if ks != [] {
      var next := WithField(form, ks[0], vs[0]);
      FillSets(next, ks[1..], vs[1..]);
      if forall i :: 0 <= i < |vs| ==> vs[i] != "" {
        assert forall i :: 0 <= i < |vs[1..]| ==> vs[1..][i] == vs[i + 1];
        forall k | k in ks ensures Fill(form, ks, vs).fields[k] != "" {
          if k !in ks[1..] {
            assert k == ks[0] && next.fields[k] == vs[0];
          }
        }
      }
    }
  }

  /** Exactly the required fields gate the save: filling those six fields of a fresh form
      with anything non-empty, and giving a reason, lets the call through; the SSN, the
      duty AFSC and the arrival date may stay blank. */
  lemma FilledDefaultAccepted(cycle: string, values: seq<string>, reason: string)
    requires |values| == |RequiredFields|
    requires forall i :: 0 <= i < |values| ==> values[i] != ""
    requires reason != ""
    ensures ValidationError(Fill(DefaultForm(cycle), RequiredFields, values), reason) == None
  {
    FillSets(DefaultForm(cycle), RequiredFields, values);
  }

  /** What a successful validation sends to the add endpoint. */
  datatype AddRequest = AddRequest(
    sessionId: string,
    category: Category,
    data: MemberData,
    reason: string,
    runEligibilityCheck: bool)

  class AddMemberModal {
    const sessionId: string
    const cycle: string
    var formData: MemberData
    var category: Category
    var reason: string
    var runEligibilityCheck: bool
    var saving: bool
    var error: Option<string>

    /** The category is one of the four offered, and no save is in flight between events. */
    predicate Valid()
      reads this
    {
      category in AddCategories && !saving
    }

    /** The state a fresh dialog and a reset leave. */
    predicate Pristine()
      reads this
    {
      && formData == DefaultForm(cycle)
      && category == Eligible && reason == "" && !runEligibilityCheck && error == None
    }

    constructor (sessionId: string, cycle: string)
      ensures this.sessionId == sessionId && this.cycle == cycle
      ensures Pristine() && Valid()
    {
      this.sessionId := sessionId;
      this.cycle := cycle;
      formData := DefaultForm(cycle);
      category := Eligible;
      reason := "";
      runEligibilityCheck := false;
      saving := false;
      error := None;
    }

    method HandleChange(field: string, value: string)
      modifies this`formData
      ensures formData == WithField(old(formData), field, value)
    {
      formData := WithField(formData, field, value);
    }

    method SetCategory(c: Category)
      requires c in AddCategories
      modifies this`category
      ensures category == c
    {
      category := c;
    }

    method SetReason(r: string)
      modifies this`reason
      ensures reason == r
    {
      reason := r;
    }

    method SetRunEligibilityCheck(b: bool)
      modifies this`runEligibilityCheck
      ensures runEligibilityCheck == b
    {
      runEligibilityCheck := b;
    }

    method HandleReset()
      modifies this`formData, this`category, this`reason, this`runEligibilityCheck, this`error
      ensures Pristine()
    {
      formData := DefaultForm(cycle);
      category := Eligible;
      reason := "";
      runEligibilityCheck := false;
      error := None;
    }

    /** `handleSave`: a failed check shows its message and sends nothing; otherwise the
        request is sent with the form as it stands, and the outcome of the call either
        resets the dialog or shows the service's message over the kept form. */
    method HandleSave(outcome: Result<()>) returns (request: Option<AddRequest>)
      requires Valid()
      modifies this`formData, this`category, this`reason, this`runEligibilityCheck, this`saving, this`error
      ensures Valid()
      ensures request.Some? <==> ValidationError(old(formData), old(reason)) == None
      ensures request.None? ==>
        && error == ValidationError(old(formData), old(reason))
        && formData == old(formData) && category == old(category)
        && reason == old(reason) && runEligibilityCheck == old(runEligibilityCheck)
      ensures request.Some? ==>
        request.value == AddRequest(sessionId, old(category), old(formData), old(reason), old(runEligibilityCheck))
      ensures request.Some? && outcome.Ok? ==> Pristine()
      ensures request.Some? && outcome.Err? ==>
        && error == Some(ErrorText(outcome.error, AddFailedError))
        && formData == old(formData) && category == old(category)
        && reason == old(reason) && runEligibilityCheck == old(runEligibilityCheck)
    {
      if !HasRequiredFields(formData) {
        error := Some(MissingFieldsError);
        return None;
      }
      if reason == "" {
        error := Some(MissingReasonError);
        return None;
      }
      saving := true;
      error := None;
      request := Some(AddRequest(sessionId, category, formData, reason, runEligibilityCheck));
      match outcome {
        case Ok(_) =>
          HandleReset();
        case Err(e) =>
          error := Some(ErrorText(e, AddFailedError));
      }
      saving := false;
    }

    /** `handleClose`: the dialog is reset before the parent closes it. */
    method HandleClose()
      requires Valid()
      modifies this`formData, this`category, this`reason, this`runEligibilityCheck, this`error
      ensures Pristine() && Valid()
    {
      HandleReset();
    }
  }
}
