/** The dialog that edits one member: its form is seeded from the member through a
    field-resolution table (each form field lists the member fields it may be read from, in
    order, and a default), the UIF code is read from a number input, and a save sends the
    form as it stands. */
module EditMember {
  import opened Common
  import opened Text
  import opened Roster

  /** Where one form field is read from: the first of `aliases` that the member has filled
      in, else `default`. */
  datatype FieldRule = FieldRule(aliases: seq<string>, default: string)

  /** The resolution table, keyed by the form field it fills. */
  const EditRules: map<string, FieldRule> := map[
    "FULL_NAME" := FieldRule(["FULL_NAME"], ""),
    "GRADE" := FieldRule(["GRADE"], "SSG"),
    "DOR" := FieldRule(["DOR"], ""),
    "TAFMSD" := FieldRule(["TAFMSD"], ""),
    "DATE_ARRIVED_STATION" := FieldRule(["DATE_ARRIVED_STATION"], ""),
    "PAFSC" := FieldRule(["PAFSC"], ""),
    "DAFSC" := FieldRule(["DAFSC"], ""),
    "ASSIGNED_PAS" := FieldRule(["ASSIGNED_PAS"], ""),
    "ASSIGNED_PAS_CLEARTEXT" := FieldRule(["ASSIGNED_PAS_CLEARTEXT"], ""),
    "REENL_ELIG_STATUS" := FieldRule(["REENL_ELIG_STATUS", "REENLISTMENT_ELIGIBILITY_STATUS"], ""),
    "GRADE_PERM_PROJ" := FieldRule(["GRADE_PERM_PROJ", "GRADE_PERMANENT_PROJECTED"], ""),
    "UIF_DISPOSITION_DATE" := FieldRule(["UIF_DISPOSITION_DATE"], ""),
    "2AFSC" := FieldRule(["2AFSC"], ""),
    "3AFSC" := FieldRule(["3AFSC"], ""),
    "4AFSC" := FieldRule(["4AFSC"], "")
  ]

  const EditFailedError: string := "Failed to update member"

  /** The member has field k, and it is not the empty string. */
  predicate Filled(fields: map<string, string>, k: string) {
    k in fields && fields[k] != ""
  }

  /** `m[a0] || m[a1] || … || default`. */
  function Resolve(fields: map<string, string>, aliases: seq<string>, default: string): string
    decreases |aliases|
  {
    if aliases == [] then default
    else FieldOr(fields, aliases[0], Resolve(fields, aliases[1..], default))
  }

  /** The resolution reads the first alias that is filled in, and falls back on the default
      only when none is. */
  lemma {:induction false} ResolveFirstFilled(fields: map<string, string>, aliases: seq<string>, default: string)
    ensures (forall j :: 0 <= j < |aliases| ==> !Filled(fields, aliases[j])) ==>
      Resolve(fields, aliases, default) == default
    ensures forall i ::
      (0 <= i < |aliases| && Filled(fields, aliases[i]) && forall j :: 0 <= j < i ==> !Filled(fields, aliases[j])) ==>
        Resolve(fields, aliases, default) == fields[aliases[i]]
    decreases |aliases|
  {
    if aliases != [] {
      ResolveFirstFilled(fields, aliases[1..], default);
      forall i | 0 < i < |aliases| && Filled(fields, aliases[i]) &&
        (forall j :: 0 <= j < i ==> !Filled(fields, aliases[j]))
        ensures Resolve(fields, aliases, default) == fields[aliases[i]]
      {
        assert aliases[1..][i - 1] == aliases[i];
        assert forall j :: 0 <= j < i - 1 ==> aliases[1..][j] == aliases[j + 1];
      }
    }
  }

  /** The form the dialog shows for a member: every field of the table resolved, and the
      member's UIF code, 0 only when it has none (a `null` code is kept). The SSN is not
      among the fields. */
  function EditFormFor(m: Member): (f: MemberData)
    ensures f.fields.Keys == EditRules.Keys && "SSAN" !in f.fields
    ensures m.uifCode.Undefined? ==> f.uifCode == Code(0)
    ensures !m.uifCode.Undefined? ==> f.uifCode == m.uifCode
  {
    MemberData(
      map k | k in EditRules :: Resolve(m.fields, EditRules[k].aliases, EditRules[k].default),
      PresentOrZero(m.uifCode))
  }

  /** The reenlistment code is read from REENL_ELIG_STATUS, or else from the long column
      name REENLISTMENT_ELIGIBILITY_STATUS, or else left blank. */
  lemma ReenlistmentStatusResolved(m: Member)
    ensures Filled(m.fields, "REENL_ELIG_STATUS") ==>
      EditFormFor(m).fields["REENL_ELIG_STATUS"] == m.fields["REENL_ELIG_STATUS"]
    ensures !Filled(m.fields, "REENL_ELIG_STATUS") && Filled(m.fields, "REENLISTMENT_ELIGIBILITY_STATUS") ==>
      EditFormFor(m).fields["REENL_ELIG_STATUS"] == m.fields["REENLISTMENT_ELIGIBILITY_STATUS"]
    ensures !Filled(m.fields, "REENL_ELIG_STATUS") && !Filled(m.fields, "REENLISTMENT_ELIGIBILITY_STATUS") ==>
      EditFormFor(m).fields["REENL_ELIG_STATUS"] == ""
  {
    var aliases := EditRules["REENL_ELIG_STATUS"].aliases;
    assert aliases[0] == "REENL_ELIG_STATUS" && aliases[1] == "REENLISTMENT_ELIGIBILITY_STATUS";
  }

  /** The projected grade is read from GRADE_PERM_PROJ, or else from
      GRADE_PERMANENT_PROJECTED, or else left blank. */
  lemma ProjectedGradeResolved(m: Member)
    ensures Filled(m.fields, "GRADE_PERM_PROJ") ==>
      EditFormFor(m).fields["GRADE_PERM_PROJ"] == m.fields["GRADE_PERM_PROJ"]
    ensures !Filled(m.fields, "GRADE_PERM_PROJ") && Filled(m.fields, "GRADE_PERMANENT_PROJECTED") ==>
      EditFormFor(m).fields["GRADE_PERM_PROJ"] == m.fields["GRADE_PERMANENT_PROJECTED"]
    ensures !Filled(m.fields, "GRADE_PERM_PROJ") && !Filled(m.fields, "GRADE_PERMANENT_PROJECTED") ==>
      EditFormFor(m).fields["GRADE_PERM_PROJ"] == ""
  {
    var aliases := EditRules["GRADE_PERM_PROJ"].aliases;
    assert aliases[0] == "GRADE_PERM_PROJ" && aliases[1] == "GRADE_PERMANENT_PROJECTED";
  }

  /** The grade is the member's, or SSG when it has none; every other field of the table
      but the two aliased ones is the member's own value, or blank. */
  lemma PlainFieldsResolved(m: Member)
    ensures Filled(m.fields, "GRADE") ==> EditFormFor(m).fields["GRADE"] == m.fields["GRADE"]
    ensures !Filled(m.fields, "GRADE") ==> EditFormFor(m).fields["GRADE"] == "SSG"
    ensures forall k :: k in EditRules && k != "GRADE" && k != "REENL_ELIG_STATUS" && k != "GRADE_PERM_PROJ" ==>
      EditFormFor(m).fields[k] == FieldOr(m.fields, k, "")
  {
    assert EditRules["GRADE"].aliases == ["GRADE"];
    forall k | k in EditRules && k != "GRADE" && k != "REENL_ELIG_STATUS" && k != "GRADE_PERM_PROJ"
      ensures EditFormFor(m).fields[k] == FieldOr(m.fields, k, "")
    {
      assert EditRules[k] == FieldRule([k], "");
      assert [k][1..] == [];
    }
  }

  /** Every rule reads its own field first, and its other aliases are not form fields. */
  predicate SelfFirst(rules: map<string, FieldRule>) {
    forall k :: k in rules ==>
      && |rules[k].aliases| >= 1 && rules[k].aliases[0] == k
      && (forall j :: 1 <= j < |rules[k].aliases| ==> rules[k].aliases[j] !in rules)
  }

  lemma EditRulesSelfFirst()
    ensures SelfFirst(EditRules)
  {
    forall k | k in EditRules
      ensures |EditRules[k].aliases| >= 1 && EditRules[k].aliases[0] == k
      ensures forall j :: 1 <= j < |EditRules[k].aliases| ==> EditRules[k].aliases[j] !in EditRules
    {
      if k == "REENL_ELIG_STATUS" {
        assert "REENLISTMENT_ELIGIBILITY_STATUS" !in EditRules;
      } else if k == "GRADE_PERM_PROJ" {
        assert "GRADE_PERMANENT_PROJECTED" !in EditRules;
      } else {
        assert |EditRules[k].aliases| == 1;
      }
    }
  }

  /** Resolving a form against itself: its own field is read first, and the other aliases
      are absent from it. */
  lemma {:induction false} ResolveAgainstForm(form: map<string, string>, k: string, rule: FieldRule)
    requires k in form && |rule.aliases| >= 1 && rule.aliases[0] == k
    requires forall j :: 1 <= j < |rule.aliases| ==> rule.aliases[j] !in form
    requires form[k] == "" ==> rule.default == ""
    ensures Resolve(form, rule.aliases, rule.default) == form[k]
  {
    ResolveFirstFilled(form, rule.aliases, rule.default);
    if form[k] == "" {
      assert forall j :: 0 <= j < |rule.aliases| ==> !Filled(form, rule.aliases[j]);
    } else {
      assert Filled(form, rule.aliases[0]);
    }
  }

  /** Reopening the dialog on the record it shows gives the same form: the resolution is
      idempotent, so a save that stores the form unchanged is shown unchanged. */
  lemma EditFormIdempotent(m: Member, m': Member)
    requires m'.fields == EditFormFor(m).fields && m'.uifCode == EditFormFor(m).uifCode
    ensures EditFormFor(m') == EditFormFor(m)
  {
    var form := EditFormFor(m).fields;
    EditRulesSelfFirst();
    PlainFieldsResolved(m);
    assert forall k :: k in EditRules && k != "GRADE" ==> EditRules[k].default == "";
    forall k | k in EditRules
      ensures EditFormFor(m').fields[k] == form[k]
    {
      var rule := EditRules[k];
      assert form[k] == "" ==> rule.default == "";
      assert forall j :: 1 <= j < |rule.aliases| ==> rule.aliases[j] !in form;
      ResolveAgainstForm(form, k, rule);
    }
    assert EditFormFor(m').fields == form;
  }

  /** A code typed as its decimal digits is read back as itself (within the integers a
      JavaScript number holds exactly). */
  lemma UifInputRoundTrip(n: int)
    requires SafeInteger(n)
    ensures ParseIntOrZero(IntToString(n)) == n
  {
    ParseIntRoundTrip(n, "");
    assert IntToString(n) + "" == IntToString(n);
  }

  /** Text that does not start with a number is read as 0. */
  lemma UifInputNotANumber(raw: string)
    requires TrimStart(raw) == [] || !(IsDigit(TrimStart(raw)[0]) || TrimStart(raw)[0] == '-' || TrimStart(raw)[0] == '+')
    ensures ParseIntOrZero(raw) == 0
  {
    var t := TrimStart(raw);
    assert Unsigned(t) == t;
    if t != [] {
      assert !IsDigit(Unsigned(t)[0]);
    }
  }

  /** What a save sends to the edit endpoint. */
  datatype EditRequest = EditRequest(sessionId: string, memberId: string, data: MemberData)

  class EditMemberModal {
    const sessionId: string
    var formData: MemberData
    var saving: bool
    var error: Option<string>

    constructor (sessionId: string)
      ensures this.sessionId == sessionId
      ensures formData == MemberData(map[], Undefined) && !saving && error == None
    {
      this.sessionId := sessionId;
      formData := MemberData(map[], Undefined);
      saving := false;
      error := None;
    }

    /** The effect run when the member prop changes: a member seeds the form and clears the
        error; no member leaves everything as it was. */
    method OnMemberChange(member: Option<Member>)
      modifies this`formData, this`error
      ensures member.Some? ==> formData == EditFormFor(member.value) && error == None
      ensures member.None? ==> formData == old(formData) && error == old(error)
    {
      if member.Some? {
        formData := EditFormFor(member.value);
        error := None;
      }
    }

    /** A text input: only that field changes. */
    method HandleChange(field: string, value: string)
      modifies this`formData
      ensures formData == WithField(old(formData), field, value)
    {
      formData := WithField(formData, field, value);
    }

    /** The UIF code input: the code becomes the number typed, 0 for anything else. */
    method HandleUifChange(raw: string)
      modifies this`formData
      ensures formData == old(formData).(uifCode := Code(ParseIntOrZero(raw)))
    {
      formData := formData.(uifCode := Code(ParseIntOrZero(raw)));
    }

    /** `handleSave`: no check is made; the form is sent as it stands for the member's id,
        and the form stays as it was whatever the outcome. */
    method HandleSave(member: Member, outcome: Result<()>) returns (request: EditRequest)
      requires !saving
      modifies this`saving, this`error
      ensures request == EditRequest(sessionId, member.memberId, formData)
      ensures !saving
      ensures outcome.Ok? ==> error == None
      ensures outcome.Err? ==> error == Some(ErrorText(outcome.error, EditFailedError))
    {
      saving := true;
      error := None;
      request := EditRequest(sessionId, member.memberId, formData);
      if outcome.Err? {
        error := Some(ErrorText(outcome.error, EditFailedError));
      }
      saving := false;
    }
  }
}
