/** The senior-rater step: one record per PASCODE (seeded empty from the session), an
    optional small-unit record, the completeness predicate that enables the submit button,
    and the payload handed to document generation. */
module PascodeForm {
  import opened Common
  import opened Roster

  datatype SeniorRater = SeniorRater(srid: string, name: string, rank: string, title: string)

  datatype SrField = Srid | Name | Rank | Title

  const Blank: SeniorRater := SeniorRater("", "", "", "")

  /** The payload key under which the small-unit record travels. */
  const SmallUnitKey: string := "small_unit_sr"

  function Get(r: SeniorRater, f: SrField): string {
    match f
    case Srid => r.srid
    case Name => r.name
    case Rank => r.rank
    case Title => r.title
  }

  /** `{ ...r, [f]: v }` */
  function Set(r: SeniorRater, f: SrField, v: string): (r': SeniorRater)
    ensures Get(r', f) == v
    ensures forall g :: g != f ==> Get(r', g) == Get(r, g)
  {
    match f
    case Srid => r.(srid := v)
    case Name => r.(name := v)
    case Rank => r.(rank := v)
    case Title => r.(title := v)
  }

  /** All four fields are filled in. */
  predicate Complete(r: SeniorRater) {
    r.srid != "" && r.name != "" && r.rank != "" && r.title != ""
  }

  /** `isFormValid`: every PASCODE record is complete, and so is the small-unit record when
      the roster needs one. */
  predicate IsFormValid(info: map<string, SeniorRater>, smallUnit: SeniorRater, seniorRaterNeeded: bool) {
    && (forall p :: p in info ==> Complete(info[p]))
    && (!seniorRaterNeeded || Complete(smallUnit))
  }

  /** The submit button is enabled. */
  predicate SubmitEnabled(submitting: bool, info: map<string, SeniorRater>, smallUnit: SeniorRater, seniorRaterNeeded: bool) {
    !submitting && IsFormValid(info, smallUnit, seniorRaterNeeded)
  }

  /** The payload: the PASCODE records, plus the small-unit record under `small_unit_sr`
      when the roster needs one and its rater id is filled in. A PASCODE spelled
      `small_unit_sr` would be overwritten by it, as the object spread does. */
  function SubmitPayload(info: map<string, SeniorRater>, smallUnit: SeniorRater, seniorRaterNeeded: bool): (payload: map<string, SeniorRater>)
    ensures payload.Keys == info.Keys + (if seniorRaterNeeded && smallUnit.srid != "" then {SmallUnitKey} else {})
    ensures forall p :: p in info && !(p == SmallUnitKey && seniorRaterNeeded && smallUnit.srid != "") ==>
      payload[p] == info[p]
    ensures SmallUnitKey !in info ==>
      (SmallUnitKey in payload <==> seniorRaterNeeded && smallUnit.srid != "")
    ensures SmallUnitKey in payload && (seniorRaterNeeded && smallUnit.srid != "") ==> payload[SmallUnitKey] == smallUnit
  {
    if seniorRaterNeeded && smallUnit.srid != "" then info[SmallUnitKey := smallUnit] else info
  }

  /** The seeding loop: one blank record per PASCODE, and nothing else. */
  method SeedRecords(pascodes: seq<string>) returns (info: map<string, SeniorRater>)
    ensures info.Keys == set p | p in pascodes
    ensures forall p :: p in info ==> info[p] == Blank
  {
    info := map[];
    var i := 0;
    while i < |pascodes|
      invariant 0 <= i <= |pascodes|
      invariant info.Keys == set j | 0 <= j < i :: pascodes[j]
      invariant forall p :: p in info ==> info[p] == Blank
    {
      info := info[pascodes[i] := Blank];
      i := i + 1;
    }
    assert (set j | 0 <= j < |pascodes| :: pascodes[j]) == set p | p in pascodes by {
      forall p | p in pascodes ensures p in set j | 0 <= j < |pascodes| :: pascodes[j] {
        var j :| 0 <= j < |pascodes| && pascodes[j] == p;
      }
    }
  }

  /** `handlePascodeChange` on a record map: only field f of PASCODE p changes. A PASCODE
      with no record yet starts from a blank one. */
  function UpdatePascode(info: map<string, SeniorRater>, p: string, f: SrField, v: string): (info': map<string, SeniorRater>)
    ensures info'.Keys == info.Keys + {p}
    ensures Get(info'[p], f) == v
    ensures p in info ==> forall g :: g != f ==> Get(info'[p], g) == Get(info[p], g)
    ensures forall q :: q in info && q != p ==> info'[q] == info[q]
  {
    info[p := Set(if p in info then info[p] else Blank, f, v)]
  }

  // ---------------------------------------------------------------- properties of the gate

  /** A freshly seeded form is valid exactly when there is no PASCODE and no small-unit
      rater is needed: a seeded record is blank. */
  lemma SeededValidity(pascodes: seq<string>, info: map<string, SeniorRater>, seniorRaterNeeded: bool)
    requires info.Keys == set p | p in pascodes
    requires forall p :: p in info ==> info[p] == Blank
    ensures IsFormValid(info, Blank, seniorRaterNeeded) <==> pascodes == [] && !seniorRaterNeeded
  {
    if pascodes != [] {
      assert pascodes[0] in info;
    }
  }

  /** Clearing a field of a PASCODE record closes the gate. */
  lemma ClearingBlocks(info: map<string, SeniorRater>, smallUnit: SeniorRater, needed: bool, p: string, f: SrField)
    ensures !IsFormValid(UpdatePascode(info, p, f, ""), smallUnit, needed)
  {
    var info' := UpdatePascode(info, p, f, "");
    assert p in info' && !Complete(info'[p]);
  }

  /** The gate opens the moment the last missing field is filled: if every other record is
      complete and p's record becomes complete, the form is valid (given the small-unit
      condition). */
  lemma FillingLastFieldOpens(info: map<string, SeniorRater>, smallUnit: SeniorRater, needed: bool, p: string, f: SrField, v: string)
    requires forall q :: q in info && q != p ==> Complete(info[q])
    requires Complete(UpdatePascode(info, p, f, v)[p])
    requires !needed || Complete(smallUnit)
    ensures IsFormValid(UpdatePascode(info, p, f, v), smallUnit, needed)
  {
    var info' := UpdatePascode(info, p, f, v);
    forall q | q in info' ensures Complete(info'[q]) {
      if q != p {
        assert q in info && info'[q] == info[q];
      }
    }
  }

  /** Whenever the button could be pressed on a roster that needs a small-unit rater, the
      payload carries that rater's record. */
  lemma ValidNeededCarriesSmallUnit(info: map<string, SeniorRater>, smallUnit: SeniorRater)
    requires IsFormValid(info, smallUnit, true)
    ensures SmallUnitKey in SubmitPayload(info, smallUnit, true)
    ensures SubmitPayload(info, smallUnit, true)[SmallUnitKey] == smallUnit
  {
  }

  /** The payload test is weaker than the gate: with a rater id only, the small-unit record
      is put in the payload although the form is not valid. */
  lemma PayloadWeakerThanGate()
    ensures
      var smallUnit := SeniorRater("1234", "", "", "");
      && SmallUnitKey in SubmitPayload(map[], smallUnit, true)
      && !IsFormValid(map[], smallUnit, true)
  {
  }

  /** The button is disabled while a submission runs, and otherwise open exactly when the
      form is valid. */
  lemma SubmitGate(info: map<string, SeniorRater>, smallUnit: SeniorRater, needed: bool)
    ensures !SubmitEnabled(true, info, smallUnit, needed)
    ensures SubmitEnabled(false, info, smallUnit, needed) <==> IsFormValid(info, smallUnit, needed)
  {
  }

  // ---------------------------------------------------------------- the component's state

  class PascodeFormState {
    const sessionData: Session
    var pascodeInfo: map<string, SeniorRater>
    var smallUnitSR: SeniorRater
    var submitting: bool
    var error: Option<string>

    constructor (sessionData: Session)
      ensures this.sessionData == sessionData
      ensures pascodeInfo == map[] && smallUnitSR == Blank && !submitting && error == None
    {
      this.sessionData := sessionData;
      pascodeInfo := map[];
      smallUnitSR := Blank;
      submitting := false;
      error := None;
    }

    function SeniorRaterNeeded(): bool
      reads this
    {
      sessionData.response.seniorRaterNeeded
    }

    /** The effect run when the session arrives: with a PASCODE list, the records are
        replaced by one blank record per PASCODE; without one, nothing changes. */
    method Seed()
      modifies this`pascodeInfo
      ensures sessionData.response.pascodes.Some? ==>
        && pascodeInfo.Keys == (set p | p in sessionData.response.pascodes.value)
        && forall p :: p in pascodeInfo ==> pascodeInfo[p] == Blank
      ensures sessionData.response.pascodes.None? ==> pascodeInfo == old(pascodeInfo)
    {
      if sessionData.response.pascodes.Some? {
        pascodeInfo := SeedRecords(sessionData.response.pascodes.value);
      }
    }

    method HandlePascodeChange(p: string, f: SrField, v: string)
      modifies this`pascodeInfo
      ensures pascodeInfo == UpdatePascode(old(pascodeInfo), p, f, v)
    {
      pascodeInfo := UpdatePascode(pascodeInfo, p, f, v);
    }

    /** Only field f of the small-unit record changes. */
    method HandleSmallUnitChange(f: SrField, v: string)
      modifies this`smallUnitSR
      ensures smallUnitSR == Set(old(smallUnitSR), f, v)
    {
      smallUnitSR := Set(smallUnitSR, f, v);
    }

    predicate IsValid()
      reads this
    {
      IsFormValid(pascodeInfo, smallUnitSR, SeniorRaterNeeded())
    }

    /** `handleSubmit`: hand the session id and the payload to the parent, whose generation call succeeds or
        rethrows. Validity is not checked again here; the disabled button is the gate.
        On failure the error is shown and the entered data stays; on success `submitting`
        stays set, as the step is left. */
    method HandleSubmit(outcome: Result<()>) returns (sessionId: string, payload: map<string, SeniorRater>)
      modifies this`submitting, this`error
      ensures sessionId == sessionData.response.sessionId
      ensures payload == SubmitPayload(pascodeInfo, smallUnitSR, SeniorRaterNeeded())
      ensures outcome.Ok? ==> submitting && error == None
      ensures outcome.Err? ==> !submitting && error == Some(ErrorText(outcome.error, "Submission failed"))
    {
      submitting := true;
      error := None;
      payload := SubmitPayload(pascodeInfo, smallUnitSR, SeniorRaterNeeded());
      sessionId := sessionData.response.sessionId;
      if outcome.Err? {
        error := Some(ErrorText(outcome.error, "Submission failed"));
        submitting := false;
      }
    }
  }
}
