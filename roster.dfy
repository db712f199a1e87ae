/** The data the workflow carries: the upload response and the session built from it, the
    raw rows of the categorized dataframes, the member records of the review table, and the
    five category buckets with the synthetic member ids the client gives converted rows. */
module Roster {
  import opened Common
  import opened Text

  // ---------------------------------------------------------------- categories

  datatype Category = Eligible | Ineligible | Discrepancy | Btz | SmallUnit

  /** The bucket's key in the preview record and in synthetic member ids. */
  function Key(c: Category): (k: string)
    ensures |k| >= 1
  {
    match c
    case Eligible => "eligible"
    case Ineligible => "ineligible"
    case Discrepancy => "discrepancy"
    case Btz => "btz"
    case SmallUnit => "small_unit"
  }

  /** The five buckets, in the order of the review tabs. */
  const AllCategories: seq<Category> := [Eligible, Ineligible, Discrepancy, Btz, SmallUnit]

  lemma KeyInjective(a: Category, b: Category)
    requires Key(a) == Key(b)
    ensures a == b
  {
    assert Key(a)[0] == Key(b)[0];
  }

  // ---------------------------------------------------------------- records

  /** A UIF_CODE as the client sees it: absent (`undefined`), JSON `null`, or a number. */
  datatype UifValue = Undefined | Null | Code(n: int)

  /** `v !== undefined ? v : 0`: only an absent code is replaced; `null` is kept. */
  function PresentOrZero(v: UifValue): UifValue {
    if v.Undefined? then Code(0) else v
  }

  /** One row of an uploaded dataframe: its text columns (an absent column is a missing key)
      and its UIF_CODE column, which is numeric. */
  datatype Row = Row(fields: map<string, string>, uifCode: UifValue)

  /** A member as the review table holds it. */
  datatype Member = Member(
    memberId: string,
    fields: map<string, string>,
    uifCode: UifValue,
    reason: Option<string>,
    editable: bool)

  /** What the upload endpoint returns (absent optional parts are None). Only
      `session_id`, `pascodes`, `pascode_unit_map`, `senior_rater_needed` and `errors` are
      returned today; the dataframes are there when the service sends them. */
  datatype UploadResponse = UploadResponse(
    sessionId: string,
    pascodes: Option<seq<string>>,
    pascodeUnitMap: Option<map<string, string>>,
    seniorRaterNeeded: bool,
    errors: Option<seq<string>>,
    errorLog: Option<seq<string>>,
    dataframe: Option<seq<Row>>,
    eligibleDf: Option<seq<Row>>,
    ineligibleDf: Option<seq<Row>>,
    discrepancyDf: Option<seq<Row>>,
    btzDf: Option<seq<Row>>,
    smallUnitDf: Option<seq<Row>>)

  /** The record an add or edit dialog sends: its text fields and its UIF_CODE (Undefined
      while the dialog has not set it). */
  datatype MemberData = MemberData(fields: map<string, string>, uifCode: UifValue)

  /** `{ ...data, [field]: value }` for a text field. */
  function WithField(data: MemberData, field: string, value: string): (r: MemberData)
    ensures r.fields.Keys == data.fields.Keys + {field} && r.fields[field] == value
    ensures forall k :: k in data.fields && k != field ==> r.fields[k] == data.fields[k]
    ensures r.uifCode == data.uifCode
  {
    data.(fields := data.fields[field := value])
  }

  /** The session: the upload response extended with the cycle and year the user chose. */
  datatype Session = Session(response: UploadResponse, cycle: string, year: int)

  // ---------------------------------------------------------------- synthetic member ids

  /** `row_${category}_${index}`. */
  function MemberId(c: Category, index: nat): string {
    "row_" + Key(c) + "_" + NatToString(index)
  }

  /** A digit string as `${n}` prints it: no leading zero unless it is "0". */
  predicate Canonical(d: string) {
    |d| >= 1 && AllDigits(d) && (d[0] == '0' ==> |d| == 1)
  }

  /** Reads a synthetic id back: the bucket and the row index it names. */
  function ParseMemberId(id: string): Option<(Category, nat)> {
    if |id| >= 4 && id[..4] == "row_" then ParseIdSuffix(id[4..], AllCategories) else None
  }

  function ParseIdSuffix(s: string, cats: seq<Category>): Option<(Category, nat)>
    decreases |cats|
  {
    if cats == [] then None
    else
      var p := Key(cats[0]) + "_";
      if |p| <= |s| && s[..|p|] == p && Canonical(s[|p|..]) then
        Some((cats[0], DigitsValue(s[|p|..])))
      else ParseIdSuffix(s, cats[1..])
  }

  lemma {:induction false} CanonicalNatToString(n: nat)
    ensures Canonical(NatToString(n))
  {
  }

  lemma {:induction false} PositiveDigits(d: string)
    requires |d| >= 1 && AllDigits(d) && d[0] != '0'
    ensures DigitsValue(d) >= 1
    decreases |d|
  {
    if |d| > 1 {
      PositiveDigits(d[..|d| - 1]);
    }
  }

  /** A canonical digit string is what `${n}` prints for the number it denotes. */
  lemma {:induction false} DigitsRoundTrip(d: string)
    requires Canonical(d)
    ensures NatToString(DigitsValue(d)) == d
    decreases |d|
  {
    if |d| > 1 {
      var init := d[..|d| - 1];
      assert init[0] == d[0];
      PositiveDigits(init);
      DigitsRoundTrip(init);
      var n := DigitsValue(d);
      assert n / 10 == DigitsValue(init) && n % 10 == DigitValue(d[|d| - 1]);
      assert d == init + [d[|d| - 1]];
    }
  }

  /** Where the key of c, then "_", then digits stands, ParseIdSuffix finds c and the digits;
      no other key of the list can be read there, because the five keys start with five
      different letters. */
  lemma {:induction false} ParseIdSuffixFinds(c: Category, d: string, cats: seq<Category>)
    requires Canonical(d) && c in cats
    ensures ParseIdSuffix(Key(c) + "_" + d, cats) == Some((c, DigitsValue(d)))
    decreases |cats|
  {
    var s := Key(c) + "_" + d;
    var p := Key(cats[0]) + "_";
    if cats[0] == c {
      assert s[..|p|] == p && s[|p|..] == d;
    } else {
      assert s[0] == Key(c)[0] && p[0] == Key(cats[0])[0];
      assert Key(c)[0] != Key(cats[0])[0];
      ParseIdSuffixFinds(c, d, cats[1..]);
    }
  }

  /** Reading a synthetic id back gives its bucket and index. */
  lemma MemberIdRoundTrip(c: Category, index: nat)
    ensures ParseMemberId(MemberId(c, index)) == Some((c, index))
  {
    var d := NatToString(index);
    var id := MemberId(c, index);
    assert id[..4] == "row_" && id[4..] == Key(c) + "_" + d;
    CanonicalNatToString(index);
    ParseIdSuffixFinds(c, d, AllCategories);
    NatToStringRoundTrip(index);
  }

  lemma {:induction false} ParseIdSuffixSound(s: string, cats: seq<Category>, c: Category, n: nat)
    requires ParseIdSuffix(s, cats) == Some((c, n))
    ensures s == Key(c) + "_" + NatToString(n)
    decreases |cats|
  {
    var p := Key(cats[0]) + "_";
    if |p| <= |s| && s[..|p|] == p && Canonical(s[|p|..]) {
      DigitsRoundTrip(s[|p|..]);
      assert s == s[..|p|] + s[|p|..];
    } else {
      ParseIdSuffixSound(s, cats[1..], c, n);
    }
  }

  /** Every id the parser accepts is the synthetic id of what it returns. */
  lemma ParseMemberIdSound(id: string, c: Category, index: nat)
    requires ParseMemberId(id) == Some((c, index))
    ensures id == MemberId(c, index)
  {
    ParseIdSuffixSound(id[4..], AllCategories, c, index);
    assert id == id[..4] + id[4..];
  }

  /** Two rows get the same synthetic id only if they are the same row of the same bucket. */
  lemma MemberIdInjective(c1: Category, i1: nat, c2: Category, i2: nat)
    requires MemberId(c1, i1) == MemberId(c2, i2)
    ensures c1 == c2 && i1 == i2
  {
    MemberIdRoundTrip(c1, i1);
    MemberIdRoundTrip(c2, i2);
  }
}
