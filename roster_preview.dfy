/** The review step: the preview record (fetched, or derived from the upload response when
    the preview endpoint is unavailable), the member list of the selected tab, the search
    filter over it and the page of it the table shows. */
module RosterPreview {
  import opened Common
  import opened Text
  import opened Roster

  // ---------------------------------------------------------------- the preview record

  datatype Statistics = Statistics(
    totalUploaded: nat,
    totalProcessed: nat,
    eligible: nat,
    ineligible: nat,
    discrepancy: nat,
    btz: nat,
    errors: nat)

  datatype Buckets = Buckets(
    eligible: seq<Member>,
    ineligible: seq<Member>,
    discrepancy: seq<Member>,
    btz: seq<Member>,
    smallUnit: seq<Member>)

  function Bucket(b: Buckets, c: Category): seq<Member> {
    match c
    case Eligible => b.eligible
    case Ineligible => b.ineligible
    case Discrepancy => b.discrepancy
    case Btz => b.btz
    case SmallUnit => b.smallUnit
  }

  datatype CustomLogo = CustomLogo(uploaded: bool, filename: Option<string>)

  /** A preview is either Minimal (derived from an upload response that carries no
      dataframes; its zero statistics mean "not available", and `note` says so) or Full. */
  datatype Preview =
    | Minimal(
        sessionId: string, cycle: string, year: int, edited: bool,
        statistics: Statistics, categories: Buckets, errors: seq<string>,
        pascodes: seq<string>, pascodeUnitMap: map<string, string>,
        customLogo: CustomLogo, note: string)
    | Full(
        sessionId: string, cycle: string, year: int, edited: bool,
        statistics: Statistics, categories: Buckets, errors: seq<string>,
        pascodes: seq<string>, pascodeUnitMap: map<string, string>,
        customLogo: CustomLogo)

  const MinimalNote: string := "Full roster data requires backend /api/roster/preview endpoint"
  const DefaultCycle: string := "SSG"
  const NoLogo: CustomLogo := CustomLogo(false, None)

  /** The per-bucket counts are the bucket sizes, and the processed total is the sum of the
      four buckets other than small-unit. */
  predicate CountsMatchBuckets(p: Preview) {
    var s, b := p.statistics, p.categories;
    && s.eligible == |b.eligible|
    && s.ineligible == |b.ineligible|
    && s.discrepancy == |b.discrepancy|
    && s.btz == |b.btz|
    && s.totalProcessed == s.eligible + s.ineligible + s.discrepancy + s.btz
  }

  // ---------------------------------------------------------------- converting dataframes

  /** The text columns a converted member carries; a missing one becomes "". */
  const ConvertedFields: set<string> := {
    "FULL_NAME", "GRADE", "SSAN", "DOR", "ASSIGNED_PAS", "ASSIGNED_PAS_CLEARTEXT",
    "DAFSC", "PAFSC", "TAFMSD", "DATE_ARRIVED_STATION", "REENL_ELIG_STATUS",
    "GRADE_PERM_PROJ", "UIF_DISPOSITION_DATE", "2AFSC", "3AFSC", "4AFSC"
  }

  /** Row `index` of the dataframe of bucket c as a member record. */
  function ConvertRow(row: Row, c: Category, index: nat): (m: Member)
    ensures m.memberId == MemberId(c, index) && m.editable
    ensures m.fields.Keys == ConvertedFields
    ensures forall k :: k in ConvertedFields ==> m.fields[k] == FieldOr(row.fields, k, "")
    ensures row.uifCode.Undefined? ==> m.uifCode == Code(0)
    ensures !row.uifCode.Undefined? ==> m.uifCode == row.uifCode
    ensures m.reason.Some? <==> "REASON" in row.fields && row.fields["REASON"] != ""
    ensures m.reason.Some? ==> m.reason.value == row.fields["REASON"]
  {
    Member(
      MemberId(c, index),
      map k | k in ConvertedFields :: FieldOr(row.fields, k, ""),
      PresentOrZero(row.uifCode),
      if FieldOr(row.fields, "REASON", "") != "" then Some(row.fields["REASON"]) else None,
      true)
  }

  /** `df.map((row, index) => ...)`. */
  function ConvertDataframeToMembers(df: seq<Row>, c: Category): (r: seq<Member>)
    ensures |r| == |df|
    ensures forall i :: 0 <= i < |df| ==> r[i] == ConvertRow(df[i], c, i)
  {
    seq(|df|, i requires 0 <= i < |df| => ConvertRow(df[i], c, i))
  }

  /** The converted members of one bucket have pairwise distinct ids. */
  lemma ConvertedIdsDistinct(df: seq<Row>, c: Category, i: nat, j: nat)
    requires i < |df| && j < |df| && i != j
    ensures ConvertDataframeToMembers(df, c)[i].memberId != ConvertDataframeToMembers(df, c)[j].memberId
  {
    if MemberId(c, i) == MemberId(c, j) {
      MemberIdInjective(c, i, c, j);
    }
  }

  /** Members converted from two different buckets never share an id. */
  lemma ConvertedIdsDistinctAcrossBuckets(df1: seq<Row>, c1: Category, i: nat, df2: seq<Row>, c2: Category, j: nat)
    requires i < |df1| && j < |df2| && c1 != c2
    ensures ConvertDataframeToMembers(df1, c1)[i].memberId != ConvertDataframeToMembers(df2, c2)[j].memberId
  {
    if MemberId(c1, i) == MemberId(c2, j) {
      MemberIdInjective(c1, i, c2, j);
    }
  }

  // ---------------------------------------------------------------- the fallback transform

  function OrEmpty<T>(o: Option<seq<T>>): seq<T> {
    o.GetOr([])
  }

  /** `transformSessionDataToPreview`: null for no session; Minimal when the session carries
      neither `eligible_df` nor `dataframe`; Full otherwise. `sessionIdProp` is the
      component's sessionId and `currentYear` the clock's year. */
  function TransformSessionDataToPreview(data: Option<Session>, sessionIdProp: string, currentYear: int): (r: Option<Preview>)
    ensures data.None? <==> r.None?
    ensures r.Some? ==> r.value.sessionId == OrElse(data.value.response.sessionId, sessionIdProp)
    ensures r.Some? ==> r.value.cycle == OrElse(data.value.cycle, DefaultCycle)
    ensures r.Some? ==> r.value.year == (if data.value.year != 0 then data.value.year else currentYear)
    ensures r.Some? ==> !r.value.edited && r.value.customLogo == NoLogo && CountsMatchBuckets(r.value)
    ensures r.Some? ==> r.value.pascodes == OrEmpty(data.value.response.pascodes)
    ensures r.Some? ==> r.value.pascodeUnitMap == data.value.response.pascodeUnitMap.GetOr(map[])
    // the minimal variant: everything zero but the error count, every bucket empty
    ensures r.Some? && data.value.response.eligibleDf.None? && data.value.response.dataframe.None? ==>
      var p, d := r.value, data.value.response;
      && p.Minimal? && p.note == MinimalNote
      && p.statistics == Statistics(0, 0, 0, 0, 0, 0, |OrEmpty(d.errors)|)
      && p.categories == Buckets([], [], [], [], [])
      && p.errors == OrEmpty(d.errors)
    // the full variant: each bucket converted from its dataframe, counts from their sizes
    ensures r.Some? && (data.value.response.eligibleDf.Some? || data.value.response.dataframe.Some?) ==>
      var p, d := r.value, data.value.response;
      && p.Full?
      && p.statistics.totalUploaded == |OrEmpty(d.dataframe)|
      && p.statistics.totalProcessed
         == |OrEmpty(d.eligibleDf)| + |OrEmpty(d.ineligibleDf)| + |OrEmpty(d.discrepancyDf)| + |OrEmpty(d.btzDf)|
      && (forall c :: c in AllCategories ==>
            Bucket(p.categories, c) == ConvertDataframeToMembers(OrEmpty(Dataframe(d, c)), c))
      && p.errors == (if d.errors.Some? then d.errors.value else OrEmpty(d.errorLog))
      && p.statistics.errors == |p.errors|
  {
    match data
    case None => None
    case Some(s) =>
      var d := s.response;
      var sid := OrElse(d.sessionId, sessionIdProp);
      var cycle := OrElse(s.cycle, DefaultCycle);
      var year := if s.year != 0 then s.year else currentYear;
      var pascodes := OrEmpty(d.pascodes);
      var unitMap := d.pascodeUnitMap.GetOr(map[]);
      if d.eligibleDf.None? && d.dataframe.None? then
        var errors := OrEmpty(d.errors);
        Some(Minimal(
          sid, cycle, year, false,
          Statistics(0, 0, 0, 0, 0, 0, |errors|),
          Buckets([], [], [], [], []),
          errors, pascodes, unitMap, NoLogo, MinimalNote))
      else
        var eligible, ineligible := OrEmpty(d.eligibleDf), OrEmpty(d.ineligibleDf);
        var discrepancy, btz, smallUnit := OrEmpty(d.discrepancyDf), OrEmpty(d.btzDf), OrEmpty(d.smallUnitDf);
        var errors := if d.errors.Some? then d.errors.value else OrEmpty(d.errorLog);
        Some(Full(
          sid, cycle, year, false,
          Statistics(
            |OrEmpty(d.dataframe)|,
            |eligible| + |ineligible| + |discrepancy| + |btz|,
            |eligible|, |ineligible|, |discrepancy|, |btz|,
            |errors|),
          Buckets(
            ConvertDataframeToMembers(eligible, Eligible),
            ConvertDataframeToMembers(ineligible, Ineligible),
            ConvertDataframeToMembers(discrepancy, Discrepancy),
            ConvertDataframeToMembers(btz, Btz),
            ConvertDataframeToMembers(smallUnit, SmallUnit)),
          errors, pascodes, unitMap, NoLogo))
  }

  /** The dataframe of the upload response that feeds bucket c. */
  function Dataframe(d: UploadResponse, c: Category): Option<seq<Row>> {
    match c
    case Eligible => d.eligibleDf
    case Ineligible => d.ineligibleDf
    case Discrepancy => d.discrepancyDf
    case Btz => d.btzDf
    case SmallUnit => d.smallUnitDf
  }

  /** The small-unit dataframe does not enter the statistics: two sessions that differ only
      in it get the same statistics. */
  lemma SmallUnitNotCounted(s: Session, smallUnit: Option<seq<Row>>, sessionIdProp: string, currentYear: int)
    ensures
      var t := Session(s.response.(smallUnitDf := smallUnit), s.cycle, s.year);
      var p, q := TransformSessionDataToPreview(Some(s), sessionIdProp, currentYear),
                  TransformSessionDataToPreview(Some(t), sessionIdProp, currentYear);
      p.value.statistics == q.value.statistics
  {
  }

  // ---------------------------------------------------------------- tab, search and page

  /** Tab index to bucket; any other index selects nothing. */
  function TabCategory(tab: int): (r: Option<Category>)
    ensures r.Some? <==> 0 <= tab < |AllCategories|
    ensures r.Some? ==> r.value == AllCategories[tab]
  {
    if 0 <= tab < |AllCategories| then Some(AllCategories[tab]) else None
  }

  /** `getCurrentCategoryMembers`: the selected bucket, or nothing without roster data. */
  function CurrentCategoryMembers(rosterData: Option<Preview>, tab: int): (r: seq<Member>)
    ensures rosterData.None? || !(0 <= tab < |AllCategories|) ==> r == []
    ensures rosterData.Some? && 0 <= tab < |AllCategories| ==>
      r == Bucket(rosterData.value.categories, AllCategories[tab])
  {
    match (rosterData, TabCategory(tab))
    case (Some(p), Some(c)) => Bucket(p.categories, c)
    case _ => []
  }

  /** `field?.toLowerCase().includes(term.toLowerCase())` */
  predicate FieldContainsIgnoringCase(fields: map<string, string>, k: string, term: string) {
    k in fields && Contains(ToLower(fields[k]), ToLower(term))
  }

  /** The search predicate: name or PASCODE case-insensitively, SSAN literally. */
  predicate MatchesSearch(m: Member, term: string) {
    || FieldContainsIgnoringCase(m.fields, "FULL_NAME", term)
    || FieldContainsIgnoringCase(m.fields, "ASSIGNED_PAS", term)
    || ("SSAN" in m.fields && Contains(m.fields["SSAN"], term))
  }

  /** r can be obtained from s by deleting elements. */
  predicate IsSubsequence<T(==)>(r: seq<T>, s: seq<T>)
    decreases |s|
  {
    if r == [] then true
    else if s == [] then false
    else (r[0] == s[0] && IsSubsequence(r[1..], s[1..])) || IsSubsequence(r, s[1..])
  }

  /** `members.filter(m => MatchesSearch(m, term))`: every matching occurrence is kept, in
      order, and nothing else. */
  function FilterMembers(ms: seq<Member>, term: string): (r: seq<Member>)
    ensures forall m :: m in r <==> m in ms && MatchesSearch(m, term)
    ensures forall m :: multiset(r)[m] == if MatchesSearch(m, term) then multiset(ms)[m] else 0
    ensures IsSubsequence(r, ms)
    decreases |ms|
  {
    if ms == [] then []
    else
      assert ms == [ms[0]] + ms[1..];
      if MatchesSearch(ms[0], term) then [ms[0]] + FilterMembers(ms[1..], term)
      else FilterMembers(ms[1..], term)
  }

  /** An empty search shows the whole bucket, as long as each member has a name field
      (converted members always do). */
  lemma {:induction false} EmptySearchKeepsAll(ms: seq<Member>)
    requires forall m :: m in ms ==> "FULL_NAME" in m.fields
    ensures FilterMembers(ms, "") == ms
    decreases |ms|
  {
    if ms != [] {
      ContainsEmpty(ToLower(ms[0].fields["FULL_NAME"]));
      assert ToLower("") == "";
      assert MatchesSearch(ms[0], "");
      EmptySearchKeepsAll(ms[1..]);
      assert ms == [ms[0]] + ms[1..];
    }
  }

  function Min(a: int, b: int): int {
    if a <= b then a else b
  }

  /** `filtered.slice(page * rpp, page * rpp + rpp)`: JavaScript clamps both ends. */
  function VisibleRows(filtered: seq<Member>, page: nat, rpp: nat): (r: seq<Member>)
    ensures |r| <= rpp
    ensures |r| == if page * rpp >= |filtered| then 0 else Min(rpp, |filtered| - page * rpp)
    ensures forall i :: 0 <= i < |r| ==> page * rpp + i < |filtered| && r[i] == filtered[page * rpp + i]
  {
    var start := page * rpp;
    filtered[Min(start, |filtered|)..Min(start + rpp, |filtered|)]
  }

  /** Pages 0 .. n-1, one after another. */
  function PagesUpTo(filtered: seq<Member>, rpp: nat, n: nat): seq<Member> {
    if n == 0 then [] else PagesUpTo(filtered, rpp, n - 1) + VisibleRows(filtered, n - 1, rpp)
  }

  lemma {:induction false} PagesUpToIsPrefix(filtered: seq<Member>, rpp: nat, n: nat)
    ensures PagesUpTo(filtered, rpp, n) == filtered[..Min(n * rpp, |filtered|)]
  {
    if n > 0 {
      PagesUpToIsPrefix(filtered, rpp, n - 1);
      var lo := (n - 1) * rpp;
      assert n * rpp == lo + rpp;
      var a, b := Min(lo, |filtered|), Min(lo + rpp, |filtered|);
      assert filtered[..b] == filtered[..a] + filtered[a..b];
    }
  }

  /** Paging neither loses nor repeats a row: the pages 0 .. ceil(|filtered| / rpp) - 1,
      concatenated, are the filtered list. */
  lemma PagesCoverFiltered(filtered: seq<Member>, rpp: nat)
    requires rpp > 0
    ensures PagesUpTo(filtered, rpp, (|filtered| + rpp - 1) / rpp) == filtered
  {
    var n := (|filtered| + rpp - 1) / rpp;
    assert n * rpp >= |filtered| by {
      var q, m := (|filtered| + rpp - 1) / rpp, (|filtered| + rpp - 1) % rpp;
      assert |filtered| + rpp - 1 == q * rpp + m;
    }
    PagesUpToIsPrefix(filtered, rpp, n);
  }

  // ---------------------------------------------------------------- the component's state

  /** The page sizes the pagination control offers. */
  const RowsPerPageOptions: set<nat> := {10, 25, 50, 100}

  /** The call `getRosterPreview(sessionId, category, page, pageSize)`. */
  datatype PreviewRequest = PreviewRequest(sessionId: string, category: string, page: nat, pageSize: nat)

  class RosterView {
    const sessionId: string
    const sessionData: Option<Session>
    var rosterData: Option<Preview>
    var loading: bool
    var error: Option<string>
    var searchTerm: string
    var page: nat
    var rowsPerPage: nat
    var currentTab: int
    var editModalOpen: bool
    var addModalOpen: bool
    var logoModalOpen: bool
    var deleteDialogOpen: bool
    var selectedMember: Option<Member>

    /** The page size is one the pagination control offers. */
    predicate Valid()
      reads this
    {
      rowsPerPage in RowsPerPageOptions
    }

    constructor (sessionId: string, sessionData: Option<Session>)
      ensures Valid()
      ensures this.sessionId == sessionId && this.sessionData == sessionData
      ensures rosterData == None && loading && error == None
      ensures searchTerm == "" && page == 0 && rowsPerPage == 25 && currentTab == 0
      ensures NoDialogOpen() && selectedMember == None
    {
      this.sessionId := sessionId;
      this.sessionData := sessionData;
      rosterData := None;
      loading := true;
      error := None;
      searchTerm := "";
      page := 0;
      rowsPerPage := 25;
      currentTab := 0;
      editModalOpen, addModalOpen, logoModalOpen, deleteDialogOpen := false, false, false, false;
      selectedMember := None;
    }

    /** None of the four dialogs over the table is open. */
    predicate NoDialogOpen()
      reads this
    {
      !editModalOpen && !addModalOpen && !logoModalOpen && !deleteDialogOpen
    }

    /** The rows of the selected tab that match the search. */
    function FilteredMembers(): seq<Member>
      reads this
    {
      FilterMembers(CurrentCategoryMembers(rosterData, currentTab), searchTerm)
    }

    /** The rows the table shows. */
    function VisibleMembers(): (r: seq<Member>)
      reads this
      ensures |r| <= rowsPerPage
      ensures forall m :: m in r ==> m in CurrentCategoryMembers(rosterData, currentTab) && MatchesSearch(m, searchTerm)
    {
      VisibleRows(FilteredMembers(), page, rowsPerPage)
    }

    /** `loadRosterData`: ask for the preview; if that call fails, fall back to the
        transform of the session instead of reporting an error. */
    method LoadRosterData(response: Result<Preview>, currentYear: int) returns (request: PreviewRequest)
      modifies this`rosterData, this`loading, this`error
      ensures request == PreviewRequest(sessionId, "all", page + 1, rowsPerPage)
      ensures response.Ok? ==> rosterData == Some(response.value)
      ensures response.Err? ==> rosterData == TransformSessionDataToPreview(sessionData, sessionId, currentYear)
      ensures error == None && !loading
    {
      loading := true;
      error := None;
      request := PreviewRequest(sessionId, "all", page + 1, rowsPerPage);
      match response {
        case Ok(data) =>
          rosterData := Some(data);
        case Err(_) =>
          rosterData := TransformSessionDataToPreview(sessionData, sessionId, currentYear);
      }
      loading := false;
    }

    method HandleSearchChange(term: string)
      modifies this`searchTerm
      ensures searchTerm == term
    {
      searchTerm := term;
    }

    /** Switching tabs goes back to the first page. */
    method HandleTabChange(tab: int)
      modifies this`currentTab, this`page
      ensures currentTab == tab && page == 0
    {
      currentTab := tab;
      page := 0;
    }

    method HandleChangePage(newPage: nat)
      modifies this`page
      ensures page == newPage
    {
      page := newPage;
    }

    /** The edit button of a row: that member is selected and the edit dialog opens. */
    method HandleEditMember(member: Member)
      modifies this`selectedMember, this`editModalOpen
      ensures selectedMember == Some(member) && editModalOpen
    {
      selectedMember := Some(member);
      editModalOpen := true;
    }

    /** The delete button of a row: that member is selected and the delete dialog opens. */
    method HandleDeleteMember(member: Member)
      modifies this`selectedMember, this`deleteDialogOpen
      ensures selectedMember == Some(member) && deleteDialogOpen
    {
      selectedMember := Some(member);
      deleteDialogOpen := true;
    }

    method HandleAddMember()
      modifies this`addModalOpen
      ensures addModalOpen
    {
      addModalOpen := true;
    }

    method HandleOpenLogo()
      modifies this`logoModalOpen
      ensures logoModalOpen
    {
      logoModalOpen := true;
    }

    /** The edit dialog's `onClose`; its `onSave` does this and then reloads. */
    method CloseEditModal()
      modifies this`editModalOpen, this`selectedMember
      ensures !editModalOpen && selectedMember == None
    {
      editModalOpen := false;
      selectedMember := None;
    }

    /** The delete dialog's `onClose`; its `onConfirm` does this and then reloads. */
    method CloseDeleteDialog()
      modifies this`deleteDialogOpen, this`selectedMember
      ensures !deleteDialogOpen && selectedMember == None
    {
      deleteDialogOpen := false;
      selectedMember := None;
    }

    /** The add dialog's `onClose`; its `onSave` does this and then reloads. */
    method CloseAddModal()
      modifies this`addModalOpen
      ensures !addModalOpen
    {
      addModalOpen := false;
    }

    /** The logo dialog's `onClose`; its `onUpload` does this and then reloads. */
    method CloseLogoModal()
      modifies this`logoModalOpen
      ensures !logoModalOpen
    {
      logoModalOpen := false;
    }

    /** A new page size goes back to the first page. */
    method HandleChangeRowsPerPage(rpp: nat)
      requires Valid() && rpp in RowsPerPageOptions
      modifies this`rowsPerPage, this`page
      ensures Valid()
      ensures rowsPerPage == rpp && page == 0
    {
      rowsPerPage := rpp;
      page := 0;
    }
  }
}
