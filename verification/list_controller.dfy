/**
  The record-list controller: its state, and each handler as a pure
  transition. The asynchronous `loadRecords` is split at its `await` into
  `BeginLoad` (the synchronous part, which issues the fetch) and
  `CompleteLoad` (what runs when the fetch settles); `loadConfig` likewise
  becomes `ConfigSettled`.
 */
module ListController {
  import opened Optional
  import opened Text
  import opened FieldResolver
  import opened Formatting
  import opened Columns
  import opened MobileFields

  const ConfigName := "RecordToDisplay"
  const DefaultPageSize := 10
  const LoadMore := "loadMore"
  const InfiniteScroll := "infiniteScroll"
  /** Pixels from the bottom at which scrolling asks for the next page. */
  const ScrollThreshold := 100

  /** The configuration record the data service returns; every property may be missing. */
  datatype Config = Config(
    objectApiName: Option<string>,
    recordType: Option<string>,
    pageSize: Option<int>,
    loadingType: Option<string>,
    sortBy: Option<string>,
    fields: seq<FieldEntry>,
    isExpandable: bool,
    visibleMobileFields: Option<int>)

  /** `{}` */
  const EmptyConfig := Config(None, None, None, None, None, [], false, None)

  /**
    A record as the data service returns it: its `Id` and its (possibly
    nested) fields. `Id` is read both directly (`record.Id`) and, for an
    `Id` column, through `fields`.
   */
  datatype RawRecord = RawRecord(Id: string, fields: map<string, JsValue>)

  /** The record's `Id` property, seen as a field, is the record's `Id`. */
  predicate WellFormedRecord(raw: RawRecord) {
    "Id" in raw.fields && raw.fields["Id"] == Prim(raw.Id)
  }

  /** A mapped record. `mobile` is absent for a record without cells. */
  datatype Row = Row(Id: string, key: string, rowNumber: int, cells: seq<Cell>,
                     mobile: Option<MobileLayout>)

  /** `{...record, isExpanded}` */
  datatype DisplayedRow = DisplayedRow(row: Row, isExpanded: bool)

  datatype Response = Response(records: seq<RawRecord>, totalCount: int, hasMore: bool,
                               currentOffset: int)

  /** How a call to the data service settles; a rejection may carry `error.body.message`. */
  datatype Outcome<T> = Resolved(value: T) | Rejected(message: Option<string>)

  /** The arguments of `getRecords`. */
  datatype Request = Request(configName: string, pageSize: int, offset: int, searchTerm: string,
                             sortBy: Option<string>)

  /** A fetch the controller started, with the `reset` flag its completion will use. */
  datatype Fetch = Fetch(reset: bool, request: Request)

  datatype State = State(
    records: seq<Row>,
    columns: seq<Column>,
    error: Option<string>,
    isLoading: bool,
    searchTerm: string,
    sortField: string,
    sortDirection: Direction,
    totalRecords: int,
    config: Config,
    listTitle: string,
    displayedRecords: seq<DisplayedRow>,
    hasMoreRecords: bool,
    lastUpdateTime: Option<int>,
    pageSize: int,
    currentOffset: int,
    loadingType: string,
    /** The term of the debounced search timer, while one is pending. */
    pendingSearchTerm: Option<string>,
    expandedCardIds: set<string>)

  /** A transition's new state and the fetch it started, if any. */
  datatype Step = Step(state: State, fetch: Option<Fetch>)

  /** The state before `connectedCallback`. */
  const Initial := State([], [], None, false, "", "", Asc, 0, EmptyConfig, "Records", [], false,
                         None, DefaultPageSize, 0, LoadMore, None, {})

  /**
    `error.body?.message || fallback`: a non-empty message wins, anything
    else gives the fallback, so a non-empty fallback never yields `''`.
   */
  function ErrorText(message: Option<string>, fallback: string): (r: string)
    ensures Truthy(message) ==> r == message.value
    ensures !Truthy(message) ==> r == fallback
    ensures fallback != "" ==> r != ""
  {
    if Truthy(message) then message.value else fallback
  }

  /** `${Id}_${position}` */
  function RowKey(id: string, position: int): (key: string)
    ensures |key| == |id| + 1 + |IntToString(position)|
    ensures key[|id|] == '_'
  {
    id + "_" + IntToString(position)
  }

  /** A key splits back into the Id before the underscore and the position's text after it. */
  lemma RowKeyParts(id: string, position: int)
    ensures var key := RowKey(id, position);
            key[..|id|] == id && key[|id| + 1..] == IntToString(position)
  {
    var key := RowKey(id, position);
    assert key == id + "_" + IntToString(position);
  }

  /** When `a + [sep] + s == b + [sep] + t` and `t` is the longer tail, `t` holds the separator of the left side. */
  lemma SeparatorInLongerSuffix(a: string, s: string, b: string, t: string, sep: char)
    requires a + [sep] + s == b + [sep] + t
    requires |s| < |t|
    ensures t[|t| - |s| - 1] == sep
  {
    var k := a + [sep] + s;
    assert k[|a|] == sep;
    assert |b| + 1 + (|t| - |s| - 1) == |a|;
  }

  /** A key names one (Id, position) pair: equal keys mean equal Ids and equal positions. */
  lemma RowKeyInjective(id1: string, p1: int, id2: string, p2: int)
    requires RowKey(id1, p1) == RowKey(id2, p2)
    ensures id1 == id2 && p1 == p2
  {
    var s1, s2 := IntToString(p1), IntToString(p2);
    var k := RowKey(id1, p1);
    assert k == id1 + "_" + s1 && k == id2 + "_" + s2;
    if |s1| < |s2| {
      SeparatorInLongerSuffix(id1, s1, id2, s2, '_');
      assert false;
    } else if |s2| < |s1| {
      SeparatorInLongerSuffix(id2, s2, id1, s1, '_');
      assert false;
    }
    assert s1 == k[|k| - |s1|..] == s2;
    assert id1 == k[..|id1|] == id2;
    IntToStringInjective(p1, p2);
  }

  /**
    The `sortBy` argument: with a chosen column, its name, a space and the
    upper-cased direction; without one, the configured default.
   */
  function SortBy(s: State): (r: Option<string>)
    ensures s.sortField == "" ==> r == s.config.sortBy
    ensures s.sortField != "" ==>
              && r.Some? && |r.value| > |s.sortField| + 1
              && r.value[..|s.sortField| + 1] == s.sortField + " "
              && r.value[|s.sortField| + 1..] == (if s.sortDirection == Asc then "ASC" else "DESC")
  {
    if s.sortField != "" then
      Some(s.sortField + " " + (if s.sortDirection == Asc then "ASC" else "DESC"))
    else s.config.sortBy
  }

  /** One cell per column, in column order. */
  function MakeCells(p: Platform, columns: seq<Column>, raw: RawRecord): (cells: seq<Cell>)
    ensures |cells| == |columns|
    ensures forall i :: 0 <= i < |columns| ==>
              && cells[i].fieldName == columns[i].fieldName
              && cells[i].labelText == columns[i].labelText
              && cells[i].isLink == columns[i].isLink
              && cells[i].value == GetFieldValue(Some(raw.fields), columns[i].fieldName)
              && cells[i].displayValue == FormatDisplayValue(p, cells[i].value, columns[i].columnType)
  {
    seq(|columns|, i requires 0 <= i < |columns| =>
      var c := columns[i];
      var v := GetFieldValue(Some(raw.fields), c.fieldName);
      Cell(c.fieldName, c.labelText, v, c.isLink, FormatDisplayValue(p, v, c.columnType)))
  }

  /** For a well-formed record, an `Id` column shows the record's own `Id`. */
  lemma IdColumnShowsId(p: Platform, columns: seq<Column>, raw: RawRecord, i: nat)
    requires WellFormedRecord(raw)
    requires i < |columns| && columns[i].fieldName == "Id"
    ensures MakeCells(p, columns, raw)[i].value == raw.Id
  {
    SplitWithoutSeparator("Id", '.');
  }

  /** The row built for the fetched record at zero-based list position `position`. */
  function MakeRow(p: Platform, columns: seq<Column>, config: Config, position: int,
                   raw: RawRecord): (row: Row)
    ensures row.Id == raw.Id && row.rowNumber == position + 1
    ensures row.key == RowKey(raw.Id, position)
    ensures row.cells == MakeCells(p, columns, raw)
    ensures row.mobile == SetupMobileFields(row.cells, config.visibleMobileFields, config.isExpandable)
  {
    var cells := MakeCells(p, columns, raw);
    Row(raw.Id, RowKey(raw.Id, position), position + 1, cells,
        SetupMobileFields(cells, config.visibleMobileFields, config.isExpandable))
  }

  /** `result.records.map(...)`: the k-th record gets row number `offset + k + 1`. */
  function MapRecords(p: Platform, columns: seq<Column>, config: Config, offset: int,
                      raws: seq<RawRecord>): (rows: seq<Row>)
    ensures |rows| == |raws|
    ensures forall k :: 0 <= k < |raws| ==>
              && rows[k].Id == raws[k].Id
              && rows[k].rowNumber == offset + k + 1
              && rows[k].key == RowKey(raws[k].Id, offset + k)
              && rows[k].cells == MakeCells(p, columns, raws[k])
              && rows[k].mobile == SetupMobileFields(rows[k].cells, config.visibleMobileFields,
                                                     config.isExpandable)
  {
    seq(|raws|, k requires 0 <= k < |raws| => MakeRow(p, columns, config, offset + k, raws[k]))
  }

  /** Each row paired with whether its Id is in the expansion set. */
  function Decorate(rows: seq<Row>, ids: set<string>): (shown: seq<DisplayedRow>)
    ensures |shown| == |rows|
    ensures forall i :: 0 <= i < |rows| ==>
              shown[i].row == rows[i] && (shown[i].isExpanded <==> rows[i].Id in ids)
  {
    seq(|rows|, i requires 0 <= i < |rows| => DisplayedRow(rows[i], rows[i].Id in ids))
  }

  /**
    The synchronous start of `loadRecords(reset)`: mark loading, clear the
    error, on a reset start over from offset 0 with no records, and ask for
    a page at the current offset. Nothing else changes.
   */
  function BeginLoad(s: State, reset: bool): (r: Step)
    ensures r.state.isLoading && r.state.error.None?
    ensures reset ==> r.state.currentOffset == 0 && r.state.records == [] && r.state.displayedRecords == []
    ensures !reset ==> r.state.currentOffset == s.currentOffset && r.state.records == s.records &&
                       r.state.displayedRecords == s.displayedRecords
    ensures r.state.(isLoading := s.isLoading, error := s.error, currentOffset := s.currentOffset,
                     records := s.records, displayedRecords := s.displayedRecords) == s
    ensures r.fetch == Some(Fetch(reset, Request(ConfigName, s.pageSize, r.state.currentOffset,
                                                 s.searchTerm, SortBy(s))))
  {
    var started := s.(isLoading := true, error := None);
    var cleared := if reset then started.(currentOffset := 0, records := [], displayedRecords := [])
                   else started;
    Step(cleared, Some(Fetch(reset, Request(ConfigName, cleared.pageSize, cleared.currentOffset,
                                            cleared.searchTerm, SortBy(cleared)))))
  }

  /**
    `r` is what starting a reset load from `s` gives: loading, no error, no
    records, offset 0, nothing else changed, and a request for the first
    page with `s`'s page size, search term and sort.
   */
  predicate StartsReset(s: State, r: Step) {
    && r.state.isLoading && r.state.error.None?
    && r.state.records == [] && r.state.displayedRecords == [] && r.state.currentOffset == 0
    && r.state.(isLoading := s.isLoading, error := s.error, currentOffset := s.currentOffset,
                records := s.records, displayedRecords := s.displayedRecords) == s
    && r.fetch == Some(Fetch(true, Request(ConfigName, s.pageSize, 0, s.searchTerm, SortBy(s))))
  }

  /**
    `r` is what starting an append from `s` gives: loading and no error,
    nothing else changed, and a request for the page at `s`'s offset with
    its page size, search term and sort.
   */
  predicate StartsAppend(s: State, r: Step) {
    && r.state == s.(isLoading := true, error := None)
    && r.fetch == Some(Fetch(false, Request(ConfigName, s.pageSize, s.currentOffset, s.searchTerm,
                                            SortBy(s))))
  }

  /** The `catch` block of `loadRecords`: report the error and empty both record lists. */
  function LoadFailed(s: State, message: Option<string>): (t: State)
    ensures t.records == [] && t.displayedRecords == [] && !t.isLoading
    ensures t.error == Some(ErrorText(message, "Error fetching records"))
    ensures t.(records := s.records, displayedRecords := s.displayedRecords,
               error := s.error, isLoading := s.isLoading) == s
  {
    s.(error := Some(ErrorText(message, "Error fetching records")), records := [],
       displayedRecords := [], isLoading := false)
  }

  /**
    The successful path of `loadRecords(reset)`, reading the state as it is
    when the fetch settles: the mapped page, numbered on from the current
    offset, replaces the records (reset) or follows them; the offset moves
    to the server's offset plus the number of records returned.
   */
  function PageLoaded(p: Platform, s: State, reset: bool, result: Response, now: int): (t: State)
    ensures !t.isLoading
    ensures var mapped := MapRecords(p, s.columns, s.config, s.currentOffset, result.records);
            && t.records == (if reset then [] else s.records) + mapped
            && t.displayedRecords == (if reset then [] else s.displayedRecords) +
                                     Decorate(mapped, s.expandedCardIds)
    ensures t.currentOffset == result.currentOffset + |result.records|
    ensures t.hasMoreRecords == result.hasMore && t.totalRecords == result.totalCount
    ensures t.lastUpdateTime == Some(now)
    ensures t.(records := s.records, displayedRecords := s.displayedRecords, isLoading := s.isLoading,
               currentOffset := s.currentOffset, hasMoreRecords := s.hasMoreRecords,
               totalRecords := s.totalRecords, lastUpdateTime := s.lastUpdateTime) == s
  {
    var mapped := MapRecords(p, s.columns, s.config, s.currentOffset, result.records);
    var shown := Decorate(mapped, s.expandedCardIds);
    s.(records := (if reset then [] else s.records) + mapped,
       displayedRecords := (if reset then [] else s.displayedRecords) + shown,
       totalRecords := result.totalCount, hasMoreRecords := result.hasMore,
       currentOffset := result.currentOffset + |result.records|,
       lastUpdateTime := Some(now), isLoading := false)
  }

  /**
    What runs when a `loadRecords(reset)` fetch settles. On success, the
    page is merged as `PageLoaded` says; on failure the error is set and
    both record lists are emptied, whether the fetch was a reset or an
    append, with `hasMoreRecords` and the offset left as they were. Loading
    ends either way.
   */
  function CompleteLoad(p: Platform, s: State, reset: bool, outcome: Outcome<Response>, now: int)
    : (t: State)
    ensures !t.isLoading
    ensures outcome.Rejected? ==>
              && t.records == [] && t.displayedRecords == []
              && t.error.Some?
              && t.hasMoreRecords == s.hasMoreRecords && t.currentOffset == s.currentOffset
    ensures outcome.Resolved? ==> t == PageLoaded(p, s, reset, outcome.value, now)
    ensures outcome.Rejected? ==> t == LoadFailed(s, outcome.message)
  {
    match outcome
    case Rejected(message) => LoadFailed(s, message)
    case Resolved(result) => PageLoaded(p, s, reset, result, now)
  }

  /** How a template literal shows an optional string: a missing one reads `undefined`. */
  function Interpolated(o: Option<string>): (t: string)
    ensures o.Some? ==> t == o.value
    ensures o.None? ==> t == "undefined"
  {
    match o
    case Some(v) => v
    case None => "undefined"
  }

  /**
    The list title: the record type, a space and the pluralised object name
    when there is a record type, otherwise just the pluralised object name;
    a missing object name shows as `undefined`. Either way it ends in `s`.
   */
  function ListTitle(c: Config): (r: string)
    ensures |r| >= 1 && r[|r| - 1] == 's'
    ensures Truthy(c.recordType) ==> r == c.recordType.value + " " + Interpolated(c.objectApiName) + "s"
    ensures !Truthy(c.recordType) ==> r == Interpolated(c.objectApiName) + "s"
  {
    var objectName := Interpolated(c.objectApiName);
    if Truthy(c.recordType) then c.recordType.value + " " + objectName + "s" else objectName + "s"
  }

  /**
    The `catch` block of `loadConfig`: report the error, clear the
    configuration and the columns and fall back to the generic title.
    Nothing else changes.
   */
  function ConfigFailed(s: State, message: Option<string>): (t: State)
    ensures t.error == Some(ErrorText(message, "Error loading configuration"))
    ensures t.config == EmptyConfig && t.columns == [] && t.listTitle == "Records"
    ensures t.(error := s.error, config := s.config, columns := s.columns, listTitle := s.listTitle) == s
  {
    s.(error := Some(ErrorText(message, "Error loading configuration")), config := EmptyConfig,
       columns := [], listTitle := "Records")
  }

  /** The page size: the configured one unless it is missing or zero, then the default of 10. */
  function PageSizeOf(c: Config): (n: int)
    ensures n != 0
    ensures c.pageSize.Some? && c.pageSize.value != 0 ==> n == c.pageSize.value
    ensures c.pageSize.None? || c.pageSize.value == 0 ==> n == DefaultPageSize
  {
    if c.pageSize.None? || c.pageSize.value == 0 then DefaultPageSize else c.pageSize.value
  }

  /** The loading type: the configured one unless it is missing or empty, then `loadMore`. */
  function LoadingTypeOf(c: Config): (l: string)
    ensures l != ""
    ensures Truthy(c.loadingType) ==> l == c.loadingType.value
    ensures !Truthy(c.loadingType) ==> l == LoadMore
  {
    if Truthy(c.loadingType) then c.loadingType.value else LoadMore
  }

  /**
    `loadConfig` once `getConfig` settles. On success the configuration,
    title, page size (default 10) and loading type (default `loadMore`) are
    installed, the columns are set up from it and a reset load starts with
    the current search and sort. On failure the error is set, configuration
    and columns are cleared and nothing is fetched; a `null` entry among the
    fields makes column set-up throw into that same failure path, after the
    page size and loading type were already installed. Search, sort,
    expansions and the record lists are untouched by a failure.
   */
  function ConfigSettled(p: Platform, s: State, outcome: Outcome<Config>): (r: Step)
    ensures outcome.Rejected? ==>
              && r.fetch.None?
              && r.state.error == Some(ErrorText(outcome.message, "Error loading configuration"))
              && r.state.config == EmptyConfig && r.state.columns == [] && r.state.listTitle == "Records"
              && r.state.(error := s.error, config := s.config, columns := s.columns,
                          listTitle := s.listTitle) == s
    ensures outcome.Resolved? && NullEntry in outcome.value.fields ==>
              && r.fetch.None?
              && r.state.error == Some("Error loading configuration")
              && r.state.config == EmptyConfig && r.state.columns == [] && r.state.listTitle == "Records"
              && r.state.pageSize == PageSizeOf(outcome.value)
              && r.state.loadingType == LoadingTypeOf(outcome.value)
              && r.state.(error := s.error, config := s.config, columns := s.columns,
                          listTitle := s.listTitle, pageSize := s.pageSize,
                          loadingType := s.loadingType) == s
    ensures outcome.Resolved? && NullEntry !in outcome.value.fields ==>
              var c := outcome.value;
              && r.state.config == c
              && Some(r.state.columns) == SetupColumns(p, s.columns, c.fields)
              && r.state.listTitle == ListTitle(c)
              && r.state.pageSize == PageSizeOf(c)
              && r.state.loadingType == LoadingTypeOf(c)
              && r.state.error.None? && r.state.isLoading
              && r.state.records == [] && r.state.displayedRecords == [] && r.state.currentOffset == 0
              && r.state.(config := s.config, columns := s.columns, listTitle := s.listTitle,
                          pageSize := s.pageSize, loadingType := s.loadingType, error := s.error,
                          isLoading := s.isLoading, records := s.records,
                          displayedRecords := s.displayedRecords, currentOffset := s.currentOffset) == s
              && r.fetch == Some(Fetch(true, Request(ConfigName, PageSizeOf(c), 0, s.searchTerm,
                                                     SortBy(r.state))))
  {
    match outcome
    case Rejected(message) => Step(ConfigFailed(s, message), None)
    case Resolved(c) =>
      var installed := s.(config := c, listTitle := ListTitle(c), pageSize := PageSizeOf(c),
                          loadingType := LoadingTypeOf(c));
      match SetupColumns(p, s.columns, c.fields)
      case None => Step(ConfigFailed(installed, None), None)
      case Some(columns) => BeginLoad(installed.(columns := columns), true)
  }

  /** `handleSearch`: (re)start the debounce timer for the newly typed term. */
  function HandleSearch(s: State, term: string): (t: State)
    ensures t.pendingSearchTerm == Some(term)
    ensures t.(pendingSearchTerm := s.pendingSearchTerm) == s
  {
    s.(pendingSearchTerm := Some(term))
  }

  /**
    The debounce timer firing: the pending term becomes the search term and
    a reset load starts, but only if it differs from the current term.
   */
  function SearchTimerFires(s: State): (r: Step)
    ensures s.pendingSearchTerm.None? ==> r == Step(s, None)
    ensures s.pendingSearchTerm.Some? ==>
              && r.state.pendingSearchTerm.None?
              && r.state.searchTerm == s.pendingSearchTerm.value
              && (r.fetch.Some? <==> s.pendingSearchTerm.value != s.searchTerm)
    ensures r.fetch.Some? ==> r.fetch.value.reset && r.fetch.value.request.searchTerm == r.state.searchTerm
    ensures r.fetch.Some? ==> StartsReset(s.(pendingSearchTerm := None, searchTerm := r.state.searchTerm), r)
    ensures r.fetch.None? ==> r.state == s.(pendingSearchTerm := None)
  {
    match s.pendingSearchTerm
    case None => Step(s, None)
    case Some(term) =>
      var fired := s.(pendingSearchTerm := None);
      if s.searchTerm != term then BeginLoad(fired.(searchTerm := term), true) else Step(fired, None)
  }

  function Flip(d: Direction): Direction {
    if d == Asc then Desc else Asc
  }

  /** `getSortIconForField` on the controller's current sort. */
  function GetSortIconForField(s: State, fieldName: string): (icon: SortIcon)
    ensures icon == ArrowUp <==> fieldName == s.sortField && s.sortDirection == Asc
  {
    SortIconFor(s.sortField, s.sortDirection, fieldName)
  }

  /**
    `handleSort`: the same field flips the direction, a different field
    becomes the sort field in ascending order; every column's icon is
    recomputed (up only for the sorted column when ascending) with nothing
    else about the column changed; then a reset load starts, whether or not
    one is already running.
   */
  function HandleSort(s: State, fieldName: string): (r: Step)
    ensures r.state.sortField == fieldName
    ensures r.state.sortDirection == if s.sortField == fieldName then Flip(s.sortDirection) else Asc
    ensures |r.state.columns| == |s.columns|
    ensures forall i :: 0 <= i < |s.columns| ==>
              r.state.columns[i].(sortIcon := s.columns[i].sortIcon) == s.columns[i]
    ensures forall i :: 0 <= i < |s.columns| ==>
              (r.state.columns[i].sortIcon == ArrowUp <==>
                 s.columns[i].fieldName == fieldName && r.state.sortDirection == Asc)
    ensures r.state.expandedCardIds == s.expandedCardIds
    ensures r.fetch.Some? && r.fetch.value.reset
    ensures StartsReset(s.(sortField := r.state.sortField, sortDirection := r.state.sortDirection,
                           columns := r.state.columns), r)
    ensures fieldName != "" ==>
              r.fetch.value.request.sortBy ==
                Some(fieldName + " " + (if r.state.sortDirection == Asc then "ASC" else "DESC"))
  {
    var direction := if s.sortField == fieldName then Flip(s.sortDirection) else Asc;
    var sorted := s.(sortField := fieldName, sortDirection := direction);
    var columns := seq(|s.columns|, i requires 0 <= i < |s.columns| =>
      s.columns[i].(sortIcon :=
        if s.columns[i].fieldName == fieldName then (if direction == Asc then ArrowUp else ArrowDown)
        else ArrowDown));
    BeginLoad(sorted.(columns := columns), true)
  }

  /** `handleLoadMore`: append the next page, only with more records and no load running. */
  function HandleLoadMore(s: State): (r: Step)
    ensures r.fetch.Some? <==> s.hasMoreRecords && !s.isLoading
    ensures r.fetch.Some? ==> !r.fetch.value.reset && r.fetch.value.request.offset == s.currentOffset
    ensures r.fetch.Some? ==> r.state.isLoading && r.state.records == s.records
    ensures r.fetch.Some? ==> StartsAppend(s, r)
    ensures r.fetch.None? ==> r.state == s
  {
    if s.hasMoreRecords && !s.isLoading then BeginLoad(s, false) else Step(s, None)
  }

  /** The scroll position is within the threshold of the bottom. */
  function NearBottom(scrollTop: int, scrollHeight: int, clientHeight: int): (b: bool)
    ensures b <==> scrollHeight - (scrollTop + clientHeight) <= ScrollThreshold
  {
    scrollTop + clientHeight >= scrollHeight - ScrollThreshold
  }

  /**
    `handleScroll`: in infinite-scroll mode, near the bottom, append the next
    page under the same guard as `handleLoadMore`.
   */
  function HandleScroll(s: State, scrollTop: int, scrollHeight: int, clientHeight: int): (r: Step)
    ensures r.fetch.Some? <==>
              && s.loadingType == InfiniteScroll
              && scrollTop + clientHeight >= scrollHeight - ScrollThreshold
              && s.hasMoreRecords && !s.isLoading
    ensures r.fetch.Some? ==> !r.fetch.value.reset && r.fetch.value.request.offset == s.currentOffset
    ensures r.fetch.Some? ==> StartsAppend(s, r)
    ensures r.fetch.None? ==> r.state == s
  {
    if s.loadingType != InfiniteScroll then Step(s, None)
    else if NearBottom(scrollTop, scrollHeight, clientHeight) && s.hasMoreRecords && !s.isLoading then
      BeginLoad(s, false)
    else Step(s, None)
  }

  /** `handleRefresh`: forget every expansion and start a reset load. */
  function HandleRefresh(s: State): (r: Step)
    ensures r.state.expandedCardIds == {}
    ensures r.state.records == [] && r.state.displayedRecords == [] && r.state.currentOffset == 0
    ensures r.fetch.Some? && r.fetch.value.reset && r.fetch.value.request.offset == 0
    ensures StartsReset(s.(expandedCardIds := {}), r)
  {
    BeginLoad(s.(expandedCardIds := {}), true)
  }

  /**
    `handleCardExpand`: with an expandable configuration, toggle the card's
    Id in the expansion set and recompute every displayed row's `isExpanded`
    from it, changing nothing else; otherwise do nothing.
   */
  function HandleCardExpand(s: State, id: string): (t: State)
    ensures !s.config.isExpandable ==> t == s
    ensures s.config.isExpandable ==>
              && (id in t.expandedCardIds <==> id !in s.expandedCardIds)
              && (forall x :: x != id ==> (x in t.expandedCardIds <==> x in s.expandedCardIds))
              && |t.displayedRecords| == |s.displayedRecords|
              && (forall i :: 0 <= i < |s.displayedRecords| ==>
                    && t.displayedRecords[i].row == s.displayedRecords[i].row
                    && (t.displayedRecords[i].isExpanded <==>
                          s.displayedRecords[i].row.Id in t.expandedCardIds))
              && t.(expandedCardIds := s.expandedCardIds, displayedRecords := s.displayedRecords) == s
  {
    if !s.config.isExpandable then s
    else
      var ids := if id in s.expandedCardIds then s.expandedCardIds - {id} else s.expandedCardIds + {id};
      var shown := seq(|s.displayedRecords|, i requires 0 <= i < |s.displayedRecords| =>
        s.displayedRecords[i].(isExpanded := s.displayedRecords[i].row.Id in ids));
      s.(expandedCardIds := ids, displayedRecords := shown)
  }

  /**
    The `showLoadMoreButton` getter: shown in load-more mode exactly when a
    click would start an append.
   */
  function ShowLoadMoreButton(s: State): (b: bool)
    ensures b <==> s.loadingType == LoadMore && HandleLoadMore(s).fetch.Some?
  {
    s.loadingType == LoadMore && s.hasMoreRecords && !s.isLoading
  }

  /** Everything that can happen to the controller. */
  datatype Event =
    | ConfigLoaded(config: Outcome<Config>)
    | SearchTyped(term: string)
    | SearchTimer
    | SortClicked(fieldName: string)
    | LoadMoreClicked
    | Scrolled(scrollTop: int, scrollHeight: int, clientHeight: int)
    | RefreshClicked
    | CardToggled(id: string)
    | RecordsSettled(reset: bool, response: Outcome<Response>, now: int)

  function Apply(p: Platform, s: State, e: Event): Step {
    match e
    case ConfigLoaded(c) => ConfigSettled(p, s, c)
    case SearchTyped(term) => Step(HandleSearch(s, term), None)
    case SearchTimer => SearchTimerFires(s)
    case SortClicked(f) => HandleSort(s, f)
    case LoadMoreClicked => HandleLoadMore(s)
    case Scrolled(top, height, client) => HandleScroll(s, top, height, client)
    case RefreshClicked => HandleRefresh(s)
    case CardToggled(id) => Step(HandleCardExpand(s, id), None)
    case RecordsSettled(reset, response, now) => Step(CompleteLoad(p, s, reset, response, now), None)
  }
}
