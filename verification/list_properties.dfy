/**
  Properties of the record-list controller that relate several transitions:
  the displayed list always follows the records and the expansion set, row
  numbers stay gapless while the server echoes the requested offset, keys
  are unique, toggling a card twice is undone, the debounced search fires
  once with the last term, and appends only start under the guard.
 */
module ListProperties {
  import opened Optional
  import opened Formatting
  import opened Columns
  import opened ListController

  // ---------------------------------------------------------------------
  // Loading a page

  /**
    A settled page keeps the rows before it (none after a reset) and
    follows them with one row per fetched record, in order: the row at
    position `i` past the kept ones has the i-th fetched Id and row number
    `currentOffset + i + 1` (its key is covered by `WellKeyedIsInvariant`). The displayed
    list gains the same new rows, each flagged by the Id's membership in
    the expansion set.
   */
  lemma LoadedPageNumbering(p: Platform, s: State, reset: bool, result: Response, now: int)
    ensures var t := PageLoaded(p, s, reset, result, now);
            var page := result.records;
            var kept := if reset then [] else s.records;
            var keptShown := if reset then [] else s.displayedRecords;
            && |t.records| == |kept| + |page|
            && t.records[..|kept|] == kept
            && (forall i :: |kept| <= i < |t.records| ==>
                  && t.records[i].Id == page[i - |kept|].Id
                  && t.records[i].rowNumber == s.currentOffset + (i - |kept|) + 1)
            && t.displayedRecords == keptShown + Decorate(t.records[|kept|..], s.expandedCardIds)
  {
    LoadedRowsFollowPage(p, s, reset, result, now);
    LoadedRowsShown(p, s, reset, result, now);
  }

  lemma LoadedRowsFollowPage(p: Platform, s: State, reset: bool, result: Response, now: int)
    ensures var t := PageLoaded(p, s, reset, result, now);
            var page := result.records;
            var kept := if reset then [] else s.records;
            && |t.records| == |kept| + |page|
            && t.records[..|kept|] == kept
            && (forall i :: |kept| <= i < |t.records| ==>
                  && t.records[i].Id == page[i - |kept|].Id
                  && t.records[i].rowNumber == s.currentOffset + (i - |kept|) + 1)
  {
    var kept := if reset then [] else s.records;
    MappedAfter(p, s.columns, s.config, s.currentOffset, result.records, kept);
  }

  /** Mapped rows put after `kept` carry the fetched Ids and consecutive row numbers. */
  lemma MappedAfter(p: Platform, columns: seq<Column>, config: Config, offset: int,
                    raws: seq<RawRecord>, kept: seq<Row>)
    ensures var all := kept + MapRecords(p, columns, config, offset, raws);
            && |all| == |kept| + |raws|
            && all[..|kept|] == kept
            && forall i :: |kept| <= i < |all| ==>
                 all[i].Id == raws[i - |kept|].Id && all[i].rowNumber == offset + (i - |kept|) + 1
  {
    var mapped := MapRecords(p, columns, config, offset, raws);
    var all := kept + mapped;
    forall i | |kept| <= i < |all|
      ensures all[i].Id == raws[i - |kept|].Id && all[i].rowNumber == offset + (i - |kept|) + 1
    {
      assert all[i] == mapped[i - |kept|];
    }
  }

  lemma LoadedRowsShown(p: Platform, s: State, reset: bool, result: Response, now: int)
    ensures var t := PageLoaded(p, s, reset, result, now);
            var kept := if reset then [] else s.records;
            var keptShown := if reset then [] else s.displayedRecords;
            && |kept| <= |t.records|
            && t.displayedRecords == keptShown + Decorate(t.records[|kept|..], s.expandedCardIds)
  {
    var t := PageLoaded(p, s, reset, result, now);
    var mapped := MapRecords(p, s.columns, s.config, s.currentOffset, result.records);
    var kept := if reset then [] else s.records;
    assert t.records == kept + mapped;
    assert t.records[|kept|..] == mapped;
  }

  // ---------------------------------------------------------------------
  // The displayed list follows the records and the expansion set

  ghost predicate DisplayConsistent(s: State) {
    s.displayedRecords == Decorate(s.records, s.expandedCardIds)
  }

  lemma DecorateConcat(a: seq<Row>, b: seq<Row>, ids: set<string>)
    ensures Decorate(a + b, ids) == Decorate(a, ids) + Decorate(b, ids)
  {
  }

  /** A loaded page keeps the displayed list in step with the records. */
  lemma PageLoadedDisplayConsistent(p: Platform, s: State, reset: bool, result: Response, now: int)
    requires DisplayConsistent(s)
    ensures DisplayConsistent(PageLoaded(p, s, reset, result, now))
  {
    var mapped := MapRecords(p, s.columns, s.config, s.currentOffset, result.records);
    if reset {
      assert [] + mapped == mapped;
      assert [] + Decorate(mapped, s.expandedCardIds) == Decorate(mapped, s.expandedCardIds);
    } else {
      DecorateConcat(s.records, mapped, s.expandedCardIds);
    }
  }

  /**
    Every transition keeps `displayedRecords` equal to the records paired
    with their expansion flags, so the two lists never diverge.
   */
  lemma DisplayConsistentIsInvariant(p: Platform, s: State, e: Event)
    requires DisplayConsistent(s)
    ensures DisplayConsistent(Apply(p, s, e).state)
  {
    match e
    case CardToggled(id) =>
      var t := HandleCardExpand(s, id);
      if s.config.isExpandable {
        assert t.records == s.records;
        assert t.displayedRecords == Decorate(t.records, t.expandedCardIds);
      }
    case RecordsSettled(reset, response, now) =>
      if response.Resolved? {
        PageLoadedDisplayConsistent(p, s, reset, response.value, now);
      }
    case LoadMoreClicked =>
      var t := HandleLoadMore(s).state;
      assert t.records == s.records && t.displayedRecords == s.displayedRecords;
    case Scrolled(top, height, client) =>
      var t := HandleScroll(s, top, height, client).state;
      assert t.records == s.records && t.displayedRecords == s.displayedRecords;
    case SearchTyped(term) =>
      var t := HandleSearch(s, term);
      assert t.records == s.records && t.displayedRecords == s.displayedRecords;
    case SearchTimer =>
    case ConfigLoaded(c) =>
    case SortClicked(f) =>
      var t := HandleSort(s, f).state;
      assert t.records == [] && t.displayedRecords == [];
    case RefreshClicked =>
      var t := HandleRefresh(s).state;
      assert t.records == [] && t.displayedRecords == [];
  }

  // ---------------------------------------------------------------------
  // Keys

  /** Every row's key is its Id and its zero-based position (row number minus one). */
  ghost predicate RowsWellKeyed(rows: seq<Row>) {
    forall i :: 0 <= i < |rows| ==> rows[i].key == RowKey(rows[i].Id, rows[i].rowNumber - 1)
  }

  ghost predicate WellKeyed(s: State) {
    RowsWellKeyed(s.records)
  }

  /** Well-keyed rows stay well-keyed when put one after the other. */
  lemma RowsWellKeyedConcat(a: seq<Row>, b: seq<Row>)
    requires RowsWellKeyed(a) && RowsWellKeyed(b)
    ensures RowsWellKeyed(a + b)
  {
    var all := a + b;
    forall i | 0 <= i < |all| ensures all[i].key == RowKey(all[i].Id, all[i].rowNumber - 1) {
      if i >= |a| {
        assert all[i] == b[i - |a|];
      }
    }
  }

  /** Mapped rows are keyed by Id and position, so adding them after well-keyed rows keeps that. */
  lemma MappedRowsWellKeyed(p: Platform, columns: seq<Column>, config: Config, offset: int,
                            raws: seq<RawRecord>, kept: seq<Row>)
    requires RowsWellKeyed(kept)
    ensures RowsWellKeyed(kept + MapRecords(p, columns, config, offset, raws))
  {
    var mapped := MapRecords(p, columns, config, offset, raws);
    assert RowsWellKeyed(mapped) by {
      forall k | 0 <= k < |mapped| ensures mapped[k].key == RowKey(mapped[k].Id, mapped[k].rowNumber - 1) {
        assert mapped[k].rowNumber - 1 == offset + k;
      }
    }
    RowsWellKeyedConcat(kept, mapped);
  }

  lemma PageLoadedWellKeyed(p: Platform, s: State, reset: bool, result: Response, now: int)
    requires WellKeyed(s)
    ensures WellKeyed(PageLoaded(p, s, reset, result, now))
  {
    MappedRowsWellKeyed(p, s.columns, s.config, s.currentOffset, result.records,
                        if reset then [] else s.records);
  }

  /** Every transition keeps each row's key equal to its Id and zero-based position. */
  lemma WellKeyedIsInvariant(p: Platform, s: State, e: Event)
    requires WellKeyed(s)
    ensures WellKeyed(Apply(p, s, e).state)
  {
    match e
    case RecordsSettled(reset, response, now) =>
      if response.Resolved? {
        PageLoadedWellKeyed(p, s, reset, response.value, now);
      }
    case CardToggled(id) =>
      assert HandleCardExpand(s, id).records == s.records;
    case LoadMoreClicked =>
      assert HandleLoadMore(s).state.records == s.records;
    case Scrolled(top, height, client) =>
      assert HandleScroll(s, top, height, client).state.records == s.records;
    case SearchTyped(term) =>
      assert HandleSearch(s, term).records == s.records;
    case SearchTimer =>
      var r := SearchTimerFires(s);
      assert r.state.records == s.records || r.state.records == [];
    case ConfigLoaded(c) =>
      var r := ConfigSettled(p, s, c);
      assert r.state.records == s.records || r.state.records == [];
    case SortClicked(f) =>
      assert HandleSort(s, f).state.records == [];
    case RefreshClicked =>
      assert HandleRefresh(s).state.records == [];
  }

  /** Rows with different row numbers have different keys, whatever their Ids. */
  lemma KeysUnique(s: State)
    requires WellKeyed(s)
    requires forall i, j :: 0 <= i < j < |s.records| ==> s.records[i].rowNumber != s.records[j].rowNumber
    ensures forall i, j :: 0 <= i < j < |s.records| ==> s.records[i].key != s.records[j].key
  {
    forall i, j | 0 <= i < j < |s.records|
      ensures s.records[i].key != s.records[j].key
    {
      if s.records[i].key == s.records[j].key {
        RowKeyInjective(s.records[i].Id, s.records[i].rowNumber - 1,
                        s.records[j].Id, s.records[j].rowNumber - 1);
        assert false;
      }
    }
  }

  // ---------------------------------------------------------------------
  // Row numbering

  /** Rows are numbered 1, 2, ... in order and the offset points just past the last one. */
  ghost predicate Gapless(s: State) {
    && s.currentOffset == |s.records|
    && forall i :: 0 <= i < |s.records| ==> s.records[i].rowNumber == i + 1
  }

  /** A gapless list has pairwise distinct keys. */
  lemma GaplessKeysUnique(s: State)
    requires Gapless(s) && WellKeyed(s)
    ensures forall i, j :: 0 <= i < j < |s.records| ==> s.records[i].key != s.records[j].key
  {
    KeysUnique(s);
  }

  /** Starting a reset load leaves an empty, gapless list at offset 0. */
  lemma ResetStartsGapless(s: State)
    ensures Gapless(BeginLoad(s, true).state)
  {
  }

  /**
    An appended page that the server reports at the requested offset keeps
    the list gapless and the earlier rows untouched.
   */
  lemma AppendKeepsGapless(p: Platform, s: State, result: Response, now: int)
    requires Gapless(s)
    requires result.currentOffset == s.currentOffset
    ensures var t := CompleteLoad(p, s, false, Resolved(result), now);
            Gapless(t) && t.records[..|s.records|] == s.records
  {
    LoadedPageNumbering(p, s, false, result, now);
    var t := CompleteLoad(p, s, false, Resolved(result), now);
    forall i | 0 <= i < |t.records| ensures t.records[i].rowNumber == i + 1 {
      if i < |s.records| {
        assert t.records[i] == t.records[..|s.records|][i];
      } else {
        assert t.records[|s.records| + (i - |s.records|)].rowNumber == s.currentOffset + (i - |s.records|) + 1;
      }
    }
  }

  /** The first page of a reset load, reported at offset 0, is numbered from 1. */
  lemma ResetPageGapless(p: Platform, s: State, result: Response, now: int)
    requires result.currentOffset == 0
    ensures Gapless(CompleteLoad(p, BeginLoad(s, true).state, true, Resolved(result), now))
  {
    var b := BeginLoad(s, true).state;
    var mapped := MapRecords(p, b.columns, b.config, 0, result.records);
    assert CompleteLoad(p, b, true, Resolved(result), now).records == [] + mapped;
    MappedAfter(p, b.columns, b.config, 0, result.records, []);
  }

  /** The controller starts with every invariant above in force. */
  lemma InitialInvariants()
    ensures DisplayConsistent(Initial) && WellKeyed(Initial) && Gapless(Initial)
  {
  }

  function TotalLen(pages: seq<Response>): nat
    decreases |pages|
  {
    if pages == [] then 0 else |pages[0].records| + TotalLen(pages[1..])
  }

  /** Each page is reported at the offset the pages before it reached, starting from `start`. */
  ghost predicate EchoesFrom(pages: seq<Response>, start: int) {
    forall k :: 0 <= k < |pages| ==> pages[k].currentOffset == start + TotalLen(pages[..k])
  }

  /** Start an append and let it settle with each page in turn. */
  function AppendAll(p: Platform, s: State, pages: seq<Response>, now: int): State
    decreases |pages|
  {
    if pages == [] then s
    else AppendAll(p, CompleteLoad(p, BeginLoad(s, false).state, false, Resolved(pages[0]), now),
                   pages[1..], now)
  }

  /**
    Any number of appended pages, each reported at the offset reached so
    far, keep the list gapless: after pages totalling M records on top of
    n rows, the rows are numbered exactly 1 .. n + M, the first n unchanged.
   */
  lemma {:induction false} AppendAllGapless(p: Platform, s: State, pages: seq<Response>, now: int)
    requires Gapless(s)
    requires EchoesFrom(pages, |s.records|)
    ensures var t := AppendAll(p, s, pages, now);
            && Gapless(t)
            && |t.records| == |s.records| + TotalLen(pages)
            && t.records[..|s.records|] == s.records
    decreases |pages|
  {
    if pages != [] {
      var b := BeginLoad(s, false).state;
      var s1 := CompleteLoad(p, b, false, Resolved(pages[0]), now);
      assert pages[..0] == [];
      AppendKeepsGapless(p, b, pages[0], now);
      LoadedPageNumbering(p, b, false, pages[0], now);
      forall k | 0 <= k < |pages[1..]|
        ensures pages[1..][k].currentOffset == |s1.records| + TotalLen(pages[1..][..k])
      {
        assert pages[..k + 1][1..] == pages[1..][..k];
        assert pages[1..][k] == pages[k + 1];
      }
      AppendAllGapless(p, s1, pages[1..], now);
      var t := AppendAll(p, s1, pages[1..], now);
      assert t.records[..|s.records|] == t.records[..|s1.records|][..|s.records|];
    }
  }

  /**
    A reset followed by appends, with the server echoing every offset,
    numbers the accumulated rows exactly 1 .. M with no gaps or repeats,
    and their keys are pairwise distinct.
   */
  lemma ResetThenAppendsGapless(p: Platform, s: State, first: Response, pages: seq<Response>, now: int)
    requires first.currentOffset == 0
    requires EchoesFrom(pages, |first.records|)
    ensures var t := AppendAll(p, CompleteLoad(p, BeginLoad(s, true).state, true, Resolved(first), now),
                               pages, now);
            && |t.records| == |first.records| + TotalLen(pages)
            && (forall i :: 0 <= i < |t.records| ==> t.records[i].rowNumber == i + 1)
            && (forall i, j :: 0 <= i < j < |t.records| ==> t.records[i].key != t.records[j].key)
  {
    var b := BeginLoad(s, true).state;
    var s1 := CompleteLoad(p, b, true, Resolved(first), now);
    ResetPageGapless(p, s, first, now);
    assert Gapless(s1) && |s1.records| == |first.records|;
    AppendAllGapless(p, s1, pages, now);
    PageLoadedWellKeyed(p, b, true, first, now);
    WellKeyedAppendAll(p, s1, pages, now);
    var t := AppendAll(p, s1, pages, now);
    GaplessKeysUnique(t);
  }

  lemma {:induction false} WellKeyedAppendAll(p: Platform, s: State, pages: seq<Response>, now: int)
    requires WellKeyed(s)
    ensures WellKeyed(AppendAll(p, s, pages, now))
    decreases |pages|
  {
    if pages != [] {
      var b := BeginLoad(s, false).state;
      assert b.records == s.records;
      PageLoadedWellKeyed(p, b, false, pages[0], now);
      WellKeyedAppendAll(p, PageLoaded(p, b, false, pages[0], now), pages[1..], now);
    }
  }

  /**
    As written, a failed append empties the list but keeps the offset and
    `hasMoreRecords`, so the load-more button stays and the next page is
    numbered on from the old offset: its first row is `n + 1`, not 1.
   */
  lemma FailedAppendKeepsOffset(p: Platform, s: State, message: Option<string>, result: Response, now: int)
    requires Gapless(s) && |s.records| > 0
    requires s.hasMoreRecords && s.loadingType == LoadMore
    requires |result.records| > 0
    ensures var f := CompleteLoad(p, s, false, Rejected(message), now);
            && f.records == [] && f.displayedRecords == []
            && !Gapless(f)
            && ShowLoadMoreButton(f)
            && HandleLoadMore(f).fetch.Some?
            && HandleLoadMore(f).fetch.value.request.offset == |s.records|
            && CompleteLoad(p, HandleLoadMore(f).state, false, Resolved(result), now).records[0].rowNumber
                 == |s.records| + 1
  {
    var f := CompleteLoad(p, s, false, Rejected(message), now);
    var b := HandleLoadMore(f).state;
    LoadedPageNumbering(p, b, false, result, now);
    assert CompleteLoad(p, b, false, Resolved(result), now).records[0 + 0].rowNumber == b.currentOffset + 1;
  }

  // ---------------------------------------------------------------------
  // Sorting

  /** After a sort, every column's icon is what `getSortIconForField` gives for it. */
  lemma SortIconsMatchGetter(s: State, fieldName: string)
    ensures var t := HandleSort(s, fieldName).state;
            forall i :: 0 <= i < |t.columns| ==>
              t.columns[i].sortIcon == GetSortIconForField(t, t.columns[i].fieldName)
  {
    var t := HandleSort(s, fieldName).state;
    forall i | 0 <= i < |t.columns|
      ensures t.columns[i].sortIcon == GetSortIconForField(t, t.columns[i].fieldName)
    {
      assert t.columns[i].fieldName == s.columns[i].fieldName;
    }
  }

  /**
    Sorting by a field and then by the same field flips the direction; then
    by another field makes that field current, ascending.
   */
  lemma SortTwice(s: State, f: string, g: string)
    ensures var t := HandleSort(s, f).state;
            && HandleSort(t, f).state.sortDirection == Flip(t.sortDirection)
            && (g != f ==> HandleSort(t, g).state.sortField == g &&
                           HandleSort(t, g).state.sortDirection == Asc)
    ensures s.sortField == f ==> HandleSort(HandleSort(s, f).state, f).state.sortDirection == s.sortDirection
  {
  }

  // ---------------------------------------------------------------------
  // Debounced search

  /** Typing the terms one after another, faster than the debounce delay. */
  function TypeAll(s: State, terms: seq<string>): State
    decreases |terms|
  {
    if terms == [] then s else TypeAll(HandleSearch(s, terms[0]), terms[1..])
  }

  lemma {:induction false} TypingKeepsLastTerm(s: State, terms: seq<string>)
    requires |terms| >= 1
    ensures TypeAll(s, terms) == s.(pendingSearchTerm := Some(terms[|terms| - 1]))
    decreases |terms|
  {
    if |terms| > 1 {
      TypingKeepsLastTerm(HandleSearch(s, terms[0]), terms[1..]);
    }
  }

  /**
    However many terms are typed before the timer fires, it issues at most
    one fetch, only if the last term differs from the current one, and
    with the last term; firing again issues nothing.
   */
  lemma DebouncedSearchFiresOnce(s: State, terms: seq<string>)
    requires |terms| >= 1
    ensures var last := terms[|terms| - 1];
            var r := SearchTimerFires(TypeAll(s, terms));
            && (r.fetch.Some? <==> last != s.searchTerm)
            && r.state.searchTerm == last
            && (r.fetch.Some? ==> r.fetch.value.reset && r.fetch.value.request.searchTerm == last)
            && SearchTimerFires(r.state).fetch.None?
  {
    TypingKeepsLastTerm(s, terms);
  }

  // ---------------------------------------------------------------------
  // Expansion

  /** Toggling the same card twice gives back the state it started from. */
  lemma ToggleTwiceRestores(s: State, id: string)
    requires DisplayConsistent(s)
    ensures HandleCardExpand(HandleCardExpand(s, id), id) == s
  {
    if s.config.isExpandable {
      var t := HandleCardExpand(s, id);
      var u := HandleCardExpand(t, id);
      assert u.expandedCardIds == s.expandedCardIds;
      assert u.displayedRecords == s.displayedRecords;
    }
  }

  /**
    Only a refresh clears the expansion set: every event other than a
    refresh or a card toggle leaves it as it was.
   */
  lemma ExpansionClearedOnlyByRefresh(p: Platform, s: State, e: Event)
    ensures HandleRefresh(s).state.expandedCardIds == {}
    ensures !e.RefreshClicked? && !e.CardToggled? ==> Apply(p, s, e).state.expandedCardIds == s.expandedCardIds
  {
  }

  // ---------------------------------------------------------------------
  // Append guards

  /**
    With no more records, or while a load is running, nothing starts an
    append: every fetch any event starts is a reset.
   */
  lemma NoAppendUnlessGuard(p: Platform, s: State, e: Event)
    requires !s.hasMoreRecords || s.isLoading
    ensures Apply(p, s, e).fetch.Some? ==> Apply(p, s, e).fetch.value.reset
  {
  }

  // ---------------------------------------------------------------------
  // A worked session

  /**
    With a configured page size of 2, the first page of two records shows
    rows 1 and 2; loading more brings a third record with no more to come,
    the list shows rows 1, 2, 3 and further load-more clicks do nothing.
   */
  lemma TwoPageSession(p: Platform, config: Config, a: RawRecord, b: RawRecord, c: RawRecord, now: int)
    requires config.pageSize == Some(2)
    requires NullEntry !in config.fields
    ensures
      var r1 := ConfigSettled(p, Initial, Resolved(config));
      var s2 := CompleteLoad(p, r1.state, true, Resolved(Response([a, b], 3, true, 0)), now);
      var r3 := HandleLoadMore(s2);
      var s4 := CompleteLoad(p, r3.state, false, Resolved(Response([c], 3, false, 2)), now);
      && r1.fetch.Some? && r1.fetch.value.request.pageSize == 2 && r1.fetch.value.request.offset == 0
      && |s2.records| == 2 && s2.records[0].rowNumber == 1 && s2.records[1].rowNumber == 2
      && r3.fetch.Some? && r3.fetch.value.request.offset == 2
      && |s4.records| == 3
      && s4.records[0].rowNumber == 1 && s4.records[1].rowNumber == 2 && s4.records[2].rowNumber == 3
      && HandleLoadMore(s4).fetch.None?
  {
    var r1 := ConfigSettled(p, Initial, Resolved(config));
    var s2 := CompleteLoad(p, r1.state, true, Resolved(Response([a, b], 3, true, 0)), now);
    SessionFirstPage(p, config, a, b, now);
    SessionSecondPage(p, s2, c, now);
  }

  /** The configuration settles and the first page of two records arrives. */
  lemma SessionFirstPage(p: Platform, config: Config, a: RawRecord, b: RawRecord, now: int)
    requires config.pageSize == Some(2)
    requires NullEntry !in config.fields
    ensures
      var r1 := ConfigSettled(p, Initial, Resolved(config));
      var s2 := CompleteLoad(p, r1.state, true, Resolved(Response([a, b], 3, true, 0)), now);
      && r1.fetch.Some? && r1.fetch.value.request.pageSize == 2 && r1.fetch.value.request.offset == 0
      && |s2.records| == 2 && s2.records[0].rowNumber == 1 && s2.records[1].rowNumber == 2
      && s2.hasMoreRecords && !s2.isLoading && s2.currentOffset == 2
  {
    var r1 := ConfigSettled(p, Initial, Resolved(config));
    var first := Response([a, b], 3, true, 0);
    LoadedPageNumbering(p, r1.state, true, first, now);
  }

  /** Two rows shown and more to come: one more record arrives and the list is complete. */
  lemma SessionSecondPage(p: Platform, s2: State, c: RawRecord, now: int)
    requires |s2.records| == 2 && s2.records[0].rowNumber == 1 && s2.records[1].rowNumber == 2
    requires s2.hasMoreRecords && !s2.isLoading && s2.currentOffset == 2
    ensures
      var r3 := HandleLoadMore(s2);
      var s4 := CompleteLoad(p, r3.state, false, Resolved(Response([c], 3, false, 2)), now);
      && r3.fetch.Some? && r3.fetch.value.request.offset == 2
      && |s4.records| == 3
      && s4.records[0].rowNumber == 1 && s4.records[1].rowNumber == 2 && s4.records[2].rowNumber == 3
      && HandleLoadMore(s4).fetch.None?
  {
    var r3 := HandleLoadMore(s2);
    var second := Response([c], 3, false, 2);
    LoadedPageNumbering(p, r3.state, false, second, now);
    var s4 := CompleteLoad(p, r3.state, false, Resolved(second), now);
    assert s4.records[..2] == s2.records;
    assert s4.records[0] == s2.records[0] && s4.records[1] == s2.records[1];
  }
}
