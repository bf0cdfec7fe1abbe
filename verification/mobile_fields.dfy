/**
  Mobile grouping (`setupMobileFields`): pick a record's primary cell, split
  the rest into the always-visible and the hidden-until-expanded cells, and
  pick a subtitle.
 */
module MobileFields {
  import opened Optional
  import opened Text

  /** One rendered field of a record. */
  datatype Cell = Cell(fieldName: string, labelText: string, value: string, isLink: bool,
                       displayValue: string)

  /** The properties `setupMobileFields` adds to a record that has cells. */
  datatype MobileLayout = MobileLayout(
    primaryField: Cell,
    allFields: seq<Cell>,
    visibleFields: seq<Cell>,
    hiddenFields: seq<Cell>,
    isExpandable: bool,
    hasHiddenFields: bool,
    showExpandButton: bool,
    subtitle: Option<string>)

  /** The lower-cased name mentions `name`, `title` or `subject`. */
  function IsPrimaryName(fieldName: string): (b: bool)
    ensures b <==> (var l := ToLower(fieldName);
                    Occurs(l, "name") || Occurs(l, "title") || Occurs(l, "subject"))
  {
    var words := ["name", "title", "subject"];
    assert words[0] == "name" && words[1] == "title" && words[2] == "subject";
    MentionsAny(fieldName, words)
  }

  /** The lower-cased name mentions `id` or `number`. */
  function IsSubtitleName(fieldName: string): (b: bool)
    ensures b <==> (var l := ToLower(fieldName); Occurs(l, "id") || Occurs(l, "number"))
  {
    var words := ["id", "number"];
    assert words[0] == "id" && words[1] == "number";
    MentionsAny(fieldName, words)
  }

  /** `findIndex`: the first position whose element satisfies `f`, if any. */
  function FindIndex<T>(xs: seq<T>, f: T -> bool): (r: Option<nat>)
    ensures r.Some? ==> r.value < |xs| && f(xs[r.value])
    ensures r.Some? ==> forall j :: 0 <= j < r.value ==> !f(xs[j])
    ensures r.None? ==> forall j :: 0 <= j < |xs| ==> !f(xs[j])
    decreases |xs|
  {
    if xs == [] then None
    else if f(xs[0]) then Some(0)
    else
      match FindIndex(xs[1..], f)
      case None => None
      case Some(k) => Some(k + 1)
  }

  /** `config.visibleMobileFields || 2`: missing or zero means two. */
  function VisibleCount(setting: Option<int>): (n: int)
    ensures n != 0
    ensures setting.None? ==> n == 2
    ensures setting.Some? ==> n == if setting.value == 0 then 2 else setting.value
  {
    if setting.None? || setting.value == 0 then 2 else setting.value
  }

  /**
    How `Array.prototype.slice` reads an end index `k` on a list of length
    `len`: a non-negative index is clamped to the length, a negative one
    counts back from the end and is clamped to zero.
   */
  function SliceIndex(k: int, len: nat): (i: nat)
    ensures i <= len
    ensures 0 <= k ==> i == if k <= len then k else len
    ensures k < 0 && -k <= len ==> i + -k == len
    ensures k < 0 && -k > len ==> i == 0
  {
    if k < 0 then (if len + k < 0 then 0 else len + k)
    else if k > len then len
    else k
  }

  /** The first cell is the first whose name satisfies `f`. */
  ghost predicate FirstMatch(cells: seq<Cell>, f: string -> bool, p: int) {
    0 <= p < |cells| && f(cells[p].fieldName) &&
    forall j :: 0 <= j < p ==> !f(cells[j].fieldName)
  }

  /**
    The primary cell and the other cells in order: the first cell with a
    primary name, or else the first cell.
   */
  function SplitPrimary(cells: seq<Cell>): (r: (Cell, seq<Cell>))
    requires cells != []
    ensures |r.1| == |cells| - 1
    ensures (forall i :: 0 <= i < |cells| ==> !IsPrimaryName(cells[i].fieldName)) ==>
              r == (cells[0], cells[1..])
    ensures forall p :: FirstMatch(cells, IsPrimaryName, p) ==> r == (cells[p], cells[..p] + cells[p + 1..])
  {
    match FindIndex(cells, (c: Cell) => IsPrimaryName(c.fieldName))
    case Some(i) => (cells[i], cells[..i] + cells[i + 1..])
    case None => (cells[0], cells[1..])
  }

  /** The display value of the first cell with a subtitle name, over all cells. */
  function SubtitleOf(cells: seq<Cell>): (r: Option<string>)
    ensures r.Some? <==> exists i :: 0 <= i < |cells| && IsSubtitleName(cells[i].fieldName)
    ensures forall s :: FirstMatch(cells, IsSubtitleName, s) ==> r == Some(cells[s].displayValue)
  {
    match FindIndex(cells, (c: Cell) => IsSubtitleName(c.fieldName))
    case Some(i) => Some(cells[i].displayValue)
    case None => None
  }

  /**
    `slice(0, count)` and `slice(count)` of the same list: a positive count
    keeps at most that many in front, a negative one moves that many (at
    most all) to the back.
   */
  function SplitVisible(all: seq<Cell>, count: int): (r: (seq<Cell>, seq<Cell>))
    ensures r.0 + r.1 == all
    ensures r.0 == all[..SliceIndex(count, |all|)] && r.1 == all[SliceIndex(count, |all|)..]
    ensures count > 0 ==> |r.0| <= count
    ensures count > 0 && r.1 != [] ==> |r.0| == count
    ensures count < 0 ==> |r.1| == if -count <= |all| then -count else |all|
  {
    var k := SliceIndex(count, |all|);
    assert all[..k] + all[k..] == all;
    (all[..k], all[k..])
  }

  /**
    `setupMobileFields`. A record without cells gets no layout. Otherwise the
    primary cell is the first whose name matches `IsPrimaryName`, or the
    first cell when none does; the other cells, in order, are split into the
    first `visibleMobileFields` (default 2) and the rest; the expand button
    shows only for an expandable configuration with hidden cells; the
    subtitle is the display value of the first cell of all (the primary
    included) whose name matches `IsSubtitleName`.
   */
  function SetupMobileFields(cells: seq<Cell>, visibleSetting: Option<int>, isExpandable: bool)
    : (layout: Option<MobileLayout>)
    ensures layout.None? <==> cells == []
    ensures cells != [] && (forall i :: 0 <= i < |cells| ==> !IsPrimaryName(cells[i].fieldName)) ==>
              layout.value.primaryField == cells[0] && layout.value.allFields == cells[1..]
    ensures forall p :: FirstMatch(cells, IsPrimaryName, p) ==>
              layout.value.primaryField == cells[p] &&
              layout.value.allFields == cells[..p] + cells[p + 1..]
    ensures layout.Some? ==>
              var m := layout.value;
              var count := VisibleCount(visibleSetting);
              && |m.allFields| == |cells| - 1
              && m.visibleFields + m.hiddenFields == m.allFields
              && (count > 0 ==> |m.visibleFields| <= count)
              && (count > 0 && m.hiddenFields != [] ==> |m.visibleFields| == count)
              && m.visibleFields == m.allFields[..SliceIndex(count, |m.allFields|)]
              && (count < 0 ==>
                    |m.hiddenFields| == if -count <= |m.allFields| then -count else |m.allFields|)
              && m.isExpandable == isExpandable
              && (m.hasHiddenFields <==> m.hiddenFields != [])
              && (m.showExpandButton <==> isExpandable && m.hiddenFields != [])
    ensures layout.Some? ==>
              (layout.value.subtitle.Some? <==>
                 exists i :: 0 <= i < |cells| && IsSubtitleName(cells[i].fieldName))
    ensures forall s :: FirstMatch(cells, IsSubtitleName, s) ==>
              layout.value.subtitle == Some(cells[s].displayValue)
  {
    if cells == [] then None
    else
      var (primary, all) := SplitPrimary(cells);
      var (visible, hidden) := SplitVisible(all, VisibleCount(visibleSetting));
      Some(MobileLayout(primary, all, visible, hidden, isExpandable, |hidden| > 0,
                        isExpandable && |hidden| > 0, SubtitleOf(cells)))
  }
}
