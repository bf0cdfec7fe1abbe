/**
  Column mapping (`setupColumns`, `isLinkField`) and the per-column sort
  indicator (`getSortIconForField`).
 */
module Columns {
  import opened Optional
  import opened Text
  import opened Formatting

  /** `'utility:arrowup'` and `'utility:arrowdown'`. */
  datatype SortIcon = ArrowUp | ArrowDown

  datatype Direction = Asc | Desc

  /**
    One entry of the configuration's `fields` list: a bare field name, an
    object whose properties may each be missing, `null` (whose `fieldName`
    read throws), or any other value such as a number (which maps to no
    column).
   */
  datatype FieldEntry =
    | NameEntry(name: string)
    | ObjectEntry(fieldName: Option<string>, labelText: Option<string>, sortable: Option<bool>,
                  isLink: Option<bool>, columnType: Option<string>)
    | NullEntry
    | OtherEntry

  datatype Column = Column(labelText: string, fieldName: string, sortable: bool, isLink: bool,
                           columnType: string, sortIcon: SortIcon)

  /** A JavaScript truthiness test on an optional string. */
  predicate Truthy(s: Option<string>) {
    s.Some? && s.value != ""
  }

  /**
    `isLinkField`: the lower-cased field name mentions `name`, `email` or
    `url` somewhere.
   */
  function IsLinkField(fieldName: string): (b: bool)
    ensures b <==> (var l := ToLower(fieldName);
                    Occurs(l, "name") || Occurs(l, "email") || Occurs(l, "url"))
  {
    var words := ["name", "email", "url"];
    assert words[0] == "name" && words[1] == "email" && words[2] == "url";
    MentionsAny(fieldName, words)
  }

  /**
    The column an entry maps to, or `None` for an entry the final filter
    drops. Every kept column carries the entry's field name and starts with
    the down arrow; a bare name always gives a sortable text column.
   */
  function ToColumn(p: Platform, e: FieldEntry): (r: Option<Column>)
    ensures r.Some? <==> HasFieldName(e)
    ensures r.Some? ==> r.value.sortIcon == ArrowDown
    ensures r.Some? && e.NameEntry? ==>
              && r.value.fieldName == e.name
              && r.value.labelText == p.formatLabel(e.name)
              && r.value.sortable && r.value.columnType == "text"
              && (r.value.isLink <==> IsLinkField(e.name))
    ensures r.Some? && e.ObjectEntry? ==> r.value.fieldName == e.fieldName.value
  {
    match e
    case NameEntry(n) =>
      if n == "" then None
      else Some(Column(p.formatLabel(n), n, true, IsLinkField(n), "text", ArrowDown))
    case ObjectEntry(fieldName, labelText, sortable, isLink, columnType) =>
      if !Truthy(fieldName) then None
      else
        var n := fieldName.value;
        Some(Column(if Truthy(labelText) then labelText.value else p.formatLabel(n),
                    n,
                    sortable != Some(false),
                    isLink == Some(true),
                    if Truthy(columnType) then columnType.value else "text",
                    ArrowDown))
    case NullEntry => None
    case OtherEntry => None
  }

  /** The entry names a field, so it yields a column. */
  predicate HasFieldName(e: FieldEntry) {
    match e
    case NameEntry(n) => n != ""
    case ObjectEntry(fieldName, _, _, _, _) => Truthy(fieldName)
    case NullEntry => false
    case OtherEntry => false
  }

  function CountNamed(entries: seq<FieldEntry>): nat
    decreases |entries|
  {
    if entries == [] then 0 else (if HasFieldName(entries[0]) then 1 else 0) + CountNamed(entries[1..])
  }

  /** The columns an entry contributes after the filter: its own, or none. */
  function OwnColumn(p: Platform, e: FieldEntry): seq<Column> {
    match ToColumn(p, e) case Some(c) => [c] case None => []
  }

  /**
    `fields.map(...).filter(col => col && col.fieldName)`: one column per
    entry that names a field, in entry order.
   */
  function MapEntries(p: Platform, entries: seq<FieldEntry>): (columns: seq<Column>)
    ensures |columns| == CountNamed(entries)
    ensures forall i :: 0 <= i < |columns| ==>
              columns[i].fieldName != "" && columns[i].sortIcon == ArrowDown
    decreases |entries|
  {
    if entries == [] then [] else OwnColumn(p, entries[0]) + MapEntries(p, entries[1..])
  }

  /** Every column is the one some entry of the list maps to. */
  lemma {:induction false} MapEntriesFromEntries(p: Platform, entries: seq<FieldEntry>, c: Column)
    requires c in MapEntries(p, entries)
    ensures exists e :: e in entries && ToColumn(p, e) == Some(c)
    decreases |entries|
  {
    if c in OwnColumn(p, entries[0]) {
      assert ToColumn(p, entries[0]) == Some(c);
    } else {
      MapEntriesFromEntries(p, entries[1..], c);
      var e :| e in entries[1..] && ToColumn(p, e) == Some(c);
      assert e in entries;
    }
  }

  /**
    `setupColumns`: with a non-empty `fields` list, the columns are the
    mapped entries; with an empty one, the previous columns stay. A `null`
    entry makes the mapping throw (`None`), whatever else the list holds.
   */
  function SetupColumns(p: Platform, previous: seq<Column>, fields: seq<FieldEntry>)
    : (columns: Option<seq<Column>>)
    ensures columns.None? <==> NullEntry in fields
    ensures fields == [] ==> columns == Some(previous)
    ensures fields != [] && NullEntry !in fields ==> columns == Some(MapEntries(p, fields))
  {
    if |fields| > 0 then
      if NullEntry in fields then None else Some(MapEntries(p, fields))
    else Some(previous)
  }

  /** Mapping keeps input order: the columns of a concatenation are the concatenated columns. */
  lemma {:induction false} MapEntriesKeepsOrder(p: Platform, a: seq<FieldEntry>, b: seq<FieldEntry>)
    ensures MapEntries(p, a + b) == MapEntries(p, a) + MapEntries(p, b)
    decreases |a|
  {
    if a == [] {
      assert a + b == b;
    } else {
      var ab := a + b;
      assert ab[0] == a[0] && ab[1..] == a[1..] + b;
      MapEntriesKeepsOrder(p, a[1..], b);
      var head, ra, rb := OwnColumn(p, a[0]), MapEntries(p, a[1..]), MapEntries(p, b);
      assert MapEntries(p, ab) == head + (ra + rb);
      assert head + (ra + rb) == (head + ra) + rb;
    }
  }

  /**
    A bare field name becomes a sortable text column whose link flag is the
    name heuristic; an empty name is dropped.
   */
  lemma NameEntryColumn(p: Platform, name: string)
    ensures name == "" ==> MapEntries(p, [NameEntry(name)]) == []
    ensures name != "" ==>
              MapEntries(p, [NameEntry(name)]) ==
              [Column(p.formatLabel(name), name, true, IsLinkField(name), "text", ArrowDown)]
  {
  }

  /**
    An object entry without a field name is dropped; otherwise it is sortable
    unless `sortable` is exactly `false`, a link only when `isLink` is
    `true`, typed `text` and labelled by the formatted name unless it
    supplies non-empty values of its own.
   */
  lemma ObjectEntryColumn(p: Platform, e: FieldEntry)
    requires e.ObjectEntry?
    ensures !Truthy(e.fieldName) ==> MapEntries(p, [e]) == []
    ensures Truthy(e.fieldName) ==>
              var cs := MapEntries(p, [e]);
              && |cs| == 1
              && cs[0].fieldName == e.fieldName.value
              && cs[0].labelText == (if Truthy(e.labelText) then e.labelText.value else p.formatLabel(e.fieldName.value))
              && (cs[0].sortable <==> e.sortable != Some(false))
              && (cs[0].isLink <==> e.isLink == Some(true))
              && cs[0].columnType == (if Truthy(e.columnType) then e.columnType.value else "text")
              && cs[0].sortIcon == ArrowDown
  {
  }

  /** `getSortIconForField`: up only for the sorted field in ascending order. */
  function SortIconFor(sortField: string, sortDirection: Direction, fieldName: string): (icon: SortIcon)
    ensures icon == ArrowUp <==> fieldName == sortField && sortDirection == Asc
  {
    if sortField == fieldName then (if sortDirection == Asc then ArrowUp else ArrowDown)
    else ArrowDown
  }
}
