/**
  Field resolution (`getFieldValue`): read a possibly dotted field path out of
  a record returned by the data service, turning every kind of absence into
  the empty string.
 */
module FieldResolver {
  import opened Optional
  import opened Text

  /**
    A JavaScript value as far as field lookup tells them apart. `Prim` is a
    string, number or boolean, carried as the text `String(value)` gives it;
    `Obj` is an object with its own properties.
   */
  datatype JsValue = Undefined | Null | Prim(text: string) | Obj(fields: map<string, JsValue>) {
    predicate IsNullish() {
      Undefined? || Null?
    }
  }

  /** `value?.[part]`: absent properties and nullish values give `undefined`. */
  function Member(v: JsValue, part: string): (r: JsValue)
    ensures !v.Obj? ==> r == Undefined
    ensures r != Undefined ==> v.Obj? && part in v.fields && r == v.fields[part]
    ensures v.Obj? && part in v.fields ==> r == v.fields[part]
  {
    match v
    case Obj(m) => if part in m then m[part] else Undefined
    case _ => Undefined
  }

  /** `value != null ? String(value) : ''`. */
  function Render(v: JsValue): (r: string)
    ensures r == "" <==> v.IsNullish() || v == Prim("")
    ensures v.Prim? ==> r == v.text
  {
    match v
    case Undefined => ""
    case Null => ""
    case Prim(t) => t
    case Obj(_) => "[object Object]"
  }

  /** Reference reading of a path: apply the lookups one after another, never stopping. */
  function Descend(v: JsValue, path: seq<string>): JsValue
    decreases |path|
  {
    if path == [] then v else Descend(Member(v, path[0]), path[1..])
  }

  lemma {:induction false} DescendFromNullish(v: JsValue, path: seq<string>)
    requires v.IsNullish()
    ensures Descend(v, path).IsNullish()
    decreases |path|
  {
    if path != [] {
      DescendFromNullish(Member(v, path[0]), path[1..]);
    }
  }

  /**
    The loop of `getFieldValue`: step through the parts, stopping at the
    first nullish value. Stopping early only ever happens where reading on
    would stay nullish, so the result is the reference reading or both are
    nullish.
   */
  function Walk(v: JsValue, parts: seq<string>): (r: JsValue)
    ensures r == Descend(v, parts) || (r.IsNullish() && Descend(v, parts).IsNullish())
    decreases |parts|
  {
    if parts == [] then v
    else
      var next := Member(v, parts[0]);
      if next.IsNullish() then
        DescendFromNullish(next, parts[1..]);
        next
      else Walk(next, parts[1..])
  }

  lemma {:induction false} DescendConcat(v: JsValue, a: seq<string>, b: seq<string>)
    ensures Descend(v, a + b) == Descend(Descend(v, a), b)
    decreases |a|
  {
    if a != [] {
      assert (a + b)[1..] == a[1..] + b;
      DescendConcat(Member(v, a[0]), a[1..], b);
    } else {
      assert a + b == b;
    }
  }

  /** Stopping early at a nullish value renders the same as reading on. */
  lemma {:induction false} WalkRendersAsDescend(v: JsValue, parts: seq<string>)
    ensures Render(Walk(v, parts)) == Render(Descend(v, parts))
    decreases |parts|
  {
    if parts != [] {
      var next := Member(v, parts[0]);
      if next.IsNullish() {
        DescendFromNullish(next, parts[1..]);
      } else {
        WalkRendersAsDescend(next, parts[1..]);
      }
    }
  }

  /**
    `getFieldValue(record, fieldName)`. A missing record (`None`) or an empty
    field name gives `''`; a field name with a dot is split and walked, any
    other is looked up directly; a nullish result gives `''`, anything else
    its string form. The two branches agree with one reference reading:
    split the name on dots and descend.
   */
  function GetFieldValue(record: Option<map<string, JsValue>>, fieldName: string): (r: string)
    ensures record.None? || fieldName == "" ==> r == ""
    ensures record.Some? && fieldName != "" ==>
              r == Render(Descend(Obj(record.value), Split(fieldName, '.')))
  {
    if record.None? || fieldName == "" then ""
    else if '.' in fieldName then
      var parts := Split(fieldName, '.');
      WalkRendersAsDescend(Obj(record.value), parts);
      Render(Walk(Obj(record.value), parts))
    else
      SplitWithoutSeparator(fieldName, '.');
      Render(Member(Obj(record.value), fieldName))
  }

  /**
    A missing or nullish segment anywhere on the path (after the first `k`
    segments the value is nullish) makes the whole lookup `''`.
   */
  lemma MissingSegmentGivesEmpty(record: map<string, JsValue>, fieldName: string, k: nat)
    requires fieldName != ""
    requires k <= |Split(fieldName, '.')|
    requires Descend(Obj(record), Split(fieldName, '.')[..k]).IsNullish()
    ensures GetFieldValue(Some(record), fieldName) == ""
  {
    var parts := Split(fieldName, '.');
    assert parts == parts[..k] + parts[k..];
    DescendConcat(Obj(record), parts[..k], parts[k..]);
    DescendFromNullish(Descend(Obj(record), parts[..k]), parts[k..]);
  }

  /** The record that holds `leaf` at the end of `path`, one nested object per segment. */
  function Nest(path: seq<string>, leaf: JsValue): JsValue
    decreases |path|
  {
    if path == [] then leaf else Obj(map[path[0] := Nest(path[1..], leaf)])
  }

  lemma {:induction false} DescendNest(path: seq<string>, leaf: JsValue)
    ensures Descend(Nest(path, leaf), path) == leaf
    decreases |path|
  {
    if path != [] {
      DescendNest(path[1..], leaf);
    }
  }

  /**
    Round trip: store a value at a dotted path, then read that path back with
    `getFieldValue`, and get the value's string form (`''` for null/undefined).
   */
  lemma NestedFieldRoundTrip(path: seq<string>, leaf: JsValue)
    requires |path| >= 1
    requires forall i :: 0 <= i < |path| ==> '.' !in path[i]
    requires Join(path, '.') != ""
    ensures GetFieldValue(Some(Nest(path, leaf).fields), Join(path, '.')) == Render(leaf)
  {
    SplitOfJoin(path, '.');
    DescendNest(path, leaf);
  }
}
