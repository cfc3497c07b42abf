/**
  The settings table (`table_population` in setupvar-builder/main.py and the
  `add_*` methods of setupvar-builder/gui.py): one row per stored setting, in
  store order and then offset order, and the editor each row starts with.
  Only a row that has an editor can later be exported. Qt widgets are
  reduced to the value they hold.
 */
module Table {
  import opened Assoc
  import opened Settings

  /** The bounds the numeric-editor test compares the default against (a C `int`). */
  const Int32Min: int := -2147483648
  const Int32Max: int := 2147483647

  /**
    The widget in a row's fourth column: a combo box with its items and
    current text, a spin box with its value, a check box, or none at all.
   */
  datatype Editor =
    | NoEditor
    | Selector(items: seq<string>, choice: string)
    | SpinBox(value: int)
    | Tick(checked: bool)

  /** The four columns of a table row. */
  datatype Row = Row(name: string, store: string, offset: string, editor: Editor)

  /** One stored setting together with the two keys it is filed under. */
  datatype Entry = Entry(store: string, offset: string, setting: Setting)

  /**
    The table built from a model. `MissingOptions` is the `KeyError` raised
    for a one-of without options: its row has already been appended, and
    no later entry gets a row.
   */
  datatype Population = Populated(rows: seq<Row>) | MissingOptions(rows: seq<Row>)

  /** The entries of one store, in offset insertion order. */
  function EntriesOf(store: string, d: Dict<string, Setting>): (r: seq<Entry>)
    ensures |r| == |d|
    ensures forall i :: 0 <= i < |d| ==> r[i] == Entry(store, d[i].0, d[i].1)
  {
    seq(|d|, i requires 0 <= i < |d| => Entry(store, d[i].0, d[i].1))
  }

  /** The two nested `for` loops of `table_population`: stores first, then offsets. */
  function Entries(m: Model): (r: seq<Entry>)
    ensures forall i :: 0 <= i < |r| ==> r[i].store in Keys(m)
  {
    if |m| == 0 then []
    else
      var rest := Entries(m[1..]);
      assert forall i :: 0 <= i < |rest| ==> rest[i].store in Keys(m) by {
        assert forall k :: 0 <= k < |m| - 1 ==> Keys(m[1..])[k] == Keys(m)[k + 1];
      }
      EntriesOf(m[0].0, m[0].1) + rest
  }

  /** A key of the tail of a dictionary with distinct keys is not its first key. */
  lemma TailKey<V>(d: Dict<string, V>, k: string)
    requires DistinctKeys(d) && |d| > 0 && k in Keys(d[1..])
    ensures k != d[0].0
  {
    var i :| 0 <= i < |d| - 1 && Keys(d[1..])[i] == k;
    assert d[i + 1].0 == k;
  }

  lemma WfTail(m: Model)
    requires WfModel(m) && |m| > 0
    ensures WfModel(m[1..])
  {
    forall p | p in m[1..] ensures p in m {
    }
  }

  /** Every listed entry is what the model holds under its two keys. */
  lemma {:induction false} EntriesFound(m: Model)
    requires WfModel(m)
    ensures forall i :: 0 <= i < |Entries(m)| ==>
      Lookup(m, Entries(m)[i].store, Entries(m)[i].offset) == Some(Entries(m)[i].setting)
  {
    if |m| > 0 {
      var d := m[0].1;
      var head := EntriesOf(m[0].0, d);
      var rest := Entries(m[1..]);
      assert Entries(m) == head + rest;
      assert m[0] in m;
      assert Get(m, m[0].0) == Some(d);
      WfTail(m);
      EntriesFound(m[1..]);
      forall i | 0 <= i < |Entries(m)|
        ensures Lookup(m, Entries(m)[i].store, Entries(m)[i].offset) == Some(Entries(m)[i].setting)
      {
        if i < |head| {
          assert Entries(m)[i] == Entry(m[0].0, d[i].0, d[i].1);
          assert Get(d, d[i].0) == Some(d[i].1);
        } else {
          var x := rest[i - |head|];
          assert Entries(m)[i] == x;
          TailKey(m, x.store);
          IndexOfTail(m, x.store);
        }
      }
    }
  }

  /** Every setting the model holds is listed. */
  lemma {:induction false} EntriesComplete(m: Model, store: string, offset: string)
    requires Lookup(m, store, offset).Some?
    ensures Entry(store, offset, Lookup(m, store, offset).value) in Entries(m)
  {
    var e := Lookup(m, store, offset).value;
    var d := m[0].1;
    assert Entries(m) == EntriesOf(m[0].0, d) + Entries(m[1..]);
    if store == m[0].0 {
      assert Get(m, store) == Some(d);
      var j :| 0 <= j < |d| && d[j] == (offset, e);
      assert EntriesOf(m[0].0, d)[j] == Entry(store, offset, e);
    } else {
      IndexOfTail(m, store);
      EntriesComplete(m[1..], store, offset);
    }
  }

  /** `a` comes before `b`: an earlier store, or the same store and an earlier offset. */
  ghost predicate Before(m: Model, a: Entry, b: Entry) {
    || IndexOf(Keys(m), a.store) < IndexOf(Keys(m), b.store)
    || (&& a.store == b.store
        && IndexOf(Keys(GetOr(m, a.store, [])), a.offset) < IndexOf(Keys(GetOr(m, a.store, [])), b.offset))
  }

  /**
    The table lists stores in first-insertion order, and the offsets of
    one store in their first-insertion order.
   */
  lemma {:induction false} EntriesOrdered(m: Model)
    requires WfModel(m)
    ensures forall i, j :: 0 <= i < j < |Entries(m)| ==> Before(m, Entries(m)[i], Entries(m)[j])
  {
    if |m| > 0 {
      var d := m[0].1;
      var head := EntriesOf(m[0].0, d);
      var rest := Entries(m[1..]);
      var all := Entries(m);
      assert all == head + rest;
      assert m[0] in m;
      assert IndexOf(Keys(m), m[0].0) == 0;
      assert GetOr(m, m[0].0, []) == d;
      WfTail(m);
      EntriesOrdered(m[1..]);
      forall i, j | 0 <= i < j < |all| ensures Before(m, all[i], all[j]) {
        if j < |head| {
          IndexOfDistinct(d, i);
          IndexOfDistinct(d, j);
        } else if i < |head| {
          TailKey(m, all[j].store);
          IndexOfTail(m, all[j].store);
        } else {
          var a, b := rest[i - |head|], rest[j - |head|];
          assert Before(m[1..], a, b);
          TailKey(m, a.store);
          TailKey(m, b.store);
          IndexOfTail(m, a.store);
          IndexOfTail(m, b.store);
        }
      }
    }
  }

  /**
    Items of the combo box after one `add_one_of_option` call per option
    label. While the row's cell text is empty each call replaces the combo
    box with a new one, so a leading empty label is lost once another
    label follows.
   */
  function ComboItems(labels: seq<string>): (r: seq<string>)
    ensures |r| <= |labels| && r == labels[|labels| - |r|..]
    ensures forall j :: 0 <= j < |labels| - |r| ==> labels[j] == ""
    ensures |labels| > 0 ==> |r| > 0 && (r[0] != "" || |r| == 1)
    ensures forall k :: k in labels && k != "" ==> k in r
  {
    if |labels| > 1 && labels[0] == "" then ComboItems(labels[1..]) else labels
  }

  /**
    `QSpinBox` after `setMinimum(min)`, `setMaximum(max)`, `setValue(d)` with
    `min <= d`: Qt clamps the value into the range, and a maximum below the
    minimum pulls the minimum down with it. A maximum beyond a C `int`
    raises `OverflowError` and the full `int` range is used instead.
   */
  function SpinStart(max: int, d: int): (v: int)
    ensures v <= d
    ensures v == d <==> d <= max || max > Int32Max
  {
    if max <= Int32Max && d > max then max else d
  }

  /** The editor a setting's row starts with (`add_one_of_option`, `add_numeric`, `add_checkbox`). */
  function InitialEditor(e: Setting): (r: Editor)
    ensures r.Selector? <==>
      e.OneOf? && e.defaultLabel.Some? && e.defaultLabel.value != "" && |e.options| > 0
    ensures r.SpinBox? <==>
      && e.Numeric? && e.defaultValue.Some?
      && Int32Min < e.defaultValue.value < Int32Max && e.defaultValue.value >= e.min
    ensures r.Tick? <==> e.CheckBox?
    ensures r.Selector? ==> r.choice in r.items
    ensures r.Tick? ==> (r.checked <==> e.defaultState == Enabled)
  {
    match e
    case OneOf(_, _, options, dflt) =>
      if dflt.Some? && dflt.value != "" && |options| > 0 then
        var items := ComboItems(Keys(options));
        Selector(items, if dflt.value in items then dflt.value else items[0])
      else NoEditor
    case Numeric(_, _, min, max, dflt) =>
      if dflt.Some? && Int32Min < dflt.value < Int32Max && dflt.value >= min then
        SpinBox(SpinStart(max, dflt.value))
      else NoEditor
    case CheckBox(_, state) => Tick(state == Enabled)
  }

  /** A well-formed one-of's selector starts at the stored default label. */
  lemma SelectorStartsAtDefault(e: Setting)
    requires WfSetting(e) && InitialEditor(e).Selector?
    ensures InitialEditor(e).choice == e.defaultLabel.value
  {
  }

  /** A spin box starts at the stored default unless Qt pulled it down to the maximum. */
  lemma SpinBoxStartsAtDefault(e: Setting)
    requires InitialEditor(e).SpinBox?
    ensures InitialEditor(e).value == e.defaultValue.value <==> e.defaultValue.value <= e.max || e.max > Int32Max
  {
  }

  function RowFor(x: Entry): Row {
    Row(x.setting.name, x.store, x.offset, InitialEditor(x.setting))
  }

  /** `data_2["options"]` raises `KeyError`: a one-of that never received an option. */
  predicate LacksOptions(e: Setting) {
    e.OneOf? && |e.options| == 0
  }

  /**
    One row per entry, in order, until the first one-of without options,
    whose row is the last one appended.
   */
  function Populate(es: seq<Entry>): (r: Population)
    ensures r.Populated? <==> forall i :: 0 <= i < |es| ==> !LacksOptions(es[i].setting)
    ensures r.Populated? ==> |r.rows| == |es|
    ensures r.MissingOptions? ==>
      && 0 < |r.rows| <= |es|
      && LacksOptions(es[|r.rows| - 1].setting)
      && forall i :: 0 <= i < |r.rows| - 1 ==> !LacksOptions(es[i].setting)
    ensures |r.rows| <= |es| && forall i :: 0 <= i < |r.rows| ==> r.rows[i] == RowFor(es[i])
  {
    if |es| == 0 then Populated([])
    else if LacksOptions(es[0].setting) then MissingOptions([RowFor(es[0])])
    else
      var tail := Populate(es[1..]);
      var rows := [RowFor(es[0])] + tail.rows;
      if tail.Populated? then Populated(rows) else MissingOptions(rows)
  }

  /** `table_population(settings_dict)`. */
  function TablePopulation(m: Model): Population {
    Populate(Entries(m))
  }

  /**
    The rows of a model's table are its entries in table order, each with
    its initial editor, and every row names a setting the model holds.
   */
  lemma TableRows(m: Model)
    requires WfModel(m)
    ensures var rows := TablePopulation(m).rows;
      forall i :: 0 <= i < |rows| ==>
        && Lookup(m, rows[i].store, rows[i].offset).Some?
        && var e := Lookup(m, rows[i].store, rows[i].offset).value;
           rows[i].name == e.name && rows[i].editor == InitialEditor(e)
  {
    EntriesFound(m);
  }
}
