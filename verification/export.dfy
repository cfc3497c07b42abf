/**
  The script compiler of setupvar-builder/gui.py: `export_oneof`,
  `export_numeric` and `export_checkbox` decide for one table row whether
  its editor differs from the stored default and, if so, produce one
  directive; `export_button` walks the rows in table order. The window's
  export buffer and the Export button are modelled by `Session`.
 */
module Export {
  import opened Assoc
  import opened Numerals
  import opened Settings
  import opened Table
  import opened Script

  /** Python's `d.get(label)` formatted by an f-string: a missing label prints as `None`. */
  function OptionText(options: Dict<string, string>, caption: string): (r: string)
    ensures caption in Keys(options) ==> Get(options, caption) == Some(r)
    ensures caption !in Keys(options) ==> r == "None"
  {
    match Get(options, caption)
    case Some(v) => v
    case None => "None"
  }

  /**
    `f"0x{hex(value)[2:].upper()}"`. For a negative value Python's `hex`
    starts with `-0x`, so the slice keeps the `x` and the text reads `0xX…`.
   */
  function NumericText(v: int): (r: string)
    ensures |r| > 2 && r[..2] == "0x"
    ensures v >= 0 ==> AllHex(r[2..]) && ParseHex(r[2..]) == v && CanonicalUpperHex(r[2..])
    ensures v < 0 ==> |r| > 3 && r[2] == 'X' && AllHex(r[3..]) && ParseHex(r[3..]) == -v && CanonicalUpperHex(r[3..])
  {
    if v >= 0 then
      var r := "0x" + UpperHex(v);
      assert r[2..] == UpperHex(v);
      r
    else
      var r := "0xX" + UpperHex(-v);
      assert r[3..] == UpperHex(-v);
      r
  }

  /** `export_oneof` does not raise: a stored setting at the row's keys is a one-of with a default. */
  predicate OneOfReady(m: Model, store: string, offset: string) {
    Lookup(m, store, offset).Some? ==>
      Lookup(m, store, offset).value.OneOf? && Lookup(m, store, offset).value.defaultLabel.Some?
  }

  /**
    `export_oneof`: a directive exactly when the row's setting is stored and
    the chosen label is not its default. The value written is the option's
    value, not the label.
   */
  function ExportOneOf(m: Model, name: string, store: string, offset: string, choice: string): (r: Option<Command>)
    requires OneOfReady(m, store, offset)
    ensures r.Some? <==>
      Lookup(m, store, offset).Some? && choice != Lookup(m, store, offset).value.defaultLabel.value
    ensures r.Some? ==>
      var e := Lookup(m, store, offset).value;
      && r.value.name == name && r.value.shown == choice
      && r.value.offset == offset && r.value.store == store && r.value.size == e.size
      && (choice in Keys(e.options) ==> Get(e.options, choice) == Some(r.value.value))
      && (choice !in Keys(e.options) ==> r.value.value == "None")
  {
    match Lookup(m, store, offset)
    case None => None
    case Some(e) =>
      if choice != e.defaultLabel.value then
        Some(Command(name, choice, offset, OptionText(e.options, choice), e.size, store))
      else None
  }

  /** `export_numeric` indexes the model before any test: the setting must be a numeric with a default. */
  predicate NumericReady(m: Model, store: string, offset: string) {
    && Lookup(m, store, offset).Some?
    && Lookup(m, store, offset).value.Numeric?
    && Lookup(m, store, offset).value.defaultValue.Some?
  }

  /**
    `export_numeric`: a directive exactly when the spin box value is not the
    stored default; the comment shows the value in decimal and the command
    writes it in upper-case hexadecimal.
   */
  function ExportNumeric(m: Model, name: string, store: string, offset: string, value: int): (r: Option<Command>)
    requires NumericReady(m, store, offset)
    ensures r.Some? <==> value != Lookup(m, store, offset).value.defaultValue.value
    ensures r.Some? ==>
      && r.value.name == name && r.value.shown == IntText(value)
      && r.value.offset == offset && r.value.store == store
      && r.value.size == Lookup(m, store, offset).value.size
      && |r.value.value| > 2 && r.value.value[..2] == "0x"
      && (value >= 0 ==>
           AllHex(r.value.value[2..]) && ParseHex(r.value.value[2..]) == value && CanonicalUpperHex(r.value.value[2..]))
      && (value < 0 ==>
           && r.value.value[2] == 'X' && AllHex(r.value.value[3..]) && ParseHex(r.value.value[3..]) == -value
           && CanonicalUpperHex(r.value.value[3..]))
    ensures r.Some? ==> r.value.value == NumericText(value)
  {
    var e := Lookup(m, store, offset).value;
    if value != e.defaultValue.value then
      Some(Command(name, IntText(value), offset, NumericText(value), e.size, store))
    else None
  }

  /** `export_checkbox` does not raise: a stored setting at the row's keys is a checkbox. */
  predicate CheckBoxReady(m: Model, store: string, offset: string) {
    Lookup(m, store, offset).Some? ==> Lookup(m, store, offset).value.CheckBox?
  }

  /**
    `export_checkbox`: checked over a `Disabled` default writes `0x1`,
    unchecked over an `Enabled` default writes `0x0`, both one byte wide;
    in every other case nothing.
   */
  function ExportCheckBox(m: Model, name: string, store: string, offset: string, checked: bool): (r: Option<Command>)
    requires CheckBoxReady(m, store, offset)
    ensures r.Some? <==>
      Lookup(m, store, offset).Some? && checked != (Lookup(m, store, offset).value.defaultState == Enabled)
    ensures r.Some? ==> checked ==> r.value == Command(name, "Enabled", offset, "0x1", "0x1", store)
    ensures r.Some? ==> !checked ==> r.value == Command(name, "Disabled", offset, "0x0", "0x1", store)
  {
    match Lookup(m, store, offset)
    case None => None
    case Some(e) =>
      assert e.defaultState == Enabled || e.defaultState == Disabled;
      if checked then
        if e.defaultState == Disabled then Some(Command(name, "Enabled", offset, "0x1", "0x1", store)) else None
      else
        if e.defaultState == Enabled then Some(Command(name, "Disabled", offset, "0x0", "0x1", store)) else None
  }

  /** Exporting the row does not raise. */
  predicate Ready(m: Model, row: Row) {
    match row.editor
    case NoEditor => true
    case Selector(_, _) => OneOfReady(m, row.store, row.offset)
    case SpinBox(_) => NumericReady(m, row.store, row.offset)
    case Tick(_) => CheckBoxReady(m, row.store, row.offset)
  }

  /** The row's editor holds something other than the stored default. */
  predicate Differs(m: Model, row: Row)
    requires Ready(m, row)
  {
    match row.editor
    case NoEditor => false
    case Selector(_, choice) =>
      Lookup(m, row.store, row.offset).Some? && choice != Lookup(m, row.store, row.offset).value.defaultLabel.value
    case SpinBox(v) => v != Lookup(m, row.store, row.offset).value.defaultValue.value
    case Tick(checked) =>
      Lookup(m, row.store, row.offset).Some? && checked != (Lookup(m, row.store, row.offset).value.defaultState == Enabled)
  }

  /** One iteration of `export_button`: the widget kind picks the export function. */
  function ExportRow(m: Model, row: Row): (r: Option<Command>)
    requires Ready(m, row)
    ensures r.Some? <==> Differs(m, row)
    ensures r.Some? ==> r.value.name == row.name && r.value.offset == row.offset && r.value.store == row.store
  {
    match row.editor
    case NoEditor => None
    case Selector(_, choice) => ExportOneOf(m, row.name, row.store, row.offset, choice)
    case SpinBox(v) => ExportNumeric(m, row.name, row.store, row.offset, v)
    case Tick(checked) => ExportCheckBox(m, row.name, row.store, row.offset, checked)
  }

  predicate AllReady(m: Model, rows: seq<Row>) {
    forall i :: 0 <= i < |rows| ==> Ready(m, rows[i])
  }

  /** The directives `export_button` appends, in row order. */
  function Compile(m: Model, rows: seq<Row>): (r: seq<Command>)
    requires AllReady(m, rows)
    ensures |r| <= |rows|
    ensures |rows| > 0 && Differs(m, rows[0]) ==> |r| > 0 && Some(r[0]) == ExportRow(m, rows[0])
  {
    if |rows| == 0 then []
    else
      var rest := Compile(m, rows[1..]);
      match ExportRow(m, rows[0])
      case Some(c) => [c] + rest
      case None => rest
  }

  /** Compiling two runs of rows one after the other concatenates their directives. */
  lemma {:induction false} CompileAppend(m: Model, a: seq<Row>, b: seq<Row>)
    requires AllReady(m, a) && AllReady(m, b)
    ensures AllReady(m, a + b)
    ensures Compile(m, a + b) == Compile(m, a) + Compile(m, b)
  {
    if |a| == 0 {
      assert a + b == b;
    } else {
      assert (a + b)[0] == a[0];
      assert (a + b)[1..] == a[1..] + b;
      CompileAppend(m, a[1..], b);
    }
  }

  /** Nothing is written exactly when every row holds its stored default. */
  lemma {:induction false} CompileEmpty(m: Model, rows: seq<Row>)
    requires AllReady(m, rows)
    ensures Compile(m, rows) == [] <==> forall i :: 0 <= i < |rows| ==> !Differs(m, rows[i])
  {
    if |rows| > 0 {
      CompileEmpty(m, rows[1..]);
      if forall i :: 0 <= i < |rows| ==> !Differs(m, rows[i]) {
        forall i | 0 <= i < |rows| - 1 ensures !Differs(m, rows[1..][i]) {
          assert rows[1..][i] == rows[i + 1];
        }
      } else {
        var i :| 0 <= i < |rows| && Differs(m, rows[i]);
        if i > 0 {
          assert rows[1..][i - 1] == rows[i];
        }
      }
    }
  }

  /** Every directive comes from a row that differs, and carries that row's name and keys. */
  lemma {:induction false} CompileSources(m: Model, rows: seq<Row>)
    requires AllReady(m, rows)
    ensures forall k :: 0 <= k < |Compile(m, rows)| ==> Source(m, rows, Compile(m, rows)[k])
  {
    if |rows| > 0 {
      CompileSources(m, rows[1..]);
      SourceTail(m, rows);
      var rest := Compile(m, rows[1..]);
      if ExportRow(m, rows[0]).Some? {
        assert Source(m, rows, Compile(m, rows)[0]) by {
          assert Differs(m, rows[0]) && ExportRow(m, rows[0]) == Some(Compile(m, rows)[0]);
        }
        assert forall k :: 1 <= k < |Compile(m, rows)| ==> Compile(m, rows)[k] == rest[k - 1];
      }
    } else {
      assert Compile(m, rows) == [];
    }
  }

  /** A source among the later rows is a source among all rows. */
  lemma SourceTail(m: Model, rows: seq<Row>)
    requires AllReady(m, rows) && |rows| > 0
    ensures forall c :: Source(m, rows[1..], c) ==> Source(m, rows, c)
  {
    forall c | Source(m, rows[1..], c) ensures Source(m, rows, c) {
      var i :| 0 <= i < |rows[1..]| && Differs(m, rows[1..][i]) && ExportRow(m, rows[1..][i]) == Some(c);
      assert rows[i + 1] == rows[1..][i];
    }
  }

  /** Some row that differs exports `c`. */
  predicate Source(m: Model, rows: seq<Row>, c: Command)
    requires AllReady(m, rows)
  {
    exists i :: 0 <= i < |rows| && Differs(m, rows[i]) && ExportRow(m, rows[i]) == Some(c)
  }

  /** Every row that differs contributes its directive. */
  lemma {:induction false} CompileCovers(m: Model, rows: seq<Row>, i: int)
    requires AllReady(m, rows) && 0 <= i < |rows| && Differs(m, rows[i])
    ensures ExportRow(m, rows[i]).value in Compile(m, rows)
  {
    if i > 0 {
      assert rows[i] == rows[1..][i - 1];
      CompileCovers(m, rows[1..], i - 1);
    }
  }

  /** The rows of a model's table can all be exported without an exception. */
  lemma TableReady(m: Model)
    requires WfModel(m)
    ensures AllReady(m, TablePopulation(m).rows)
  {
    TableRows(m);
  }

  /** A spin box the table opened below its stored default: Qt pulled the value down to the maximum. */
  predicate Clamped(e: Setting) {
    InitialEditor(e).SpinBox? && InitialEditor(e).value != e.defaultValue.value
  }

  /**
    Exporting the table as it was populated writes nothing, except for
    numeric settings whose default lies above their maximum: their spin
    box starts at the maximum, which differs from the default.
   */
  lemma UntouchedTable(m: Model)
    requires WfModel(m)
    ensures AllReady(m, TablePopulation(m).rows)
    ensures var rows := TablePopulation(m).rows;
      && |rows| <= |Entries(m)|
      && (Compile(m, rows) == [] <==> forall i :: 0 <= i < |rows| ==> !Clamped(Entries(m)[i].setting))
  {
    TableReady(m);
    var rows := TablePopulation(m).rows;
    forall i | 0 <= i < |rows|
      ensures Differs(m, rows[i]) <==> Clamped(Entries(m)[i].setting)
    {
      UntouchedRow(m, i);
    }
    CompileEmpty(m, rows);
  }

  /** The `i`-th row of a freshly populated table differs from its default exactly when it is clamped. */
  lemma UntouchedRow(m: Model, i: int)
    requires WfModel(m) && 0 <= i < |TablePopulation(m).rows|
    ensures AllReady(m, TablePopulation(m).rows)
    ensures Differs(m, TablePopulation(m).rows[i]) <==> Clamped(Entries(m)[i].setting)
  {
    TableReady(m);
    EntriesFound(m);
    var x := Entries(m)[i];
    var e := x.setting;
    assert TablePopulation(m).rows[i] == RowFor(x);
    LookupWf(m, x.store, x.offset);
    if InitialEditor(e).Selector? {
      SelectorStartsAtDefault(e);
    }
  }

  /** Replacing an editor's value by the user keeps the editor's kind. */
  predicate SameKind(a: Editor, b: Editor) {
    (a.NoEditor? && b.NoEditor?) || (a.Selector? && b.Selector?) || (a.SpinBox? && b.SpinBox?) || (a.Tick? && b.Tick?)
  }

  /**
    The window: the model handed over by `get_dict`, the table rows, and
    the class attribute `export` that collects directives.
   */
  datatype Session = Session(model: Model, rows: seq<Row>, buffer: seq<string>)

  predicate Consistent(s: Session) {
    AllReady(s.model, s.rows)
  }

  /**
    Opening a dump: `clear_data` empties the buffer and the table, then
    the table is populated. A one-of without options aborts the handler.
   */
  function Open(m: Model): (r: Option<Session>)
    requires WfModel(m)
    ensures r.Some? <==> TablePopulation(m).Populated?
    ensures r.Some? ==> Consistent(r.value) && r.value.buffer == [] && r.value.model == m
    ensures r.Some? ==> r.value.rows == TablePopulation(m).rows
  {
    TableReady(m);
    match TablePopulation(m)
    case Populated(rows) => Some(Session(m, rows, []))
    case MissingOptions(_) => None
  }

  /** The user changes the value held by the editor in row `i`. */
  function Choose(s: Session, i: int, editor: Editor): (r: Session)
    requires Consistent(s) && 0 <= i < |s.rows| && SameKind(s.rows[i].editor, editor)
    ensures Consistent(r) && r.model == s.model && r.buffer == s.buffer && |r.rows| == |s.rows|
    ensures r.rows[i].editor == editor
    ensures forall j :: 0 <= j < |s.rows| && j != i ==> r.rows[j] == s.rows[j]
  {
    var r := s.(rows := s.rows[i := s.rows[i].(editor := editor)]);
    assert forall j :: 0 <= j < |r.rows| ==> Ready(r.model, r.rows[j]) by {
      assert Ready(s.model, s.rows[i]);
    }
    r
  }

  /**
    `export_button` followed by `write_export`, as written: the new
    directives are appended to the buffer, which no press empties, and the
    whole buffer is written.
   */
  function PressExport(s: Session): (r: (Session, string))
    requires Consistent(s)
    ensures Consistent(r.0) && r.0.model == s.model && r.0.rows == s.rows
    ensures r.0.buffer == s.buffer + Directives(Compile(s.model, s.rows))
    ensures r.1 == Concat(r.0.buffer)
  {
    var buffer := s.buffer + Directives(Compile(s.model, s.rows));
    (s.(buffer := buffer), Concat(buffer))
  }

  /** The buffer only grows: every earlier directive is still written by a later press. */
  lemma BufferGrows(s: Session)
    requires Consistent(s)
    ensures s.buffer <= PressExport(s).0.buffer
  {
  }

  /**
    A session that has already exported a checkbox change and then undone
    it: the table now equals the defaults, yet the next press writes the
    stale directive again.
   */
  lemma StaleDirectiveWritten()
    ensures var m := [("Setup", [("0x10", CheckBox("Wake on LAN", Disabled))])];
      && WfModel(m)
      && Open(m).Some?
      && var s0 := Open(m).value;
         && |s0.rows| == 1 && s0.rows[0].editor == Tick(false)
         && var s1 := PressExport(Choose(s0, 0, Tick(true))).0;
            && var s2 := Choose(s1, 0, Tick(false));
               && Compile(m, s2.rows) == []
               && PressExport(s2).1 != ""
  {
    var m := [("Setup", [("0x10", CheckBox("Wake on LAN", Disabled))])];
    var e := CheckBox("Wake on LAN", Disabled);
    assert Entries(m) == [Entry("Setup", "0x10", e)];
    var s0 := Open(m).value;
    var s1 := PressExport(Choose(s0, 0, Tick(true))).0;
    assert |Compile(m, Choose(s0, 0, Tick(true)).rows)| == 1;
    var s2 := Choose(s1, 0, Tick(false));
    assert s2.buffer == s1.buffer && |s2.buffer| == 1;
    assert Compile(m, s2.rows) == [];
    assert s2.buffer[0] != "";
  }

  /**
    The Export button with the buffer emptied first: the file holds the
    directives of the current table and nothing else.
   */
  function PressExportFresh(s: Session): (r: (Session, string))
    requires Consistent(s)
    ensures Consistent(r.0) && r.0.model == s.model && r.0.rows == s.rows
    ensures r.1 == "" <==> forall i :: 0 <= i < |s.rows| ==> !Differs(s.model, s.rows[i])
  {
    var buffer := Directives(Compile(s.model, s.rows));
    DirectivesEmpty(Compile(s.model, s.rows));
    CompileEmpty(s.model, s.rows);
    (s.(buffer := buffer), Concat(buffer))
  }

  /** What the corrected button writes depends on the model and the table only, not on earlier presses. */
  lemma FreshIgnoresHistory(s: Session, t: Session)
    requires Consistent(s) && Consistent(t) && s.model == t.model && s.rows == t.rows
    ensures PressExportFresh(s).1 == PressExportFresh(t).1
    ensures PressExportFresh(s).1 == Concat(Directives(Compile(s.model, s.rows)))
  {
  }
}
