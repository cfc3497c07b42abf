/**
  Worked examples that run the stages together on small inputs: a one-of
  from its records to its directive, the numeric and checkbox boundaries
  of the compiler, and a dump without the extraction-mode marker.
 */
module Scenarios {
  import opened Assoc
  import opened Settings
  import opened Records
  import opened Reducer
  import opened Report
  import opened Table
  import opened Script
  import opened Export

  const NoMatch := Matches(None, None, None, None, None, None)

  /** `VarStoreId: 0x1 ... Name: "Setup"`, a `Fan Mode` one-of at offset `0x10` of 8 bits, and its two options. */
  const FanRecords: seq<Matches> := [
    NoMatch.(store := Some(StoreCapture("1", "Setup"))),
    NoMatch.(oneOf := Some(OneOfCapture(QuestionCapture("Fan Mode", "1", "10"), "8"))),
    NoMatch.(option := Some(OptionCapture("Auto", "0", false))),
    NoMatch.(option := Some(OptionCapture("Manual", "1", true)))
  ]

  const FanSetting := OneOf("Fan Mode", "0x1", [("Auto", "0x0"), ("Manual", "0x1")], Some("Manual"))

  /** The reducer's state after each of the four records. */
  const AfterStore := Initial.(stores := [("1", "Setup")])
  const FanOpened := OneOf("Fan Mode", "0x1", [], None)
  const AfterOneOf := AfterStore.(
    model := [("Setup", [("0x10", FanOpened)])], oneOfName := Some("Fan Mode"),
    oneOfAt := Some(("Setup", "0x10")), lastMatch := Some(OneOfKind))
  const FanWithAuto := OneOf("Fan Mode", "0x1", [("Auto", "0x0")], None)
  const AfterAuto := AfterOneOf.(model := [("Setup", [("0x10", FanWithAuto)])], optionSeen := true)
  const AfterManual := AfterAuto.(model := [("Setup", [("0x10", FanSetting)])])

  lemma FanStoreStep()
    ensures Step(Initial, FanRecords[0]) == AfterStore
  {
    assert Put([], "1", "Setup") == [("1", "Setup")];
  }

  lemma FanOneOfStep()
    ensures Step(AfterStore, FanRecords[1]) == AfterOneOf
  {
    var c := FanRecords[1].oneOf.value;
    assert StoreName(AfterStore.stores, "1") == "Setup";
    assert "0x" + "10" == "0x10";
    assert PlaceOf(AfterStore.stores, c.question) == ("Setup", "0x10");
    assert SizeText("8") == "0x1";
    StripKeepsFan();
    FanFiled([], [], FanOpened);
    assert Dispatch(FanRecords[1], None) == OneOfQuestion(c);
    assert OpenOneOf(AfterStore, c) == AfterOneOf;
  }

  lemma FanAutoStep()
    ensures Step(AfterOneOf, FanRecords[2]) == AfterAuto
  {
    var c := FanRecords[2].option.value;
    assert Dispatch(FanRecords[2], Some(OneOfKind)) == OptionRow(c);
    FanAutoAdded();
  }

  lemma FanAutoAdded()
    ensures AddOption(AfterOneOf, OptionCapture("Auto", "0", false)) == AfterAuto
  {
    assert OpenOneOfEntry(AfterOneOf) == Some(FanOpened);
    assert OptionValue("0") == "0x0";
    StripKeepsFan();
    assert !Adopts(AfterOneOf, "0x0", false);
    FanAutoOption();
    FanFiled(AfterOneOf.model, [("0x10", FanOpened)], FanWithAuto);
  }

  lemma FanAutoOption()
    ensures WithOption(FanOpened, "Auto", "0x0", false) == FanWithAuto
  {
    PutNew([], "Auto", "0x0");
    assert [] + [("Auto", "0x0")] == [("Auto", "0x0")];
  }

  lemma FanManualOption()
    ensures WithOption(FanWithAuto, "Manual", "0x1", true) == FanSetting
  {
    PutNew(FanWithAuto.options, "Manual", "0x1");
  }

  lemma FanManualStep()
    ensures Step(AfterAuto, FanRecords[3]) == AfterManual
  {
    var c := FanRecords[3].option.value;
    assert Dispatch(FanRecords[3], Some(OneOfKind)) == OptionRow(c);
    FanManualAdded();
  }

  lemma FanManualAdded()
    ensures AddOption(AfterAuto, OptionCapture("Manual", "1", true)) == AfterManual
  {
    assert OpenOneOfEntry(AfterAuto) == Some(FanWithAuto);
    assert OptionValue("1") == "0x1";
    StripKeepsFan();
    FanManualOption();
    FanFiled(AfterAuto.model, [("0x10", FanWithAuto)], FanSetting);
    assert Adopts(AfterAuto, "0x1", true);
  }

  /** Filing `e` at `("Setup", "0x10")` of a model whose only store is `Setup` with only that offset, or of the empty model. */
  lemma FanFiled(m: Model, d: Dict<string, Setting>, e: Setting)
    requires (m == [] && d == []) || (m == [("Setup", d)] && |d| == 1 && d[0].0 == "0x10")
    ensures PutSetting(m, "Setup", "0x10", e) == [("Setup", [("0x10", e)])]
  {
    if m == [] {
      assert GetOr(m, "Setup", []) == [];
      PutNew([], "0x10", e);
      assert [] + [("0x10", e)] == [("0x10", e)];
      PutNew([], "Setup", [("0x10", e)]);
      assert [] + [("Setup", [("0x10", e)])] == [("Setup", [("0x10", e)])];
    } else {
      assert GetOr(m, "Setup", []) == d;
      PutFirst(d, "0x10", e);
      assert d[0 := ("0x10", e)] == [("0x10", e)];
      PutFirst(m, "Setup", [("0x10", e)]);
      assert m[0 := ("Setup", [("0x10", e)])] == [("Setup", [("0x10", e)])];
    }
  }

  /** The records build one store holding the one-of, its options in order, `Manual` as default. */
  lemma FanModel()
    ensures DictPopulation(FanRecords) == Some([("Setup", [("0x10", FanSetting)])])
  {
    FanStoreStep();
    FanFromOneOf();
  }

  /** The run from the second record on, one record at a time. */
  lemma FanFromOneOf()
    ensures Run(AfterStore, FanRecords[1..]) == AfterManual
  {
    FanOneOfStep();
    FanFromAuto();
    assert FanRecords[1..][1..] == FanRecords[2..];
  }

  lemma FanFromAuto()
    ensures Run(AfterOneOf, FanRecords[2..]) == AfterManual
  {
    FanAutoStep();
    FanFromManual();
    assert FanRecords[2..][1..] == FanRecords[3..];
  }

  lemma FanFromManual()
    ensures Run(AfterAuto, FanRecords[3..]) == AfterManual
  {
    FanManualStep();
    assert FanRecords[3..][1..] == [];
  }

  lemma StripKeepsFan()
    ensures Text.Strip("Fan Mode") == "Fan Mode"
    ensures Text.Strip("Auto") == "Auto"
    ensures Text.Strip("Manual") == "Manual"
  {
    StripKeepsWord("Fan Mode");
    StripKeepsWord("Auto");
    StripKeepsWord("Manual");
  }

  /**
    `Text.StripKeeps` for a capitalised word, stated over a parameter so
    that the solver does not unfold `Strip` on each literal.
   */
  lemma StripKeepsWord(w: string)
    requires |w| > 0 && 'A' <= w[0] <= 'Z' && 'a' <= w[|w| - 1] <= 'z'
    ensures Text.Strip(w) == w
  {
    Text.StripKeeps(w);
  }

  /** The table shows one selector on `Manual`; choosing `Auto` writes `0x0` at `0x10`, one byte, store `Setup`. */
  lemma FanExport()
    ensures var m := [("Setup", [("0x10", FanSetting)])];
      && WfModel(m)
      && TablePopulation(m) == Populated([Row("Fan Mode", "Setup", "0x10", Selector(["Auto", "Manual"], "Manual"))])
      && var rows := [Row("Fan Mode", "Setup", "0x10", Selector(["Auto", "Manual"], "Auto"))];
         && AllReady(m, rows)
         && Compile(m, rows) == [Command("Fan Mode", "Auto", "0x10", "0x0", "0x1", "Setup")]
  {
    FanTable();
    FanCompile();
  }

  lemma FanTable()
    ensures TablePopulation([("Setup", [("0x10", FanSetting)])]) ==
      Populated([Row("Fan Mode", "Setup", "0x10", Selector(["Auto", "Manual"], "Manual"))])
  {
    var m := [("Setup", [("0x10", FanSetting)])];
    assert Entries(m) == [Entry("Setup", "0x10", FanSetting)];
    FanSelector();
    assert Populate(Entries(m)[1..]) == Populated([]);
  }

  lemma FanSelector()
    ensures InitialEditor(FanSetting) == Selector(["Auto", "Manual"], "Manual")
  {
    assert Keys(FanSetting.options) == ["Auto", "Manual"];
    assert ComboItems(["Auto", "Manual"]) == ["Auto", "Manual"];
  }

  lemma FanCompile()
    ensures var m := [("Setup", [("0x10", FanSetting)])];
      && WfModel(m)
      && var rows := [Row("Fan Mode", "Setup", "0x10", Selector(["Auto", "Manual"], "Auto"))];
         && AllReady(m, rows)
         && Compile(m, rows) == [Command("Fan Mode", "Auto", "0x10", "0x0", "0x1", "Setup")]
  {
    var m := [("Setup", [("0x10", FanSetting)])];
    assert WfSetting(FanSetting) by {
      assert Keys(FanSetting.options) == ["Auto", "Manual"];
    }
    assert Lookup(m, "Setup", "0x10") == Some(FanSetting);
    var rows := [Row("Fan Mode", "Setup", "0x10", Selector(["Auto", "Manual"], "Auto"))];
    assert OptionText(FanSetting.options, "Auto") == "0x0";
    var c := Command("Fan Mode", "Auto", "0x10", "0x0", "0x1", "Setup");
    assert ExportRow(m, rows[0]) == Some(c);
    assert Compile(m, rows[1..]) == [];
    assert Compile(m, rows) == [c];
  }

  /** A numeric with range 0..10 and default 5: 5 writes nothing, 7 writes `0x7` with the stored size. */
  lemma NumericBoundary()
    ensures var m := [("Setup", [("0x20", Numeric("Fan Speed", "0x1", 0, 10, Some(5)))])];
      && ExportNumeric(m, "Fan Speed", "Setup", "0x20", 5) == None
      && ExportNumeric(m, "Fan Speed", "Setup", "0x20", 7) == Some(Command("Fan Speed", "7", "0x20", "0x7", "0x1", "Setup"))
  {
    var m := [("Setup", [("0x20", Numeric("Fan Speed", "0x1", 0, 10, Some(5)))])];
    assert Lookup(m, "Setup", "0x20") == Some(Numeric("Fan Speed", "0x1", 0, 10, Some(5)));
    assert Numerals.IntText(7) == "7";
    assert NumericText(7) == "0x7";
  }

  /** A dump whose first line lacks the marker yields no records and hence an empty table. */
  lemma MissingMarker()
    ensures ParseReport(["IFRExtractor output", "0x10: VarStore {1}"]) == Rejected(InvalidFormat)
    ensures RecordList(ParseReport(["IFRExtractor output", "0x10: VarStore {1}"])) == []
    ensures TablePopulation([]) == Populated([])
  {
    assert !Text.Contains("IFRExtractor output", Marker) by {
      forall i | 0 <= i <= |"IFRExtractor output"| ensures !Text.OccursAt("IFRExtractor output", Marker, i) {
      }
    }
  }
}
