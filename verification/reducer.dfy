/**
  `dict_population` (setupvar-builder/main.py): a left fold over the
  classified records that builds the settings model. The loop's local
  variables that survive from one record to the next are the fields of
  `State`; every record moves the fold by one `Step`.
 */
module Reducer {
  import opened Assoc
  import opened Numerals
  import opened Text
  import opened Settings
  import opened Records

  /**
    The `default` variable: never assigned, a normalised hex string set by a
    default record under a one-of, or an integer set by one under a numeric.
    A string never equals an integer, so only the first kind can match an
    option value.
   */
  datatype Pending = NoPending | HexPending(hex: string) | IntPending(n: nat)

  /** A store name and an offset key: where a question's entry lives. */
  type Place = (string, string)

  datatype State = State(
    stores: Dict<string, string>,   // `varstores`: store id digits to store name
    model: Model,                   // `settings_dict`
    oneOfName: Option<string>,      // `oneof_name`
    oneOfAt: Option<Place>,         // `oneof_varstore`, `oneof_varoffset`
    numericAt: Option<Place>,       // `numeric_varstore`, `numeric_varoffset`
    stashedFor: Option<string>,     // `last_oneof_name`
    pending: Pending,               // `default`
    lastMatch: Option<Kind>,        // `last_match`
    optionSeen: bool,               // `child_match` is set
    failed: bool)                   // `int()` raised `ValueError`; the loop was left

  /** Every variable starts out as `None`, both dictionaries empty. */
  const Initial := State([], [], None, None, None, None, NoPending, None, false, false)

  /** `str(varstores.get(id))`: the declared name, or the text `None` for an undeclared id. */
  function StoreName(stores: Dict<string, string>, id: string): (r: string)
    ensures id in Keys(stores) ==> Get(stores, id) == Some(r)
    ensures id !in Keys(stores) ==> r == "None"
  {
    match Get(stores, id)
    case Some(name) => name
    case None => "None"
  }

  /** Where a question is filed: its store's name, and `"0x"` before its offset digits. */
  function PlaceOf(stores: Dict<string, string>, q: QuestionCapture): Place {
    (StoreName(stores, q.storeId), "0x" + q.offset)
  }

  /** `hex(int(bits) // 8)`: the width in bytes, spelt as Python's `hex` spells it. */
  function SizeText(bits: DecNumeral): (r: string)
    ensures |r| > 2 && r[..2] == "0x" && CanonicalLowerHex(r[2..])
    ensures AllHex(r[2..]) && ParseHex(r[2..]) == ParseDecimal(bits) / 8
  {
    var digits := LowerHex(ParseDecimal(bits) / 8);
    assert ("0x" + digits)[2..] == digits;
    "0x" + digits
  }

  /** `"0x" + hex(int(v))[2:].upper()`: how option values and one-of defaults are normalised. */
  function OptionValue(v: DecNumeral): (r: string)
    ensures |r| > 2 && r[..2] == "0x" && CanonicalUpperHex(r[2..])
    ensures AllHex(r[2..]) && ParseHex(r[2..]) == ParseDecimal(v)
  {
    var n := ParseDecimal(v);
    var digits := UpperHex(n);
    assert ("0x" + digits)[2..] == digits;
    "0x" + digits
  }

  /**
    Two numerals normalise to the same option value exactly when they
    denote the same number, whatever their leading zeros: comparing the
    normalised strings is comparing the numbers.
   */
  lemma {:induction false} OptionValueIff(a: DecNumeral, b: DecNumeral)
    ensures OptionValue(a) == OptionValue(b) <==> ParseDecimal(a) == ParseDecimal(b)
  {
    var ra, rb := OptionValue(a), OptionValue(b);
    if ra == rb {
      assert ra[2..] == rb[2..];
    }
  }

  /** Nothing is stored anywhere but at `place`. */
  ghost predicate SameElsewhere(before: Model, after: Model, place: Place) {
    forall s, o :: (s, o) != place ==> Lookup(after, s, o) == Lookup(before, s, o)
  }

  /** Replace the entry at `place` wholesale. */
  function Store(s: State, place: Place, e: Setting): (r: State)
    ensures Lookup(r.model, place.0, place.1) == Some(e)
    ensures SameElsewhere(s.model, r.model, place)
    ensures Extends(s.model, r.model)
    ensures WfModel(s.model) && WfSetting(e) ==> WfModel(r.model)
    ensures r.(model := s.model) == s
  {
    s.(model := PutSetting(s.model, place.0, place.1, e))
  }

  /** A `VarStoreId` record: the id now names the store; nothing else changes. */
  function DeclareStore(s: State, c: StoreCapture): (r: State)
    ensures Get(r.stores, c.id) == Some(c.name)
    ensures forall id :: id != c.id ==> Get(r.stores, id) == Get(s.stores, id)
    ensures r.(stores := s.stores) == s
  {
    s.(stores := Put(s.stores, c.id, c.name))
  }

  /**
    A `OneOf` record: a fresh one-of, without options or default, replaces
    whatever was filed at its place; it becomes the open one-of and no
    option of it has been seen yet.
   */
  function OpenOneOf(s: State, c: OneOfCapture): (r: State)
    requires AllDec(c.sizeBits)
    ensures
      var place := PlaceOf(s.stores, c.question);
      && Lookup(r.model, place.0, place.1) == Some(OneOf(Strip(c.question.prompt), SizeText(c.sizeBits), [], None))
      && SameElsewhere(s.model, r.model, place)
      && r.oneOfAt == Some(place)
    ensures r.oneOfName == Some(Strip(c.question.prompt))
    ensures r.lastMatch == Some(OneOfKind) && !r.optionSeen
    ensures Extends(s.model, r.model)
    ensures r.stores == s.stores && r.pending == s.pending && r.stashedFor == s.stashedFor
    ensures r.numericAt == s.numericAt && r.failed == s.failed
  {
    var name := Strip(c.question.prompt);
    var place := PlaceOf(s.stores, c.question);
    var t := Store(s, place, OneOf(name, SizeText(c.sizeBits), [], None));
    t.(oneOfName := Some(name), oneOfAt := Some(place), lastMatch := Some(OneOfKind), optionSeen := false)
  }

  /**
    The condition under which an option becomes its one-of's default: it
    carries `, Default`, or the pending default stashed for a one-of of the
    same name equals the option's value.
   */
  predicate Adopts(s: State, value: string, marked: bool) {
    (s.stashedFor == s.oneOfName && s.pending == HexPending(value)) || marked
  }

  /** The open one-of entry, when there is one. */
  function OpenOneOfEntry(s: State): Option<Setting> {
    if s.oneOfAt.None? then None
    else
      var e := Lookup(s.model, s.oneOfAt.value.0, s.oneOfAt.value.1);
      if e.Some? && e.value.OneOf? then e else None
  }

  /**
    One option added to a one-of: the label maps to the value (a label
    already present keeps its position); the label becomes the default only
    when the one-of has no default yet and `adopt` holds.
   */
  function WithOption(e: Setting, label': string, value: string, adopt: bool): (r: Setting)
    requires e.OneOf?
    ensures r.OneOf? && r.name == e.name && r.size == e.size
    ensures Get(r.options, label') == Some(value)
    ensures forall k :: k != label' ==> Get(r.options, k) == Get(e.options, k)
    ensures Keys(r.options) == if label' in Keys(e.options) then Keys(e.options) else Keys(e.options) + [label']
    ensures e.defaultLabel.Some? ==> r.defaultLabel == e.defaultLabel
    ensures e.defaultLabel.None? ==> (r.defaultLabel == Some(label') <==> adopt)
    ensures e.defaultLabel.None? ==> (r.defaultLabel.None? <==> !adopt)
    ensures WfSetting(e) ==> WfSetting(r)
  {
    var dl := if e.defaultLabel.None? && adopt then Some(label') else e.defaultLabel;
    e.(options := Put(e.options, label', value), defaultLabel := dl)
  }

  /**
    A `OneOfOption` record under an open one-of: the stripped caption is
    added with the normalised value, and adopted as default under `Adopts`.
   */
  function AddOption(s: State, c: OptionCapture): (r: State)
    ensures r.optionSeen
    ensures OpenOneOfEntry(s).Some? ==>
      && OpenOneOfEntry(r) ==
         Some(WithOption(OpenOneOfEntry(s).value, Strip(c.caption), OptionValue(c.value),
                         Adopts(s, OptionValue(c.value), c.marked)))
      && SameElsewhere(s.model, r.model, s.oneOfAt.value)
    ensures OpenOneOfEntry(s).None? ==> r.model == s.model
    ensures Extends(s.model, r.model)
    ensures r.(model := s.model, optionSeen := s.optionSeen) == s
  {
    var value := OptionValue(c.value);
    var t := s.(optionSeen := true);
    if OpenOneOfEntry(s).None? then t
    else
      var e := OpenOneOfEntry(s).value;
      Store(t, s.oneOfAt.value, WithOption(e, Strip(c.caption), value, Adopts(s, value, c.marked)))
  }

  /**
    A numeric setting, with the bounds read as hex and no default, replaces
    whatever was filed at its place and becomes the open numeric.
   */
  function OpenNumeric(s: State, c: NumericCapture): (r: State)
    requires AllDec(c.sizeBits)
    ensures
      var place := PlaceOf(s.stores, c.question);
      && Lookup(r.model, place.0, place.1) ==
         Some(Numeric(Strip(c.question.prompt), SizeText(c.sizeBits), ParseHex(c.min), ParseHex(c.max), None))
      && SameElsewhere(s.model, r.model, place)
      && r.numericAt == Some(place)
    ensures r.lastMatch == Some(NumericKind)
    ensures Extends(s.model, r.model)
    ensures r.(model := s.model, numericAt := s.numericAt, lastMatch := s.lastMatch) == s
  {
    var place := PlaceOf(s.stores, c.question);
    var t := Store(s, place, Numeric(Strip(c.question.prompt), SizeText(c.sizeBits), ParseHex(c.min), ParseHex(c.max), None));
    t.(numericAt := Some(place), lastMatch := Some(NumericKind))
  }

  /** A `CheckBox` record: a checkbox with its declared default replaces whatever was filed at its place. */
  function AddCheckBox(s: State, c: CheckBoxCapture): (r: State)
    ensures
      var place := PlaceOf(s.stores, c.question);
      && Lookup(r.model, place.0, place.1) == Some(CheckBox(Strip(c.question.prompt), c.initial))
      && SameElsewhere(s.model, r.model, place)
    ensures r.lastMatch == Some(CheckBoxKind)
    ensures Extends(s.model, r.model)
    ensures r.(model := s.model, lastMatch := s.lastMatch) == s
  {
    var place := PlaceOf(s.stores, c.question);
    Store(s, place, CheckBox(Strip(c.question.prompt), c.initial)).(lastMatch := Some(CheckBoxKind))
  }

  /**
    A default value matched against the options already read: the first
    option, in insertion order, whose value is `hex` becomes the default,
    replacing any earlier default; with no such option nothing changes.
   */
  function WithMatchedDefault(e: Setting, hex: string): (r: Setting)
    requires e.OneOf?
    ensures r.OneOf? && r.name == e.name && r.size == e.size && r.options == e.options
    ensures (forall i :: 0 <= i < |e.options| ==> e.options[i].1 != hex) ==> r == e
    ensures (exists i :: 0 <= i < |e.options| && e.options[i].1 == hex) ==>
      r.defaultLabel.Some? &&
      exists i :: 0 <= i < |e.options| && e.options[i] == (r.defaultLabel.value, hex)
        && forall j :: 0 <= j < i ==> e.options[j].1 != hex
    ensures WfSetting(e) ==> WfSetting(r)
  {
    match FirstKeyWithValue(e.options, hex)
    case None => e
    case Some(k) => e.(defaultLabel := Some(k))
  }

  /**
    A default record under a one-of. With an option already read, the
    normalised value becomes pending and is matched against the options.
    With none read yet, it becomes pending and is stashed for the one-of's
    name, to be matched by the options still to come.
   */
  function DefaultUnderOneOf(s: State, v: DecNumeral): (r: State)
    ensures r.pending == HexPending(OptionValue(v))
    ensures s.optionSeen ==>
      && r.stashedFor == s.stashedFor
      && (OpenOneOfEntry(s).Some? ==>
           && OpenOneOfEntry(r) == Some(WithMatchedDefault(OpenOneOfEntry(s).value, OptionValue(v)))
           && SameElsewhere(s.model, r.model, s.oneOfAt.value))
      && (OpenOneOfEntry(s).None? ==> r.model == s.model)
    ensures !s.optionSeen ==> r.stashedFor == s.oneOfName && r.model == s.model
    ensures Extends(s.model, r.model)
    ensures r.(model := s.model, pending := s.pending, stashedFor := s.stashedFor) == s
  {
    var hex := OptionValue(v);
    if !s.optionSeen then
      s.(pending := HexPending(hex), stashedFor := s.oneOfName)
    else
      var t := s.(pending := HexPending(hex));
      if OpenOneOfEntry(s).None? then t
      else Store(t, s.oneOfAt.value, WithMatchedDefault(OpenOneOfEntry(s).value, hex))
  }

  /** A default record under a numeric: the integer becomes pending and the open numeric's default. */
  function DefaultUnderNumeric(s: State, v: DecNumeral): (r: State)
    ensures r.pending == IntPending(ParseDecimal(v))
    ensures s.numericAt.Some? ==>
      var place := s.numericAt.value;
      var e := Lookup(s.model, place.0, place.1);
      e.Some? && e.value.Numeric? ==>
        && Lookup(r.model, place.0, place.1) == Some(e.value.(defaultValue := Some(ParseDecimal(v))))
        && SameElsewhere(s.model, r.model, place)
    ensures Extends(s.model, r.model)
    ensures r.(model := s.model, pending := s.pending) == s
  {
    var n := ParseDecimal(v);
    var t := s.(pending := IntPending(n));
    if s.numericAt.None? then t
    else
      var place := s.numericAt.value;
      var e := Lookup(s.model, place.0, place.1);
      if e.Some? && e.value.Numeric? then Store(t, place, e.value.(defaultValue := Some(n)))
      else t
  }

  /** A bare `Default DefaultId: 0x0 Value: n` record: only meaningful under a one-of or a numeric. */
  function ApplyDefault(s: State, v: DecNumeral): (r: State)
    ensures s.lastMatch == Some(OneOfKind) ==> r == DefaultUnderOneOf(s, v)
    ensures s.lastMatch == Some(NumericKind) ==> r == DefaultUnderNumeric(s, v)
    ensures s.lastMatch != Some(OneOfKind) && s.lastMatch != Some(NumericKind) ==> r == s
  {
    if s.lastMatch == Some(OneOfKind) then DefaultUnderOneOf(s, v)
    else if s.lastMatch == Some(NumericKind) then DefaultUnderNumeric(s, v)
    else s
  }

  /**
    A question whose `Size:` field holds a hex letter: its pattern accepts
    the field, but `int()` raises `ValueError` on it.
   */
  predicate SizeUnreadable(r: Record) {
    || (r.OneOfQuestion? && !AllDec(r.oneOf.sizeBits))
    || (r.NumericQuestion? && !AllDec(r.numeric.sizeBits))
  }

  /**
    One iteration of the loop of `dict_population`. After a `ValueError`
    nothing more happens; the record that raises it changes nothing but
    the `failed` flag.
   */
  function Step(s: State, m: Matches): (r: State)
    ensures s.failed ==> r == s
    ensures !s.failed ==> (r.failed <==> SizeUnreadable(Dispatch(m, s.lastMatch)))
    ensures r.failed ==> r.model == s.model
    ensures Extends(s.model, r.model)
    ensures !Dispatch(m, s.lastMatch).StoreDecl? ==> r.stores == s.stores
  {
    if s.failed then s
    else
      var rec := Dispatch(m, s.lastMatch);
      if SizeUnreadable(rec) then s.(failed := true)
      else
        match rec
        case StoreDecl(c) => DeclareStore(s, c)
        case OneOfQuestion(c) => OpenOneOf(s, c)
        case OptionRow(c) => AddOption(s, c)
        case NumericQuestion(c) => OpenNumeric(s, c)
        case CheckBoxQuestion(c) => AddCheckBox(s, c)
        case DefaultRow(v) => ApplyDefault(s, v)
        case Unclassified => s
  }

  /** The loop from state `s` over the records `ms`, in order. */
  function Run(s: State, ms: seq<Matches>): State
    decreases |ms|
  {
    if |ms| == 0 then s else Run(Step(s, ms[0]), ms[1..])
  }

  /**
    `dict_population`: the settings model built from the records, or none
    when `int()` raised on a size field. Every model it builds is well
    formed: no store or offset is listed twice, and every one-of default is
    one of its option labels.
   */
  function DictPopulation(ms: seq<Matches>): (r: Option<Model>)
    ensures r.Some? ==> WfModel(r.value)
  {
    InitialInv();
    RunInv(Initial, ms);
    var s := Run(Initial, ms);
    if s.failed then None else Some(s.model)
  }

  /**
    What holds between any two records: the model is well formed; while a
    one-of is open its entry is a one-of, holding options once one has been
    read; while a numeric is open its entry is a numeric.
   */
  ghost predicate Inv(s: State) {
    && WfModel(s.model)
    && (s.lastMatch == Some(OneOfKind) ==>
         && OpenOneOfEntry(s).Some?
         && (s.optionSeen ==> |OpenOneOfEntry(s).value.options| > 0))
    && (s.lastMatch == Some(NumericKind) ==>
         && s.numericAt.Some?
         && var e := Lookup(s.model, s.numericAt.value.0, s.numericAt.value.1);
         && e.Some? && e.value.Numeric?)
  }

  lemma InitialInv()
    ensures Inv(Initial)
  {
  }

  /** The open one-of entry of a well-formed model is well formed. */
  lemma OpenOneOfWf(s: State)
    requires WfModel(s.model) && OpenOneOfEntry(s).Some?
    ensures WfSetting(OpenOneOfEntry(s).value)
  {
    LookupWf(s.model, s.oneOfAt.value.0, s.oneOfAt.value.1);
  }

  /** Every record keeps `Inv`, and only ever adds keys at the end. */
  lemma {:induction false} StepInv(s: State, m: Matches)
    requires Inv(s)
    ensures Inv(Step(s, m))
    ensures Extends(s.model, Step(s, m).model)
  {
    if !s.failed && !SizeUnreadable(Dispatch(m, s.lastMatch)) {
      match Dispatch(m, s.lastMatch)
      case StoreDecl(c) =>
      case OneOfQuestion(c) => OpenOneOfInv(s, c);
      case OptionRow(c) => AddOptionInv(s, c);
      case NumericQuestion(c) => OpenNumericInv(s, c);
      case CheckBoxQuestion(c) => AddCheckBoxInv(s, c);
      case DefaultRow(v) => ApplyDefaultInv(s, v);
      case Unclassified =>
    }
  }

  lemma OpenOneOfInv(s: State, c: OneOfCapture)
    requires Inv(s) && AllDec(c.sizeBits)
    ensures Inv(OpenOneOf(s, c))
  {
    var place := PlaceOf(s.stores, c.question);
    var e := OneOf(Strip(c.question.prompt), SizeText(c.sizeBits), [], None);
    var t := Store(s, place, e);
    assert WfModel(t.model) by {
      assert WfSetting(e);
    }
    var r := t.(oneOfName := Some(e.name), oneOfAt := Some(place), lastMatch := Some(OneOfKind), optionSeen := false);
    assert OpenOneOf(s, c) == r;
    assert OpenOneOfEntry(r) == Some(e) by {
      assert Lookup(r.model, place.0, place.1) == Some(e);
    }
  }

  lemma AddOptionInv(s: State, c: OptionCapture)
    requires Inv(s) && s.lastMatch == Some(OneOfKind)
    ensures Inv(AddOption(s, c))
  {
    OpenOneOfWf(s);
    var r := AddOption(s, c);
    assert Get(OpenOneOfEntry(r).value.options, Strip(c.caption)).Some?;
  }

  lemma OpenNumericInv(s: State, c: NumericCapture)
    requires Inv(s) && AllDec(c.sizeBits)
    ensures Inv(OpenNumeric(s, c))
  {
  }

  lemma AddCheckBoxInv(s: State, c: CheckBoxCapture)
    requires Inv(s)
    ensures Inv(AddCheckBox(s, c))
  {
  }

  lemma ApplyDefaultInv(s: State, v: DecNumeral)
    requires Inv(s)
    ensures Inv(ApplyDefault(s, v))
    ensures Extends(s.model, ApplyDefault(s, v).model)
  {
    if s.lastMatch == Some(OneOfKind) {
      if s.optionSeen {
        OpenOneOfWf(s);
      }
    } else if s.lastMatch == Some(NumericKind) {
      var place := s.numericAt.value;
      LookupWf(s.model, place.0, place.1);
    }
  }

  /** `Inv` holds after any run from a state where it holds, and no key ever moves. */
  lemma {:induction false} RunInv(s: State, ms: seq<Matches>)
    requires Inv(s)
    ensures Inv(Run(s, ms))
    ensures Extends(s.model, Run(s, ms).model)
    decreases |ms|
  {
    if |ms| > 0 {
      StepInv(s, ms[0]);
      RunInv(Step(s, ms[0]), ms[1..]);
      ExtendsTransitive(s.model, Step(s, ms[0]).model, Run(s, ms).model);
    }
  }

  /** Once `int()` has raised, no later record has any effect. */
  lemma {:induction false} RunFailed(s: State, ms: seq<Matches>)
    requires s.failed
    ensures Run(s, ms) == s
    decreases |ms|
  {
    if |ms| > 0 {
      RunFailed(Step(s, ms[0]), ms[1..]);
    }
  }

  /**
    A record read as a question whatever came before it, whose size field
    holds a hex letter.
   */
  predicate BadSize(m: Matches) {
    && m.store.None?
    && (|| (m.oneOf.Some? && !AllDec(m.oneOf.value.sizeBits))
        || (m.oneOf.None? && m.option.None? && m.numeric.Some? && !AllDec(m.numeric.value.sizeBits)))
  }

  /** Such a record anywhere in the input makes `dict_population` raise: no model at all. */
  lemma {:induction false} BadSizeAborts(ms: seq<Matches>, i: int)
    requires 0 <= i < |ms| && BadSize(ms[i])
    ensures DictPopulation(ms).None?
  {
    assert ms == ms[..i] + ms[i..];
    RunAppend(Initial, ms[..i], ms[i..]);
    var t := Run(Initial, ms[..i]);
    if t.failed {
      RunFailed(t, ms[i..]);
    } else {
      assert ms[i..][1..] == ms[i + 1..];
      assert Step(t, ms[i]).failed;
      RunFailed(Step(t, ms[i]), ms[i + 1..]);
    }
  }

  /** Every size field a record carries is written in decimal digits. */
  predicate DecimalSizes(m: Matches) {
    && (m.oneOf.Some? ==> AllDec(m.oneOf.value.sizeBits))
    && (m.numeric.Some? ==> AllDec(m.numeric.value.sizeBits))
  }

  lemma {:induction false} RunNeverFails(s: State, ms: seq<Matches>)
    requires !s.failed && forall i :: 0 <= i < |ms| ==> DecimalSizes(ms[i])
    ensures !Run(s, ms).failed
    decreases |ms|
  {
    if |ms| > 0 {
      assert DecimalSizes(ms[0]);
      assert forall i :: 0 <= i < |ms| - 1 ==> ms[1..][i] == ms[i + 1];
      RunNeverFails(Step(s, ms[0]), ms[1..]);
    }
  }

  /** With decimal sizes throughout, `dict_population` always returns a model. */
  lemma DecimalSizesSucceed(ms: seq<Matches>)
    requires forall i :: 0 <= i < |ms| ==> DecimalSizes(ms[i])
    ensures DictPopulation(ms).Some?
  {
    RunNeverFails(Initial, ms);
  }

  /**
    Feeding more records never moves a store or an offset already in the
    model: table order is the order in which keys were first inserted. A
    longer input builds a model only if the shorter one does.
   */
  lemma {:induction false} PopulationExtends(ms: seq<Matches>, more: seq<Matches>)
    ensures DictPopulation(ms + more).Some? ==>
      && DictPopulation(ms).Some?
      && Extends(DictPopulation(ms).value, DictPopulation(ms + more).value)
  {
    RunAppend(Initial, ms, more);
    InitialInv();
    RunInv(Initial, ms);
    RunInv(Run(Initial, ms), more);
    if Run(Initial, ms).failed {
      RunFailed(Run(Initial, ms), more);
    }
  }

  lemma {:induction false} RunAppend(s: State, ms: seq<Matches>, more: seq<Matches>)
    ensures Run(s, ms + more) == Run(Run(s, ms), more)
    decreases |ms|
  {
    if |ms| == 0 {
      assert ms + more == more;
    } else {
      assert (ms + more)[1..] == ms[1..] + more;
      RunAppend(Step(s, ms[0]), ms[1..], more);
    }
  }
}
