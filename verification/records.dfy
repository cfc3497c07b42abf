/**
  Record classification in `dict_population` (setupvar-builder/main.py).
  Each logical record is searched with six patterns; what the patterns
  capture is given here as a `Matches` value, and the `if`/`elif` chain that
  picks one branch is `Dispatch`. Regular-expression matching itself is not
  modelled: a capture is present exactly when its pattern found a match.
 */
module Records {
  import opened Assoc
  import opened Numerals
  import opened Settings

  /** `VarStoreId: 0x<id>, Size: 0x.., Name: "<name>"`. */
  datatype StoreCapture = StoreCapture(id: HexNumeral, name: string)

  /** The prompt, the `VarStoreId` digits and the `VarOffset` digits of a question. */
  datatype QuestionCapture = QuestionCapture(prompt: string, storeId: HexNumeral, offset: HexNumeral)

  /**
    A `OneOf Prompt: ...` record. The `Size:` field is captured as hex digits
    but read with `int()`, which accepts decimal digits only.
   */
  datatype OneOfCapture = OneOfCapture(question: QuestionCapture, sizeBits: HexNumeral)

  /** A `OneOfOption Option: "<caption>" Value: <n>` record, `marked` when `, Default` follows. */
  datatype OptionCapture = OptionCapture(caption: string, value: DecNumeral, marked: bool)

  /** A `Numeric Prompt: ...` record; `sizeBits` as for a one-of, `min` and `max` read as hex. */
  datatype NumericCapture = NumericCapture(question: QuestionCapture, sizeBits: HexNumeral, min: HexNumeral, max: HexNumeral)

  /** A `CheckBox Prompt: ...` record with its `Default: Enabled|Disabled` field. */
  datatype CheckBoxCapture = CheckBoxCapture(question: QuestionCapture, initial: Toggle)

  /** The outcome of the six searches on one record; `dflt` is `Default DefaultId: 0x0 Value: <n>`. */
  datatype Matches = Matches(
    store: Option<StoreCapture>,
    oneOf: Option<OneOfCapture>,
    option: Option<OptionCapture>,
    numeric: Option<NumericCapture>,
    checkBox: Option<CheckBoxCapture>,
    dflt: Option<DecNumeral>)

  /** The values `last_match` takes once a question record has been seen. */
  datatype Kind = OneOfKind | NumericKind | CheckBoxKind

  /** The branch of the chain a record takes, with the captures that branch reads. */
  datatype Record =
    | StoreDecl(store: StoreCapture)
    | OneOfQuestion(oneOf: OneOfCapture)
    | OptionRow(option: OptionCapture)
    | NumericQuestion(numeric: NumericCapture)
    | CheckBoxQuestion(checkBox: CheckBoxCapture)
    | DefaultRow(value: DecNumeral)
    | Unclassified

  /**
    The `if`/`elif` chain: the first pattern that matched wins, in the order
    store, one-of, option, numeric, checkbox, default, except that an option
    match counts only while the last question was a one-of; otherwise the
    record falls through to the later patterns.
   */
  function Dispatch(m: Matches, last: Option<Kind>): (r: Record)
    ensures r.StoreDecl? <==> m.store.Some?
    ensures r.OneOfQuestion? <==> m.store.None? && m.oneOf.Some?
    ensures r.OptionRow? <==>
      m.store.None? && m.oneOf.None? && m.option.Some? && last == Some(OneOfKind)
    ensures r.NumericQuestion? <==>
      && m.store.None? && m.oneOf.None? && !(m.option.Some? && last == Some(OneOfKind))
      && m.numeric.Some?
    ensures r.CheckBoxQuestion? <==>
      && m.store.None? && m.oneOf.None? && !(m.option.Some? && last == Some(OneOfKind))
      && m.numeric.None? && m.checkBox.Some?
    ensures r.DefaultRow? <==>
      && m.store.None? && m.oneOf.None? && !(m.option.Some? && last == Some(OneOfKind))
      && m.numeric.None? && m.checkBox.None? && m.dflt.Some?
    ensures r.StoreDecl? ==> m.store == Some(r.store)
    ensures r.OneOfQuestion? ==> m.oneOf == Some(r.oneOf)
    ensures r.OptionRow? ==> m.option == Some(r.option)
    ensures r.NumericQuestion? ==> m.numeric == Some(r.numeric)
    ensures r.CheckBoxQuestion? ==> m.checkBox == Some(r.checkBox)
    ensures r.DefaultRow? ==> m.dflt == Some(r.value)
  {
    if m.store.Some? then StoreDecl(m.store.value)
    else if m.oneOf.Some? then OneOfQuestion(m.oneOf.value)
    else if m.option.Some? && last == Some(OneOfKind) then OptionRow(m.option.value)
    else if m.numeric.Some? then NumericQuestion(m.numeric.value)
    else if m.checkBox.Some? then CheckBoxQuestion(m.checkBox.value)
    else if m.dflt.Some? then DefaultRow(m.dflt.value)
    else Unclassified
  }

  /**
    An option record read while the last question was not a one-of is
    classified as if the option pattern had not matched at all.
   */
  lemma OptionFallsThrough(m: Matches, last: Option<Kind>)
    requires last != Some(OneOfKind)
    ensures Dispatch(m, last) == Dispatch(m.(option := None), last)
  {
  }

  /** A record carrying only the captures of `r` is classified as `r`. */
  function Only(r: Record): (m: Matches)
  {
    var none := Matches(None, None, None, None, None, None);
    match r
    case StoreDecl(c) => none.(store := Some(c))
    case OneOfQuestion(c) => none.(oneOf := Some(c))
    case OptionRow(c) => none.(option := Some(c))
    case NumericQuestion(c) => none.(numeric := Some(c))
    case CheckBoxQuestion(c) => none.(checkBox := Some(c))
    case DefaultRow(v) => none.(dflt := Some(v))
    case Unclassified => none
  }

  /**
    Every branch is reachable from a record that matched one pattern only,
    except that an option is reachable only while a one-of is open.
   */
  lemma DispatchOnly(r: Record, last: Option<Kind>)
    requires r.OptionRow? ==> last == Some(OneOfKind)
    ensures Dispatch(Only(r), last) == r
  {
  }
}
