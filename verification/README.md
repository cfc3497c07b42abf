# setupvar-builder, modelled in Dafny

setupvar-builder is a desktop tool. It reads the text dump that IFRExtractor
produces from a UEFI firmware image. From it, the tool builds a table of the
firmware's setup questions, each with its stored default. The user changes
some of the values. The tool then writes a script of `setup_var.efi`
commands that set exactly the changed values.

This project models the core of that pipeline:

- **Reassembly** (`Report`, `Text`). The dump's first line must name the UEFI
  extraction mode. The remaining lines are stripped. A line that starts with
  a hex address and a colon opens a record. Any other line is appended to the
  open record after a space. The whole dump is rejected when no line carries
  a `{...}` token.
- **Classification** (`Records`). The six record patterns are tried in their
  precedence order. An option record that does not follow a one-of falls
  through to the later patterns.
- **The reducer** (`Reducer`, `Settings`, `Assoc`, `Numerals`). The classified
  records are folded into the settings model. The model maps a store name to
  an offset, and the offset to a one-of, numeric or checkbox setting. It
  covers:
  - store declarations;
  - option values normalised to upper-case hex;
  - defaults marked on an option;
  - defaults that come before the options, or after them;
  - numeric defaults.
  Both levels of the model are insertion-ordered, like Python dictionaries.
- **The table** (`Table`). There is one row per stored setting, in store
  order and then offset order. Each row gets the editor it starts with: a
  combo box, a spin box, a check box, or none. The editor follows the
  eligibility rules of `add_one_of_option`, `add_numeric` and `add_checkbox`.
- **The compiler** (`Export`, `Script`). `export_oneof`, `export_numeric` and
  `export_checkbox` emit one directive per row whose editor differs from the
  stored default. The directive text is `Render`, and `ReadDirective` reads
  it back. The Export button works against the window's export buffer.
- **Worked examples** (`Scenarios`). A one-of from its records to its
  directive, a numeric with range 0..10, and a dump without the marker.

Three behaviours of the code that are easy to misread:

- **Numeric range check.** The code requires only `default >= min` and a
  default strictly inside the C `int` range (gui.py lines 254-258). A
  default above the maximum still gets a spin box, and Qt then pulls that
  spin box down to the maximum.
- **Rejection.** The code shows a message box and returns `[]` for both
  kinds of rejected dump. `ParseReport` keeps the two reasons apart as its
  own `Rejection` values, `InvalidFormat` and `NotVerboseExtraction`.
  `ParseInputFile` returns what the code returns.
- **Size fields.** The one-of and numeric patterns capture the `Size:`
  field as hex digits, but `int()` reads it as decimal. A size with a hex
  letter makes `dict_population` raise `ValueError`, and no model is built
  (`Reducer.DictPopulation` returns none).

## Model

| member | source | states |
|---|---|---|
| Text.IsHexLine | setupvar-builder/main.py:20-22 | A header line is at least four characters long and starts with `0x` and a hex digit. |
| Text.IsHexLineIff | setupvar-builder/main.py:20-22 | A line is a record header exactly when it starts with `0x`, then one or more hex digits, then a colon. |
| Text.Strip | setupvar-builder/main.py:41 | Stripping only removes characters: the result is never longer than the line, and a line it does not shorten comes back unchanged. |
| Text.StripTrims | setupvar-builder/main.py:41 | A stripped line is the original line with its leading and trailing whitespace removed. Its first and last characters are not whitespace. |
| Text.StripBlank | setupvar-builder/main.py:41 | Stripping an all-whitespace line gives the empty string. |
| Text.StripIdempotent | setupvar-builder/main.py:41 | Stripping twice is the same as stripping once. |
| Report.ParseReport | setupvar-builder/main.py:25-67 | A dump is rejected as `InvalidFormat` exactly when its first line lacks the extraction-mode marker. It is rejected as `NotVerboseExtraction` exactly when the marker is present and no later stripped line has a `{...}` token. Otherwise it is accepted with one record per header line. |
| Report.ParseInputFile | setupvar-builder/main.py:25-67 | The line-by-line procedure returns the records of an accepted dump, and the empty list for either rejection. |
| Report.ReadLine | setupvar-builder/main.py:40-55 | One pass of the loop keeps the loop invariant: the records so far are the grouping of the stripped lines read so far. The "pattern found" flag becomes set once the stripped line has a `{...}` token, and stays set. |
| Report.FeedLine | setupvar-builder/main.py:47-55 | A header line closes the open record, if any, and opens a new one holding only itself. Any other line closes nothing, and the accumulator keeps its size. Either way the result agrees with appending the line to the grouping. |
| Report.Group | setupvar-builder/main.py:47-58 | There are at most as many records as lines. Nothing is left over for an earlier record exactly when the first line is a header. |
| Report.Reassemble | setupvar-builder/main.py:40-58 | The loop with its one-element accumulator computes the same records as the grouping definition. Its flag is set exactly when some stripped line has a `{...}` token. |
| Report.BraceSeenIff | setupvar-builder/main.py:43-45 | The running "pattern found" flag ends true exactly when some line has a brace token. |
| Report.GroupHeaders | setupvar-builder/main.py:47-55 | There are as many records as header lines, and the i-th record starts with the i-th header. |
| Report.RecordShape | setupvar-builder/main.py:47-58 | A header followed by continuation lines becomes one record: the header, then each continuation line after a single space. Later records are unaffected. |
| Report.LeadingLinesDropped | setupvar-builder/main.py:53-55 | Lines before the first header belong to no record. |
| Report.GroupSnoc | setupvar-builder/main.py:47-55 | Appending a line either opens a new record (a header) or extends the last record by a space and the line. |
| Records.Dispatch | setupvar-builder/main.py:106-212 | Each record kind is chosen exactly when its pattern matches and no earlier pattern does. An option counts only right after a one-of. The chosen kind carries that pattern's captures. |
| Records.OptionFallsThrough | setupvar-builder/main.py:135 | An option match that is not under a one-of has no effect on the classification. |
| Records.DispatchOnly | setupvar-builder/main.py:106-212 | A record matched by its own pattern alone is classified as itself. The one exception is an option outside a one-of. |
| Assoc.Get | setupvar-builder/main.py:116 | A lookup finds nothing exactly when the key is absent. Otherwise it finds the value paired with the key. |
| Assoc.Put | setupvar-builder/main.py:162 | Assigning a key keeps the key order when the key exists and appends it otherwise. The key now maps to the new value, every other key is unchanged, and keys stay distinct. |
| Assoc.FirstKeyWithValue | setupvar-builder/main.py:225-228 | The search finds nothing exactly when no pair has the value. Otherwise it finds the key of the first pair, in insertion order, that has it. |
| Numerals.UpperHex | setupvar-builder/main.py:137-140 | The digits are upper-case hex, read back to the number, and have a leading zero only for zero. |
| Numerals.LowerHex | setupvar-builder/main.py:118 | The digits are lower-case hex, read back to the number, and have a leading zero only for zero. |
| Numerals.DecimalText | setupvar-builder/gui.py:345 | The digits are decimal, read back to the number, and have a leading zero only for zero. |
| Settings.PutSetting | setupvar-builder/main.py:120-131 | Filing a setting replaces that entry wholesale and leaves every other entry unchanged. A new store or offset goes to the end. Well-formedness is kept. |
| Settings.ExtendsTransitive | setupvar-builder/main.py:97-244 | "Keys only added at the end" composes across steps. |
| Reducer.StoreName | setupvar-builder/main.py:116 | A store id resolves to its declared name. An undeclared id resolves to the text `None`. |
| Reducer.SizeText | setupvar-builder/main.py:118 | The size is `0x` followed by hex digits whose value is the bit count divided by 8. The digits are lower case with no leading zero, as Python's `hex` writes them. |
| Reducer.OptionValue | setupvar-builder/main.py:137-140 | An option value is `0x` followed by canonical upper-case hex digits that denote the decimal value read. |
| Reducer.OptionValueIff | setupvar-builder/main.py:151-155 | Two normalised values are equal exactly when the numbers are equal. Comparing the strings is comparing the numbers. |
| Reducer.DeclareStore | setupvar-builder/main.py:106-109 | A store declaration binds its id to its name. Every other id and the model are unchanged. |
| Reducer.OpenOneOf | setupvar-builder/main.py:111-133 | A one-of question files a fresh one-of, with no options and no default, at its place. Nothing else is filed anywhere. The one-of becomes the open one-of, with no option seen yet. |
| Reducer.WithOption | setupvar-builder/main.py:151-162 | An option maps its label to its value, and a repeated label keeps its position. The label becomes the default only when there was none and the option is adopted. An existing default is never replaced. |
| Reducer.AddOption | setupvar-builder/main.py:135-164 | The option is added to the open one-of's entry, and to nothing else. It is adopted when it carries the default marker, or when the stashed default of a same-named one-of equals its value. |
| Reducer.OpenNumeric | setupvar-builder/main.py:166-189 | A numeric question files a numeric with bounds read as hex and no default at its place. It becomes the open numeric. |
| Reducer.AddCheckBox | setupvar-builder/main.py:191-210 | A checkbox question files a checkbox with its declared default at its place. Nothing else changes. |
| Reducer.WithMatchedDefault | setupvar-builder/main.py:225-228 | The first option, in insertion order, whose value equals the default becomes the default, replacing an earlier one. With no such option nothing changes. |
| Reducer.DefaultUnderOneOf | setupvar-builder/main.py:214-232 | A default after options is matched against them right away. A default before any option is stashed for the one-of's name, for the options still to come. |
| Reducer.DefaultUnderNumeric | setupvar-builder/main.py:233-242 | A default under a numeric becomes that numeric's integer default. No other entry changes. |
| Reducer.ApplyDefault | setupvar-builder/main.py:212-242 | A default record acts under a one-of or a numeric, and changes nothing after a checkbox or before any question. |
| Reducer.Step | setupvar-builder/main.py:97-242 | Once `int()` has raised, a record changes nothing. Otherwise a record raises exactly when it is a question whose size field holds a hex letter, and then leaves the model unchanged. No step moves a key, and only a store declaration changes the store names. |
| Reducer.StepInv | setupvar-builder/main.py:97-242 | Every record keeps the model well formed: keys are distinct, and each one-of default is one of its labels. The open one-of or numeric stays filed at its place. No key moves. |
| Reducer.RunInv | setupvar-builder/main.py:97-244 | The invariant holds after any sequence of records. |
| Reducer.DictPopulation | setupvar-builder/main.py:70-244 | Every model `dict_population` returns is well formed: no store or offset is listed twice, and each one-of default is one of its labels. |
| Reducer.RunFailed | setupvar-builder/main.py:118 | After a `ValueError` no later record has any effect. |
| Reducer.BadSizeAborts | setupvar-builder/main.py:118 | A one-of or numeric question whose size field holds a hex letter, anywhere in the input, means no model is built. |
| Reducer.DecimalSizesSucceed | setupvar-builder/main.py:118 | When every size field is written in decimal digits, a model is always built. |
| Reducer.PopulationExtends | setupvar-builder/main.py:97-244 | Reading more records never moves a store or an offset already in the model. A longer input builds a model only if the shorter one does. |
| Reducer.RunAppend | setupvar-builder/main.py:97-244 | Folding two batches of records in turn is folding their concatenation. |
| Table.EntriesFound | setupvar-builder/main.py:250-253 | Each entry the nested loops visit is what the model stores under its two keys. |
| Table.EntriesComplete | setupvar-builder/main.py:250-253 | Every stored setting is visited. |
| Table.EntriesOrdered | setupvar-builder/main.py:250-251 | Entries are visited by store in insertion order, then by offset in insertion order. |
| Table.ComboItems | setupvar-builder/gui.py:220-237 | The combo box holds the option labels in order, minus a run of leading empty labels. Such a run is dropped only while a later label follows, so the box is never empty and starts with a non-empty label unless it holds a single item. Every non-empty label is among its items. |
| Table.SpinStart | setupvar-builder/gui.py:259-275 | The spin box never starts above the default. It starts exactly at the default unless the default exceeds a maximum that fits in a C `int`. |
| Table.InitialEditor | setupvar-builder/gui.py:220-290 | A combo box appears exactly when the one-of has options and a non-empty default, and it starts on an item. A spin box appears exactly when the default exists, lies strictly inside the C `int` range and is at least the minimum. Every checkbox gets a check box, ticked exactly when its default is `Enabled`. |
| Table.SelectorStartsAtDefault | setupvar-builder/gui.py:236-237 | For a well-formed one-of, the combo box starts on the stored default label. |
| Table.SpinBoxStartsAtDefault | setupvar-builder/gui.py:254-275 | A spin box starts at the default exactly when the default is within the maximum, or the maximum overflows a C `int`. |
| Table.Populate | setupvar-builder/main.py:250-290 | There is one row per entry, in order. A one-of without options stops the population with a `KeyError` after its own row is added. The population succeeds exactly when no entry lacks options. |
| Table.TableRows | setupvar-builder/main.py:247-290 | Every row names a setting the model stores under the row's keys, and the row starts with that setting's editor. |
| Script.Render | setupvar-builder/gui.py:328-330 | A directive starts with the `#` of its comment line and ends with a blank line. |
| Script.Concat | setupvar-builder/gui.py:371-374 | The written file is empty exactly when every directive written is empty. |
| Script.DirectivesEmpty | setupvar-builder/gui.py:371-374 | A file of directives is empty exactly when there are no directives. |
| Script.SplitAtFirst | setupvar-builder/gui.py:329 | A text is cut at the first occurrence of a separator. |
| Script.ReadRendered | setupvar-builder/gui.py:328-330 | Reading a directive back gives its comment line, offset, value, size and store, provided the tokens contain no blank or line break. |
| Export.OptionText | setupvar-builder/gui.py:326 | The value written for a label is the label's option value, or `None` for a label the one-of lacks. |
| Export.NumericText | setupvar-builder/gui.py:345 | A non-negative value is written as `0x` followed by canonical upper-case hex digits denoting it. A negative value is written as `0xX` followed by the digits of its magnitude. |
| Export.ExportOneOf | setupvar-builder/gui.py:317-330 | A directive is emitted exactly when the setting is stored and the chosen label differs from the default. The directive writes the label's option value with the stored size. |
| Export.ExportNumeric | setupvar-builder/gui.py:332-346 | A directive is emitted exactly when the value differs from the stored default. It shows the decimal value. It writes `0x` and canonical upper-case hex digits that read back to the value, with an extra `X` before the digits of a negative value. |
| Export.ExportCheckBox | setupvar-builder/gui.py:348-369 | A directive is emitted exactly when the tick differs from the stored default. Ticking writes `0x1` and unticking writes `0x0`, always one byte. |
| Export.ExportRow | setupvar-builder/gui.py:303-312 | A row yields a directive exactly when its editor differs from the stored default. The directive carries the row's name, store and offset. |
| Export.Compile | setupvar-builder/gui.py:293-312 | There is at most one directive per row. A first row that differs from its default contributes the first directive. |
| Export.CompileAppend | setupvar-builder/gui.py:293-312 | Compiling two blocks of rows gives the directives of the first block, then those of the second. |
| Export.CompileEmpty | setupvar-builder/gui.py:293-312 | No directive is produced exactly when no row differs from its default. |
| Export.CompileSources | setupvar-builder/gui.py:293-312 | Every directive comes from some row that differs from its default. |
| Export.CompileCovers | setupvar-builder/gui.py:293-312 | Every row that differs from its default contributes its directive. |
| Export.TableReady | setupvar-builder/gui.py:317-369 | No row of a freshly populated table makes an export routine raise. |
| Export.UntouchedTable | setupvar-builder/gui.py:292-315 | Exporting the table as it was populated writes nothing. The exception is a numeric whose spin box Qt pulled below its default. |
| Export.Open | setupvar-builder/gui.py:200-209 | After a dump is opened, the buffer is empty and the session's rows are the rows of the model's table, which is consistent with the model. A session exists exactly when the population succeeds. |
| Export.Choose | setupvar-builder/gui.py:303-312 | A user edit changes only the one row's editor value. It keeps the editor's kind and the export readiness. |
| Export.PressExport | setupvar-builder/gui.py:292-315 | The Export button as written: the current directives are appended to the buffer, and the whole buffer is written. |
| Export.BufferGrows | setupvar-builder/gui.py:73 | Every directive in the buffer is written again by each later press. |
| Export.StaleDirectiveWritten | setupvar-builder/gui.py:73 | Counterexample. Tick a `Disabled` checkbox, export, then untick it. The table now equals the defaults, yet the next press writes a non-empty file. |
| Export.PressExportFresh | setupvar-builder/gui.py:292-315 | The corrected button starts from an empty buffer. The file is empty exactly when no row differs from its default. |
| Export.FreshIgnoresHistory | setupvar-builder/gui.py:292-315 | The corrected button's file depends only on the model and the table. It is the concatenation of the current directives. |
| Scenarios.FanModel | setupvar-builder/main.py:97-164 | A store, a one-of and two options, the second marked as default, build one store holding that one-of. Its options are in order and `Manual` is the default. |
| Scenarios.FanExport | setupvar-builder/gui.py:317-330 | The one-of gets a combo box on `Manual`. Choosing `Auto` compiles to one directive writing `0x0`, one byte, at `0x10` of `Setup`. |
| Scenarios.NumericBoundary | setupvar-builder/gui.py:332-346 | For a numeric with range 0..10 and default 5, choosing 5 emits nothing and choosing 7 emits `0x7` with the stored size. |
| Scenarios.MissingMarker | setupvar-builder/main.py:33-38 | A dump whose first line lacks the marker is rejected as `InvalidFormat` and yields no records. The empty model gives an empty table. |

## Left out

- Regular expressions. The six patterns of `dict_population` (main.py lines 73-88) are not modelled as regular expressions. A record is represented by what each pattern captured (`Records.Matches`). The header and brace tests of `parse_input_file` are written out as predicates.
- File I/O. Opening the dump, the save dialog and writing the file are not modelled. The dump is given as its list of lines, and the written file as the string `writelines` would produce. An empty save path, which makes `write_export` skip the write, is not modelled.
- Message boxes. `show_message` is left out; the two rejections are values instead.
- Qt widgets, signals and the table model. An editor is reduced to the value it holds (`Table.Editor`).
- Qt behaviour. How `QSpinBox` clamps a value and `QComboBox.setCurrentText` is taken from Qt's documented behaviour (`Table.SpinStart`, `Table.InitialEditor`). The `OverflowError` fallback is modelled by its effect.
- The user's edits. Edits are not limited to the spin box range or the combo box items: `Export.Choose` accepts any value of the editor's kind.
- Broken glue between the two files. main.py calls `window.add_oneof` and `window.add_oneof_option`, but gui.py defines `add_one_of` and `add_one_of_option`. main.py also uses a `window.open_file` signal and `window.show_message`, which gui.py does not define. The table is modelled as the calls were evidently meant to go.
- Exceptions raised inside the file handler. The `KeyError` for a one-of without options is `Table.MissingOptions`, and `Export.Open` then yields no session. Its effect on the Qt event loop is not modelled.
- Unicode digits. Python's `\d` and `int()` also accept decimal digits outside ASCII (main.py lines 80 and 88). The model reads ASCII digits only.
- Export.ExportNumeric: it assumes the row's setting is a stored numeric with a default (`NumericReady`). The source indexes the model before checking the keys, so any other row would raise. `Export.TableReady` shows that every freshly populated row meets this assumption.
- Export.PressExportFresh: it is the corrected button and is not in the source. `Export.PressExport` models the code as written.

## Findings

| source | as written | input that shows it | evidently intended | confidence | as-written member | corrected member |
|---|---|---|---|---|---|---|
| setupvar-builder/gui.py:73 | The export buffer is a class attribute. Every Export press appends the current directives to it, and only opening a new dump empties it. | A checkbox whose default is `Disabled`: tick it, press Export, untick it, press Export again. The second file still holds the `0x1` directive, although the table equals the defaults. | Each saved file holds the directives for the table as it is at that press. | not executed; medium: the author may have meant the buffer to accumulate across saves | Export.StaleDirectiveWritten | Export.PressExportFresh |
