/**
  The text of one exported directive (setupvar-builder/gui.py, the
  `f"..."` strings of `export_oneof`, `export_numeric` and
  `export_checkbox`): a comment line naming the setting and the chosen
  value, then the `setup_var.efi` command line, then an empty line. The
  reader `ReadDirective` recovers the fields from the text.
 */
module Script {
  import opened Assoc

  /** The six values a directive is built from. */
  datatype Command = Command(name: string, shown: string, offset: string, value: string, size: string, store: string)

  const Tool: string := "setup_var.efi "

  /** `"# {name}: {shown}\nsetup_var.efi {offset} {value} -s {size} -n {store}\n\n"`. */
  function Render(c: Command): (r: string)
    ensures |r| > 2 && r[0] == '#' && r[|r| - 2..] == "\n\n"
  {
    Comment(c) + "\n" + Tool + c.offset + " " + c.value + " -s " + c.size + " -n " + c.store + "\n\n"
  }

  function Comment(c: Command): string {
    "# " + c.name + ": " + c.shown
  }

  /** Concatenation of the directives, as `writelines` puts them in the file. */
  function Concat(texts: seq<string>): (r: string)
    ensures r == "" <==> forall i :: 0 <= i < |texts| ==> texts[i] == ""
  {
    if |texts| == 0 then "" else texts[0] + Concat(texts[1..])
  }

  /** The directives of a list of commands, one after the other. */
  function Directives(cs: seq<Command>): (r: seq<string>)
    ensures |r| == |cs| && forall i :: 0 <= i < |cs| ==> r[i] == Render(cs[i])
  {
    seq(|cs|, i requires 0 <= i < |cs| => Render(cs[i]))
  }

  /** No directive is empty, so a file of directives is empty only when there are none. */
  lemma DirectivesEmpty(cs: seq<Command>)
    ensures Concat(Directives(cs)) == "" <==> cs == []
  {
    if cs != [] {
      assert Render(cs[0])[0] == '#';
    }
  }

  predicate Token(s: string) {
    ' ' !in s && '\n' !in s
  }

  /** The fields can be read back: no line breaks, and no blanks inside the three tokens. */
  predicate Readable(c: Command) {
    && '\n' !in c.name && '\n' !in c.shown && '\n' !in c.store
    && Token(c.offset) && Token(c.value) && Token(c.size)
  }

  /** What a reader recovers: the comment line as a whole, and the five command fields. */
  datatype Fields = Fields(comment: string, offset: string, value: string, size: string, store: string)

  /** `s` cut at its first `sep`. */
  function SplitAt(s: string, sep: char): (r: Option<(string, string)>)
    ensures r.None? <==> sep !in s
    ensures r.Some? ==> s == r.value.0 + [sep] + r.value.1 && sep !in r.value.0
  {
    if |s| == 0 then None
    else if s[0] == sep then
      assert s == [] + [sep] + s[1..];
      Some(([], s[1..]))
    else match SplitAt(s[1..], sep)
      case None => None
      case Some(p) =>
        assert s == [s[0]] + s[1..];
        Some(([s[0]] + p.0, p.1))
  }

  /** A text made of a piece without `sep`, then `sep`, is cut right there. */
  lemma {:induction false} SplitAtFirst(a: string, sep: char, b: string)
    requires sep !in a
    ensures SplitAt(a + [sep] + b, sep) == Some((a, b))
  {
    var s := a + [sep] + b;
    if |a| > 0 {
      assert s[1..] == a[1..] + [sep] + b;
      SplitAtFirst(a[1..], sep, b);
      assert [a[0]] + a[1..] == a;
    }
  }

  /** Reads one directive back into its fields; `None` for text not of the directive shape. */
  function ReadDirective(t: string): Option<Fields> {
    match SplitAt(t, '\n')
    case None => None
    case Some(p) =>
      if Tool <= p.1 then ReadCommand(p.0, p.1[|Tool|..]) else None
  }

  function ReadCommand(comment: string, t: string): Option<Fields> {
    match SplitAt(t, ' ')
    case None => None
    case Some(p) =>
      match SplitAt(p.1, ' ')
      case None => None
      case Some(q) =>
        if "-s " <= q.1 then ReadTail(comment, p.0, q.0, q.1[3..]) else None
  }

  function ReadTail(comment: string, offset: string, value: string, t: string): Option<Fields> {
    match SplitAt(t, ' ')
    case None => None
    case Some(p) =>
      var rest := p.1;
      if "-n " <= rest && |rest| >= 5 && rest[|rest| - 2..] == "\n\n" then
        Some(Fields(comment, offset, value, p.0, rest[3..|rest| - 2]))
      else None
  }

  /** The command line after the tool name and before the offset is read. */
  function AfterValue(c: Command): string {
    "-s " + c.size + " -n " + c.store + "\n\n"
  }

  lemma ReadTailRendered(comment: string, c: Command)
    requires Readable(c)
    ensures ReadTail(comment, c.offset, c.value, AfterValue(c)[3..]) ==
      Some(Fields(comment, c.offset, c.value, c.size, c.store))
  {
    var tail := "-n " + c.store + "\n\n";
    assert AfterValue(c)[3..] == c.size + [' '] + tail;
    SplitAtFirst(c.size, ' ', tail);
    assert tail[3..|tail| - 2] == c.store;
  }

  lemma ReadCommandRendered(comment: string, c: Command)
    requires Readable(c)
    ensures ReadCommand(comment, c.offset + " " + c.value + " " + AfterValue(c)) ==
      Some(Fields(comment, c.offset, c.value, c.size, c.store))
  {
    var t := c.offset + " " + c.value + " " + AfterValue(c);
    assert t == c.offset + [' '] + (c.value + " " + AfterValue(c));
    SplitAtFirst(c.offset, ' ', c.value + " " + AfterValue(c));
    SplitAtFirst(c.value, ' ', AfterValue(c));
    ReadTailRendered(comment, c);
  }

  /** Reading a rendered directive gives back the fields it was made from. */
  lemma ReadRendered(c: Command)
    requires Readable(c)
    ensures ReadDirective(Render(c)) == Some(Fields(Comment(c), c.offset, c.value, c.size, c.store))
  {
    var rest := c.offset + " " + c.value + " " + AfterValue(c);
    var line := Tool + rest;
    assert Render(c) == Comment(c) + ['\n'] + line;
    assert '\n' !in Comment(c) by {
      assert Comment(c) == "# " + c.name + ": " + c.shown;
    }
    SplitAtFirst(Comment(c), '\n', line);
    assert line[|Tool|..] == rest;
    ReadCommandRendered(Comment(c), c);
  }
}
