/**
  The line reassembler of `parse_input_file` (setupvar-builder/main.py):
  it validates an IFR extractor text dump and groups its physical lines into
  logical records, one per `0x<hex>:` header line. The file itself is not
  read here; the dump arrives as its sequence of lines, without terminators.
 */
module Report {
  import opened Text

  /** The first line of a dump must contain this. */
  const Marker := "Extraction mode: UEFI"

  datatype Rejection =
    | InvalidFormat          // first line lacks the extraction-mode marker
    | NotVerboseExtraction   // no later line holds a `{...}` token

  datatype Parsed = Rejected(reason: Rejection) | Accepted(records: seq<string>)

  function StripAll(lines: seq<string>): (r: seq<string>)
    ensures |r| == |lines|
    ensures forall i :: 0 <= i < |lines| ==> r[i] == Strip(lines[i])
  {
    seq(|lines|, i requires 0 <= i < |lines| => Strip(lines[i]))
  }

  /** The header lines among `lines`, in order. */
  function Headers(lines: seq<string>): seq<string> {
    if |lines| == 0 then []
    else (if IsHexLine(lines[0]) then [lines[0]] else []) + Headers(lines[1..])
  }

  /** `" " + c` for every line `c`, concatenated: how continuation lines extend a record. */
  function Spaced(lines: seq<string>): string {
    if |lines| == 0 then "" else " " + lines[0] + Spaced(lines[1..])
  }

  /**
    The grouping of stripped lines, as a fold from the right: `records`
    holds one record per header line, and `lead` is the text the lines
    before the first header would append to a record opened before them.
   */
  datatype Grouping = Grouping(lead: string, records: seq<string>)

  function Group(lines: seq<string>): (r: Grouping)
    ensures |r.records| <= |lines|
    ensures |lines| > 0 ==> (r.lead == "" <==> IsHexLine(lines[0]))
  {
    if |lines| == 0 then Grouping("", [])
    else
      var rest := Group(lines[1..]);
      if IsHexLine(lines[0]) then Grouping("", [lines[0] + rest.lead] + rest.records)
      else Grouping(" " + lines[0] + rest.lead, rest.records)
  }

  /** One record per header line, and the k-th record begins with the k-th header. */
  lemma {:induction false} GroupHeaders(lines: seq<string>)
    ensures |Group(lines).records| == |Headers(lines)|
    ensures forall k :: 0 <= k < |Headers(lines)| ==> Headers(lines)[k] <= Group(lines).records[k]
    decreases |lines|
  {
    if |lines| > 0 {
      GroupHeaders(lines[1..]);
    }
  }

  /** Python's `"\n".join(xs)`. */
  function JoinLines(xs: seq<string>): string {
    if |xs| == 0 then "" else if |xs| == 1 then xs[0] else xs[0] + "\n" + JoinLines(xs[1..])
  }

  /**
    The verdict on a dump: rejected when the first line lacks the marker,
    rejected when no later line carries a `{...}` token (the records already
    grouped are then thrown away), otherwise the grouped records.
   */
  function ParseReport(lines: seq<string>): (r: Parsed)
    ensures r == Rejected(InvalidFormat) <==> |lines| == 0 || !Contains(lines[0], Marker)
    ensures r == Rejected(NotVerboseExtraction) <==>
      && |lines| > 0 && Contains(lines[0], Marker)
      && forall k :: 1 <= k < |lines| ==> !HasBraceToken(Strip(lines[k]))
    ensures r.Accepted? ==> |r.records| == |Headers(StripAll(lines[1..]))|
  {
    if |lines| == 0 || !Contains(lines[0], Marker) then
      Rejected(InvalidFormat)
    else if forall k :: 1 <= k < |lines| ==> !HasBraceToken(Strip(lines[k])) then
      Rejected(NotVerboseExtraction)
    else
      GroupHeaders(StripAll(lines[1..]));
      Accepted(Group(StripAll(lines[1..])).records)
  }

  /** What `parse_input_file` hands back: the records, or `[]` on rejection. */
  function RecordList(p: Parsed): seq<string> {
    match p
    case Accepted(records) => records
    case Rejected(_) => []
  }

  /**
    `parse_input_file` step by step: one pass over the lines after the
    first, stripping each, noting whether a `{...}` token was seen, and
    keeping the open record in a one-element accumulator.
   */
  method ParseInputFile(lines: seq<string>) returns (parsed: seq<string>)
    ensures parsed == RecordList(ParseReport(lines))
  {
    var firstLine := if |lines| == 0 then "" else lines[0];
    if !Contains(firstLine, Marker) {
      return [];
    }
    var patternFound;
    parsed, patternFound := Reassemble(lines[1..]);
    Verdict(lines, patternFound, Group(StripAll(lines[1..])));
    if !patternFound {
      return [];
    }
  }

  /**
    The loop of `parse_input_file` over the lines after the first: the
    records it reassembles, and whether it saw a `{...}` token.
   */
  method Reassemble(body: seq<string>) returns (parsed: seq<string>, patternFound: bool)
    ensures parsed == Group(StripAll(body)).records
    ensures patternFound == BraceSeen(StripAll(body))
  {
    ghost var seen: seq<string> := [];
    patternFound := false;
    parsed := [];
    var accumulator: seq<string> := [];
    var i := 0;
    while i < |body|
      invariant Scanned(body, i, seen, parsed, accumulator, patternFound)
    {
      parsed, accumulator, patternFound, seen := ReadLine(body, i, seen, parsed, accumulator, patternFound);
      i := i + 1;
    }
    ScannedAll(body, seen, parsed, accumulator, patternFound);
    if accumulator != [] {
      parsed := parsed + [JoinLines(accumulator)];
    }
  }

  /** After the last line the open record, if any, is closed and the grouping is complete. */
  lemma ScannedAll(body: seq<string>, seen: seq<string>, parsed: seq<string>, accumulator: seq<string>, patternFound: bool)
    requires Scanned(body, |body|, seen, parsed, accumulator, patternFound)
    ensures (if accumulator != [] then parsed + [JoinLines(accumulator)] else parsed) == Group(StripAll(body)).records
    ensures patternFound == BraceSeen(StripAll(body))
  {
    assert seen == StripAll(body);
    if accumulator != [] {
      assert accumulator == [accumulator[0]];
      assert JoinLines(accumulator) == accumulator[0];
    }
  }

  /**
    The loop's state after `i` lines: `seen` holds those lines stripped,
    `patternFound` says whether one of them held a `{...}` token, and the
    closed records with the open one are their grouping.
   */
  ghost predicate Scanned(body: seq<string>, i: int, seen: seq<string>,
                          parsed: seq<string>, accumulator: seq<string>, patternFound: bool) {
    && 0 <= i <= |body|
    && |seen| == i
    && (forall k :: 0 <= k < i ==> seen[k] == Strip(body[k]))
    && patternFound == BraceSeen(seen)
    && Holds(parsed, accumulator, Group(seen))
  }

  /** One iteration of the loop: strip the line, note a `{...}` token, then feed the line. */
  method ReadLine(body: seq<string>, i: int, ghost seen: seq<string>,
                  parsed: seq<string>, accumulator: seq<string>, patternFound: bool)
    returns (parsed': seq<string>, accumulator': seq<string>, patternFound': bool, ghost seen': seq<string>)
    requires i < |body|
    requires Scanned(body, i, seen, parsed, accumulator, patternFound)
    ensures Scanned(body, i + 1, seen', parsed', accumulator', patternFound')
    ensures patternFound' == (patternFound || HasBraceToken(Strip(body[i])))
  {
    var line := Strip(body[i]);
    patternFound' := patternFound;
    if !patternFound' && HasBraceToken(line) {
      patternFound' := true;
    }
    parsed', accumulator' := FeedLine(parsed, accumulator, line, Group(seen));
    seen' := seen + [line];
    ScannedStep(body, i, seen, parsed, accumulator, patternFound, parsed', accumulator');
  }

  /** The loop invariant carried across one line. */
  lemma ScannedStep(body: seq<string>, i: int, seen: seq<string>,
                    parsed: seq<string>, accumulator: seq<string>, patternFound: bool,
                    parsed': seq<string>, accumulator': seq<string>)
    requires i < |body| && Scanned(body, i, seen, parsed, accumulator, patternFound)
    requires Holds(parsed', accumulator', Snoc(Group(seen), Strip(body[i])))
    ensures Scanned(body, i + 1, seen + [Strip(body[i])], parsed', accumulator',
                    patternFound || HasBraceToken(Strip(body[i])))
  {
    var line := Strip(body[i]);
    var seen' := seen + [line];
    Advance(seen, Group(seen), line);
    assert forall k :: 0 <= k < i ==> seen'[k] == seen[k];
  }

  /** The verdict once every line has been read. */
  lemma Verdict(lines: seq<string>, patternFound: bool, g: Grouping)
    requires |lines| > 0 && Contains(lines[0], Marker)
    requires patternFound == BraceSeen(StripAll(lines[1..]))
    requires g == Group(StripAll(lines[1..]))
    ensures ParseReport(lines) == if patternFound then Accepted(g.records) else Rejected(NotVerboseExtraction)
  {
    var stripped := StripAll(lines[1..]);
    BraceSeenIff(stripped);
    if patternFound {
      var k :| 0 <= k < |stripped| && HasBraceToken(stripped[k]);
      assert HasBraceToken(Strip(lines[k + 1]));
    } else {
      forall k | 1 <= k < |lines| ensures !HasBraceToken(Strip(lines[k])) {
        assert stripped[k - 1] == Strip(lines[k]);
      }
    }
  }

  /** The loop's ghost bookkeeping advances by one line. */
  lemma Advance(seen: seq<string>, g: Grouping, line: string)
    ensures BraceSeen(seen + [line]) == (BraceSeen(seen) || HasBraceToken(line))
    ensures g == Group(seen) ==> Snoc(g, line) == Group(seen + [line])
  {
    BraceSeenSnoc(seen, line);
    GroupSnoc(seen, line);
  }


  /**
    One stripped line into the accumulator: a header line closes the open
    record and opens a new one; any other line extends the open record, or
    is dropped when no record is open yet.
   */
  method FeedLine(parsed: seq<string>, accumulator: seq<string>, line: string, ghost g: Grouping)
    returns (parsed': seq<string>, accumulator': seq<string>)
    requires Holds(parsed, accumulator, g)
    ensures Holds(parsed', accumulator', Snoc(g, line))
    ensures IsHexLine(line) ==>
      && accumulator' == [line]
      && parsed' == if accumulator == [] then parsed else parsed + [JoinLines(accumulator)]
    ensures !IsHexLine(line) ==> parsed' == parsed && |accumulator'| == |accumulator|
  {
    parsed', accumulator' := parsed, accumulator;
    if IsHexLine(line) {
      if accumulator' != [] {
        parsed' := parsed' + [JoinLines(accumulator')];
        accumulator' := [];
      }
      accumulator' := accumulator' + [line];
      HeaderStep(parsed, accumulator, g, line);
    } else {
      if accumulator' != [] {
        accumulator' := accumulator'[..|accumulator'| - 1] + [accumulator'[|accumulator'| - 1] + " " + line];
      }
      ContinuationStep(parsed, accumulator, g, line);
    }
  }

  lemma BraceSeenSnoc(ls: seq<string>, x: string)
    ensures BraceSeen(ls + [x]) == (BraceSeen(ls) || HasBraceToken(x))
  {
    assert (ls + [x])[..|ls|] == ls;
  }

  /** The loop's bookkeeping: at most one open record, and together they are the grouping so far. */
  ghost predicate Holds(parsed: seq<string>, accumulator: seq<string>, g: Grouping) {
    && |accumulator| <= 1
    && (accumulator == [] ==> parsed == [])
    && parsed + accumulator == g.records
  }

  lemma HeaderStep(prior: seq<string>, before: seq<string>, g: Grouping, line: string)
    requires Holds(prior, before, g)
    requires IsHexLine(line)
    ensures Holds(if before == [] then prior else prior + [JoinLines(before)], [] + [line],
                  Grouping(g.lead, g.records + [line]))
  {
  }

  lemma ContinuationStep(prior: seq<string>, before: seq<string>, g: Grouping, line: string)
    requires Holds(prior, before, g)
    requires !IsHexLine(line)
    ensures
      var rs := g.records;
      Holds(prior,
            if before == [] then before else before[..|before| - 1] + [before[|before| - 1] + " " + line],
            if |rs| == 0 then Grouping(g.lead + " " + line, [])
            else Grouping(g.lead, rs[..|rs| - 1] + [rs[|rs| - 1] + " " + line]))
  {
    if before != [] {
      assert |before| == 1;
      assert g.records[..|g.records| - 1] == prior;
    }
  }

  /** Whether some line of `ls` holds a `{...}` token, accumulated from the left. */
  ghost function BraceSeen(ls: seq<string>): bool {
    |ls| > 0 && (BraceSeen(ls[..|ls| - 1]) || HasBraceToken(ls[|ls| - 1]))
  }

  lemma {:induction false} BraceSeenIff(ls: seq<string>)
    ensures BraceSeen(ls) <==> exists k :: 0 <= k < |ls| && HasBraceToken(ls[k])
    decreases |ls|
  {
    if |ls| > 0 {
      var front := ls[..|ls| - 1];
      BraceSeenIff(front);
      if BraceSeen(front) {
        var k :| 0 <= k < |front| && HasBraceToken(front[k]);
        assert ls[k] == front[k];
      }
      if exists k :: 0 <= k < |ls| && HasBraceToken(ls[k]) {
        var k :| 0 <= k < |ls| && HasBraceToken(ls[k]);
        if k < |ls| - 1 {
          assert front[k] == ls[k];
        }
      }
    }
  }

  /** One unfolding of `Group`. */
  lemma GroupCons(y: string, tail: seq<string>)
    ensures Group([y] + tail) ==
      if IsHexLine(y) then Grouping("", [y + Group(tail).lead] + Group(tail).records)
      else Grouping(" " + y + Group(tail).lead, Group(tail).records)
  {
    assert ([y] + tail)[1..] == tail;
  }

  /** Appending one line to the dump either opens a record or extends the last one. */
  lemma {:induction false} GroupSnoc(lines: seq<string>, x: string)
    ensures Group(lines + [x]) == Snoc(Group(lines), x)
    decreases |lines|
  {
    if |lines| == 0 {
      assert lines + [x] == [x];
      GroupCons(x, []);
      assert x + "" == x;
      assert " " + x + "" == "" + " " + x;
    } else {
      var y := lines[0];
      var tail := lines[1..];
      assert lines == [y] + tail && lines + [x] == [y] + (tail + [x]);
      GroupSnoc(tail, x);
      GroupCons(y, tail);
      GroupCons(y, tail + [x]);
      if IsHexLine(y) {
        SnocUnderHeader(y, Group(tail), Group(tail + [x]), x);
      } else {
        SnocUnderContinuation(y, Group(tail), Group(tail + [x]), x);
      }
    }
  }

  /** The grouping of `lines + [x]`, computed from the grouping `g` of `lines`. */
  function Snoc(g: Grouping, x: string): Grouping {
    var rs := g.records;
    if IsHexLine(x) then Grouping(g.lead, rs + [x])
    else if |rs| == 0 then Grouping(g.lead + " " + x, [])
    else Grouping(g.lead, rs[..|rs| - 1] + [rs[|rs| - 1] + " " + x])
  }

  lemma SnocUnderHeader(y: string, g: Grouping, g2: Grouping, x: string)
    requires g2 == Snoc(g, x)
    ensures Grouping("", [y + g2.lead] + g2.records) == Snoc(Grouping("", [y + g.lead] + g.records), x)
  {
    var rs' := g.records;
    var rs := [y + g.lead] + rs';
    if !IsHexLine(x) && |rs'| > 0 {
      assert rs[..|rs| - 1] == [y + g.lead] + rs'[..|rs'| - 1];
    } else if !IsHexLine(x) {
      assert y + (g.lead + " " + x) == (y + g.lead) + " " + x;
    }
  }

  lemma SnocUnderContinuation(y: string, g: Grouping, g2: Grouping, x: string)
    requires g2 == Snoc(g, x)
    ensures Grouping(" " + y + g2.lead, g2.records) == Snoc(Grouping(" " + y + g.lead, g.records), x)
  {
    if !IsHexLine(x) && |g.records| == 0 {
      assert " " + y + (g.lead + " " + x) == (" " + y + g.lead) + " " + x;
    }
  }

  /**
    Lines without a header, placed in front of `rest`, add `Spaced` of
    themselves to the lead text and nothing to the records.
   */
  lemma {:induction false} GroupContinuations(cont: seq<string>, rest: seq<string>)
    requires forall i :: 0 <= i < |cont| ==> !IsHexLine(cont[i])
    ensures Group(cont + rest) == Grouping(Spaced(cont) + Group(rest).lead, Group(rest).records)
    decreases |cont|
  {
    if |cont| == 0 {
      assert cont + rest == rest;
    } else {
      assert (cont + rest)[1..] == cont[1..] + rest;
      assert (cont + rest)[0] == cont[0];
      var tail := Group(cont[1..] + rest);
      assert Group(cont + rest) == Grouping(" " + cont[0] + tail.lead, tail.records);
      GroupContinuations(cont[1..], rest);
    }
  }

  /** Lines before the first header are dropped. */
  lemma LeadingLinesDropped(before: seq<string>, rest: seq<string>)
    requires forall i :: 0 <= i < |before| ==> !IsHexLine(before[i])
    ensures Group(before + rest).records == Group(rest).records
  {
    GroupContinuations(before, rest);
  }

  /**
    A header line followed by its continuation lines, up to the next header
    or the end, makes one record: the header, then each continuation line
    after a single space.
   */
  lemma RecordShape(header: string, cont: seq<string>, rest: seq<string>)
    requires IsHexLine(header)
    requires forall i :: 0 <= i < |cont| ==> !IsHexLine(cont[i])
    requires |rest| == 0 || IsHexLine(rest[0])
    ensures Group([header] + cont + rest).records == [header + Spaced(cont)] + Group(rest).records
  {
    var tail := cont + rest;
    assert [header] + cont + rest == [header] + tail;
    GroupCons(header, tail);
    GroupContinuations(cont, rest);
    LeadEmpty(rest);
    var g := Group(tail);
    assert g.lead == Spaced(cont) + "";
    assert g.lead == Spaced(cont);
    assert Group([header] + tail).records == [header + g.lead] + g.records;
  }

  /** Lines that start with a header, or no lines at all, leave no lead text. */
  lemma LeadEmpty(lines: seq<string>)
    requires |lines| == 0 || IsHexLine(lines[0])
    ensures Group(lines).lead == ""
  {
  }
}
