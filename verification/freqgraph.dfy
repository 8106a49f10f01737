/** Model of the report text shared by the analyser and the two viewers: the
    printer `print_g_ptr_array` and the line-oriented `read_file` of freqgraph.c
    (no header lines) and of fg/freqgraph.c (two header lines first).

    A file is the sequence of chunks `fgets` returns: each line with its `'\n'`,
    the last one possibly without it. Text is assumed to hold no NUL character,
    so `strlen` is the length of a chunk. Amplitude text (`%8.5f`, `%f`) and
    `atof` are left uninterpreted. */
module FreqGraph {
  import opened Results
  import opened Decimal
  import opened Freqdata

  /** `printf("%8.5f")` or `printf("%f")` of an amplitude, uninterpreted. */
  type AmpFormat = real -> string

  /** `atof`, uninterpreted. */
  type AmpParse = string -> real

  /** `#<sample point>`, the first line of a block. */
  function HeaderLine(samplePoint: int): string {
    "#" + Format(samplePoint) + "\n"
  }

  /** `<freq> <amplitude text>`, one entry of a block. */
  function EntryLine(freq: int, ampText: string): string {
    Format(freq) + " " + ampText + "\n"
  }

  /** The empty line that closes a block. */
  const BlankLine: string := "\n"

  function EntryLines(entries: seq<Ampdata>, fmt: AmpFormat): (lines: seq<string>)
    ensures |lines| == |entries|
    ensures forall k :: 0 <= k < |entries| ==> lines[k] == EntryLine(entries[k].freq, fmt(entries[k].amp))
  {
    if |entries| == 0 then []
    else
      var rest := EntryLines(entries[1..], fmt);
      assert forall k :: 1 <= k < |entries| ==> entries[1..][k - 1] == entries[k];
      [EntryLine(entries[0].freq, fmt(entries[0].amp))] + rest
  }

  /** The lines of one block: header, entries, blank line. */
  function BlockLines(d: Freqdata, fmt: AmpFormat): seq<string> {
    [HeaderLine(d.samplePoint)] + EntryLines(d.ampdata, fmt) + [BlankLine]
  }

  /** `print_g_ptr_array(array)`: every block in order. */
  function PrintArray(list: seq<Freqdata>, fmt: AmpFormat): (lines: seq<string>)
    ensures |lines| == |list| * 2 + TotalEntries(list)
  {
    if |list| == 0 then [] else BlockLines(list[0], fmt) + PrintArray(list[1..], fmt)
  }

  function TotalEntries(list: seq<Freqdata>): nat {
    if |list| == 0 then 0 else |list[0].ampdata| + TotalEntries(list[1..])
  }

  datatype ParseError =
    | InvalidFormat(line: string)   // a top-level line not starting with '#': "Invalid format", exit
    | MissingSpace(line: string)    // an entry line without a space: `strchr` returns NULL, dereferenced
    | MissingHeader                 // fg/freqgraph.c on an empty file: `buf` read uninitialised

  /** The index of the first space of `s` (`strchr(buf, ' ')`), or -1 if there is none. */
  function FirstSpace(s: string): (i: int)
    ensures -1 <= i < |s|
    ensures i >= 0 ==> s[i] == ' ' && ' ' !in s[..i]
    ensures i == -1 ==> ' ' !in s
  {
    if |s| == 0 then -1
    else if s[0] == ' ' then 0
    else
      var j := FirstSpace(s[1..]);
      assert j >= 0 ==> s[..j + 1] == [s[0]] + s[1..][..j];
      if j < 0 then -1 else j + 1
  }

  /** A block being read and the lines still unread. */
  datatype Parsed = Parsed(block: Freqdata, rest: seq<string>)

  /** The inner `while (fgets(buf) && strlen(buf) > 1)` loop: entry lines are split
      at the first space into `atoi` of the text before it and `atof` of the text
      after it, and appended; the loop ends at a line of length at most 1 (consumed)
      or at the end of the file. */
  function ParseBody(lines: seq<string>, d: Freqdata, atof: AmpParse): (r: Result<Parsed, ParseError>)
    ensures r.Ok? ==> |r.value.rest| <= |lines|
    ensures r.Err? ==> r.error.MissingSpace?
    ensures r.Ok? ==> r.value.block.samplePoint == d.samplePoint && r.value.block.indexNext == d.indexNext
    decreases |lines|
  {
    if |lines| == 0 then Ok(Parsed(d, []))
    else if |lines[0]| <= 1 then Ok(Parsed(d, lines[1..]))
    else
      var i := FirstSpace(lines[0]);
      if i < 0 then Err(MissingSpace(lines[0]))
      else ParseBody(lines[1..], AddEntry(d, lines[0], i, atof), atof)
  }

  /** The body of the entry loop: `atoi` of the text before the space at `i` and
      `atof` of the text after it, appended to the block. */
  function AddEntry(d: Freqdata, line: string, i: nat, atof: AmpParse): Freqdata
    requires i < |line|
  {
    AddAmpdata(d, ParseLong(line[..i]), atof(line[i + 1..]))
  }

  /** On success the lines the entry loop leaves unread are a suffix of its input. */
  lemma {:induction false} ParseBodyShape(lines: seq<string>, d: Freqdata, atof: AmpParse)
    ensures var r := ParseBody(lines, d, atof);
            r.Ok? ==> r.value.rest == lines[|lines| - |r.value.rest|..]
    decreases |lines|
  {
    var r := ParseBody(lines, d, atof);
    if |lines| > 0 && |lines[0]| > 1 && FirstSpace(lines[0]) >= 0 {
      assert r.Ok? ==> r.value.rest == lines[|lines| - |r.value.rest|..] by {
        var i := FirstSpace(lines[0]);
        var d' := AddEntry(d, lines[0], i, atof);
        assert r == ParseBody(lines[1..], d', atof);
        ParseBodyShape(lines[1..], d', atof);
        if r.Ok? {
          assert lines[1..][|lines| - 1 - |r.value.rest|..] == lines[|lines| - |r.value.rest|..];
        }
      }
    }
  }

  /** On success the entries the block had are kept in front of the ones the entry
      loop appends. */
  lemma {:induction false} ParseBodyKeepsEntries(lines: seq<string>, d: Freqdata, atof: AmpParse)
    ensures var r := ParseBody(lines, d, atof);
            r.Ok? ==> d.ampdata <= r.value.block.ampdata
    decreases |lines|
  {
    var r := ParseBody(lines, d, atof);
    if |lines| > 0 && |lines[0]| > 1 && FirstSpace(lines[0]) >= 0 {
      assert r.Ok? ==> d.ampdata <= r.value.block.ampdata by {
        var i := FirstSpace(lines[0]);
        var d' := AddEntry(d, lines[0], i, atof);
        assert r == ParseBody(lines[1..], d', atof);
        ParseBodyKeepsEntries(lines[1..], d', atof);
        assert d.ampdata <= d'.ampdata;
      }
    }
  }

  /** The entry loop fails only at one of its input lines that is longer than one
      character and has no space. */
  lemma {:induction false} ParseBodyFailsAt(lines: seq<string>, d: Freqdata, atof: AmpParse)
    ensures var r := ParseBody(lines, d, atof);
            r.Err? ==> r.error.line in lines && |r.error.line| > 1 && ' ' !in r.error.line
    decreases |lines|
  {
    if |lines| > 0 && |lines[0]| > 1 {
      var i := FirstSpace(lines[0]);
      if i < 0 {
        assert ParseBody(lines, d, atof) == Err(MissingSpace(lines[0]));
      } else {
        var d' := AddEntry(d, lines[0], i, atof);
        var r := ParseBody(lines[1..], d', atof);
        assert ParseBody(lines, d, atof) == r;
        ParseBodyFailsAt(lines[1..], d', atof);
        if r.Err? {
          var k :| 0 <= k < |lines[1..]| && lines[1..][k] == r.error.line;
          assert lines[k + 1] == r.error.line;
        }
      }
    }
  }

  /** The outer `while (1)` loop: every top-level line must start with `#`; its
      `atol` is the sample point of a new block, whose entries follow. */
  function ParseBlocks(lines: seq<string>, atof: AmpParse): (r: Result<seq<Freqdata>, ParseError>)
    ensures r.Ok? ==> forall k :: 0 <= k < |r.value| ==> r.value[k].indexNext == 0
    ensures r.Ok? && |lines| > 0 ==> |lines[0]| > 0 && lines[0][0] == '#' && |r.value| > 0
                                     && r.value[0].samplePoint == ParseLong(lines[0][1..])
    ensures |lines| > 0 && (|lines[0]| == 0 || lines[0][0] != '#') ==> r == Err(InvalidFormat(lines[0]))
    ensures r.Err? ==> !r.error.MissingHeader?
    decreases |lines|
  {
    if |lines| == 0 then Ok([])
    else if |lines[0]| == 0 || lines[0][0] != '#' then Err(InvalidFormat(lines[0]))
    else
      var p :- ParseBody(lines[1..], NewWithParam(ParseLong(lines[0][1..])), atof);
      var tail :- ParseBlocks(p.rest, atof);
      Ok([p.block] + tail)
  }

  /** `read_file` of freqgraph.c: the whole file is blocks. */
  function ReadFile(lines: seq<string>, atof: AmpParse): Result<seq<Freqdata>, ParseError>
  {
    ParseBlocks(lines, atof)
  }

  /** What `read_file` of fg/freqgraph.c fills in. */
  datatype FreqdataList = FreqdataList(numSample: int, interval: int, list: seq<Freqdata>)

  /** `read_file` of fg/freqgraph.c: `atol` of line 1 is the sample count and `atoi`
      of line 2 the interval, then blocks. When `fgets` finds no second line,
      `buf` still holds the first, so both fields come from it. */
  function ReadFileWithHeader(lines: seq<string>, atof: AmpParse): (r: Result<FreqdataList, ParseError>)
    ensures |lines| == 0 <==> r == Err(MissingHeader)
    ensures |lines| == 1 ==> r == Ok(FreqdataList(ParseLong(lines[0]), ParseLong(lines[0]), []))
    ensures |lines| >= 2 ==> (r.Ok? <==> ParseBlocks(lines[2..], atof).Ok?)
    ensures |lines| >= 2 && r.Ok? ==> r.value.numSample == ParseLong(lines[0]) && r.value.interval == ParseLong(lines[1])
    ensures |lines| >= 2 && r.Ok? ==> r.value.list == ParseBlocks(lines[2..], atof).value
  {
    if |lines| == 0 then Err(MissingHeader)
    else if |lines| == 1 then Ok(FreqdataList(ParseLong(lines[0]), ParseLong(lines[0]), []))
    else
      var list :- ParseBlocks(lines[2..], atof);
      Ok(FreqdataList(ParseLong(lines[0]), ParseLong(lines[1]), list))
  }

  /** An entry after printing and reading back: same frequency, amplitude through `atof` of its text. */
  function ReparseEntries(entries: seq<Ampdata>, fmt: AmpFormat, atof: AmpParse): (r: seq<Ampdata>)
    ensures |r| == |entries|
    ensures forall k :: 0 <= k < |r| ==> r[k] == Ampdata(entries[k].freq, atof(fmt(entries[k].amp) + "\n"))
  {
    if |entries| == 0 then [] else [Ampdata(entries[0].freq, atof(fmt(entries[0].amp) + "\n"))] + ReparseEntries(entries[1..], fmt, atof)
  }

  /** A block after printing and reading back: same sample point, entries reparsed, cursor reset. */
  function Reparse(list: seq<Freqdata>, fmt: AmpFormat, atof: AmpParse): (r: seq<Freqdata>)
    ensures |r| == |list|
    ensures forall k :: 0 <= k < |r| ==> r[k] == Freqdata(list[k].samplePoint, ReparseEntries(list[k].ampdata, fmt, atof), 0)
  {
    if |list| == 0 then [] else [Freqdata(list[0].samplePoint, ReparseEntries(list[0].ampdata, fmt, atof), 0)] + Reparse(list[1..], fmt, atof)
  }

  /** An entry line splits at the space after the frequency and reads back its frequency. */
  lemma {:induction false} EntryLineParses(freq: int, ampText: string)
    ensures |EntryLine(freq, ampText)| > 1
    ensures FirstSpace(EntryLine(freq, ampText)) == |Format(freq)|
    ensures EntryLine(freq, ampText)[..|Format(freq)|] == Format(freq)
    ensures EntryLine(freq, ampText)[|Format(freq)| + 1..] == ampText + "\n"
    ensures ParseLong(Format(freq)) == freq
  {
    var s := EntryLine(freq, ampText);
    var f := Format(freq);
    assert s == f + ([' '] + ampText + "\n");
    FirstSpaceAfter(f, [' '] + ampText + "\n");
    FormatParseRoundTrip(freq, []);
    assert f + [] == f;
  }

  lemma {:induction false} FirstSpaceAfter(a: string, b: string)
    requires ' ' !in a
    requires |b| > 0 && b[0] == ' '
    ensures FirstSpace(a + b) == |a|
    decreases |a|
  {
    if |a| > 0 {
      assert (a + b)[1..] == a[1..] + b;
      FirstSpaceAfter(a[1..], b);
    } else {
      assert a + b == b;
    }
  }

  /** One step of the entry loop over a printed entry line. */
  lemma {:induction false} ParseBodyEntryStep(lines: seq<string>, freq: int, ampText: string, d: Freqdata, atof: AmpParse)
    requires |lines| > 0 && lines[0] == EntryLine(freq, ampText)
    ensures ParseBody(lines, d, atof) == ParseBody(lines[1..], AddAmpdata(d, freq, atof(ampText + "\n")), atof)
  {
    EntryLineParses(freq, ampText);
  }

  /** The entry loop stops at the blank line and consumes it. */
  lemma {:induction false} ParseBodyBlankStep(lines: seq<string>, d: Freqdata, atof: AmpParse)
    requires |lines| > 0 && lines[0] == BlankLine
    ensures ParseBody(lines, d, atof) == Ok(Parsed(d, lines[1..]))
  {
  }

  /** The entry lines of a block followed by its blank line read back into the same
      entries, and reading stops right after the blank line. */
  lemma {:induction false} ParseBodyOfPrinted(entries: seq<Ampdata>, d: Freqdata, tail: seq<string>, fmt: AmpFormat, atof: AmpParse)
    ensures ParseBody(EntryLines(entries, fmt) + [BlankLine] + tail, d, atof)
         == Ok(Parsed(d.(ampdata := d.ampdata + ReparseEntries(entries, fmt, atof)), tail))
    decreases |entries|
  {
    var lines := EntryLines(entries, fmt) + [BlankLine] + tail;
    if |entries| == 0 {
      assert lines == [BlankLine] + tail;
      ParseBodyBlankStep(lines, d, atof);
      assert lines[1..] == tail;
      assert d.ampdata + ReparseEntries(entries, fmt, atof) == d.ampdata;
    } else {
      var e := entries[0];
      var text := fmt(e.amp);
      var d' := AddAmpdata(d, e.freq, atof(text + "\n"));
      assert lines[0] == EntryLine(e.freq, text) && lines[1..] == EntryLines(entries[1..], fmt) + [BlankLine] + tail by {
        assert EntryLines(entries, fmt) == [EntryLine(e.freq, text)] + EntryLines(entries[1..], fmt);
      }
      var d'' := d'.(ampdata := d'.ampdata + ReparseEntries(entries[1..], fmt, atof));
      assert d'' == d.(ampdata := d.ampdata + ReparseEntries(entries, fmt, atof)) by {
        var x := Ampdata(e.freq, atof(text + "\n"));
        var r1 := ReparseEntries(entries[1..], fmt, atof);
        assert ReparseEntries(entries, fmt, atof) == [x] + r1;
        assert d'.ampdata == d.ampdata + [x];
        AppendAssoc(d.ampdata, [x], r1);
      }
      calc {
        ParseBody(lines, d, atof);
        { ParseBodyEntryStep(lines, e.freq, text, d, atof); }
        ParseBody(lines[1..], d', atof);
        { ParseBodyOfPrinted(entries[1..], d', tail, fmt, atof); }
        Ok(Parsed(d'', tail));
      }
    }
  }

  lemma {:induction false} AppendAssoc<T>(a: seq<T>, b: seq<T>, c: seq<T>)
    ensures (a + b) + c == a + (b + c)
  {
  }

  /** One step of the block loop over a printed header line. */
  lemma {:induction false} ParseBlocksStep(lines: seq<string>, samplePoint: int, p: Parsed, tail: seq<Freqdata>, atof: AmpParse)
    requires |lines| > 0 && lines[0] == HeaderLine(samplePoint)
    requires ParseBody(lines[1..], NewWithParam(samplePoint), atof) == Ok(p)
    requires ParseBlocks(p.rest, atof) == Ok(tail)
    ensures ParseBlocks(lines, atof) == Ok([p.block] + tail)
  {
    assert lines[0][1..] == Format(samplePoint) + "\n";
    FormatParseRoundTrip(samplePoint, "\n");
  }

  /** The printout of a non-empty list starts with the header line of its first block,
      then that block's entries and blank line, then the rest of the list. */
  lemma {:induction false} PrintArrayFirst(list: seq<Freqdata>, fmt: AmpFormat)
    requires |list| > 0
    ensures PrintArray(list, fmt)[0] == HeaderLine(list[0].samplePoint)
    ensures PrintArray(list, fmt)[1..] == EntryLines(list[0].ampdata, fmt) + [BlankLine] + PrintArray(list[1..], fmt)
  {
    var h, e, p := [HeaderLine(list[0].samplePoint)], EntryLines(list[0].ampdata, fmt), PrintArray(list[1..], fmt);
    assert PrintArray(list, fmt) == ((h + e) + [BlankLine]) + p;
    AppendAssoc(h + e, [BlankLine], p);
    AppendAssoc(h, e, [BlankLine] + p);
    AppendAssoc(e, [BlankLine], p);
    HeadTail(HeaderLine(list[0].samplePoint), e + [BlankLine] + p);
  }

  lemma {:induction false} HeadTail<T>(x: T, s: seq<T>)
    ensures ([x] + s)[0] == x && ([x] + s)[1..] == s
  {
  }

  /** The entry loop over a printed list, started after its first header line, reads
      the first block's entries and stops at the start of the next block. */
  lemma {:induction false} PrintedFirstBody(list: seq<Freqdata>, fmt: AmpFormat, atof: AmpParse)
    requires |list| > 0
    ensures var lines := PrintArray(list, fmt);
            lines[0] == HeaderLine(list[0].samplePoint)
            && ParseBody(lines[1..], NewWithParam(list[0].samplePoint), atof)
               == Ok(Parsed(Freqdata(list[0].samplePoint, ReparseEntries(list[0].ampdata, fmt, atof), 0), PrintArray(list[1..], fmt)))
  {
    var d := list[0];
    var block := Freqdata(d.samplePoint, ReparseEntries(d.ampdata, fmt, atof), 0);
    PrintArrayFirst(list, fmt);
    var start := NewWithParam(d.samplePoint);
    assert start.(ampdata := start.ampdata + ReparseEntries(d.ampdata, fmt, atof)) == block by {
      assert [] + ReparseEntries(d.ampdata, fmt, atof) == ReparseEntries(d.ampdata, fmt, atof);
    }
    ParseBodyOfPrinted(d.ampdata, start, PrintArray(list[1..], fmt), fmt, atof);
  }

  /** Round trip of freqgraph.c: reading what `print_g_ptr_array` printed gives back
      the same blocks, sample points and frequencies, with each amplitude passed
      through its text, and the cursors at 0. */
  lemma {:induction false} PrintReadRoundTrip(list: seq<Freqdata>, fmt: AmpFormat, atof: AmpParse)
    ensures ReadFile(PrintArray(list, fmt), atof) == Ok(Reparse(list, fmt, atof))
    decreases |list|
  {
    if |list| > 0 {
      var d := list[0];
      var lines := PrintArray(list, fmt);
      var rest := PrintArray(list[1..], fmt);
      var block := Freqdata(d.samplePoint, ReparseEntries(d.ampdata, fmt, atof), 0);
      PrintedFirstBody(list, fmt, atof);
      PrintReadRoundTrip(list[1..], fmt, atof);
      ParseBlocksStep(lines, d.samplePoint, Parsed(block, rest), Reparse(list[1..], fmt, atof), atof);
      assert Reparse(list, fmt, atof) == [block] + Reparse(list[1..], fmt, atof);
    }
  }

  /** When every amplitude's text reads back exactly and every cursor is at 0, the round trip is the identity. */
  lemma {:induction false} ExactRoundTrip(list: seq<Freqdata>, fmt: AmpFormat, atof: AmpParse)
    requires forall k, j :: 0 <= k < |list| && 0 <= j < |list[k].ampdata| ==>
               atof(fmt(list[k].ampdata[j].amp) + "\n") == list[k].ampdata[j].amp
    requires forall k :: 0 <= k < |list| ==> list[k].indexNext == 0
    ensures ReadFile(PrintArray(list, fmt), atof) == Ok(list)
  {
    PrintReadRoundTrip(list, fmt, atof);
    forall k | 0 <= k < |list|
      ensures Reparse(list, fmt, atof)[k] == list[k]
    {
      assert ReparseEntries(list[k].ampdata, fmt, atof) == list[k].ampdata;
    }
    assert Reparse(list, fmt, atof) == list;
  }

  /** Round trip of fg/freqgraph.c: the two header lines followed by the printed
      blocks read back into the same header values, then the blocks with the same
      sample points and frequencies, each amplitude passed through its text, and
      the cursors at 0. */
  lemma {:induction false} HeaderPrintReadRoundTrip(numSample: int, interval: int, list: seq<Freqdata>, fmt: AmpFormat, atof: AmpParse)
    ensures ReadFileWithHeader([Format(numSample) + "\n", Format(interval) + "\n"] + PrintArray(list, fmt), atof)
         == Ok(FreqdataList(numSample, interval, Reparse(list, fmt, atof)))
  {
    var lines := [Format(numSample) + "\n", Format(interval) + "\n"] + PrintArray(list, fmt);
    assert |lines| >= 2 && lines[2..] == PrintArray(list, fmt);
    assert ParseLong(lines[0]) == numSample by {
      FormatParseRoundTrip(numSample, "\n");
    }
    assert ParseLong(lines[1]) == interval by {
      FormatParseRoundTrip(interval, "\n");
    }
    assert ParseBlocks(lines[2..], atof) == Ok(Reparse(list, fmt, atof)) by {
      PrintReadRoundTrip(list, fmt, atof);
    }
  }

  /** Printed blocks without the two header lines, given to fg/freqgraph.c's reader:
      when the first block has an entry, the third line is an entry or blank line
      and the read fails with "Invalid format". */
  lemma {:induction false} HeaderReaderRejectsEntries(list: seq<Freqdata>, fmt: AmpFormat, atof: AmpParse)
    requires |list| > 0 && |list[0].ampdata| > 0
    ensures var lines := PrintArray(list, fmt);
            |lines| >= 3 && ReadFileWithHeader(lines, atof) == Err(InvalidFormat(lines[2]))
  {
    var lines := PrintArray(list, fmt);
    var es := list[0].ampdata;
    PrintArrayFirst(list, fmt);
    var tail := EntryLines(es, fmt) + [BlankLine] + PrintArray(list[1..], fmt);
    assert lines[1..] == tail;
    assert lines[2] == tail[1];
    if |es| > 1 {
      assert tail[1] == EntryLine(es[1].freq, fmt(es[1].amp));
    } else {
      assert tail[1] == BlankLine;
    }
    assert lines[2..][0] == lines[2];
  }

  /** Printed blocks without the two header lines, given to fg/freqgraph.c's reader:
      when the first block is `#0` with no entries, its two lines are read as sample
      count 0 and interval 0 and the remaining blocks come back as usual. */
  lemma {:induction false} HeaderReaderDropsEmptyBlock(list: seq<Freqdata>, fmt: AmpFormat, atof: AmpParse)
    requires |list| > 0 && list[0].samplePoint == 0 && list[0].ampdata == []
    ensures ReadFileWithHeader(PrintArray(list, fmt), atof) == Ok(FreqdataList(0, 0, Reparse(list[1..], fmt, atof)))
  {
    var lines := PrintArray(list, fmt);
    var rest := PrintArray(list[1..], fmt);
    assert lines[0] == HeaderLine(0) && lines[1] == BlankLine && lines[2..] == rest && |lines| >= 2 by {
      PrintArrayFirst(list, fmt);
      assert lines[1..] == [BlankLine] + rest;
    }
    ZeroHeaderLines();
    PrintReadRoundTrip(list[1..], fmt, atof);
  }

  /** `atol("#0")` and `atoi("")` both give 0. */
  lemma {:induction false} ZeroHeaderLines()
    ensures ParseLong(HeaderLine(0)) == 0 && ParseLong(BlankLine) == 0
  {
    var h := HeaderLine(0);
    assert h[0] == '#';
    ParseLongNonNumeric(h);
    assert BlankLine == "\n";
  }
}
