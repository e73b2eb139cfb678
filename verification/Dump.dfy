/**
 * dump.dat: what run_test and stats_to_stream print, and what parser.py and a_parser.py read from
 * it.  num stands for int(float(..)) and is undefined where Python raises ValueError.
 */
module Dump {
  import opened Arithmetic
  import opened Text

  /** One result line; both parts as printed. */
  datatype Row = Row(name: string, value: string)

  /** The output of one stats_to_stream call that printed anything; tag, the label, is empty if there is none. */
  datatype Block = Block(tag: string, rows: seq<Row>)

  /** The output of one run_test call: its header, and the blocks of its counters. */
  datatype Run = Run(testType: string, placement: string, size: string, cores: seq<string>, blocks: seq<Block>)

  type Values = map<string, seq<int>>
  type Results = map<string, Values>
  type Num = string -> Option<int>

  // ---- printer

  function RowLine(r: Row): string {
    r.name + ": " + r.value
  }

  function RowLines(rows: seq<Row>): (lines: seq<string>)
    ensures |lines| == |rows|
  {
    seq(|rows|, i requires 0 <= i < |rows| => RowLine(rows[i]))
  }

  function BlockLines(b: Block): seq<string> {
    (if b.tag == "" then [] else ["~~" + b.tag + "~~"]) + RowLines(b.rows) + [""]
  }

  function BlocksLines(blocks: seq<Block>): seq<string> {
    if blocks == [] then [] else BlockLines(blocks[0]) + BlocksLines(blocks[1..])
  }

  lemma {:induction false} BlocksLinesAppend(x: seq<Block>, y: seq<Block>)
    ensures BlocksLines(x + y) == BlocksLines(x) + BlocksLines(y)
  {
    if x == [] {
      assert x + y == y;
    } else {
      BlocksLinesAppend(x[1..], y);
      assert (x + y)[1..] == x[1..] + y;
      Associative(BlockLines(x[0]), BlocksLines(x[1..]), BlocksLines(y));
    }
  }

  function Spaced(words: seq<string>): string {
    if words == [] then "" else " " + words[0] + Spaced(words[1..])
  }

  function HeaderLines(r: Run): seq<string> {
    ["TEST RUN", "Working Set Size: " + r.size, r.testType, "Core setting: " + r.placement + Spaced(r.cores)]
  }

  function DumpLines(runs: seq<Run>): seq<string> {
    if runs == [] then [] else HeaderLines(runs[0]) + BlocksLines(runs[0].blocks) + DumpLines(runs[1..])
  }

  // ---- the scripts

  /** readline, with the empty string at the end of the file. */
  function LineAt(lines: seq<string>, k: nat): string {
    if k < |lines| then lines[k] else ""
  }

  function From(lines: seq<string>, k: nat): (r: seq<string>)
    ensures |r| == if k <= |lines| then |lines| - k else 0
  {
    if k <= |lines| then lines[k..] else []
  }

  /** The name of a row without its last character, and its value; None where Python raises. */
  function ParseRow(line: string, num: Num): Option<(string, int)> {
    var parts := Split(Strip(line), " ");
    var name := if parts[0] == "" then "" else parts[0][..|parts[0]| - 1];
    if |parts| < 2 then None
    else match num(parts[1])
      case None => None
      case Some(v) => Some((name, v))
  }

  /** Word k of a line; None where Python raises IndexError. */
  function Word(line: string, k: nat): Option<string> {
    var parts := Split(Strip(line), " ");
    if k < |parts| then Some(parts[k]) else None
  }

  function Key(testType: string, placement: string, size: string): string {
    testType + " " + placement + " " + size
  }

  /** parser.py's key, from the four lines that begin with TEST RUN. */
  function RunKey(lines: seq<string>): Option<string> {
    match (Word(LineAt(lines, 1), 3), Word(LineAt(lines, 3), 2))
    case (Some(size), Some(placement)) => Some(Key(Strip(LineAt(lines, 2)), Strip(placement), Strip(size)))
    case _ => None
  }

  /** a_parser.py's key: the second part of the label line split at the tildes. */
  function TagKey(lines: seq<string>): Option<string> {
    var parts := Split(Strip(LineAt(lines, 0)), "~~");
    if |parts| < 2 then None else Some(parts[1])
  }

  /** What distinguishes the two scripts, and how both read a line. */
  datatype Script = Script(
    starts: string -> bool,
    header: nat,
    key: seq<string> -> Option<string>,
    blank: string -> bool,
    row: string -> Option<(string, int)>)

  function ParserPy(num: Num): Script {
    Script(line => "TEST RUN" <= Strip(line), 4, lines => RunKey(lines),
           line => Strip(line) == "", line => ParseRow(line, num))
  }

  function AParserPy(num: Num): Script {
    Script(line => "~~" <= Strip(line), 1, lines => TagKey(lines),
           line => Strip(line) == "", line => ParseRow(line, num))
  }

  /** Rows end at a line of white space, in both scripts. */
  lemma BlankLines(line: string, num: Num)
    ensures ParserPy(num).blank(line) <==> AllSpace(line)
    ensures AParserPy(num).blank(line) <==> AllSpace(line)
  {
    StripEmpty(line);
  }

  function Append(d: Values, name: string, v: int): Values {
    if name in d then d[name := d[name] + [v]] else d[name := [v]]
  }

  datatype Rows = Rows(values: Values, rest: seq<string>) | Raised

  /** The inner loop: rows up to a blank line or the end of the file; rest starts at that line. */
  function ParseRows(lines: seq<string>, d: Values, sc: Script): (r: Rows)
    ensures r.Rows? ==> |r.rest| <= |lines|
  {
    if lines == [] || sc.blank(lines[0]) then Rows(d, lines)
    else match sc.row(lines[0])
      case None => Raised
      case Some((name, v)) => ParseRows(lines[1..], Append(d, name, v), sc)
  }

  datatype Parsed = Parsed(results: Results) | Error

  function Entry(res: Results, key: string): Values {
    if key in res then res[key] else map[]
  }

  /** The outer loop, on the lines still to be read. */
  function Parse(lines: seq<string>, res: Results, sc: Script): Parsed
    decreases |lines|
  {
    if lines == [] then Parsed(res)
    else if !sc.starts(lines[0]) || sc.header == 0 then Parse(lines[1..], res, sc)
    else match sc.key(lines[..|lines| - |From(lines, sc.header)|])
      case None => Error
      case Some(key) =>
        match ParseRows(From(lines, sc.header), Entry(res, key), sc)
        case Raised => Error
        case Rows(d, rest) => if rest == [] then Parsed(res[key := d]) else Parse(rest[1..], res[key := d], sc)
  }

  /** The inner loop of both scripts; pos is where the line that readline returned last stands. */
  method ReadRows(f: seq<string>, start: nat, had: Values, sc: Script) returns (raised: bool, resDict: Values, pos: nat)
    requires start <= |f|
    ensures start <= pos <= |f|
    ensures ParseRows(f[start..], had, sc) == if raised then Raised else Rows(resDict, f[pos..])
  {
    raised, resDict, pos := false, had, start;
    while pos < |f| && !sc.blank(f[pos])
      invariant start <= pos <= |f|
      invariant ParseRows(f[start..], had, sc) == ParseRows(f[pos..], resDict, sc)
    {
      assert f[pos..][1..] == f[pos + 1..];
      var row := sc.row(f[pos]);
      if row == None {
        raised := true;
        return;
      }
      resDict := Append(resDict, row.value.0, row.value.1);
      pos := pos + 1;
    }
  }

  /** The lines of the header at pos, and where its rows start. */
  lemma HeaderAt(f: seq<string>, pos: nat, start: nat, sc: Script)
    requires pos < |f| && start == if pos + sc.header <= |f| then pos + sc.header else |f|
    ensures f[start..] == From(f[pos..], sc.header)
    ensures f[pos..start] == f[pos..][..|f[pos..]| - |f[start..]|]
  {
  }

  /** What the outer loop does at a header: the key, the rows, and the line that ended them. */
  method ReadSection(f: seq<string>, pos: nat, had: Results, sc: Script)
    returns (raised: bool, testRes: Results, last: nat)
    requires pos < |f| && sc.starts(f[pos]) && sc.header > 0
    ensures !raised ==> pos < last <= |f|
    ensures Parse(f[pos..], had, sc) ==
      if raised then Error else if last == |f| then Parsed(testRes) else Parse(f[last + 1..], testRes, sc)
  {
    raised, testRes, last := false, had, pos;
    var start := if pos + sc.header <= |f| then pos + sc.header else |f|;
    HeaderAt(f, pos, start, sc);
    assert f[pos..][0] == f[pos];
    var key := sc.key(f[pos..start]);
    if key == None {
      raised := true;
      return;
    }
    var resDict;
    raised, resDict, last := ReadRows(f, start, Entry(had, key.value), sc);
    testRes := had[key.value := resDict];
    if !raised && last < |f| { assert f[last..][1..] == f[last + 1..]; }
  }

  lemma LineIsSkipped(f: seq<string>, pos: nat, res: Results, sc: Script)
    requires pos < |f| && !sc.starts(f[pos])
    ensures Parse(f[pos..], res, sc) == Parse(f[pos + 1..], res, sc)
  {
    assert f[pos..][1..] == f[pos + 1..];
  }

  /** The reading part of parser.py and a_parser.py, from the text of dump.dat to test_res. */
  method RunScript(text: string, sc: Script) returns (r: Parsed)
    requires sc.header > 0
    ensures r == Parse(Lines(text), map[], sc)
  {
    var f := Lines(text);
    var testRes: Results := map[];
    var pos := 0;
    while pos < |f|
      invariant pos <= |f|
      invariant Parse(f, map[], sc) == Parse(f[pos..], testRes, sc)
    {
      if !sc.starts(f[pos]) {
        LineIsSkipped(f, pos, testRes, sc);
      } else {
        var raised, next, last := ReadSection(f, pos, testRes, sc);
        if raised { return Error; }
        testRes := next;
        if last == |f| { return Parsed(testRes); }
        pos := last;
      }
      pos := pos + 1;
    }
    r := Parsed(testRes);
  }

  // ---- parsing one section: a header, rows, a blank line, lines to be passed over

  /** The value that a row's text stands for. */
  function ValueOf(r: Row, num: Num): int {
    match num(r.value)
    case Some(v) => v
    case None => 0
  }

  function AddRows(d: Values, rows: seq<Row>, num: Num): Values
    decreases rows
  {
    if rows == [] then d else AddRows(Append(d, rows[0].name, ValueOf(rows[0], num)), rows[1..], num)
  }

  /** The script reads the row as it was printed. */
  ghost predicate ReadsRow(sc: Script, r: Row, num: Num) {
    !sc.blank(RowLine(r)) && sc.row(RowLine(r)) == Some((r.name, ValueOf(r, num)))
  }

  ghost predicate ReadsRows(sc: Script, rows: seq<Row>, num: Num) {
    forall i | 0 <= i < |rows| :: ReadsRow(sc, rows[i], num)
  }

  lemma {:induction false} RowsParse(sc: Script, rows: seq<Row>, rest: seq<string>, d: Values, num: Num)
    requires ReadsRows(sc, rows, num) && sc.blank("")
    ensures ParseRows(RowLines(rows) + [""] + rest, d, sc) == Rows(AddRows(d, rows, num), [""] + rest)
    decreases rows
  {
    var lines := RowLines(rows) + [""] + rest;
    if rows == [] {
      assert lines == [""] + rest;
    } else {
      assert ReadsRow(sc, rows[0], num);
      RowsParse(sc, rows[1..], rest, Append(d, rows[0].name, ValueOf(rows[0], num)), num);
      assert lines[1..] == RowLines(rows[1..]) + [""] + rest;
    }
  }

  /** Lines that start nothing are passed over. */
  lemma {:induction false} LinesAreSkipped(sc: Script, lines: seq<string>, rest: seq<string>, res: Results)
    requires forall i | 0 <= i < |lines| :: !sc.starts(lines[i])
    ensures Parse(lines + rest, res, sc) == Parse(rest, res, sc)
  {
    if lines == [] {
      assert lines + rest == rest;
    } else {
      LinesAreSkipped(sc, lines[1..], rest, res);
      assert (lines + rest)[1..] == lines[1..] + rest;
    }
  }

  lemma HeaderStep(sc: Script, head: seq<string>, after: seq<string>, res: Results, key: string)
    requires |head| == sc.header > 0 && sc.starts(head[0]) && sc.key(head) == Some(key)
    ensures Parse(head + after, res, sc) ==
      match ParseRows(after, Entry(res, key), sc)
      case Raised => Error
      case Rows(d, rest) => if rest == [] then Parsed(res[key := d]) else Parse(rest[1..], res[key := d], sc)
  {
    var lines := head + after;
    assert From(lines, sc.header) == after && lines[..|head|] == head;
  }

  lemma SectionParses(sc: Script, head: seq<string>, rows: seq<Row>, more: seq<string>, rest: seq<string>,
                      res: Results, key: string, num: Num)
    requires |head| == sc.header > 0 && sc.starts(head[0]) && sc.key(head) == Some(key)
    requires ReadsRows(sc, rows, num) && sc.blank("")
    requires forall i | 0 <= i < |more| :: !sc.starts(more[i])
    ensures Parse(head + (RowLines(rows) + [""] + (more + rest)), res, sc)
         == Parse(rest, Put(res, Section(key, rows), num), sc)
  {
    HeaderStep(sc, head, RowLines(rows) + [""] + (more + rest), res, key);
    RowsParse(sc, rows, more + rest, Entry(res, key), num);
    assert ([""] + (more + rest))[1..] == more + rest;
    LinesAreSkipped(sc, more, rest, Put(res, Section(key, rows), num));
  }

  // ---- what the results say

  /** The values of the rows with the given name, in order. */
  function Named(rows: seq<Row>, name: string, num: Num): seq<int> {
    if rows == [] then []
    else (if rows[0].name == name then [ValueOf(rows[0], num)] else []) + Named(rows[1..], name, num)
  }

  function Lookup(d: Values, name: string): seq<int> {
    if name in d then d[name] else []
  }

  lemma AppendOne(d: Values, at: string, v: int, name: string)
    ensures Lookup(Append(d, at, v), name) == Lookup(d, name) + if at == name then [v] else []
  {
  }

  lemma {:induction false} AddRowsAppends(d: Values, rows: seq<Row>, name: string, num: Num)
    ensures Lookup(AddRows(d, rows, num), name) == Lookup(d, name) + Named(rows, name, num)
    decreases rows
  {
    if rows != [] {
      var next := Append(d, rows[0].name, ValueOf(rows[0], num));
      AppendOne(d, rows[0].name, ValueOf(rows[0], num), name);
      AddRowsAppends(next, rows[1..], name, num);
      var front, tail := if rows[0].name == name then [ValueOf(rows[0], num)] else [], Named(rows[1..], name, num);
      assert Lookup(d, name) + front + tail == Lookup(d, name) + (front + tail);
    }
  }

  /** Rows that were read under a key. */
  datatype Section = Section(key: string, rows: seq<Row>)

  function Put(res: Results, s: Section, num: Num): Results {
    res[s.key := AddRows(Entry(res, s.key), s.rows, num)]
  }

  function PutAll(res: Results, sections: seq<Section>, num: Num): Results
    decreases sections
  {
    if sections == [] then res else PutAll(Put(res, sections[0], num), sections[1..], num)
  }

  /** All values under the name in the sections with the key, in order. */
  function ValuesIn(sections: seq<Section>, key: string, name: string, num: Num): seq<int> {
    if sections == [] then []
    else SectionValues(sections[0], key, name, num) + ValuesIn(sections[1..], key, name, num)
  }

  function SectionValues(s: Section, key: string, name: string, num: Num): seq<int> {
    if s.key == key then Named(s.rows, name, num) else []
  }

  /** The list kept under a key and a name. */
  function Kept(res: Results, key: string, name: string): seq<int> {
    Lookup(Entry(res, key), name)
  }

  /** A section's values are appended to its key's lists; the other lists are left alone. */
  lemma PutAppends(res: Results, s: Section, key: string, name: string, num: Num)
    ensures Kept(Put(res, s, num), key, name) == Kept(res, key, name) + SectionValues(s, key, name, num)
  {
    AddRowsAppends(Entry(res, s.key), s.rows, name, num);
  }

  lemma {:induction false} PutAllAppends(res: Results, sections: seq<Section>, key: string, name: string, num: Num)
    ensures Kept(PutAll(res, sections, num), key, name) == Kept(res, key, name) + ValuesIn(sections, key, name, num)
    decreases sections
  {
    if sections != [] {
      PutAppends(res, sections[0], key, name, num);
      PutAllAppends(Put(res, sections[0], num), sections[1..], key, name, num);
      Associative(Kept(res, key, name), SectionValues(sections[0], key, name, num),
                  ValuesIn(sections[1..], key, name, num));
    }
  }

  ghost predicate HasKey(sections: seq<Section>, key: string) {
    exists i | 0 <= i < |sections| :: sections[i].key == key
  }

  lemma {:induction false} PutAllKeys(res: Results, sections: seq<Section>, key: string, num: Num)
    ensures key in PutAll(res, sections, num) <==> key in res || HasKey(sections, key)
    decreases sections
  {
    if sections != [] {
      PutAllKeys(Put(res, sections[0], num), sections[1..], key, num);
      if i :| 0 <= i < |sections| && sections[i].key == key {
        if i > 0 { assert sections[1..][i - 1] == sections[i]; }
      }
    }
  }

  // ---- parser.py on unlabelled runs

  function KeyOf(r: Run): string {
    Key(r.testType, r.placement, r.size)
  }

  /** What the parser keeps of a run: the rows of its first block. */
  function SectionOf(r: Run): Section {
    Section(KeyOf(r), if r.blocks == [] then [] else r.blocks[0].rows)
  }

  function SectionsOf(runs: seq<Run>): (s: seq<Section>) {
    if runs == [] then [] else [SectionOf(runs[0])] + SectionsOf(runs[1..])
  }

  /** The script takes the run's header for a header with the run's key, and reads its rows. */
  ghost predicate ReadsRun(sc: Script, r: Run, num: Num) {
    && |HeaderLines(r)| == sc.header && sc.starts(HeaderLines(r)[0]) && sc.key(HeaderLines(r)) == Some(KeyOf(r))
    && forall i | 0 <= i < |r.blocks| :: ReadsUntagged(sc, r.blocks[i], num)
  }

  /** The script reads the rows of a block without label, and takes none for a header. */
  ghost predicate ReadsUntagged(sc: Script, b: Block, num: Num) {
    && b.tag == "" && ReadsRows(sc, b.rows, num)
    && forall i | 0 <= i < |b.rows| :: !sc.starts(RowLine(b.rows[i]))
  }

  lemma {:induction false} BlocksStartNothing(sc: Script, blocks: seq<Block>, num: Num)
    requires forall i | 0 <= i < |blocks| :: ReadsUntagged(sc, blocks[i], num)
    requires !sc.starts("")
    ensures forall i | 0 <= i < |BlocksLines(blocks)| :: !sc.starts(BlocksLines(blocks)[i])
  {
    if blocks != [] {
      BlocksStartNothing(sc, blocks[1..], num);
      assert ReadsUntagged(sc, blocks[0], num);
      assert BlocksLines(blocks) == RowLines(blocks[0].rows) + [""] + BlocksLines(blocks[1..]);
    }
  }

  /** A run with a block adds the rows of its first block to its key, whatever follows. */
  lemma RunParses(sc: Script, r: Run, rest: seq<string>, res: Results, num: Num)
    requires ReadsRun(sc, r, num) && sc.blank("") && !sc.starts("") && r.blocks != []
    ensures Parse(HeaderLines(r) + BlocksLines(r.blocks) + rest, res, sc)
         == Parse(rest, Put(res, SectionOf(r), num), sc)
  {
    var more := BlocksLines(r.blocks[1..]);
    BlocksStartNothing(sc, r.blocks[1..], num);
    assert ReadsUntagged(sc, r.blocks[0], num);
    SectionParses(sc, HeaderLines(r), r.blocks[0].rows, more, rest, res, KeyOf(r), num);
    RunLayout(HeaderLines(r), r.blocks, rest);
  }

  lemma RunLayout(head: seq<string>, blocks: seq<Block>, rest: seq<string>)
    requires blocks != [] && blocks[0].tag == ""
    ensures head + BlocksLines(blocks) + rest
         == head + (RowLines(blocks[0].rows) + [""] + (BlocksLines(blocks[1..]) + rest))
  {
    assert BlocksLines(blocks) == RowLines(blocks[0].rows) + [""] + BlocksLines(blocks[1..]);
  }

  ghost predicate AllButLastPrint(runs: seq<Run>) {
    forall i | 0 <= i < |runs| - 1 :: runs[i].blocks != []
  }

  /** A header that is not followed by a block makes the script read the next header as a row. */
  lemma {:induction false} DumpParses(sc: Script, runs: seq<Run>, res: Results, num: Num)
    requires forall i | 0 <= i < |runs| :: ReadsRun(sc, runs[i], num)
    requires sc.blank("") && !sc.starts("") && !sc.blank("TEST RUN") && sc.row("TEST RUN") == None
    ensures Parse(DumpLines(runs), res, sc) ==
      if AllButLastPrint(runs) then Parsed(PutAll(res, SectionsOf(runs), num)) else Error
    decreases runs
  {
    if runs != [] {
      var r, rest := runs[0], DumpLines(runs[1..]);
      assert ReadsRun(sc, r, num);
      if r.blocks != [] {
        DumpParses(sc, runs[1..], Put(res, SectionOf(r), num), num);
        RunParses(sc, r, rest, res, num);
        assert SectionsOf(runs)[0] == SectionOf(r) && SectionsOf(runs)[1..] == SectionsOf(runs[1..]);
        assert AllButLastPrint(runs) <==> AllButLastPrint(runs[1..]);
      } else {
        HeaderStep(sc, HeaderLines(r), rest, res, KeyOf(r));
        assert DumpLines(runs) == HeaderLines(r) + rest;
        assert |runs| > 1 ==> rest[0] == "TEST RUN" && !AllButLastPrint(runs);
      }
    }
  }

  // ---- the printed text satisfies what the scripts expect

  predicate GoodRow(r: Row, num: Num) {
    NoSpace(r.name) && Token(r.value) && num(r.value).Some?
  }

  predicate GoodRows(rows: seq<Row>, num: Num) {
    forall i | 0 <= i < |rows| :: GoodRow(rows[i], num)
  }

  /** Every printed part is a word that the script can read. */
  predicate GoodRun(r: Run, num: Num) {
    && Token(r.testType) && Token(r.placement) && Token(r.size)
    && (forall i | 0 <= i < |r.cores| :: Token(r.cores[i]))
    && (forall i | 0 <= i < |r.blocks| :: r.blocks[i].tag == "" && GoodRows(r.blocks[i].rows, num))
  }

  lemma RowIsRead(r: Row, num: Num)
    requires GoodRow(r, num)
    ensures ParseRow(RowLine(r), num) == Some((r.name, ValueOf(r, num)))
    ensures Strip(RowLine(r)) == RowLine(r) != ""
  {
    var head := r.name + ":";
    assert RowLine(r) == head + " " + r.value;
    StripSolid(RowLine(r));
    SplitAt(head, r.value);
    SplitWord(r.value);
    assert head[..|head| - 1] == r.name;
  }

  lemma BlockWithoutTagIsRead(b: Block, num: Num)
    requires b.tag == "" && GoodRows(b.rows, num)
    ensures ReadsUntagged(ParserPy(num), b, num)
  {
    forall i | 0 <= i < |b.rows|
      ensures ReadsRow(ParserPy(num), b.rows[i], num) && !ParserPy(num).starts(RowLine(b.rows[i]))
    {
      RowIsRead(b.rows[i], num);
      NoRowIsHeader(b.rows[i]);
    }
  }

  lemma NoRowIsHeader(r: Row)
    requires NoSpace(r.name)
    ensures !("TEST RUN" <= RowLine(r))
  {
    var line, n := RowLine(r), |r.name|;
    assert line[n] == ':' && forall i | 0 <= i < n :: line[i] == r.name[i] && !IsSpace(line[i]);
    assert "TEST RUN"[4] == ' ' && forall i | 0 <= i < 4 :: "TEST RUN"[i] != ':';
  }

  /** The first word of a list of words, and that the list does not end in white space. */
  lemma {:induction false} SpacedEnds(p: string, words: seq<string>)
    requires Token(p) && forall i | 0 <= i < |words| :: Token(words[i])
    ensures var s := p + Spaced(words); |s| >= |p| && s[..|p|] == p && !IsSpace(s[|s| - 1])
    ensures Split(p + Spaced(words), " ")[0] == p
    decreases words
  {
    if words == [] {
      SplitWord(p);
      assert p + Spaced(words) == p;
    } else {
      var s := words[0] + Spaced(words[1..]);
      SpacedEnds(words[0], words[1..]);
      SpacedNext(p, words);
      SplitAt(p, s);
      assert (p + " " + s)[|p + " " + s| - 1] == s[|s| - 1];
    }
  }

  lemma SpacedNext(p: string, words: seq<string>)
    requires words != []
    ensures p + Spaced(words) == p + " " + (words[0] + Spaced(words[1..]))
  {
  }

  lemma FourWords(a: string, b: string, c: string, d: string)
    requires Token(a) && Token(b) && Token(c) && Token(d)
    ensures Word(a + " " + b + " " + c + " " + d, 3) == Some(d)
  {
    var line := a + " " + (b + " " + (c + " " + d));
    assert a + " " + b + " " + c + " " + d == line;
    StripSolid(line);
    SplitAt(a, b + " " + (c + " " + d));
    SplitAt(b, c + " " + d);
    SplitAt(c, d);
    SplitWord(d);
  }

  lemma SizeParses(size: string)
    requires Token(size)
    ensures Word("Working Set Size: " + size, 3) == Some(size)
  {
    assert "Working Set Size: " == "Working" + " " + "Set" + " " + "Size:" + " ";
    FourWords("Working", "Set", "Size:", size);
  }

  lemma ThirdWord(line: string, a: string, b: string, c: string, tail: string)
    requires Token(a) && Token(b) && line == a + " " + (b + " " + tail)
    requires tail != "" && !IsSpace(tail[|tail| - 1]) && Split(tail, " ")[0] == c
    ensures Word(line, 2) == Some(c)
  {
    assert line[0] == a[0] && line[|line| - 1] == tail[|tail| - 1];
    StripSolid(line);
    SplitTwice(a, b, tail);
  }

  lemma SplitTwice(a: string, b: string, tail: string)
    requires NoSpace(a) && NoSpace(b)
    ensures Split(a + " " + (b + " " + tail), " ") == [a, b] + Split(tail, " ")
  {
    SplitAt(a, b + " " + tail);
    SplitAt(b, tail);
    assert [a] + ([b] + Split(tail, " ")) == [a, b] + Split(tail, " ");
  }

  lemma PlacementParses(placement: string, cores: seq<string>)
    requires Token(placement) && forall i | 0 <= i < |cores| :: Token(cores[i])
    ensures Word("Core setting: " + placement + Spaced(cores), 2) == Some(placement)
  {
    SpacedEnds(placement, cores);
    CoreLine(placement, Spaced(cores));
    ThirdWord("Core setting: " + placement + Spaced(cores), "Core", "setting:", placement, placement + Spaced(cores));
  }

  lemma CoreLine(x: string, y: string)
    ensures "Core setting: " + x + y == "Core" + " " + ("setting:" + " " + (x + y))
    ensures Token("Core") && Token("setting:")
  {
    assert "Core setting: " == "Core" + " " + ("setting:" + " ");
  }

  lemma RunIsRead(r: Run, num: Num)
    requires GoodRun(r, num)
    ensures ReadsRun(ParserPy(num), r, num)
  {
    forall i | 0 <= i < |r.blocks| ensures ReadsUntagged(ParserPy(num), r.blocks[i], num) {
      BlockWithoutTagIsRead(r.blocks[i], num);
    }
    HeaderIsRead(r);
  }

  lemma HeaderIsRead(r: Run)
    requires Token(r.testType) && Token(r.placement) && Token(r.size)
    requires forall i | 0 <= i < |r.cores| :: Token(r.cores[i])
    ensures Strip(HeaderLines(r)[0]) == "TEST RUN" && RunKey(HeaderLines(r)) == Some(KeyOf(r))
  {
    SizeParses(r.size);
    PlacementParses(r.placement, r.cores);
    StripSolid(r.testType);
    StripSolid(r.size);
    StripSolid(r.placement);
    StripSolid("TEST RUN");
  }

  lemma SplitTwoWords(a: string, b: string)
    requires Token(a) && Token(b)
    ensures Strip(a + " " + b) == a + " " + b && Split(a + " " + b, " ") == [a, b]
  {
    StripSolid(a + " " + b);
    SplitAt(a, b);
    SplitWord(b);
  }

  lemma HeaderWords()
    ensures Strip("TEST RUN") == "TEST RUN" && Split("TEST RUN", " ") == ["TEST", "RUN"]
  {
    assert "TEST RUN" == "TEST" + " " + "RUN";
    SplitTwoWords("TEST", "RUN");
  }

  lemma HeaderIsNoRow(num: Num)
    requires num("RUN") == None
    ensures Strip("TEST RUN") == "TEST RUN" && ParseRow("TEST RUN", num) == None
  {
    HeaderWords();
  }

  lemma {:induction false} SpacedNoNewline(words: seq<string>)
    requires forall i | 0 <= i < |words| :: NoSpace(words[i])
    ensures NoNewline(Spaced(words))
  {
    if words != [] { SpacedNoNewline(words[1..]); }
  }

  lemma {:induction false} BlocksNoNewline(blocks: seq<Block>, num: Num)
    requires forall i | 0 <= i < |blocks| :: NoNewline(blocks[i].tag) && GoodRows(blocks[i].rows, num)
    ensures forall i | 0 <= i < |BlocksLines(blocks)| :: NoNewline(BlocksLines(blocks)[i])
  {
    if blocks != [] {
      BlocksNoNewline(blocks[1..], num);
      assert forall i | 0 <= i < |blocks[0].rows| :: GoodRow(blocks[0].rows[i], num);
      assert forall i | 0 <= i < |BlockLines(blocks[0])| :: NoNewline(BlockLines(blocks[0])[i]);
    }
  }

  lemma {:induction false} DumpNoNewline(runs: seq<Run>, num: Num)
    requires forall i | 0 <= i < |runs| :: GoodRun(runs[i], num)
    ensures forall i | 0 <= i < |DumpLines(runs)| :: NoNewline(DumpLines(runs)[i])
  {
    if runs != [] {
      DumpNoNewline(runs[1..], num);
      BlocksNoNewline(runs[0].blocks, num);
      SpacedNoNewline(runs[0].cores);
      assert forall i | 0 <= i < 4 :: NoNewline(HeaderLines(runs[0])[i]);
    }
  }

  /**
   * parser.py on the dump of any list of runs: it succeeds exactly if every run but the last
   * printed a block, and then each key holds, for each counter, the values of the first blocks of
   * its runs in run order.
   */
  lemma RunsRoundTrip(runs: seq<Run>, num: Num, key: string, name: string)
    requires forall i | 0 <= i < |runs| :: GoodRun(runs[i], num)
    requires num("RUN") == None
    ensures var parsed := Parse(Lines(Written(DumpLines(runs))), map[], ParserPy(num));
      && (parsed.Parsed? <==> AllButLastPrint(runs))
      && (parsed.Parsed? ==>
            && Kept(parsed.results, key, name) == ValuesIn(SectionsOf(runs), key, name, num)
            && (key in parsed.results <==> HasKey(SectionsOf(runs), key)))
  {
    DumpNoNewline(runs, num);
    LinesOfWritten(DumpLines(runs));
    forall i | 0 <= i < |runs| ensures ReadsRun(ParserPy(num), runs[i], num) {
      RunIsRead(runs[i], num);
    }
    HeaderIsNoRow(num);
    DumpParses(ParserPy(num), runs, map[], num);
    PutAllAppends(map[], SectionsOf(runs), key, name, num);
    PutAllKeys(map[], SectionsOf(runs), key, num);
  }

  /** Different (type, placement, size) triples have different keys. */
  lemma KeysAreDistinct(a: Run, b: Run)
    requires Token(a.testType) && Token(a.placement) && Token(a.size)
    requires Token(b.testType) && Token(b.placement) && Token(b.size)
    ensures KeyOf(a) == KeyOf(b) <==> a.testType == b.testType && a.placement == b.placement && a.size == b.size
  {
    KeyParts(a);
    KeyParts(b);
  }

  lemma KeyParts(a: Run)
    requires Token(a.testType) && Token(a.placement) && Token(a.size)
    ensures Split(KeyOf(a), " ") == [a.testType, a.placement, a.size]
  {
    assert KeyOf(a) == a.testType + " " + (a.placement + " " + a.size);
    SplitAt(a.testType, a.placement + " " + a.size);
    SplitAt(a.placement, a.size);
    SplitWord(a.size);
  }

  // ---- a_parser.py on labelled blocks

  predicate GoodBlock(b: Block, num: Num) {
    b.tag != "" && NoNewline(b.tag) && GoodRows(b.rows, num)
  }

  /** The label a_parser.py reads from a block's label line. */
  function ReadTag(tag: string): string {
    (tag + "~~")[..Find(tag + "~~", "~~")]
  }

  /** No two tildes in a row, and none at the end. */
  predicate PlainTag(tag: string) {
    forall i | 0 <= i < |tag| :: tag[i] == '~' ==> i + 1 < |tag| && tag[i + 1] != '~'
  }

  lemma {:induction false} FindTildes(tag: string)
    ensures Find(tag + "~~", "~~") <= |tag|
    ensures Find(tag + "~~", "~~") == |tag| <==> PlainTag(tag)
  {
    var s := tag + "~~";
    if tag == "" {
      assert "~~" <= s;
    } else {
      FindTildes(tag[1..]);
      assert s[1..] == tag[1..] + "~~";
      assert "~~" <= s <==> s[0] == '~' && s[1] == '~';
      if PlainTag(tag) {
        assert forall i | 0 <= i < |tag| - 1 :: tag[1..][i] == tag[i + 1];
      }
      if !("~~" <= s) && PlainTag(tag[1..]) {
        forall i | 0 <= i < |tag| && tag[i] == '~' ensures i + 1 < |tag| && tag[i + 1] != '~' {
          if i > 0 { assert tag[1..][i - 1] == '~'; }
        }
      }
    }
  }

  /** A label is read back as it was written exactly if it is plain. */
  lemma TagRoundTrip(tag: string)
    ensures ReadTag(tag) == tag <==> PlainTag(tag)
  {
    FindTildes(tag);
    if PlainTag(tag) { assert (tag + "~~")[..|tag|] == tag; }
  }

  lemma TagLineParses(tag: string)
    ensures var line := "~~" + tag + "~~";
      Strip(line) == line && "~~" <= line && TagKey([line]) == Some(ReadTag(tag))
  {
    var line, rest := "~~" + tag + "~~", tag + "~~";
    StripSolid(line);
    FindTildes(tag);
    assert line[2..] == rest;
    assert Split(line, "~~") == [line[..0]] + Split(rest, "~~");
  }

  function TaggedSections(blocks: seq<Block>): (s: seq<Section>) {
    if blocks == [] then []
    else [Section(ReadTag(blocks[0].tag), blocks[0].rows)] + TaggedSections(blocks[1..])
  }

  /** The script takes the label line for a header with the label as key, and reads the rows. */
  ghost predicate ReadsBlock(sc: Script, b: Block, num: Num) {
    var line := "~~" + b.tag + "~~";
    && b.tag != "" && sc.header == 1 && sc.starts(line) && sc.key([line]) == Some(ReadTag(b.tag))
    && ReadsRows(sc, b.rows, num)
  }

  lemma {:induction false} BlocksParse(sc: Script, blocks: seq<Block>, res: Results, num: Num)
    requires forall i | 0 <= i < |blocks| :: ReadsBlock(sc, blocks[i], num)
    requires sc.blank("")
    ensures Parse(BlocksLines(blocks), res, sc) == Parsed(PutAll(res, TaggedSections(blocks), num))
    decreases blocks
  {
    if blocks != [] {
      var b, more := blocks[0], BlocksLines(blocks[1..]);
      var key, head := ReadTag(b.tag), ["~~" + b.tag + "~~"];
      assert ReadsBlock(sc, b, num);
      SectionParses(sc, head, b.rows, [], more, res, key, num);
      assert BlocksLines(blocks) == head + (RowLines(b.rows) + [""] + ([] + more));
      BlocksParse(sc, blocks[1..], Put(res, Section(key, b.rows), num), num);
      assert TaggedSections(blocks)[0] == Section(key, b.rows);
      assert TaggedSections(blocks)[1..] == TaggedSections(blocks[1..]);
    }
  }

  lemma BlockIsRead(b: Block, num: Num)
    requires GoodBlock(b, num)
    ensures ReadsBlock(AParserPy(num), b, num)
  {
    TagLineParses(b.tag);
    forall i | 0 <= i < |b.rows| ensures ReadsRow(AParserPy(num), b.rows[i], num) {
      RowIsRead(b.rows[i], num);
    }
  }

  /**
   * a_parser.py on the dump of any list of labelled blocks: no value is lost, and each is grouped
   * in print order under its block's label as ReadTag reads it.
   */
  lemma BlocksRoundTrip(blocks: seq<Block>, num: Num, key: string, name: string)
    requires forall i | 0 <= i < |blocks| :: GoodBlock(blocks[i], num)
    ensures var parsed := Parse(Lines(Written(BlocksLines(blocks))), map[], AParserPy(num));
      && parsed.Parsed?
      && Kept(parsed.results, key, name) == ValuesIn(TaggedSections(blocks), key, name, num)
      && (key in parsed.results <==> HasKey(TaggedSections(blocks), key))
  {
    BlocksNoNewline(blocks, num);
    LinesOfWritten(BlocksLines(blocks));
    forall i | 0 <= i < |blocks| ensures ReadsBlock(AParserPy(num), blocks[i], num) {
      BlockIsRead(blocks[i], num);
    }
    BlocksParse(AParserPy(num), blocks, map[], num);
    PutAllAppends(map[], TaggedSections(blocks), key, name, num);
    PutAllKeys(map[], TaggedSections(blocks), key, num);
  }
}
